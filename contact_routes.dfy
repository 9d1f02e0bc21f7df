/** The `POST /api/contact` handler (backend/routes/contactRoutes.js): the blank check, the
    trimmed record, the write, the two best-effort mails and the 201/400/500 answer. */
module ContactRoutes {
  import opened Wrappers
  import opened JsSemantics
  import opened ContactRequestModel
  import opened SendMail

  const BlankErrorText := "Name and email required."
  const ServerErrorText := "Server error"
  const ConfirmationSubject := "We received your request"
  const NotificationSubject := "New Contact Request"

  /** The answers of the route: 201 `{ ok: true, id }`, 400 and 500 `{ ok: false, error }`. */
  datatype ContactReply = Created(id: nat) | BadRequest(error: string) | ServerError(error: string) {
    function Status(): int {
      match this
      case Created(_) => 201
      case BadRequest(_) => 400
      case ServerError(_) => 500
    }
  }

  /** The configuration the route reads: `ADMIN_EMAIL`, and the mail helper's variables
      (`SMTP_USER` is shared by both). */
  datatype RouteEnv = RouteEnv(adminEmail: Option<string>, mail: MailEnv)

  /** `!v?.trim()` holds without throwing: the value is absent, null, or a blank string. */
  predicate IsBlank(v: JsValue) {
    Nullish(v) || (v.Str? && Trim(v.s) == "")
  }

  /** A field `create` can trim after the destructuring default `= ""`. */
  predicate IsOptionalText(v: JsValue) {
    v.Undefined? || v.Str?
  }

  function TextOrEmpty(v: JsValue): string {
    if v.Str? then Trim(v.s) else ""
  }

  /** How the handler's synchronous part ends: the blank-field answer, a TypeError from
      calling `.trim()` on a value without it, or the four trimmed fields for `create`. */
  datatype Extraction = Blank | TypeError | Fields(fields: ContactFields)

  /** Lines 9-20 up to the `create` call: destructure the four fields of `req.body || {}`,
      reject a blank name or email, and trim. Nothing else of the body is read. */
  function ReadSubmission(body: JsValue): (r: Extraction)
    ensures var name, email := Get(body, "name"), Get(body, "email");
      r == Blank <==> IsBlank(name) || (name.Str? && !IsBlank(name) && IsBlank(email))
    ensures var name, email := Get(body, "name"), Get(body, "email");
      r.Fields? <==>
        && name.Str? && !IsBlank(name) && email.Str? && !IsBlank(email)
        && IsOptionalText(Get(body, "whatsapp")) && IsOptionalText(Get(body, "message"))
    ensures r.Fields? ==>
      && r.fields == ContactFields(Trim(Get(body, "name").s), Trim(Get(body, "email").s),
                                   TextOrEmpty(Get(body, "whatsapp")), TextOrEmpty(Get(body, "message")))
      && r.fields.name != "" && r.fields.email != ""
  {
    var src := Or(body, Obj(map[]));
    var name := Get(src, "name");
    var email := Get(src, "email");
    var whatsapp := DefaultIfUndefined(Get(src, "whatsapp"), Str(""));
    var message := DefaultIfUndefined(Get(src, "message"), Str(""));
    assert name == Get(body, "name") && email == Get(body, "email");
    // `!name?.trim() || !email?.trim()`, left to right
    if !Nullish(name) && !name.Str? then TypeError
    else if IsBlank(name) then Blank
    else if !Nullish(email) && !email.Str? then TypeError
    else if IsBlank(email) then Blank
    // the `.trim()` calls on whatsapp and message in the `create` argument
    else if !whatsapp.Str? || !message.Str? then TypeError
    else Fields(ContactFields(Trim(name.s), Trim(email.s), Trim(whatsapp.s), Trim(message.s)))
  }

  /** `ADMIN_EMAIL || SMTP_USER`, and `if (adminTo)`: the admin recipient, when there is one. */
  function AdminRecipient(env: RouteEnv): (to: Option<string>)
    ensures to.Some? ==> to.value != ""
    ensures env.adminEmail.Some? && env.adminEmail.value != "" ==> to == env.adminEmail
    ensures (env.adminEmail.None? || env.adminEmail == Some("")) ==>
      to == if env.mail.smtpUser.Some? && env.mail.smtpUser.value != "" then env.mail.smtpUser else None
  {
    var adminTo := EnvOr(env.adminEmail, env.mail.smtpUser);
    if adminTo.Some? && adminTo.value != "" then adminTo else None
  }

  /** The confirmation to the submitter, addressed to the stored e-mail. The HTML version
      is abbreviated to its greeting. */
  function ConfirmationMail(c: ContactRequest): (m: MailRequest)
    ensures m.to == c.fields.email && m.subject == ConfirmationSubject
    ensures m.text.Some? && HasHtml(m.html)
    ensures |m.text.value| >= 3 + |c.fields.name| && m.text.value[3..3 + |c.fields.name|] == c.fields.name
  {
    MailRequest(
      c.fields.email, ConfirmationSubject,
      Some("Hi " + c.fields.name + ", thanks for contacting Senevon \U{2014} we\U{2019}ll get back to you shortly."),
      Some("<h3>Hi " + c.fields.name + ",</h3>"))
  }

  /** The notification to the admin recipient. The HTML version is abbreviated to its heading. */
  function NotificationMail(to: string, c: ContactRequest): (m: MailRequest)
    ensures m.to == to && m.subject == NotificationSubject
    ensures m.text.Some? && HasHtml(m.html)
    ensures |m.text.value| >= 6 + |c.fields.name| && m.text.value[..6 + |c.fields.name|] == "Name: " + c.fields.name
  {
    MailRequest(
      to, NotificationSubject,
      Some("Name: " + c.fields.name + "\nEmail: " + c.fields.email + "\nWhatsApp: " + c.fields.whatsapp
           + "\nMessage: " + c.fields.message),
      Some("<h3>New Contact</h3>"))
  }

  /** The mails attempted after a successful write, in order. */
  function MailsFor(env: RouteEnv, c: ContactRequest): (mails: seq<MailRequest>)
    ensures |mails| == if AdminRecipient(env).Some? then 2 else 1
    ensures mails[0] == ConfirmationMail(c)
    ensures |mails| == 2 ==> mails[1] == NotificationMail(AdminRecipient(env).value, c)
  {
    var admin := AdminRecipient(env);
    [ConfirmationMail(c)] + if admin.Some? then [NotificationMail(admin.value, c)] else []
  }

  /** What one submission does: the answer, the document written (if any) and the mails
      attempted (if any). */
  datatype Submission = Submission(reply: ContactReply, stored: Option<ContactRequest>, mails: seq<MailRequest>)

  /** The handler up to and including `create`, against the store contents `records` with
      clock value `now`; `reachable` says whether the database accepts the write. It yields
      the document written, or the answer sent instead. */
  function Write(records: seq<ContactRequest>, body: JsValue, now: int, reachable: bool): (r: Result<ContactRequest, ContactReply>)
    ensures r.Ok? ==> r.value.id == |records| && IsStoredDocument(r.value) && r.value.createdAt == now
    ensures r.Err? ==> r.error.Status() != 201
    ensures ReadSubmission(body).Blank? ==> r == Err(BadRequest(BlankErrorText))
    ensures ReadSubmission(body).TypeError? ==> r == Err(ServerError(ServerErrorText))
    ensures ReadSubmission(body).Fields? ==>
      && (r.Ok? <==> reachable && Cast(ReadSubmission(body).fields).Ok?)
      && (r.Ok? ==> r.value.fields == Cast(ReadSubmission(body).fields).value)
      && (r.Err? ==> r == Err(ServerError(ServerErrorText)))
  {
    match ReadSubmission(body)
    case Blank => Err(BadRequest(BlankErrorText))
    case TypeError => Err(ServerError(ServerErrorText))
    case Fields(f) =>
      match Cast(f)
      case Err(_) => Err(ServerError(ServerErrorText))
      case Ok(doc) =>
        if !reachable then Err(ServerError(ServerErrorText))
        else Ok(ContactRequest(|records|, doc, now, now))
  }

  /** One run of the handler: the write, then the mails for a written document. Mail
      outcomes are not an input: they cannot influence anything here. */
  function Submit(records: seq<ContactRequest>, env: RouteEnv, body: JsValue, now: int, reachable: bool): (r: Submission)
    ensures r.reply.Created? <==> r.stored.Some?
    ensures r.stored.Some? ==>
      && r.reply == Created(|records|) && r.stored.value.id == |records|
      && IsStoredDocument(r.stored.value) && r.stored.value.createdAt == now
      && r.mails == MailsFor(env, r.stored.value)
    ensures r.stored.None? ==> r.mails == [] && Write(records, body, now, reachable) == Err(r.reply)
  {
    match Write(records, body, now, reachable)
    case Err(reply) => Submission(reply, None, [])
    case Ok(c) => Submission(Created(c.id), Some(c), MailsFor(env, c))
  }

  /** A blank name, or a string name with a blank email, is answered 400 with no write and
      no mail. */
  lemma BlankIsRejectedWithoutEffects(records: seq<ContactRequest>, env: RouteEnv, body: JsValue, now: int, reachable: bool)
    requires var name := Get(body, "name");
      IsBlank(name) || (name.Str? && !IsBlank(name) && IsBlank(Get(body, "email")))
    ensures var s := Submit(records, env, body, now, reachable);
      s.reply == BadRequest(BlankErrorText) && s.reply.Status() == 400 && s.stored.None? && s.mails == []
  {
  }

  /** Mail is attempted exactly when a document was written; the first mail goes to the
      stored e-mail, and the answer carries the stored document's id. */
  lemma MailOnlyAfterWrite(records: seq<ContactRequest>, env: RouteEnv, body: JsValue, now: int, reachable: bool)
    ensures var s := Submit(records, env, body, now, reachable);
      && (s.mails != [] <==> s.stored.Some?)
      && (s.stored.Some? <==> s.reply.Created?)
      && (s.stored.Some? ==>
            && s.reply == Created(s.stored.value.id)
            && s.mails[0].to == s.stored.value.fields.email
            && s.mails[0].subject == ConfirmationSubject)
  {
  }

  /** The admin notification is attempted exactly when there is an admin recipient, and is
      addressed to it. */
  lemma AdminMailGoesToRecipient(records: seq<ContactRequest>, env: RouteEnv, body: JsValue, now: int, reachable: bool)
    requires Submit(records, env, body, now, reachable).stored.Some?
    ensures var s := Submit(records, env, body, now, reachable);
      && (|s.mails| == 2 <==> AdminRecipient(env).Some?)
      && (|s.mails| == 2 ==> s.mails[1].to == AdminRecipient(env).value && s.mails[1].subject == NotificationSubject)
      && |s.mails| <= 2
  {
  }

  /** A written document holds the trimmed inputs (the e-mail also lower-cased by the
      schema), absent optional fields as "", and the id and the time of this write. */
  lemma StoredRecordIsTrimmedInput(records: seq<ContactRequest>, env: RouteEnv, body: JsValue, now: int, reachable: bool)
    requires Submit(records, env, body, now, reachable).stored.Some?
    ensures var c := Submit(records, env, body, now, reachable).stored.value;
      && Get(body, "name").Str? && Get(body, "email").Str?
      && c.fields == ContactFields(
           Trim(Get(body, "name").s), ToLower(Trim(Get(body, "email").s)),
           TextOrEmpty(Get(body, "whatsapp")), TextOrEmpty(Get(body, "message")))
      && c.id == |records| && c.createdAt == now && c.updatedAt == now
  {
    var f := ReadSubmission(body).fields;
    TrimIdempotent(Get(body, "name").s);
    TrimIdempotent(Get(body, "email").s);
    var w, m := Get(body, "whatsapp"), Get(body, "message");
    if w.Str? { TrimIdempotent(w.s); }
    if m.Str? { TrimIdempotent(m.s); }
  }

  /** Keys other than the four fields, the client's honeypot `extra` among them, change
      nothing: the server has no honeypot. */
  lemma OtherKeysIgnored(records: seq<ContactRequest>, env: RouteEnv, fields: map<string, JsValue>,
                         key: string, v: JsValue, now: int, reachable: bool)
    requires key !in {"name", "email", "whatsapp", "message"}
    ensures Submit(records, env, Obj(fields[key := v]), now, reachable) == Submit(records, env, Obj(fields), now, reachable)
  {
    var b, b' := Obj(fields[key := v]), Obj(fields);
    assert Get(b, "name") == Get(b', "name") && Get(b, "email") == Get(b', "email");
    assert Get(b, "whatsapp") == Get(b', "whatsapp") && Get(b, "message") == Get(b', "message");
    assert ReadSubmission(b) == ReadSubmission(b');
    assert Write(records, b, now, reachable) == Write(records, b', now, reachable);
  }

  /** The route never consults the length limits itself: a non-blank name longer than the
      schema allows reaches `create`, whose validation error becomes a 500, not a 400. */
  lemma OverlongNameIsServerError(records: seq<ContactRequest>, env: RouteEnv, body: JsValue, now: int, reachable: bool)
    requires Get(body, "name").Str? && |Trim(Get(body, "name").s)| > NameMaxLength
    requires Get(body, "email").Str? && !IsBlank(Get(body, "email"))
    requires IsOptionalText(Get(body, "whatsapp")) && IsOptionalText(Get(body, "message"))
    ensures Submit(records, env, body, now, reachable).reply == ServerError(ServerErrorText)
    ensures Submit(records, env, body, now, reachable).stored.None?
  {
    TrimIdempotent(Get(body, "name").s);
    var f := ReadSubmission(body).fields;
    assert |Trim(f.name)| > NameMaxLength;
    assert Write(records, body, now, reachable) == Err(ServerError(ServerErrorText));
  }

  /** The route has no e-mail format check: with the other fields within the schema's
      bounds and the database reachable, any non-blank text in `email` is stored and
      answered 201. */
  lemma AnyNonBlankEmailIsStored(records: seq<ContactRequest>, env: RouteEnv, body: JsValue, now: int)
    requires Get(body, "name").Str? && 1 <= |Trim(Get(body, "name").s)| <= NameMaxLength
    requires Get(body, "email").Str? && !IsBlank(Get(body, "email"))
    requires IsOptionalText(Get(body, "whatsapp")) && |TextOrEmpty(Get(body, "whatsapp"))| <= WhatsappMaxLength
    requires IsOptionalText(Get(body, "message")) && |TextOrEmpty(Get(body, "message"))| <= MessageMaxLength
    ensures var s := Submit(records, env, body, now, true);
      s.reply == Created(|records|) && s.stored.Some? && s.stored.value.fields.email == ToLower(Trim(Get(body, "email").s))
  {
    BoundedFieldsCast(body);
    var written := Write(records, body, now, true);
    assert written.Ok?;
  }

  /** The fields read from such a body pass the schema, the e-mail lower-cased. */
  lemma BoundedFieldsCast(body: JsValue)
    requires Get(body, "name").Str? && 1 <= |Trim(Get(body, "name").s)| <= NameMaxLength
    requires Get(body, "email").Str? && !IsBlank(Get(body, "email"))
    requires IsOptionalText(Get(body, "whatsapp")) && |TextOrEmpty(Get(body, "whatsapp"))| <= WhatsappMaxLength
    requires IsOptionalText(Get(body, "message")) && |TextOrEmpty(Get(body, "message"))| <= MessageMaxLength
    ensures ReadSubmission(body).Fields?
    ensures var c := Cast(ReadSubmission(body).fields);
      c.Ok? && c.value.email == ToLower(Trim(Get(body, "email").s))
  {
    var name, email := Get(body, "name").s, Get(body, "email").s;
    var w, m := TextOrEmpty(Get(body, "whatsapp")), TextOrEmpty(Get(body, "message"));
    assert !IsBlank(Get(body, "name"));
    var f := ReadSubmission(body).fields;
    assert f == ContactFields(Trim(name), Trim(email), w, m);
    TrimIdempotent(name);
    TrimIdempotent(email);
    TrimmedFieldsCast(f);
  }

  /** Fields that are already trimmed and within the bounds pass the schema unchanged, but
      for the lower-cased e-mail. */
  lemma TrimmedFieldsCast(f: ContactFields)
    requires IsTrimmed(f.name) && IsTrimmed(f.email) && IsTrimmed(f.whatsapp) && IsTrimmed(f.message)
    requires 1 <= |f.name| <= NameMaxLength && f.email != ""
    requires |f.whatsapp| <= WhatsappMaxLength && |f.message| <= MessageMaxLength
    ensures Cast(f) == Ok(ContactFields(f.name, ToLower(f.email), f.whatsapp, f.message))
  {
    TrimmedIsFixpoint(f.name);
    TrimmedIsFixpoint(f.email);
    TrimmedIsFixpoint(f.whatsapp);
    TrimmedIsFixpoint(f.message);
  }

  /** A name and email that pass the blank check with an optional field that is neither
      absent nor a string (`null`, a number) make `.trim()` throw: the answer is 500. */
  lemma NonStringOptionalFieldIsServerError(records: seq<ContactRequest>, env: RouteEnv, body: JsValue, now: int, reachable: bool)
    requires Get(body, "name").Str? && !IsBlank(Get(body, "name"))
    requires Get(body, "email").Str? && !IsBlank(Get(body, "email"))
    requires !IsOptionalText(Get(body, "whatsapp")) || !IsOptionalText(Get(body, "message"))
    ensures Submit(records, env, body, now, reachable) == Submission(ServerError(ServerErrorText), None, [])
  {
    assert ReadSubmission(body) == TypeError;
  }

  /** A write the database refuses is caught and answered 500, with no document and no
      mail, whatever the fields were. */
  lemma UnreachableStoreIsServerError(records: seq<ContactRequest>, env: RouteEnv, body: JsValue, now: int)
    requires ReadSubmission(body).Fields?
    ensures Submit(records, env, body, now, false) == Submission(ServerError(ServerErrorText), None, [])
  {
    assert Write(records, body, now, false) == Err(ServerError(ServerErrorText));
  }

  /** A 500 leaves no document and sends no mail, whatever went wrong. */
  lemma ServerErrorHasNoEffects(records: seq<ContactRequest>, env: RouteEnv, body: JsValue, now: int, reachable: bool)
    requires Submit(records, env, body, now, reachable).reply.Status() == 500
    ensures var s := Submit(records, env, body, now, reachable);
      s.reply == ServerError(ServerErrorText) && s.stored.None? && s.mails == []
  {
  }

  /** The transport attempts for the mails of a submission, pairing each with the outcome
      the transport gives it. */
  function Attempts(env: MailEnv, mails: seq<MailRequest>, client: Delivery, admin: Delivery): (r: seq<MailAttempt>)
    ensures |r| == if |mails| < 2 then |mails| else 2
    ensures forall k :: 0 <= k < |r| ==> r[k].message == BuildMessage(env, mails[k])
    ensures |r| >= 1 ==> r[0].delivery == client
    ensures |r| == 2 ==> r[1].delivery == admin
  {
    if mails == [] then []
    else [MailAttempt(BuildMessage(env, mails[0]), client)]
         + if |mails| > 1 then [MailAttempt(BuildMessage(env, mails[1]), admin)] else []
  }

  /** The attempts for a stored contact: the confirmation, then the notification when
      there is an admin recipient. */
  lemma AttemptsForContact(env: RouteEnv, c: ContactRequest, client: Delivery, admin: Delivery)
    ensures var first := [MailAttempt(BuildMessage(env.mail, ConfirmationMail(c)), client)];
      Attempts(env.mail, MailsFor(env, c), client, admin)
      == if AdminRecipient(env).Some?
         then first + [MailAttempt(BuildMessage(env.mail, NotificationMail(AdminRecipient(env).value, c)), admin)]
         else first
  {
    var mails := MailsFor(env, c);
    assert mails[0] == ConfirmationMail(c);
    if AdminRecipient(env).Some? {
      assert |mails| == 2 && mails[1] == NotificationMail(AdminRecipient(env).value, c);
    } else {
      assert |mails| == 1;
    }
  }

  /** The confirmation to the submitter, then, when there is an admin recipient, the
      notification. Neither send is awaited and a refusal is only logged, so the model
      records each attempt in the order the sends start and ignores its result. */
  method NotifyContact(transport: Transport, env: RouteEnv, contact: ContactRequest,
                       clientDelivery: Delivery, adminDelivery: Delivery)
    modifies transport
    ensures transport.attempts
            == old(transport.attempts) + Attempts(env.mail, MailsFor(env, contact), clientDelivery, adminDelivery)
  {
    var _ := Send(transport, env.mail, ConfirmationMail(contact), clientDelivery);
    var adminTo := AdminRecipient(env);
    if adminTo.Some? {
      var _ := Send(transport, env.mail, NotificationMail(adminTo.value, contact), adminDelivery);
    }
    AttemptsForContact(env, contact, clientDelivery, adminDelivery);
  }

  /** Lines 9-20: the synchronous checks and the `create` call, writing `Write(...)` to
      the store. */
  method WriteSubmission(store: ContactCollection, body: JsValue, now: int, reachable: bool)
    returns (r: Result<ContactRequest, ContactReply>)
    requires store.Valid()
    modifies store
    ensures store.Valid()
    ensures r == Write(old(store.records), body, now, reachable)
    ensures store.records == old(store.records) + (if r.Ok? then [r.value] else [])
  {
    var extraction := ReadSubmission(body);
    if extraction.Blank? {
      return Err(BadRequest(BlankErrorText));
    }
    if extraction.TypeError? {
      return Err(ServerError(ServerErrorText));
    }
    var created := store.Create(extraction.fields, now, reachable);
    if created.Err? {
      return Err(ServerError(ServerErrorText));
    }
    return Ok(created.value);
  }

  /** The handler: `store` is the collection, `transport` the mail transporter, `reachable`
      whether the database accepts the write, and `clientDelivery` and `adminDelivery` what
      the transport does with each mail. A refused mail is caught and only logged, so the
      answer is `Submit(...).reply`, which does not depend on either delivery. */
  method PostContact(store: ContactCollection, transport: Transport, env: RouteEnv, body: JsValue,
                     now: int, reachable: bool, clientDelivery: Delivery, adminDelivery: Delivery)
    returns (reply: ContactReply)
    requires store.Valid()
    modifies store, transport
    ensures store.Valid()
    ensures var s := Submit(old(store.records), env, body, now, reachable);
      && reply == s.reply
      && store.records == old(store.records) + (if s.stored.Some? then [s.stored.value] else [])
      && transport.attempts == old(transport.attempts) + Attempts(env.mail, s.mails, clientDelivery, adminDelivery)
  {
    ghost var before := store.records;
    var written := WriteSubmission(store, body, now, reachable);
    if written.Err? {
      assert Submit(before, env, body, now, reachable) == Submission(written.error, None, []);
      return written.error;
    }
    var contact := written.value;
    assert Submit(before, env, body, now, reachable) == Submission(Created(contact.id), Some(contact), MailsFor(env, contact));
    NotifyContact(transport, env, contact, clientDelivery, adminDelivery);
    return Created(contact.id);
  }
}
