/** The zod `contactSchema` and the `validateBody` middleware (backend/utils/validate.js).
    No route of the server mounts this middleware; the model states what it would do. */
module Validation {
  import opened Wrappers
  import opened JsSemantics

  const NameMax := 120
  const WhatsappMax := 32
  const MessageMax := 2000
  const ValidationErrorText := "VALIDATION_ERROR"

  /** The zod issue kinds the schema can raise. */
  datatype IssueCode = InvalidType | TooSmall | TooBig | InvalidEmail | InvalidUnion

  /** An issue and the key it is about ("" for the body itself). */
  datatype Issue = Issue(path: string, code: IssueCode)

  /** `parsed.data`: the object zod builds. It holds only the schema's keys; an absent
      optional field stays absent. */
  datatype ContactData = ContactData(name: string, email: string, whatsapp: Option<string>, message: Option<string>)

  // What each field rule accepts, stated on the raw value.

  predicate NameAccepted(v: JsValue) {
    v.Str? && 1 <= |Trim(v.s)| <= NameMax
  }

  predicate EmailAccepted(v: JsValue, isEmail: string -> bool) {
    v.Str? && isEmail(Trim(v.s))
  }

  /** `z.string().trim().max(n).optional().or(z.literal(""))`: absent, `""`, or a string
      whose trimmed length is at most `n`. */
  predicate OptionalTextAccepted(v: JsValue, max: nat) {
    v.Undefined? || v == Str("") || (v.Str? && |Trim(v.s)| <= max)
  }

  /** `z.string().trim().min(1).max(120)`: every check runs on the trimmed text. */
  function ParseName(v: JsValue): (r: Result<string, seq<IssueCode>>)
    ensures r.Ok? <==> NameAccepted(v)
    ensures r.Ok? ==> r.value == Trim(v.s)
    ensures r.Err? ==> r.error != []
  {
    if !v.Str? then Err([InvalidType])
    else
      var t := Trim(v.s);
      var issues := (if |t| < 1 then [TooSmall] else []) + (if |t| > NameMax then [TooBig] else []);
      if issues == [] then Ok(t) else Err(issues)
  }

  /** `z.string().trim().email()`; the address grammar is the parameter `isEmail`. */
  function ParseEmail(v: JsValue, isEmail: string -> bool): (r: Result<string, seq<IssueCode>>)
    ensures r.Ok? <==> EmailAccepted(v, isEmail)
    ensures r.Ok? ==> r.value == Trim(v.s)
    ensures r.Err? ==> r.error != []
  {
    if !v.Str? then Err([InvalidType])
    else if isEmail(Trim(v.s)) then Ok(Trim(v.s))
    else Err([InvalidEmail])
  }

  /** The union of an optional trimmed bounded string with the literal `""`: zod tries the
      first member, then the second, and reports one union issue when both fail. The literal
      member adds nothing here, since `""` already passes the first. */
  function ParseOptionalText(v: JsValue, max: nat): (r: Result<Option<string>, seq<IssueCode>>)
    ensures r.Ok? <==> OptionalTextAccepted(v, max)
    ensures r.Ok? ==> (r.value.None? <==> v.Undefined?)
    ensures r.Ok? && r.value.Some? ==> r.value.value == Trim(v.s)
    ensures r.Err? ==> r.error != []
  {
    if v.Undefined? then Ok(None)
    else if v.Str? && |Trim(v.s)| <= max then Ok(Some(Trim(v.s)))
    else Err([InvalidUnion])
  }

  /** The issues of one field, each tagged with the field's key. */
  function IssuesAt<T>(path: string, r: Result<T, seq<IssueCode>>): (issues: seq<Issue>)
    ensures |issues| == if r.Ok? then 0 else |r.error|
    ensures forall k :: 0 <= k < |issues| ==> issues[k] == Issue(path, r.error[k])
  {
    if r.Ok? then [] else seq(|r.error|, k requires 0 <= k < |r.error| => Issue(path, r.error[k]))
  }

  /** Some issue is about the key `path`. */
  predicate HasIssueAt(issues: seq<Issue>, path: string) {
    exists k :: 0 <= k < |issues| && issues[k].path == path
  }

  lemma HasIssueAtConcat(a: seq<Issue>, b: seq<Issue>, path: string)
    ensures HasIssueAt(a + b, path) <==> HasIssueAt(a, path) || HasIssueAt(b, path)
  {
    if HasIssueAt(a + b, path) {
      var k :| 0 <= k < |a + b| && (a + b)[k].path == path;
      if k >= |a| { assert b[k - |a|].path == path; }
    }
    if HasIssueAt(a, path) {
      var k :| 0 <= k < |a| && a[k].path == path;
      assert (a + b)[k] == a[k];
    }
    if HasIssueAt(b, path) {
      var k :| 0 <= k < |b| && b[k].path == path;
      assert (a + b)[|a| + k] == b[k];
    }
  }

  /** A field's issues are about its key alone, and there are some exactly when it failed. */
  lemma HasIssueAtField<T>(path: string, r: Result<T, seq<IssueCode>>, other: string)
    requires r.Err? ==> r.error != []
    ensures HasIssueAt(IssuesAt(path, r), other) <==> r.Err? && other == path
  {
    if r.Err? && other == path {
      assert IssuesAt(path, r)[0].path == path;
    }
  }

  /** `contactSchema.safeParse(body)`: every field is checked, and the data is built only
      when no field has an issue. */
  function ParseContact(body: JsValue, isEmail: string -> bool): (r: Result<ContactData, seq<Issue>>)
    ensures r.Ok? <==>
      && body.Obj?
      && NameAccepted(Get(body, "name"))
      && EmailAccepted(Get(body, "email"), isEmail)
      && OptionalTextAccepted(Get(body, "whatsapp"), WhatsappMax)
      && OptionalTextAccepted(Get(body, "message"), MessageMax)
    ensures r.Ok? ==>
      && r.value.name == Trim(Get(body, "name").s)
      && r.value.email == Trim(Get(body, "email").s)
      && (r.value.whatsapp.None? <==> Get(body, "whatsapp").Undefined?)
      && (r.value.whatsapp.Some? ==> r.value.whatsapp.value == Trim(Get(body, "whatsapp").s))
      && (r.value.message.None? <==> Get(body, "message").Undefined?)
      && (r.value.message.Some? ==> r.value.message.value == Trim(Get(body, "message").s))
    ensures r.Err? ==> r.error != []
    ensures body.Obj? && r.Err? ==>
      && (HasIssueAt(r.error, "name") <==> !NameAccepted(Get(body, "name")))
      && (HasIssueAt(r.error, "email") <==> !EmailAccepted(Get(body, "email"), isEmail))
      && (HasIssueAt(r.error, "whatsapp") <==> !OptionalTextAccepted(Get(body, "whatsapp"), WhatsappMax))
      && (HasIssueAt(r.error, "message") <==> !OptionalTextAccepted(Get(body, "message"), MessageMax))
  {
    if !body.Obj? then Err([Issue("", InvalidType)])
    else
      var name := ParseName(Get(body, "name"));
      var email := ParseEmail(Get(body, "email"), isEmail);
      var whatsapp := ParseOptionalText(Get(body, "whatsapp"), WhatsappMax);
      var message := ParseOptionalText(Get(body, "message"), MessageMax);
      var n, e, w, m := IssuesAt("name", name), IssuesAt("email", email),
                        IssuesAt("whatsapp", whatsapp), IssuesAt("message", message);
      var issues := n + e + w + m;
      EveryFieldReported(n, e, w, m, name, email, whatsapp, message);
      if issues == [] then Ok(ContactData(name.value, email.value, whatsapp.value, message.value))
      else Err(issues)
  }

  /** Each of the four keys has an issue in the joined list exactly when its own parse
      failed. */
  lemma EveryFieldReported(n: seq<Issue>, e: seq<Issue>, w: seq<Issue>, m: seq<Issue>,
                           name: Result<string, seq<IssueCode>>, email: Result<string, seq<IssueCode>>,
                           whatsapp: Result<Option<string>, seq<IssueCode>>, message: Result<Option<string>, seq<IssueCode>>)
    requires name.Err? ==> name.error != []
    requires email.Err? ==> email.error != []
    requires whatsapp.Err? ==> whatsapp.error != []
    requires message.Err? ==> message.error != []
    requires n == IssuesAt("name", name) && e == IssuesAt("email", email)
    requires w == IssuesAt("whatsapp", whatsapp) && m == IssuesAt("message", message)
    ensures HasIssueAt(n + e + w + m, "name") <==> name.Err?
    ensures HasIssueAt(n + e + w + m, "email") <==> email.Err?
    ensures HasIssueAt(n + e + w + m, "whatsapp") <==> whatsapp.Err?
    ensures HasIssueAt(n + e + w + m, "message") <==> message.Err?
  {
    var keys := ["name", "email", "whatsapp", "message"];
    forall i | 0 <= i < 4
      ensures HasIssueAt(n + e + w + m, keys[i]) <==>
        (keys[i] == "name" && name.Err?) || (keys[i] == "email" && email.Err?)
        || (keys[i] == "whatsapp" && whatsapp.Err?) || (keys[i] == "message" && message.Err?)
    {
      var p := keys[i];
      HasIssueAtConcat(n + e + w, m, p);
      HasIssueAtConcat(n + e, w, p);
      HasIssueAtConcat(n, e, p);
      HasIssueAtField("name", name, p);
      HasIssueAtField("email", email, p);
      HasIssueAtField("whatsapp", whatsapp, p);
      HasIssueAtField("message", message, p);
    }
    assert keys[0] == "name" && keys[1] == "email" && keys[2] == "whatsapp" && keys[3] == "message";
  }

  /** Keys outside the schema, such as the form's honeypot `extra`, never change the parse. */
  lemma ParseIgnoresOtherKeys(fields: map<string, JsValue>, key: string, v: JsValue, isEmail: string -> bool)
    requires key !in {"name", "email", "whatsapp", "message"}
    ensures ParseContact(Obj(fields[key := v]), isEmail) == ParseContact(Obj(fields), isEmail)
  {
    var b, b' := Obj(fields[key := v]), Obj(fields);
    assert Get(b, "name") == Get(b', "name");
    assert Get(b, "email") == Get(b', "email");
    assert Get(b, "whatsapp") == Get(b', "whatsapp");
    assert Get(b, "message") == Get(b', "message");
  }

  /** The parsed data as the JSON object zod returns. */
  function DataAsJson(d: ContactData): (j: JsValue)
    ensures j.Obj?
    ensures Get(j, "name") == Str(d.name) && Get(j, "email") == Str(d.email)
    ensures Get(j, "whatsapp") == if d.whatsapp.Some? then Str(d.whatsapp.value) else Undefined
    ensures Get(j, "message") == if d.message.Some? then Str(d.message.value) else Undefined
  {
    var base := map["name" := Str(d.name), "email" := Str(d.email)];
    var withWhatsapp := if d.whatsapp.Some? then base["whatsapp" := Str(d.whatsapp.value)] else base;
    Obj(if d.message.Some? then withWhatsapp["message" := Str(d.message.value)] else withWhatsapp)
  }

  /** The parsed data is already normal: parsing it again yields it unchanged. */
  lemma ParseIsIdempotent(body: JsValue, isEmail: string -> bool)
    requires ParseContact(body, isEmail).Ok?
    ensures ParseContact(DataAsJson(ParseContact(body, isEmail).value), isEmail)
            == ParseContact(body, isEmail)
  {
    var d := ParseContact(body, isEmail).value;
    TrimIdempotent(Get(body, "name").s);
    TrimIdempotent(Get(body, "email").s);
    if d.whatsapp.Some? { TrimIdempotent(Get(body, "whatsapp").s); }
    if d.message.Some? { TrimIdempotent(Get(body, "message").s); }
    var j := DataAsJson(d);
    assert NameAccepted(Get(j, "name"));
    assert EmailAccepted(Get(j, "email"), isEmail);
    assert OptionalTextAccepted(Get(j, "whatsapp"), WhatsappMax);
    assert OptionalTextAccepted(Get(j, "message"), MessageMax);
    var r := ParseContact(j, isEmail);
    assert r.Ok?;
    assert r.value.name == d.name && r.value.email == d.email;
    assert r.value.whatsapp == d.whatsapp by {
      if d.whatsapp.Some? { assert r.value.whatsapp.value == Trim(d.whatsapp.value); }
    }
    assert r.value.message == d.message by {
      if d.message.Some? { assert r.value.message.value == Trim(d.message.value); }
    }
  }

  /** The 400 answer `{ ok: false, error: "VALIDATION_ERROR", details }`. */
  datatype ValidationReply = ValidationReply(details: seq<Issue>) {
    function Status(): int { 400 }
    function Error(): string { ValidationErrorText }
  }

  /** The request and response objects the middleware sees: the body it reads, the
      `req.validated` slot it fills, the answer it writes and the `next` calls it makes. */
  class Exchange {
    const body: JsValue
    var validated: Option<ContactData>
    var reply: Option<ValidationReply>
    var nextCalls: nat

    constructor (body: JsValue)
      ensures this.body == body && validated == None && reply == None && nextCalls == 0
    {
      this.body := body;
      validated := None;
      reply := None;
      nextCalls := 0;
    }
  }

  /** `validateBody(contactSchema)(req, res, next)`: on failure it answers 400 with every
      issue and neither sets `req.validated` nor calls `next`; on success it sets
      `req.validated` to the parsed data, calls `next` once and writes no answer. */
  method ValidateBody(x: Exchange, isEmail: string -> bool)
    modifies x
    ensures var parsed := ParseContact(x.body, isEmail);
      if parsed.Err? then
        && x.reply == Some(ValidationReply(parsed.error))
        && x.validated == old(x.validated) && x.nextCalls == old(x.nextCalls)
      else
        && x.validated == Some(parsed.value) && x.nextCalls == old(x.nextCalls) + 1
        && x.reply == old(x.reply)
  {
    var parsed := ParseContact(x.body, isEmail);
    if parsed.Err? {
      x.reply := Some(ValidationReply(parsed.error));
      return;
    }
    x.validated := Some(parsed.value);
    x.nextCalls := x.nextCalls + 1;
  }
}
