/** The contact form of the site (frontend/src/components/Contacts.jsx): its validator, the
    payload it posts, the honeypot, and the state changes of a submission. */
module ContactForm {
  import opened Wrappers
  import opened JsSemantics
  import opened ContactRequestModel
  import opened ContactRoutes
  import opened ApiClient

  const NameMessage := "Please enter your name."
  const EmailMessage := "Please enter a valid email."
  const SentMessage := "Request sent! Check your email for confirmation."
  const UnreachableMessage := "Could not reach server. Is the backend running?"
  const FailedMessage := "Failed to send. Please try again."
  const NotOkMessage := "Request submitted"

  /** The inputs of the form; `extra` is the hidden honeypot. */
  const FormKeys := {"name", "email", "whatsapp", "message", "extra"}
  const EmptyForm := map["name" := "", "email" := "", "whatsapp" := "", "message" := "", "extra" := ""]

  /** `/^\S+@\S+\.\S+$/.test(s)`: no white space at all, and a non-empty run, an `@`, a
      non-empty run, a `.` and a non-empty run. The runs may themselves hold `@` and `.`. */
  predicate EmailShape(s: string)
    ensures EmailShape(s) ==> 5 <= |s| && '@' in s && '.' in s && Trim(s) == s
  {
    if NoSpace(s) then
      NoSpaceTrim(s);
      exists i, j :: 0 < i < |s| && i + 1 < j < |s| - 1 && s[i] == '@' && s[j] == '.'
    else false
  }

  /** `validate()`: the name check comes first; the e-mail is tested as typed, untrimmed. */
  function Validate(form: map<string, string>): (msg: string)
    requires FormKeys <= form.Keys
    ensures msg == NameMessage <==> Trim(form["name"]) == ""
    ensures msg == EmailMessage <==> Trim(form["name"]) != "" && !EmailShape(form["email"])
    ensures msg == "" <==> Trim(form["name"]) != "" && EmailShape(form["email"])
  {
    if Trim(form["name"]) == "" then NameMessage
    else if !EmailShape(form["email"]) then EmailMessage
    else ""
  }

  /** The e-mail is not trimmed before the test: a leading space fails it, although the
      server would trim that space away and accept the address. */
  lemma LeadingSpaceFailsEmailCheck(e: string)
    ensures !EmailShape(" " + e)
  {
    assert IsSpace((" " + e)[0]);
  }

  /** A typed address with no white space and one `@` and `.` in the right order passes. */
  lemma PlainAddressPasses(user: string, host: string, tld: string)
    requires user != "" && host != "" && tld != ""
    requires NoSpace(user) && NoSpace(host) && NoSpace(tld)
    ensures EmailShape(user + "@" + host + "." + tld)
  {
    var s := user + "@" + host + "." + tld;
    var i, j := |user|, |user| + 1 + |host|;
    assert s[i] == '@' && s[j] == '.';
    forall k | 0 <= k < |s| ensures !IsSpace(s[k]) {
      if k < i { assert s[k] == user[k]; }
      else if i < k < j { assert s[k] == host[k - i - 1]; }
      else if j < k { assert s[k] == tld[k - j - 1]; }
    }
  }

  /** The body `trimPayload(form)` builds. */
  datatype Payload = Payload(name: string, email: string, whatsapp: string, message: string)

  /** `trimPayload(form)`: the four fields, trimmed; the honeypot is not sent. The `|| ""`
      defaults never apply, since every input holds a string. */
  function TrimPayload(form: map<string, string>): (p: Payload)
    requires FormKeys <= form.Keys
    ensures IsTrimmed(p.name) && IsTrimmed(p.email) && IsTrimmed(p.whatsapp) && IsTrimmed(p.message)
    ensures p.name == Trim(form["name"]) && p.email == Trim(form["email"])
    ensures p.whatsapp == Trim(form["whatsapp"]) && p.message == Trim(form["message"])
  {
    Payload(Trim(form["name"]), Trim(form["email"]), Trim(form["whatsapp"]), Trim(form["message"]))
  }

  /** The payload as the JSON object that is posted: exactly the four keys. */
  function PayloadJson(p: Payload): (j: JsValue)
    ensures j.Obj? && j.fields.Keys == {"name", "email", "whatsapp", "message"}
    ensures Get(j, "name") == Str(p.name) && Get(j, "email") == Str(p.email)
    ensures Get(j, "whatsapp") == Str(p.whatsapp) && Get(j, "message") == Str(p.message)
  {
    Obj(map["name" := Str(p.name), "email" := Str(p.email), "whatsapp" := Str(p.whatsapp), "message" := Str(p.message)])
  }

  /** Whatever the honeypot holds, the posted payload is the same. */
  lemma HoneypotNeverSent(form: map<string, string>, x: string)
    requires FormKeys <= form.Keys
    ensures TrimPayload(form["extra" := x]) == TrimPayload(form)
  {
  }

  /** A form the browser accepts is never answered "Name and email required." by the
      server: the posted payload reaches `create` with its four fields as posted. */
  lemma AcceptedFormPassesServerBlankCheck(form: map<string, string>)
    requires FormKeys <= form.Keys
    requires Validate(form) == ""
    ensures var p := TrimPayload(form);
      ReadSubmission(PayloadJson(p)) == Fields(ContactFields(p.name, p.email, p.whatsapp, p.message))
  {
    var p := TrimPayload(form);
    TrimIdempotent(form["name"]);
    TrimIdempotent(form["whatsapp"]);
    TrimIdempotent(form["message"]);
    NoSpaceTrim(form["email"]);
    NoSpaceTrim(p.email);
    assert p.email != "";
  }

  /** A toast: its kind and its text (`kind` "" and text "" is no toast). */
  datatype Toast = Toast(kind: string, msg: JsValue)

  const NoToast := Toast("", Str(""))
  const SentToast := Toast("success", Str(SentMessage))

  /** What the `catch` block sees of the error: its `message` and `status` properties. */
  datatype Caught = Caught(message: JsValue, status: JsValue)

  /** The text of the error toast. */
  function ErrorText(e: Caught): (t: JsValue)
    ensures t == Str(UnreachableMessage) <==>
      (e.message == Str(RequestFailedText) && e.status == Num(0)) || e.message == Str(UnreachableMessage)
    ensures !(e.message == Str(RequestFailedText) && e.status == Num(0)) ==>
      t == (if Truthy(e.message) then e.message else Str(FailedMessage))
  {
    if e.message == Str(RequestFailedText) && e.status == Num(0) then Str(UnreachableMessage)
    else Or(e.message, Str(FailedMessage))
  }

  /** Lines 57-70: what the form shows once the request has settled, and whether the form
      is cleared. A body without a truthy `ok` is turned into an `Error` whose message is
      the server's `error` as text, and which has no `status`. */
  function Respond(outcome: AxiosOutcome): (r: (Toast, bool))
    ensures r.1 <==> outcome.Fulfilled? && Truthy(Get(outcome.data, "ok"))
    ensures r.1 ==> r.0 == SentToast
    ensures !r.1 ==> r.0.kind == "error"
  {
    match Settle(outcome)
    case Ok(data) =>
      if Truthy(Get(data, "ok")) then (SentToast, true)
      else (Toast("error", ErrorText(Caught(Str(ToJsString(Or(Get(data, "error"), Str(NotOkMessage)))), Undefined))), false)
    case Err(e) => (Toast("error", ErrorText(Caught(e.error.message, e.error.status))), false)
  }

  /** The "Could not reach server" text appears exactly for a rejection whose normalised
      message is "Request failed" with status 0, or whose message is that text itself. */
  lemma UnreachableToastExactly(err: JsValue)
    ensures Respond(Failed(err)).0.msg == Str(UnreachableMessage) <==>
      var n := NormalizeError(err);
      (n.message == Str(RequestFailedText) && n.status == Num(0)) || n.message == Str(UnreachableMessage)
  {
  }

  /** A response-less error that carries its own message (as network errors do) shows that
      message, not the unreachable text. */
  lemma MessagedNetworkErrorShowsItsMessage(err: JsValue)
    requires Nullish(Get(err, "response"))
    requires Truthy(Get(err, "message")) && Get(err, "message") != Str(RequestFailedText)
    ensures Respond(Failed(err)).0 == Toast("error", Get(err, "message"))
  {
  }

  /** A body without `ok` shows the server's `error` text, or "Request submitted". */
  lemma NotOkShowsServerError(data: JsValue)
    requires !Truthy(Get(data, "ok"))
    ensures var t := ToJsString(Or(Get(data, "error"), Str(NotOkMessage)));
      Respond(Fulfilled(data)).0 == Toast("error", if t == "" then Str(FailedMessage) else Str(t))
  {
  }

  /** The state of the component: the inputs, the toast and the `submitting` flag. */
  class Form {
    var form: map<string, string>
    var toast: Toast
    var submitting: bool

    /** Every input is present, and no submission is in flight between two events. */
    ghost predicate Valid()
      reads this
    {
      FormKeys <= form.Keys && !submitting
    }

    constructor ()
      ensures Valid() && form == EmptyForm && toast == NoToast
    {
      form := EmptyForm;
      toast := NoToast;
      submitting := false;
    }

    /** `handleChange`: only the named input changes. */
    method HandleChange(name: string, value: string)
      requires Valid()
      modifies this
      ensures Valid()
      ensures form == old(form)[name := value]
      ensures toast == old(toast) && submitting == old(submitting)
    {
      form := form[name := value];
    }

    /** `onSubmit`, run until the request has settled; `net` decides the outcome of the
        request, and `posted` is the request sent, if any. A filled honeypot fakes success
        without validating or sending; a validation error leaves the form alone; otherwise
        the trimmed payload is posted and `submitting` is reset whatever the outcome. */
    method OnSubmit(api: Client, net: HttpRequest -> AxiosOutcome) returns (posted: Option<HttpRequest>)
      requires Valid()
      modifies this
      ensures Valid()
      ensures old(form)["extra"] != "" ==> form == EmptyForm && toast == SentToast && posted.None?
      ensures old(form)["extra"] == "" && Validate(old(form)) != "" ==>
        && form == old(form) && toast == Toast("error", Str(Validate(old(form)))) && posted.None?
      ensures old(form)["extra"] == "" && Validate(old(form)) == "" ==>
        && posted == Some(api.ContactPost(PayloadJson(TrimPayload(old(form)))))
        && toast == Respond(net(posted.value)).0
        && form == if Respond(net(posted.value)).1 then EmptyForm else old(form)
    {
      if form["extra"] != "" {
        toast := SentToast;
        form := EmptyForm;
        return None;
      }
      var err := Validate(form);
      if err != "" {
        toast := Toast("error", Str(err));
        return None;
      }
      submitting := true;
      toast := NoToast;
      var request := api.ContactPost(PayloadJson(TrimPayload(form)));
      var settled := Respond(net(request));
      toast := settled.0;
      if settled.1 {
        form := EmptyForm;
      }
      // finally
      submitting := false;
      return Some(request);
    }
  }
}
