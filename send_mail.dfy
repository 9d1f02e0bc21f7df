/** The mail helper (backend/utils/SendMail.js): the transporter's settings, the message it
    builds from a request, and one send over a transport whose outcome the model is given. */
module SendMail {
  import opened Wrappers
  import opened JsSemantics

  const DefaultSmtpPort := 465

  /** The environment variables the transporter reads; each is unset or a string. */
  datatype SmtpEnv = SmtpEnv(port: Option<string>, secure: Option<string>)

  /** The environment variables the sender address is taken from. */
  datatype MailEnv = MailEnv(mailFrom: Option<string>, smtpUser: Option<string>)

  /** The argument `{ to, subject, text?, html? }` of `sendMail`; None is an omitted key. */
  datatype MailRequest = MailRequest(to: string, subject: string, text: Option<string>, html: Option<string>)

  /** The options handed to the transport; None is `undefined`. */
  datatype TransportMessage = TransportMessage(
    from: Option<string>, to: string, subject: string, text: Option<string>, html: Option<string>)

  datatype TransportSettings = TransportSettings(port: Option<int>, secure: bool)

  /** `port: Number(SMTP_PORT || 465)` and `secure: String(SMTP_SECURE) === "true"`; the port
      is None when `SMTP_PORT` is not a decimal integer. */
  function Settings(env: SmtpEnv): (t: TransportSettings)
    ensures (env.port.None? || env.port == Some("")) ==> t.port == Some(DefaultSmtpPort)
    ensures env.port.Some? && env.port.value != "" ==> t.port == ToNumber(env.port.value)
    ensures t.secure <==> env.secure == Some("true")
  {
    var port := if env.port.Some? && env.port.value != "" then ToNumber(env.port.value) else Some(DefaultSmtpPort);
    // String(undefined) is "undefined", never "true"
    var secure := env.secure.Some? && env.secure.value == "true";
    TransportSettings(port, secure)
  }

  /** `MAIL_FROM || SMTP_USER` */
  function Sender(env: MailEnv): (from: Option<string>)
    ensures env.mailFrom.Some? && env.mailFrom.value != "" ==> from == env.mailFrom
    ensures (env.mailFrom.None? || env.mailFrom == Some("")) ==> from == env.smtpUser
  {
    EnvOr(env.mailFrom, env.smtpUser)
  }

  predicate HasHtml(html: Option<string>) {
    html.Some? && html.value != ""
  }

  /** The options `sendMail` passes to the transport. */
  function BuildMessage(env: MailEnv, req: MailRequest): (m: TransportMessage)
    ensures m.from == Sender(env)
    ensures m.to == req.to && m.subject == req.subject && m.html == req.html
    ensures req.text.Some? ==> m.text == req.text
    ensures req.text.None? && HasHtml(req.html) ==> m.text.None?
    ensures req.text.None? && !HasHtml(req.html) ==> m.text == Some(" ")
  {
    // text ?? (html ? undefined : " ")
    var text := if req.text.Some? then req.text else if HasHtml(req.html) then None else Some(" ");
    TransportMessage(Sender(env), req.to, req.subject, text, req.html)
  }

  /** Whatever the caller leaves out, the message has a body: a text part, or a non-empty
      HTML part. */
  lemma MessageHasBody(env: MailEnv, req: MailRequest)
    ensures BuildMessage(env, req).text.Some? || HasHtml(BuildMessage(env, req).html)
  {
  }

  /** What the transport does with one message: it accepts it with an identifier, or
      fails with an error. */
  datatype Delivery = Delivered(messageId: string) | Refused(reason: string)

  datatype MailAttempt = MailAttempt(message: TransportMessage, delivery: Delivery)

  /** The process-wide transporter, seen through the messages handed to it. */
  class Transport {
    var attempts: seq<MailAttempt>

    constructor ()
      ensures attempts == []
    {
      attempts := [];
    }
  }

  /** `sendMail(req)`: one transport call with the built message; on success the
      transport's info is returned, on failure the same error is thrown again. */
  method Send(t: Transport, env: MailEnv, req: MailRequest, delivery: Delivery) returns (r: Result<string, string>)
    modifies t
    ensures t.attempts == old(t.attempts) + [MailAttempt(BuildMessage(env, req), delivery)]
    ensures delivery.Delivered? ==> r == Ok(delivery.messageId)
    ensures delivery.Refused? ==> r == Err(delivery.reason)
  {
    var message := BuildMessage(env, req);
    t.attempts := t.attempts + [MailAttempt(message, delivery)];
    match delivery
    case Delivered(id) => return Ok(id);
    case Refused(reason) => return Err(reason);
  }
}
