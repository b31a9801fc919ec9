/**
 * `handler`: the method gate, the configuration gate, normalisation of the
 * form fields, the ordered validation rules, composition of the outbound
 * request to the mail provider, and the mapping of every outcome to a status.
 *
 * The environment, the parsed request body and the provider's answer are
 * inputs; the provider call itself is not modelled.
 */
module Handler {
  import opened Wrappers
  import opened Text
  import opened Email
  import opened Links
  import opened Compose

  /** The variables read from `process.env`. */
  datatype Env = Env(resendApiKey: Option<string>, mailTo: Option<string>, mailFrom: Option<string>)

  /** The fields of the parsed JSON body; `consent` already reduced to its truthiness. */
  datatype Fields = Fields(name: Option<string>, email: Option<string>, phone: Option<string>,
                           message: Option<string>, consent: bool)

  /** `JSON.parse(event.body || "{}")`. `Malformed` stands for a body on which parsing or
      reading a field throws; a missing body parses as an object without fields. */
  datatype Body = Malformed | Parsed(fields: Fields)

  datatype Event = Event(httpMethod: string, body: Body)

  /** How the awaited `fetch` to the provider ended: a 2xx answer, another answer whose
      body was read, or an exception. An exception covers a failed `fetch` and also a
      non-2xx answer whose body cannot be read: `resp.text()` then throws, and the
      handler answers 500 instead of 502. */
  datatype ProviderReply = Accepted | Refused(status: int, detail: string) | Unreachable

  /** The JSON response body: `{ ok: true }` or `{ error: message }`. */
  datatype Reply = Ok | Error(message: string)

  datatype Response = Response(statusCode: int, body: Reply)

  /** The validation rules, in the order they are checked. */
  datatype Rule = Required | EmailFormat | MessageLength | LinkLimit

  /** The outbound request: endpoint, bearer credential and JSON payload. */
  datatype Delivery = Delivery(endpoint: string, authorization: string, from: string, to: seq<string>,
                               replyTo: string, subject: string, text: string, html: string)

  /** Either a response right away, or a validated submission to hand to the provider. */
  datatype Decision = Respond(response: Response) | Send(submission: Submission)

  const MinMessageLength := 20
  const MaxLinks := 2
  const Endpoint := "https://api.resend.com/emails"
  const DefaultFrom := "Website <onboarding@resend.dev>"

  const MethodNotAllowed := "Method Not Allowed"
  const ConfigIncomplete := "Serverkonfiguration unvollst\U{E4}ndig."
  const DeliveryFailed := "Mailversand fehlgeschlagen."
  const ServerError := "Serverfehler."

  /** An environment variable counts as set when it is present and not empty. */
  predicate IsSet(v: Option<string>) {
    v.Some? && v.value != ""
  }

  /** `["RESEND_API_KEY", "MAIL_TO"].filter((k) => !process.env[k])`. */
  function MissingConfig(env: Env): (missing: seq<string>)
    ensures missing == [] <==> IsSet(env.resendApiKey) && IsSet(env.mailTo)
    ensures "RESEND_API_KEY" in missing <==> !IsSet(env.resendApiKey)
    ensures "MAIL_TO" in missing <==> !IsSet(env.mailTo)
  {
    (if IsSet(env.resendApiKey) then [] else ["RESEND_API_KEY"])
    + (if IsSet(env.mailTo) then [] else ["MAIL_TO"])
  }

  /** `String(body.x || "").trim()` for every text field, `!!body.consent` for consent. */
  function Normalize(f: Fields): (sub: Submission)
    ensures IsTrimmed(sub.name) && IsTrimmed(sub.email) && IsTrimmed(sub.phone) && IsTrimmed(sub.message)
    ensures sub.name == Trim(f.name.GetOr("")) && sub.email == Trim(f.email.GetOr(""))
    ensures sub.phone == Trim(f.phone.GetOr("")) && sub.message == Trim(f.message.GetOr(""))
    ensures f.name.None? ==> sub.name == ""
    ensures f.email.None? ==> sub.email == ""
    ensures f.phone.None? ==> sub.phone == ""
    ensures f.message.None? ==> sub.message == ""
    ensures sub.consent == f.consent
  {
    Submission(Trim(f.name.GetOr("")), Trim(f.email.GetOr("")), Trim(f.phone.GetOr("")),
               Trim(f.message.GetOr("")), f.consent)
  }

  /** Normalisation removes whitespace around each field and nothing else: every field of
      the result is a slice of the given value with only whitespace on either side. */
  lemma NormalizeOnlyRemovesWhitespace(f: Fields)
    ensures exists i: nat :: TrimmedAt(f.name.GetOr(""), Normalize(f).name, i)
    ensures exists i: nat :: TrimmedAt(f.email.GetOr(""), Normalize(f).email, i)
    ensures exists i: nat :: TrimmedAt(f.phone.GetOr(""), Normalize(f).phone, i)
    ensures exists i: nat :: TrimmedAt(f.message.GetOr(""), Normalize(f).message, i)
  {
    var sub := Normalize(f);
    TrimOnlyRemovesWhitespace(f.name.GetOr(""));
    assert sub.name == Trim(f.name.GetOr(""));
    TrimOnlyRemovesWhitespace(f.email.GetOr(""));
    assert sub.email == Trim(f.email.GetOr(""));
    TrimOnlyRemovesWhitespace(f.phone.GetOr(""));
    assert sub.phone == Trim(f.phone.GetOr(""));
    TrimOnlyRemovesWhitespace(f.message.GetOr(""));
    assert sub.message == Trim(f.message.GetOr(""));
  }

  /** What each rule rejects, judged on its own. A message of at least 20 characters
      is long enough whatever they are, and the link rule rejects exactly the messages
      in which more than two links begin. */
  predicate Fails(rule: Rule, sub: Submission): (b: bool)
    ensures rule == MessageLength && b ==> |sub.message| < MinMessageLength
    ensures rule == LinkLimit ==> (b <==> LinkStarts(sub.message) > MaxLinks)
  {
    CountLinksIsLinkStarts(sub.message);
    match rule
    case Required => sub.name == "" || sub.email == "" || sub.message == "" || !sub.consent
    case EmailFormat => !IsValidEmail(sub.email)
    case MessageLength => Utf16Length(sub.message) < MinMessageLength
    case LinkLimit => CountLinks(sub.message) > MaxLinks
  }

  function Rank(rule: Rule): nat {
    match rule
    case Required => 0
    case EmailFormat => 1
    case MessageLength => 2
    case LinkLimit => 3
  }

  predicate PassesAll(sub: Submission) {
    forall rule: Rule :: !Fails(rule, sub)
  }

  lemma PassesAllRules(sub: Submission)
    ensures PassesAll(sub) <==>
      !Fails(Required, sub) && !Fails(EmailFormat, sub) && !Fails(MessageLength, sub) && !Fails(LinkLimit, sub)
  {
    if !Fails(Required, sub) && !Fails(EmailFormat, sub) && !Fails(MessageLength, sub) && !Fails(LinkLimit, sub) {
      forall rule: Rule ensures !Fails(rule, sub) {
        match rule
        case Required =>
        case EmailFormat =>
        case MessageLength =>
        case LinkLimit =>
      }
    }
  }

  /** The checks run in order and stop at the first failure: the rule reported fails,
      every earlier rule passes, and nothing is reported exactly when all pass. */
  function Validate(sub: Submission): (failed: Option<Rule>)
    ensures failed.None? <==> PassesAll(sub)
    ensures failed.None? ==> IsValidEmail(sub.email)
    ensures failed.Some? ==> Fails(failed.value, sub)
    ensures failed.Some? ==> forall rule: Rule :: Rank(rule) < Rank(failed.value) ==> !Fails(rule, sub)
  {
    PassesAllRules(sub);
    if Fails(Required, sub) then Some(Required)
    else if Fails(EmailFormat, sub) then Some(EmailFormat)
    else if Fails(MessageLength, sub) then Some(MessageLength)
    else if Fails(LinkLimit, sub) then Some(LinkLimit)
    else None
  }

  /** The message returned with status 400 for each rule. */
  function RuleMessage(rule: Rule): string {
    match rule
    case Required => "Bitte Pflichtfelder ausf\U{FC}llen und Datenschutzzustimmung erteilen."
    case EmailFormat => "Bitte eine g\U{FC}ltige E-Mail-Adresse eingeben."
    case MessageLength => "Bitte eine aussagekr\U{E4}ftige Nachricht (mind. 20 Zeichen) eingeben."
    case LinkLimit => "Zu viele Links in der Nachricht."
  }

  /** Each rule has its own message, and none is one of the other error messages,
      so a 400 answer names the rule that failed. */
  lemma RuleMessagesDistinct(rule: Rule, other: Rule)
    ensures rule != other ==> RuleMessage(rule) != RuleMessage(other)
    ensures RuleMessage(rule) !in {MethodNotAllowed, ConfigIncomplete, DeliveryFailed, ServerError}
  {
    // All lengths differ except for two messages of 65 characters, which differ four from the end.
    var required, length := RuleMessage(Required), RuleMessage(MessageLength);
    assert required[61] == 'l' && length[61] == 'b';
  }

  /** The request to the provider for a validated submission. */
  function ComposeDelivery(sub: Submission, env: Env): Delivery
    requires IsSet(env.resendApiKey) && IsSet(env.mailTo)
  {
    Delivery(
      Endpoint,
      "Bearer " + env.resendApiKey.value,
      if IsSet(env.mailFrom) then env.mailFrom.value else DefaultFrom,
      [env.mailTo.value],
      sub.email,
      Subject(sub),
      TextBody(sub),
      HtmlBody(sub))
  }

  /** Everything `handler` decides before the provider call. A submission is sent exactly
      for a POST with complete configuration and a body whose normalised fields pass every
      rule; what is sent is those normalised fields, with a valid address. */
  function Decide(event: Event, env: Env): (d: Decision)
    ensures d.Send? <==>
      && event.httpMethod == "POST" && IsSet(env.resendApiKey) && IsSet(env.mailTo)
      && event.body.Parsed? && PassesAll(Normalize(event.body.fields))
    ensures d.Send? ==> d.submission == Normalize(event.body.fields) && IsValidEmail(d.submission.email)
    ensures d.Respond? ==> d.response.statusCode in {400, 405, 500} && d.response.body.Error?
  {
    if event.httpMethod != "POST" then
      Respond(Response(405, Error(MethodNotAllowed)))
    else if MissingConfig(env) != [] then
      Respond(Response(500, Error(ConfigIncomplete)))
    else
      match event.body
      case Malformed => Respond(Response(500, Error(ServerError)))
      case Parsed(f) => Verdict(Normalize(f))
  }

  /** The end of the decision, once the fields are normalised: the submission is sent
      exactly when it passes every rule, and is otherwise answered with 400 and the
      message of the first rule it fails. */
  function Verdict(sub: Submission): (d: Decision)
    ensures d.Send? <==> PassesAll(sub)
    ensures d.Send? ==> d.submission == sub && IsValidEmail(sub.email)
    ensures d.Respond? ==> Validate(sub).Some? && d.response == Response(400, Error(RuleMessage(Validate(sub).value)))
  {
    match Validate(sub)
    case Some(rule) => Respond(Response(400, Error(RuleMessage(rule))))
    case None => Send(sub)
  }

  /** The request for a submission: addressed to `MAIL_TO` alone with replies to the
      submitter, a subject naming the submitter, a text body holding every field unchanged,
      and an HTML body from which every field reads back and in which no `<script>` starts. */
  lemma ComposeDeliveryContents(sub: Submission, env: Env)
    requires IsSet(env.resendApiKey) && IsSet(env.mailTo)
    ensures var d := ComposeDelivery(sub, env);
      && d.to == [env.mailTo.value] && d.replyTo == sub.email
      && d.subject[|SubjectPrefix|..] == sub.name
      && d.text == TextLines(sub)
      && ParseHtml(d.html) == Some(HtmlView(sub.name, sub.email, PhoneShown(sub.phone), sub.message, sub.consent))
      && forall i :: 0 <= i <= |d.html| ==> !("<script>" <= d.html[i..])
  {
    TextBodyKeepsFields(sub);
    HtmlRoundTrip(sub);
    HtmlBodyHasNoScript(sub);
  }

  /** The request that reaches the provider, if any: there is one exactly when the
      submission is sent; it is addressed to `MAIL_TO` alone and answers go to the
      submitter's valid address. */
  function Outbound(event: Event, env: Env): (o: Option<Delivery>)
    ensures o.Some? <==> Decide(event, env).Send?
    ensures o.Some? ==>
      && o.value.to == [env.mailTo.value]
      && o.value.replyTo == Normalize(event.body.fields).email
      && IsValidEmail(o.value.replyTo)
  {
    match Decide(event, env)
    case Respond(_) => None
    case Send(sub) => Some(ComposeDelivery(sub, env))
  }

  /** The response once the decision is taken: an early response stands, a delivery
      is answered according to the provider. */
  function Conclude(d: Decision, reply: ProviderReply): (r: Response)
    requires d.Respond? ==> d.response.statusCode in {400, 405, 500} && d.response.body.Error?
    ensures r.statusCode in {200, 400, 405, 500, 502}
    ensures r.body.Ok? <==> r.statusCode == 200
    ensures r.statusCode == 200 <==> d.Send? && reply.Accepted?
    ensures r.statusCode == 502 <==> d.Send? && reply.Refused?
  {
    match d
    case Respond(response) => response
    case Send(_) =>
      match reply
      case Accepted => Response(200, Ok)
      case Refused(_, _) => Response(502, Error(DeliveryFailed))
      case Unreachable => Response(500, Error(ServerError))
  }

  /** The whole handler, given how the provider call ends. Every outcome carries one of
      the statuses 200, 400, 405, 500, 502; 200 (the only success) exactly when the
      submission was sent and accepted, 502 exactly when it was sent and refused. */
  function Handle(event: Event, env: Env, reply: ProviderReply): (r: Response)
    ensures r.statusCode in {200, 400, 405, 500, 502}
    ensures r.body.Ok? <==> r.statusCode == 200
    ensures r.statusCode == 200 <==> Decide(event, env).Send? && reply.Accepted?
    ensures r.statusCode == 502 <==> Decide(event, env).Send? && reply.Refused?
  {
    Conclude(Decide(event, env), reply)
  }

  /** A method other than POST is answered with 405, whatever the configuration, body or provider. */
  lemma NonPostRejected(event: Event, env: Env, reply: ProviderReply)
    requires event.httpMethod != "POST"
    ensures Handle(event, env, reply) == Response(405, Error(MethodNotAllowed))
  {
  }

  /** Missing configuration gives 500 before the body is looked at: any other body,
      and any provider answer, gives the same response. */
  lemma MissingConfigRejected(event: Event, env: Env, reply: ProviderReply, other: Body, reply': ProviderReply)
    requires event.httpMethod == "POST"
    requires !IsSet(env.resendApiKey) || !IsSet(env.mailTo)
    ensures Handle(event, env, reply) == Response(500, Error(ConfigIncomplete))
    ensures Handle(event, env, reply) == Handle(event.(body := other), env, reply')
  {
  }

  /** The rule `Validate` reports is determined: it is the failing rule that no earlier rule precedes. */
  lemma FirstFailureReported(sub: Submission, rule: Rule)
    requires Fails(rule, sub)
    requires forall earlier: Rule :: Rank(earlier) < Rank(rule) ==> !Fails(earlier, sub)
    ensures Validate(sub) == Some(rule)
  {
    var failed := Validate(sub);
    assert failed.Some?;
    assert !(Rank(failed.value) < Rank(rule));
    assert !(Rank(rule) < Rank(failed.value));
  }

  /** A submission that breaks a rule is answered with 400 and that rule's message,
      the first failing rule in the order of checking, and the provider is never consulted. */
  lemma FirstFailingRuleAnswers(event: Event, env: Env, reply: ProviderReply, rule: Rule)
    requires event.httpMethod == "POST" && IsSet(env.resendApiKey) && IsSet(env.mailTo)
    requires event.body.Parsed?
    requires Fails(rule, Normalize(event.body.fields))
    requires forall earlier: Rule :: Rank(earlier) < Rank(rule) ==> !Fails(earlier, Normalize(event.body.fields))
    ensures Handle(event, env, reply) == Response(400, Error(RuleMessage(rule)))
  {
    FirstFailureReported(Normalize(event.body.fields), rule);
    RejectedByRule(event, env, rule);
  }

  lemma RejectedByRule(event: Event, env: Env, rule: Rule)
    requires event.httpMethod == "POST" && IsSet(env.resendApiKey) && IsSet(env.mailTo)
    requires event.body.Parsed? && Validate(Normalize(event.body.fields)) == Some(rule)
    ensures Decide(event, env) == Respond(Response(400, Error(RuleMessage(rule))))
  {
    assert MissingConfig(env) == [];
    assert Decide(event, env) == Verdict(Normalize(event.body.fields));
  }

  /** The request handed to the provider: the fixed endpoint, the bearer credential, the
      configured or default sender, and the composed subject and bodies. */
  lemma DeliveryContents(event: Event, env: Env)
    requires Outbound(event, env).Some?
    ensures var d := Outbound(event, env).value; var sub := Normalize(event.body.fields);
      && d.endpoint == Endpoint
      && d.authorization == "Bearer " + env.resendApiKey.value
      && d.from == (if IsSet(env.mailFrom) then env.mailFrom.value else DefaultFrom)
      && d.subject == SubjectPrefix + sub.name
      && d.text == TextLines(sub)
      && ParseHtml(d.html) == Some(HtmlView(sub.name, sub.email, PhoneShown(sub.phone), sub.message, true))
      && forall i :: 0 <= i <= |d.html| ==> !("<script>" <= d.html[i..])
  {
    ComposeDeliveryContents(Normalize(event.body.fields), env);
  }

  /** A submission that is sent and accepted by the provider is answered with 200. */
  lemma SentAccepted(event: Event, env: Env)
    requires Decide(event, env).Send?
    ensures Handle(event, env, Accepted) == Response(200, Ok)
  {
  }

  /** A submission that is sent but refused by the provider, whatever its status and
      detail, is answered with 502. */
  lemma SentRefused(event: Event, env: Env, status: int, detail: string)
    requires Decide(event, env).Send?
    ensures Handle(event, env, Refused(status, detail)) == Response(502, Error(DeliveryFailed))
  {
  }

  /** A submission whose provider call does not complete is answered with the generic 500. */
  lemma SentUnreachable(event: Event, env: Env)
    requires Decide(event, env).Send?
    ensures Handle(event, env, Unreachable) == Response(500, Error(ServerError))
  {
  }

  /** Normalisation leaves fields that are already trimmed as they are; an absent field
      reads as empty. */
  lemma NormalizeKeepsTrimmed(f: Fields)
    requires IsTrimmed(f.name.GetOr("")) && IsTrimmed(f.email.GetOr(""))
    requires IsTrimmed(f.phone.GetOr("")) && IsTrimmed(f.message.GetOr(""))
    ensures Normalize(f) == Submission(f.name.GetOr(""), f.email.GetOr(""), f.phone.GetOr(""), f.message.GetOr(""), f.consent)
  {
    TrimKeepsTrimmed(f.name.GetOr(""));
    TrimKeepsTrimmed(f.email.GetOr(""));
    TrimKeepsTrimmed(f.phone.GetOr(""));
    TrimKeepsTrimmed(f.message.GetOr(""));
  }

  /** Trimmed fields with a name, a valid address, consent, and a message of at least
      20 characters without a `:` (so without links) pass every rule, unchanged. */
  predicate Complete(f: Fields) {
    && f.name.Some? && f.email.Some? && f.message.Some? && f.consent
    && IsTrimmed(f.name.value) && IsTrimmed(f.email.value) && IsTrimmed(f.phone.GetOr(""))
    && IsTrimmed(f.message.value)
    && f.name.value != "" && IsValidEmail(f.email.value)
    && |f.message.value| >= MinMessageLength && ':' !in f.message.value
  }

  lemma CompleteFieldsPass(f: Fields)
    requires Complete(f)
    ensures PassesAll(Normalize(f))
    ensures Normalize(f) == Submission(f.name.value, f.email.value, f.phone.GetOr(""), f.message.value, true)
  {
    var sub := Normalize(f);
    NormalizeKeepsTrimmed(f);
    NoColonNoLinks(sub.message);
    PassesAllRules(sub);
  }

  /** Conversely to the rules: a complete submission with full configuration is sent,
      answers go to the submitter, and the status follows the provider. */
  lemma CompleteSubmissionSent(event: Event, env: Env, status: int, detail: string)
    requires event.httpMethod == "POST" && IsSet(env.resendApiKey) && IsSet(env.mailTo)
    requires event.body.Parsed? && Complete(event.body.fields)
    ensures Decide(event, env).Send?
    ensures Outbound(event, env).Some? && Outbound(event, env).value.replyTo == event.body.fields.email.value
    ensures Handle(event, env, Accepted) == Response(200, Ok)
    ensures Handle(event, env, Refused(status, detail)) == Response(502, Error(DeliveryFailed))
  {
    CompleteFieldsPass(event.body.fields);
    SentAccepted(event, env);
    SentRefused(event, env, status, detail);
  }
}
