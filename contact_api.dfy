/** The contact endpoint `POST /api/send`: validate a submitted contact
    form, relay it once to the transactional e-mail provider (Brevo), and
    map the provider's answer onto a normalised status and body.

    The handler is a pure function of the parsed request, the process
    configuration and the outcome the single outbound call would have.
    Its result carries the reply and the outbound call, if one was made. */
module ContactApi {
  import opened Wrappers
  import opened Text

  // ---------------------------------------------------------------------
  // Inputs
  // ---------------------------------------------------------------------

  /** The JSON body; a field missing from the JSON is `None`. */
  datatype Body = Body(
    name: Option<string>,
    email: Option<string>,
    company: Option<string>,
    phone: Option<string>,
    message: Option<string>)

  /** `request.json()` throws on text that is not JSON, and reading a field
      of `null` throws: both are `MalformedJson`. Any other JSON value is a
      `Body`; a number, string, boolean or array has every field `None`. */
  datatype Request = JsonBody(body: Body) | MalformedJson

  /** `BREVO_TEMPLATE_ID` as set in the environment; `number` is what
      `Number(raw)` gives for it. */
  datatype TemplateSetting = TemplateSetting(raw: string, number: int)

  /** The environment variables the handler reads. */
  datatype Config = Config(
    apiKey: Option<string>,
    templateId: Option<TemplateSetting>,
    contactEmail: Option<string>)

  /** What the provider's JSON error body parsed to, or `{}` when it did not parse. */
  datatype Details = EmptyObject | ProviderJson(text: string)

  /** How the single `fetch` to the provider ends: a response whose body
      parses (`Some`) or not (`None`), or a rejected promise. */
  datatype ProviderOutcome = Responded(status: int, body: Option<string>) | NetworkError

  // ---------------------------------------------------------------------
  // Outputs
  // ---------------------------------------------------------------------

  datatype Mailbox = Mailbox(email: string, name: string)

  /** The template parameters NAME, COMPANY, PHONE and MESSAGE. */
  datatype Params = Params(name: string, company: string, phone: string, message: string)

  datatype Payload = Payload(
    templateId: int,
    to: seq<Mailbox>,
    bcc: seq<Mailbox>,
    replyTo: Mailbox,
    params: Params)

  /** The outbound POST: the `api-key` header and the JSON payload. */
  datatype Send = Send(apiKey: string, payload: Payload)

  datatype ReplyBody =
    | ErrorBody(error: string)
    | FailureBody(error: string, details: Details)
    | SuccessBody(success: bool, message: string)

  datatype Reply = Reply(status: int, body: ReplyBody)

  /** The reply to the caller and the outbound call, if one was issued. */
  datatype Outcome = Outcome(reply: Reply, sent: Option<Send>)

  const MissingFieldsError := "Missing required fields: name, email, message"
  const InvalidEmailError := "Invalid email format"
  const ConfigError := "Server configuration error"
  const SendFailedError := "Failed to send email"
  const InternalError := "Internal server error"
  const SuccessMessage := "Email sent successfully"
  const DefaultAdminEmail := "contact@elysene.engineering"
  const AdminName := "Ely Admin"
  const NotProvided := "Non renseigné"

  // ---------------------------------------------------------------------
  // JavaScript truthiness and the e-mail pattern
  // ---------------------------------------------------------------------

  /** A string field is truthy when present and non-empty. */
  predicate Truthy(field: Option<string>) {
    field.Some? && field.value != ""
  }

  /** `a || b` on an optional string. */
  function OrElse(field: Option<string>, fallback: string): (r: string)
    ensures Truthy(field) ==> r == field.value
    ensures !Truthy(field) ==> r == fallback
  {
    if Truthy(field) then field.value else fallback
  }

  /** The class `[^\s@]`, with `\s` as ECMAScript defines it. */
  predicate Plain(c: char) {
    !IsSpace(c) && c != '@'
  }

  predicate AllPlain(s: string) {
    forall j :: 0 <= j < |s| ==> Plain(s[j])
  }

  /** What `^[^\s@]+@[^\s@]+\.[^\s@]+$` accepts, read position by position:
      an '@' at `at` with a non-empty local part before it, a '.' at `dot`
      with at least one character on each side between the '@' and the end,
      and every other character in `[^\s@]`. */
  ghost predicate EmailShape(s: string) {
    exists at, dot :: 0 < at && at + 1 < dot && dot + 1 < |s| && s[at] == '@' && s[dot] == '.' &&
      (forall j :: 0 <= j < |s| && j != at ==> Plain(s[j]))
  }

  /** The domain part `[^\s@]+\.[^\s@]+`. */
  predicate DomainMatches(d: string) {
    AllPlain(d) && |d| >= 3 && '.' in d[1..|d| - 1]
  }

  /** `emailRegex.test(email)`: split at the first '@' and check both sides. */
  function EmailMatches(s: string): (ok: bool)
    ensures ok <==> EmailShape(s)
  {
    if '@' !in s then
      NoAtNoShape(s);
      false
    else
      var at := IndexOf(s, '@');
      var ok := 0 < at && AllPlain(s[..at]) && DomainMatches(s[at + 1..]);
      EmailMatchesAt(s, at);
      ok
  }

  lemma NoAtNoShape(s: string)
    requires '@' !in s
    ensures !EmailShape(s)
  {
    forall at | 0 <= at < |s| ensures s[at] != '@' { assert s[at] in s; }
  }

  /** When every character but the one at `a` is in `[^\s@]`, the first '@' is at `a`. */
  lemma OnlyAt(s: string, at: nat, a: nat)
    requires at < |s| && s[at] == '@' && '@' !in s[..at]
    requires a < |s| && s[a] == '@' && forall j :: 0 <= j < |s| && j != a ==> Plain(s[j])
    ensures a == at
  {
    assert a == at || Plain(s[at]);
  }

  lemma EmailMatchesAt(s: string, at: nat)
    requires at < |s| && s[at] == '@' && '@' !in s[..at]
    ensures (0 < at && AllPlain(s[..at]) && DomainMatches(s[at + 1..])) <==> EmailShape(s)
  {
    var d := s[at + 1..];
    if 0 < at && AllPlain(s[..at]) && DomainMatches(d) {
      var m :| 0 <= m < |d[1..|d| - 1]| && d[1..|d| - 1][m] == '.';
      var dot := at + 2 + m;
      assert s[dot] == '.';
      forall j | 0 <= j < |s| && j != at ensures Plain(s[j]) {
        if j < at { assert s[j] == s[..at][j]; } else { assert s[j] == d[j - at - 1]; }
      }
    }
    if EmailShape(s) {
      var a, dot :| 0 < a && a + 1 < dot && dot + 1 < |s| && s[a] == '@' && s[dot] == '.' &&
        (forall j :: 0 <= j < |s| && j != a ==> Plain(s[j]));
      OnlyAt(s, at, a);
      assert 0 < at;
      assert AllPlain(s[..at]) by {
        forall j | 0 <= j < at ensures Plain(s[..at][j]) { assert s[..at][j] == s[j]; }
      }
      assert AllPlain(d) by {
        forall j | 0 <= j < |d| ensures Plain(d[j]) { assert d[j] == s[at + 1 + j]; }
      }
      assert d[1..|d| - 1][dot - at - 2] == '.';
    }
  }

  lemma PlainSlice(s: string, lo: nat, hi: nat, at: nat)
    requires lo <= hi <= |s| && (at < lo || hi <= at)
    requires forall j :: 0 <= j < |s| && j != at ==> Plain(s[j])
    ensures AllPlain(s[lo..hi])
  {
    forall j | 0 <= j < hi - lo ensures Plain(s[lo..hi][j]) { assert s[lo..hi][j] == s[lo + j]; }
  }

  /** An accepted address has no whitespace, exactly one '@', a non-empty
      local part, and after the '@' a '.' with text on both sides. */
  lemma {:induction false} AcceptedEmailHasOneAt(s: string)
    requires EmailMatches(s)
    ensures Count(s, '@') == 1
    ensures forall j :: 0 <= j < |s| ==> !IsSpace(s[j])
    ensures exists at, dot :: 0 < at && at + 1 < dot && dot + 1 < |s| && s[at] == '@' && s[dot] == '.'
  {
    var at, dot :| 0 < at && at + 1 < dot && dot + 1 < |s| && s[at] == '@' && s[dot] == '.' &&
      (forall j :: 0 <= j < |s| && j != at ==> Plain(s[j]));
    SingleAt(s, at);
  }

  /** An '@' surrounded by `[^\s@]` characters is the only '@', and there is no white space. */
  lemma SingleAt(s: string, at: nat)
    requires at < |s| && s[at] == '@'
    requires forall j :: 0 <= j < |s| && j != at ==> Plain(s[j])
    ensures Count(s, '@') == 1
    ensures forall j :: 0 <= j < |s| ==> !IsSpace(s[j])
  {
    PlainSlice(s, 0, at, at);
    PlainSlice(s, at + 1, |s|, at);
    PlainHasNoAt(s[..at]);
    PlainHasNoAt(s[at + 1..]);
    assert s == s[..at] + [s[at]] + s[at + 1..];
    CountSingle(s[..at], '@', s[at + 1..]);
    forall j | 0 <= j < |s| ensures !IsSpace(s[j]) {
      if j != at { assert Plain(s[j]); }
    }
  }

  lemma PlainHasNoAt(s: string)
    requires AllPlain(s)
    ensures '@' !in s
  {
    forall j | 0 <= j < |s| ensures s[j] != '@' { assert Plain(s[j]); }
  }

  /** "a@b" is rejected: nothing follows a dot after the '@'. */
  lemma NoDotRejected()
    ensures !EmailMatches("a@b")
  {
    assert IndexOf("a@b", '@') == 1;
    assert |"a@b"[2..]| < 3;
  }

  /** "@b.com" is rejected: the local part is empty. */
  lemma EmptyLocalPartRejected()
    ensures !EmailMatches("@b.com")
  {
    assert IndexOf("@b.com", '@') == 0;
  }

  /** "a b@c.d" is rejected: it contains a space. */
  lemma SpaceRejected()
    ensures !EmailMatches("a b@c.d")
  {
    assert IndexOf("a b@c.d", '@') == 3;
    assert !Plain("a b@c.d"[..3][1]);
  }

  /** "jane@x.com" is accepted. */
  lemma PlainAddressAccepted()
    ensures EmailMatches("jane@x.com")
  {
    var s := "jane@x.com";
    assert s[4] == '@' && s[6] == '.';
    assert forall j :: 0 <= j < |s| && j != 4 ==> Plain(s[j]);
    assert EmailShape(s);
  }

  // ---------------------------------------------------------------------
  // The handler
  // ---------------------------------------------------------------------

  /** All three checks on the input: required fields, then the e-mail pattern. */
  predicate InputValid(b: Body) {
    Truthy(b.name) && Truthy(b.email) && Truthy(b.message) && EmailMatches(b.email.value)
  }

  /** Both provider secrets are set and non-empty. */
  predicate ConfigPresent(c: Config) {
    Truthy(c.apiKey) && c.templateId.Some? && c.templateId.value.raw != ""
  }

  /** The administrative mailbox: the override, or the hard-coded default. */
  function AdminEmail(c: Config): (e: string)
    ensures Truthy(c.contactEmail) ==> e == c.contactEmail.value
    ensures !Truthy(c.contactEmail) ==> e == DefaultAdminEmail
  {
    OrElse(c.contactEmail, DefaultAdminEmail)
  }

  /** The provider payload for a validated body and a complete configuration. */
  function BuildPayload(b: Body, c: Config): (p: Payload)
    requires InputValid(b) && ConfigPresent(c)
    ensures p.to == [Mailbox(b.email.value, b.name.value)]
    ensures p.replyTo == Mailbox(b.email.value, b.name.value)
    ensures p.bcc == [Mailbox(AdminEmail(c), AdminName)]
    ensures p.templateId == c.templateId.value.number
    ensures p.params.name == b.name.value && p.params.message == b.message.value
    ensures p.params.company == (if Truthy(b.company) then b.company.value else NotProvided)
    ensures p.params.phone == (if Truthy(b.phone) then b.phone.value else NotProvided)
    ensures p.params.company != "" && p.params.phone != ""
  {
    var submitter := Mailbox(b.email.value, b.name.value);
    Payload(
      c.templateId.value.number,
      [submitter],
      [Mailbox(AdminEmail(c), AdminName)],
      submitter,
      Params(b.name.value, OrElse(b.company, NotProvided), OrElse(b.phone, NotProvided), b.message.value))
  }

  /** `brevoResponse.ok`. */
  predicate Ok2xx(status: int) {
    200 <= status <= 299
  }

  /** The provider outcome seen by the caller. */
  function ProviderReply(outcome: ProviderOutcome): (r: Reply)
    ensures r.status == 200 <==> outcome.Responded? && Ok2xx(outcome.status)
    ensures outcome.Responded? && Ok2xx(outcome.status) ==> r.body == SuccessBody(true, SuccessMessage)
    ensures r.status != 200 ==> r.status == 500
    ensures outcome.Responded? && !Ok2xx(outcome.status) ==>
      r.body == FailureBody(SendFailedError,
        if outcome.body.Some? then ProviderJson(outcome.body.value) else EmptyObject)
    ensures outcome.NetworkError? ==> r.body == ErrorBody(InternalError)
  {
    match outcome
    case NetworkError => Reply(500, ErrorBody(InternalError))
    case Responded(status, body) =>
      if !Ok2xx(status) then
        var details := if body.Some? then ProviderJson(body.value) else EmptyObject;
        Reply(500, FailureBody(SendFailedError, details))
      else
        Reply(200, SuccessBody(true, SuccessMessage))
  }

  /** `POST`: the fail-fast checks, the single send, the outcome mapping and
      the top-level catch. */
  function HandlePost(request: Request, config: Config, provider: ProviderOutcome): (r: Outcome)
    // Something is sent exactly when every check passes, and then once.
    ensures r.sent.Some? <==> request.JsonBody? && InputValid(request.body) && ConfigPresent(config)
    ensures r.sent.Some? ==> r.sent.value == Send(config.apiKey.value, BuildPayload(request.body, config))
    // Once the call is sent, the reply is the provider outcome's reply.
    ensures r.sent.Some? ==> r.reply == ProviderReply(provider)
    // The caller only ever sees 200, 400 or 500.
    ensures r.reply.status in {200, 400, 500}
    // 400 exactly for a body that fails the input checks, whatever the configuration.
    ensures r.reply.status == 400 <==> request.JsonBody? && !InputValid(request.body)
    ensures request.JsonBody? && !(Truthy(request.body.name) && Truthy(request.body.email) && Truthy(request.body.message)) ==>
      r.reply == Reply(400, ErrorBody(MissingFieldsError))
    ensures (request.JsonBody? && Truthy(request.body.name) && Truthy(request.body.email) && Truthy(request.body.message)
      && !EmailMatches(request.body.email.value)) ==> r.reply == Reply(400, ErrorBody(InvalidEmailError))
    // The configuration error comes only after the input checks pass.
    ensures r.reply.body == ErrorBody(ConfigError) <==>
      request.JsonBody? && InputValid(request.body) && !ConfigPresent(config)
    ensures r.reply.status == 200 <==> r.sent.Some? && provider.Responded? && Ok2xx(provider.status)
    ensures r.reply.status == 200 ==> r.reply.body == SuccessBody(true, SuccessMessage)
    ensures request.MalformedJson? ==> r.reply == Reply(500, ErrorBody(InternalError))
  {
    match request
    case MalformedJson => Outcome(Reply(500, ErrorBody(InternalError)), None)
    case JsonBody(b) =>
      if !(Truthy(b.name) && Truthy(b.email) && Truthy(b.message)) then
        Outcome(Reply(400, ErrorBody(MissingFieldsError)), None)
      else if !EmailMatches(b.email.value) then
        Outcome(Reply(400, ErrorBody(InvalidEmailError)), None)
      else if !ConfigPresent(config) then
        Outcome(Reply(500, ErrorBody(ConfigError)), None)
      else
        Outcome(ProviderReply(provider), Some(Send(config.apiKey.value, BuildPayload(b, config))))
  }

  /** Every error, failure and success message in a reply is one of the
      handler's fixed strings. Provider text reaches the caller only as the
      `details` of a failure (see `ReplyIndependentOfKey`). */
  lemma ReplyTextsAreFixed(request: Request, config: Config, provider: ProviderOutcome)
    ensures var body := HandlePost(request, config, provider).reply.body;
      (body.ErrorBody? ==> body.error in {MissingFieldsError, InvalidEmailError, ConfigError, InternalError}) &&
      (body.FailureBody? ==> body.error == SendFailedError) &&
      (body.SuccessBody? ==> body.message == SuccessMessage && body.success)
  {
  }

  /** A submission with only the required fields. */
  /** No reply depends on the API key: whatever (truthy) key is configured,
      the same request and provider outcome give the same reply. The key is
      only handed to the provider; what the provider sends back reaches the
      caller as `details` unchanged, so a provider that echoes the key would
      pass it on. */
  lemma ReplyIndependentOfKey(request: Request, config: Config, key: string, provider: ProviderOutcome)
    requires key != "" && Truthy(config.apiKey)
    ensures HandlePost(request, config, provider).reply ==
      HandlePost(request, config.(apiKey := Some(key)), provider).reply
  {
  }

  const JaneBody := Body(Some("Jane"), Some("jane@x.com"), None, None, Some("Hi"))

  lemma JaneBodyValid()
    ensures InputValid(JaneBody)
  {
    PlainAddressAccepted();
  }

  /** A submission with only the required fields: company and phone left
      out are sent as the placeholder, not as empty strings. */
  lemma PlaceholderExample(config: Config, provider: ProviderOutcome)
    requires ConfigPresent(config)
    ensures var r := HandlePost(JsonBody(JaneBody), config, provider);
      r.sent.Some? && r.sent.value.payload.params == Params("Jane", NotProvided, NotProvided, "Hi")
  {
    JaneBodyValid();
  }

  /** A JSON value that is not an object (a number, a string, a boolean or
      an array) has no fields and is refused as missing them, whatever the
      configuration, and nothing is sent. */
  lemma NonObjectRejected(config: Config, provider: ProviderOutcome)
    ensures var r := HandlePost(JsonBody(Body(None, None, None, None, None)), config, provider);
      r.reply == Reply(400, ErrorBody(MissingFieldsError)) && r.sent.None?
  {
  }

  /** Handling is stateless: the same valid submission handled twice sends
      twice, the same payload each time. */
  lemma {:induction false} NoDeduplication(b: Body, config: Config, p1: ProviderOutcome, p2: ProviderOutcome)
    requires InputValid(b) && ConfigPresent(config)
    ensures HandlePost(JsonBody(b), config, p1).sent.Some?
    ensures HandlePost(JsonBody(b), config, p1).sent == HandlePost(JsonBody(b), config, p2).sent
  {
  }
}
