/**
 * The `POST /store/email-subscribe` handler: validate the address, resolve the
 * notification service, dispatch one welcome-email notification, and map each
 * outcome to an HTTP status and a JSON body.
 *
 * The handler is a single early-return ladder. Its effects are modelled as data:
 * whether the notification service resolves and how the one send ends are inputs,
 * and the handler's result records the status, the body and the notification it
 * handed to the service, if any.
 */
module EmailSubscribe {
  import opened Wrappers
  import opened Json
  import opened JsString
  import opened WelcomeEmail

  const EmailRequired: string := "Email is required"
  const InvalidEmail: string := "Please enter a valid email address"
  const NotConfigured: string :=
    "Email service is not configured. Please check RESEND_API_KEY and RESEND_FROM_EMAIL environment variables."
  const SendFailed: string := "Failed to send welcome email. Please try again later."
  const Subscribed: string := "Email subscribed successfully"
  /** The message of the TypeError that Node raises when a template literal cannot
      turn an object into a string; the outer catch answers with it. */
  const ConversionFailed: string := "Cannot convert object to primitive value"
  const WelcomeSubject: string := "Welcome to cobain\U{00A9}"

  // ---------------------------------------------------------------------------
  // The validation pattern  ^[^\s@]+@[^\s@]+\.[^\s@]+$
  // ---------------------------------------------------------------------------

  /** A character of the class `[^\s@]`. */
  predicate Plain(c: char) {
    !IsWhitespace(c) && c != '@'
  }

  /** Every character of `s[lo..hi]` is in `[^\s@]`. */
  predicate PlainRun(s: string, lo: int, hi: int)
    requires 0 <= lo <= hi <= |s|
  {
    forall i :: lo <= i < hi ==> Plain(s[i])
  }

  /** The whole of `s` matches the pattern: a non-empty `[^\s@]` run `s[..a]`, the
      `@` at `a`, a non-empty run `s[a+1..b]`, the `.` at `b`, and a non-empty run
      `s[b+1..]` reaching the end. */
  predicate MatchesEmailRegex(s: string)
    ensures MatchesEmailRegex(s) ==> 5 <= |s| && Plain(s[0]) && Plain(s[|s| - 1])
  {
    exists a, b | 0 < a < |s| && a + 1 < b < |s| - 1 ::
      s[a] == '@' && s[b] == '.'
      && PlainRun(s, 0, a) && PlainRun(s, a + 1, b) && PlainRun(s, b + 1, |s|)
  }

  /** A reading of the pattern that does not follow its concatenation: no whitespace
      anywhere, exactly one `@`, not the first character, and a `.` at least two
      characters after the `@` that is not the last character. */
  predicate EmailShape(s: string) {
    (forall i :: 0 <= i < |s| ==> !IsWhitespace(s[i]))
    && exists a | 0 < a < |s| ::
      s[a] == '@'
      && (forall i :: 0 <= i < |s| && s[i] == '@' ==> i == a)
      && exists b | a + 1 < b < |s| - 1 :: s[b] == '.'
  }

  lemma EmailRegexMeansShape(s: string)
    ensures MatchesEmailRegex(s) <==> EmailShape(s)
  {
  }

  /** The smallest address the pattern accepts. */
  lemma AcceptsMinimal()
    ensures MatchesEmailRegex("a@b.c")
  {
    var s := "a@b.c";
    assert s[1] == '@' && s[3] == '.';
    assert PlainRun(s, 0, 1) && PlainRun(s, 2, 3) && PlainRun(s, 4, 5);
  }

  /** An address with no dot after the `@` is refused. */
  lemma RejectsNoDot()
    ensures !MatchesEmailRegex("a@b")
  {
  }

  /** A string without `@` is refused. */
  lemma RejectsWithoutAt(s: string)
    requires forall i :: 0 <= i < |s| ==> s[i] != '@'
    ensures !MatchesEmailRegex(s)
  {
  }

  /** A string with whitespace anywhere in it is refused. */
  lemma RejectsWhitespace(s: string, j: int)
    requires 0 <= j < |s| && IsWhitespace(s[j])
    ensures !MatchesEmailRegex(s)
  {
    EmailRegexMeansShape(s);
  }

  /** An accepted string has an `@`, and a `.` somewhere after it. */
  lemma AcceptedHasAtThenDot(s: string)
    requires MatchesEmailRegex(s)
    ensures exists a, b | 0 <= a < b < |s| :: s[a] == '@' && s[b] == '.'
  {
    var a, b :| 0 < a < |s| && a + 1 < b < |s| - 1
      && s[a] == '@' && s[b] == '.'
      && PlainRun(s, 0, a) && PlainRun(s, a + 1, b) && PlainRun(s, b + 1, |s|);
    assert 0 <= a < b < |s| && s[a] == '@' && s[b] == '.';
  }

  /** Lower-casing keeps every character inside or outside `[^\s@]`. */
  lemma PlainRunLower(s: string, lo: int, hi: int)
    requires 0 <= lo <= hi <= |s|
    ensures PlainRun(Lower(s), lo, hi) <==> PlainRun(s, lo, hi)
  {
    var l := Lower(s);
    forall i | lo <= i < hi
      ensures Plain(l[i]) <==> Plain(s[i])
    {
      LowerCharKeepsClasses(s[i]);
    }
  }

  /** Lower-casing neither makes a string acceptable nor unacceptable. */
  lemma LowerPreservesMatch(s: string)
    ensures MatchesEmailRegex(Lower(s)) <==> MatchesEmailRegex(s)
  {
    var l := Lower(s);
    if MatchesEmailRegex(s) {
      var a, b :| 0 < a < |s| && a + 1 < b < |s| - 1
        && s[a] == '@' && s[b] == '.'
        && PlainRun(s, 0, a) && PlainRun(s, a + 1, b) && PlainRun(s, b + 1, |s|);
      LowerCharKeepsClasses(s[a]);
      LowerCharKeepsClasses(s[b]);
      PlainRunLower(s, 0, a);
      PlainRunLower(s, a + 1, b);
      PlainRunLower(s, b + 1, |s|);
      assert l[a] == '@' && l[b] == '.';
    }
    if MatchesEmailRegex(l) {
      var a, b :| 0 < a < |l| && a + 1 < b < |l| - 1
        && l[a] == '@' && l[b] == '.'
        && PlainRun(l, 0, a) && PlainRun(l, a + 1, b) && PlainRun(l, b + 1, |l|);
      LowerCharKeepsClasses(s[a]);
      LowerCharKeepsClasses(s[b]);
      PlainRunLower(s, 0, a);
      PlainRunLower(s, a + 1, b);
      PlainRunLower(s, b + 1, |s|);
      assert s[a] == '@' && s[b] == '.';
    }
  }

  // ---------------------------------------------------------------------------
  // Normalisation  email.toLowerCase().trim()
  // ---------------------------------------------------------------------------

  /** The address as it is handed to the notification service. */
  function Normalize(s: string): (r: string)
    ensures |r| <= |s|
    ensures r == [] || (!IsWhitespace(r[0]) && !IsWhitespace(r[|r| - 1]))
    ensures forall i :: 0 <= i < |r| ==> !('A' <= r[i] <= 'Z')
  {
    Trim(Lower(s))
  }

  lemma NormalizeIdempotent(s: string)
    ensures Normalize(Normalize(s)) == Normalize(s)
  {
  }

  /** Validation runs on the raw string and the pattern forbids whitespace, so for
      any accepted address trimming does nothing: the address dispatched is the
      address lower-cased, and it is still accepted. */
  lemma NormalizeAccepted(s: string)
    requires MatchesEmailRegex(s)
    ensures Normalize(s) == Lower(s)
    ensures MatchesEmailRegex(Normalize(s))
    ensures Normalize(Normalize(s)) == Normalize(s)
  {
    var l := Lower(s);
    LowerPreservesMatch(s);
    EmailRegexMeansShape(l);
    TrimIdentity(l);
    NormalizeIdempotent(s);
  }

  // ---------------------------------------------------------------------------
  // The handler
  // ---------------------------------------------------------------------------

  /** How the one `createNotifications` call ends: it resolves, it throws an `Error`
      (with its message), it throws something else that converts to a string, or it
      throws an object with no callable `toString` or `valueOf` (one without a
      prototype, say): then logging it in the inner catch throws a TypeError, which
      the outer catch answers. */
  datatype SendOutcome = Delivered | ThrewError(message: string) | ThrewOther | ThrewUnprintable

  /** The JSON response body: `{ success: true, message }` or `{ success: false, error }`. */
  datatype ReplyBody = Succeeded(message: string) | Failed(error: string)

  /** The argument of `createNotifications`. */
  datatype Notification = Notification(to: string, channel: string, template: string, data: Value)

  /** What one request produces: the status, the body, and the notification handed
      to the service (present exactly when the send was attempted). */
  datatype Response = Response(status: int, body: ReplyBody, dispatched: Option<Notification>)

  /** `email` of `req.body ?? {}`. */
  function EmailField(body: Value): (v: Value)
    ensures body.Obj? && "email" in body.fields ==> v == body.fields["email"]
    ensures !(body.Obj? && "email" in body.fields) ==> v == Undefined
  {
    Member(body, "email")
  }

  /** The request carries an address that gets past both validation steps. */
  predicate HasValidEmail(body: Value)
    ensures HasValidEmail(body) <==>
      body.Obj? && "email" in body.fields && body.fields["email"].Str?
      && MatchesEmailRegex(body.fields["email"].s)
    ensures HasValidEmail(body) ==> EmailField(body).s != ""
  {
    EmailField(body).Str? && MatchesEmailRegex(EmailField(body).s)
  }

  /** The welcome-email `data` payload for a normalised address. */
  function WelcomeData(to: string): (d: Value)
    ensures d.Obj? && d.fields.Keys == {"emailOptions", "email", "preview"}
    ensures Member(d, "email") == Str(to) && Member(d, "preview") == Str(DefaultPreview)
    ensures Member(d, "emailOptions") == Obj(map["subject" := Str(WelcomeSubject)])
    ensures IsWelcomeEmailData(d)
    ensures AsProps(d) == Props(to, Some(DefaultPreview))
  {
    Obj(map[
      "emailOptions" := Obj(map["subject" := Str(WelcomeSubject)]),
      "email" := Str(to),
      "preview" := Str(DefaultPreview)
    ])
  }

  /** The one notification dispatched for a raw address. */
  function WelcomeNotification(email: string): (n: Notification)
    ensures n.to == Normalize(email) && n.channel == "email"
    ensures n.template == WelcomeEmailTemplate
    ensures n.data == WelcomeData(n.to)
    ensures IsWelcomeEmailData(n.data) && AsProps(n.data).email == n.to
  {
    var to := Normalize(email);
    Notification(to, "email", WelcomeEmailTemplate, WelcomeData(to))
  }

  /** The handler. `body` is `req.body`, `serviceResolves` says whether resolving the
      notification module succeeds, `send` how the one send ends. */
  function Post(body: Value, serviceResolves: bool, send: SendOutcome): (r: Response)
    ensures r.status == 200 || r.status == 400 || r.status == 500
    ensures r.status == 200 <==> r.body.Succeeded?
    ensures r.dispatched.Some? <==> HasValidEmail(body) && serviceResolves
    ensures r.status == 400 <==> !HasValidEmail(body) && !StringConversionThrows(EmailField(body))
  {
    var email := EmailField(body);
    if !(email.Str? && email.s != "") then
      // The failure is logged with `${email}` before the reply is sent.
      if StringConversionThrows(email) then Response(500, Failed(ConversionFailed), None)
      else Response(400, Failed(EmailRequired), None)
    else if !MatchesEmailRegex(email.s) then
      Response(400, Failed(InvalidEmail), None)
    else if !serviceResolves then
      Response(500, Failed(NotConfigured), None)
    else
      var n := WelcomeNotification(email.s);
      match send
      case Delivered => Response(200, Succeeded(Subscribed), Some(n))
      case ThrewError(m) => Response(500, Failed(m), Some(n))
      case ThrewOther => Response(500, Failed(SendFailed), Some(n))
      case ThrewUnprintable => Response(500, Failed(ConversionFailed), Some(n))
  }

  /** No body, no `email`, an empty `email` or a non-string `email` that converts to
      a string for the log line: 400, "Email is required", nothing sent. */
  lemma PostEmailRequired(body: Value, serviceResolves: bool, send: SendOutcome)
    requires !(EmailField(body).Str? && EmailField(body).s != "")
    requires !StringConversionThrows(EmailField(body))
    ensures Post(body, serviceResolves, send) == Response(400, Failed(EmailRequired), None)
  {
  }

  /** An `email` that cannot be converted to a string (an object with an own
      `toString`, or an array holding one): the log line of the 400 branch throws
      a TypeError before any reply, and the outer catch answers 500 with its
      message; nothing sent. */
  lemma PostEmailUnprintable(body: Value, serviceResolves: bool, send: SendOutcome)
    requires StringConversionThrows(EmailField(body))
    ensures Post(body, serviceResolves, send) == Response(500, Failed(ConversionFailed), None)
  {
  }

  /** A non-empty string the pattern refuses: 400, "Please enter a valid email
      address", nothing sent. */
  lemma PostInvalidEmail(body: Value, serviceResolves: bool, send: SendOutcome)
    requires EmailField(body).Str? && EmailField(body).s != ""
    requires !MatchesEmailRegex(EmailField(body).s)
    ensures Post(body, serviceResolves, send) == Response(400, Failed(InvalidEmail), None)
  {
  }

  /** A valid address but no notification service: 500 with the configuration hint,
      nothing sent. */
  lemma PostNotConfigured(body: Value, send: SendOutcome)
    requires HasValidEmail(body)
    ensures Post(body, false, send) == Response(500, Failed(NotConfigured), None)
  {
  }

  /** A valid address and a resolved service: exactly one notification, to the
      lower-cased address (which is already trimmed and still valid), on the email
      channel, with the welcome template and data the template's guard accepts and
      renders with the default welcome preview. */
  lemma PostDispatch(body: Value, send: SendOutcome)
    requires HasValidEmail(body)
    ensures Post(body, true, send).dispatched.Some?
    ensures var n := Post(body, true, send).dispatched.value;
      && n.to == Lower(EmailField(body).s)
      && n.channel == "email"
      && n.template == WelcomeEmailTemplate
      && IsWelcomeEmailData(n.data)
      && Member(n.data, "email") == Str(n.to)
      && Member(n.data, "preview") == Str(DefaultPreview)
      && Member(n.data, "emailOptions") == Obj(map["subject" := Str(WelcomeSubject)])
      && EffectivePreview(AsProps(n.data)) == DefaultPreview
      && MatchesEmailRegex(n.to)
      && Normalize(n.to) == n.to
    ensures Post(body, true, send).dispatched == Some(WelcomeNotification(EmailField(body).s))
  {
    var email := EmailField(body).s;
    NormalizeAccepted(email);
    var n := WelcomeNotification(email);
    assert Post(body, true, send).dispatched == Some(n);
  }

  /** The send resolves: 200 with "Email subscribed successfully". */
  lemma PostDelivered(body: Value)
    requires HasValidEmail(body)
    ensures Post(body, true, Delivered).status == 200
    ensures Post(body, true, Delivered).body == Succeeded(Subscribed)
  {
  }

  /** The send throws: 500 with the `Error`'s message, the fixed fallback for any
      other thrown value, or the TypeError's message when the thrown value cannot
      even be logged; the one attempted notification is still recorded. */
  lemma PostSendThrew(body: Value, send: SendOutcome)
    requires HasValidEmail(body) && !send.Delivered?
    ensures Post(body, true, send).status == 500
    ensures Post(body, true, send).body
      == Failed(if send.ThrewError? then send.message
                else if send.ThrewOther? then SendFailed
                else ConversionFailed)
    ensures Post(body, true, send).dispatched == Some(WelcomeNotification(EmailField(body).s))
  {
  }

  /** Success happens exactly when the address is valid, the service resolves and
      the send resolves. */
  lemma PostSucceedsIff(body: Value, serviceResolves: bool, send: SendOutcome)
    ensures Post(body, serviceResolves, send).status == 200
      <==> HasValidEmail(body) && serviceResolves && send.Delivered?
  {
  }
}
