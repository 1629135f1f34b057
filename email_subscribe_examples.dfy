/**
 * Concrete requests and what the handler does with them.
 */
module EmailSubscribeExamples {
  import opened Wrappers
  import opened Json
  import opened JsString
  import opened EmailSubscribe

  lemma LowerCaseAddressMatches(email: string)
    requires email == "user@example.com"
    ensures MatchesEmailRegex(email)
  {
    assert email[4] == '@' && email[12] == '.';
    assert PlainRun(email, 0, 4) && PlainRun(email, 5, 12) && PlainRun(email, 13, |email|);
  }

  lemma MixedCaseAddressLowered(email: string)
    requires email == "USER@Example.com"
    ensures Lower(email) == "user@example.com"
  {
    LowerPointwise(email, "user@example.com");
  }

  /** The mixed-case address matches because its lower-cased form does. */
  lemma MixedCaseAddressMatches(email: string)
    requires email == "USER@Example.com"
    ensures MatchesEmailRegex(email)
  {
    MixedCaseAddressLowered(email);
    LowerCaseAddressMatches(Lower(email));
    LowerPreservesMatch(email);
  }

  lemma LowerCaseAddressUnchanged(email: string)
    requires email == "user@example.com"
    ensures Lower(email) == email
  {
    LowerPointwise(email, email);
  }

  /** A request for an address that is already lower-case dispatches to that address. */
  lemma PostPlainAddress(body: Value, send: SendOutcome)
    requires EmailField(body) == Str("user@example.com")
    ensures Post(body, true, send).dispatched.Some?
    ensures Post(body, true, send).dispatched.value.to == "user@example.com"
  {
    var email := EmailField(body).s;
    LowerCaseAddressMatches(email);
    LowerCaseAddressUnchanged(email);
    PostDispatch(body, send);
  }

  /** Upper-case letters are lower-cased in the dispatched address. */
  lemma PostMixedCaseAddress(body: Value, send: SendOutcome)
    requires EmailField(body) == Str("USER@Example.com")
    ensures Post(body, true, send).dispatched.Some?
    ensures Post(body, true, send).dispatched.value.to == "user@example.com"
  {
    var email := EmailField(body).s;
    MixedCaseAddressMatches(email);
    MixedCaseAddressLowered(email);
    PostDispatch(body, send);
  }

  /** Surrounding spaces are not trimmed before validation: a padded address is
      refused as invalid and nothing is sent. */
  lemma PaddedEmailRejected(body: Value, serviceResolves: bool, send: SendOutcome)
    requires EmailField(body) == Str("  USER@Example.com ")
    ensures Post(body, serviceResolves, send) == Response(400, Failed(InvalidEmail), None)
  {
    RejectsWhitespace(EmailField(body).s, 0);
  }

  /** An `email` object of its own `toString`: the 400 branch's log line cannot
      convert it, and the outer catch answers 500 with the TypeError's message. */
  lemma PostEmailObjectWithToString(body: Value, serviceResolves: bool, send: SendOutcome)
    requires EmailField(body) == Obj(map["toString" := Other])
    ensures Post(body, serviceResolves, send) == Response(500, Failed(ConversionFailed), None)
  {
  }

  /** An array whose element has an own `toString` fails the same way. */
  lemma PostEmailArrayWithToString(body: Value, serviceResolves: bool, send: SendOutcome)
    requires EmailField(body) == Arr([Obj(map["toString" := Other])])
    ensures Post(body, serviceResolves, send) == Response(500, Failed(ConversionFailed), None)
  {
    assert StringConversionThrows(EmailField(body).elems[0]);
  }

  /** A number, or an object without an own `toString`, converts for the log line:
      400 "Email is required". */
  lemma PostEmailNotString(body: Value, serviceResolves: bool, send: SendOutcome)
    requires EmailField(body) == Other || EmailField(body) == Obj(map["address" := Str("a@b.c")])
    ensures Post(body, serviceResolves, send) == Response(400, Failed(EmailRequired), None)
  {
  }
}
