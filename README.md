# Email subscription endpoint and welcome-email template

A Dafny model of the backend's `POST /store/email-subscribe` handler and of the
welcome-email template's data contract.

The handler reads `email` from the request body. It rejects a missing or
non-string address, then one that fails the pattern `^[^\s@]+@[^\s@]+\.[^\s@]+$`.
Next it resolves the notification service and sends exactly one welcome-email
notification to the address lower-cased and trimmed. It answers 200 on success
and 400 or 500 with a fixed or thrown message otherwise.

The template side is three things: the identifier `"welcome-email"`, the guard
`isWelcomeEmailData`, which checks that the untyped `data` has a string `email`
and a string-or-undefined `preview`, and the default preview `"Welcome to cobain©!"`.

Files and modules:

- `json.dfy` (`Json`): the dynamic values involved. `Undefined` (also used for an
  absent property), strings, plain objects, arrays, and `Other` for everything
  else. `StringConversionThrows` says when `${v}` raises a TypeError.
  `Member` is property access the way `data?.email` and `(req.body ?? {}).email`
  do it.
- `js_string.dfy` (`JsString`): ECMAScript's `\s` class, which is also what `trim`
  strips. It also holds `trim` and ASCII `toLowerCase`, with their idempotence and
  the fact that the two commute.
- `welcome_email.dfy` (`WelcomeEmail`): the template constants, the guard, the
  typed view `Props` with its round trip, and the default preview.
- `email_subscribe.dfy` (`EmailSubscribe`): the validation pattern and an
  independent characterisation of it, normalisation, the notification payload,
  and the handler `Post` as a pure function.
- `email_subscribe_examples.dfy` (`EmailSubscribeExamples`): concrete requests.

The handler's effects are inputs and outputs of `Post`:

- whether `req.scope.resolve(Modules.NOTIFICATION)` succeeds is a boolean argument;
- how the one `createNotifications` call ends is a `SendOutcome` argument: it
  resolves, throws an `Error` with a message, or throws something else;
- the response status and JSON body are returned;
- the notification passed to the service is returned in `dispatched`. It is present
  exactly when the send was attempted, so at most one dispatch and no retry are
  visible in the type.

The handler keeps no state between requests, so two requests with the same address
each get their own dispatch. `Post` is a function of the request alone.

A padded address such as `"  USER@Example.com "` is not trimmed before validation.
The pattern runs on the raw string and forbids whitespace, so that request is
answered 400 "Please enter a valid email address" and nothing is sent
(`EmailSubscribeExamples.PaddedEmailRejected`). For the same reason, the `.trim()`
in the handler never changes an address that passed validation
(`EmailSubscribe.NormalizeAccepted`).

The 400 branch for a missing or non-string address logs the value with `${email}`
before it replies. An `email` that cannot be converted to a string (an object with
an own `toString` property, or an array holding one) makes that log line throw a
TypeError. The outer catch then answers 500 with the TypeError's message, and the
model does the same (`EmailSubscribe.PostEmailUnprintable`). The same holds for a
thrown send error that is an object with no callable `toString` or `valueOf`
(`SendOutcome.ThrewUnprintable`).

## Model

| member | source | states |
|---|---|---|
| `EmailSubscribe.Post` | backend/src/api/store/email-subscribe/route.ts:20-99 | The status is 200, 400 or 500; it is 200 exactly when the body is a success body; it is 400 exactly when the address fails validation and its log line can convert it; a notification is dispatched exactly when the address is valid and the service resolves |
| `EmailSubscribe.EmailField` | backend/src/api/store/email-subscribe/route.ts:20-21 | `email` of `req.body ?? {}`: the object's field when present, `undefined` when the body is not an object or has no `email` |
| `EmailSubscribe.HasValidEmail` | backend/src/api/store/email-subscribe/route.ts:24-41 | The body gets past both validation steps exactly when it is an object whose `email` field is a string the pattern accepts; such an address is never empty |
| `EmailSubscribe.PostEmailRequired` | backend/src/api/store/email-subscribe/route.ts:24-31 | An absent body, an absent, empty or non-string `email` that converts to a string gives exactly 400, `error: "Email is required"`, no dispatch |
| `EmailSubscribe.PostEmailUnprintable` | backend/src/api/store/email-subscribe/route.ts:24-99 | An `email` whose string conversion throws gives exactly 500 with the TypeError's message "Cannot convert object to primitive value", no dispatch |
| `EmailSubscribe.PostInvalidEmail` | backend/src/api/store/email-subscribe/route.ts:34-41 | A non-empty string the pattern refuses gives exactly 400, `error: "Please enter a valid email address"`, no dispatch, whatever the service state |
| `EmailSubscribe.PostNotConfigured` | backend/src/api/store/email-subscribe/route.ts:44-55 | A valid address with an unresolvable service gives exactly 500 with the RESEND_API_KEY / RESEND_FROM_EMAIL configuration message and no dispatch |
| `EmailSubscribe.PostDispatch` | backend/src/api/store/email-subscribe/route.ts:65-76 | A valid address and a resolved service dispatch exactly the welcome notification for it: `to` is the lower-cased address, channel `"email"`, the welcome template, data the template guard accepts with `email == to`, `preview == "Welcome to cobain©!"` and `emailOptions` exactly `{ subject: "Welcome to cobain©" }`; `to` still matches the pattern and is its own normal form |
| `EmailSubscribe.PostDelivered` | backend/src/api/store/email-subscribe/route.ts:79-82 | A resolved send gives 200 with `message: "Email subscribed successfully"` |
| `EmailSubscribe.PostSendThrew` | backend/src/api/store/email-subscribe/route.ts:83-99 | A throwing send gives 500 with the `Error`'s message, "Failed to send welcome email. Please try again later." for a non-`Error`, or the TypeError's message when the thrown value cannot be logged; the single attempted notification is still the welcome notification |
| `EmailSubscribe.PostSucceedsIff` | backend/src/api/store/email-subscribe/route.ts:24-82 | 200 if and only if the address is valid, the service resolves and the send resolves |
| `EmailSubscribe.WelcomeNotification` | backend/src/api/store/email-subscribe/route.ts:65-76 | The notification goes to the normalised address on the email channel with the welcome template; its data is the welcome payload for that address, passes the guard and carries the same address |
| `EmailSubscribe.WelcomeData` | backend/src/api/store/email-subscribe/route.ts:69-75 | The payload is an object with exactly `emailOptions`, `email` and `preview`; `email` is the address, `preview` is "Welcome to cobain©!", `emailOptions` is exactly `{ subject: "Welcome to cobain©" }`; it passes `isWelcomeEmailData`, and its typed view is the address with that preview |
| `EmailSubscribe.MatchesEmailRegex` | backend/src/api/store/email-subscribe/route.ts:34-35 | `/^[^\s@]+@[^\s@]+\.[^\s@]+$/.test`: three non-empty `[^\s@]` runs joined by `@` and `.`; a match has at least five characters, and its first and last are in `[^\s@]` |
| `EmailSubscribe.EmailRegexMeansShape` | backend/src/api/store/email-subscribe/route.ts:34 | The pattern holds if and only if the string has no whitespace, exactly one `@` that is not first, and a `.` at least two places after it that is not last |
| `EmailSubscribe.AcceptsMinimal` | backend/src/api/store/email-subscribe/route.ts:34 | `a@b.c` matches |
| `EmailSubscribe.RejectsNoDot` | backend/src/api/store/email-subscribe/route.ts:34 | `a@b` does not match |
| `EmailSubscribe.RejectsWithoutAt` | backend/src/api/store/email-subscribe/route.ts:34 | No string without `@` matches |
| `EmailSubscribe.RejectsWhitespace` | backend/src/api/store/email-subscribe/route.ts:34 | No string with whitespace at any position matches |
| `EmailSubscribe.AcceptedHasAtThenDot` | backend/src/api/store/email-subscribe/route.ts:34 | Every match contains an `@` and a `.` after it |
| `EmailSubscribe.LowerPreservesMatch` | backend/src/api/store/email-subscribe/route.ts:34-35 | Lower-casing a string neither makes it match nor stops it matching |
| `EmailSubscribe.PlainRunLower` | backend/src/api/store/email-subscribe/route.ts:34 | Lower-casing keeps each character inside or outside `[^\s@]` |
| `EmailSubscribe.Normalize` | backend/src/api/store/email-subscribe/route.ts:66 | `email.toLowerCase().trim()` is no longer than the input, neither starts nor ends with whitespace, and has no upper-case ASCII letter |
| `EmailSubscribe.NormalizeIdempotent` | backend/src/api/store/email-subscribe/route.ts:66 | Normalising twice is normalising once |
| `EmailSubscribe.NormalizeAccepted` | backend/src/api/store/email-subscribe/route.ts:34-35 | For an address that passed validation, the normalised address is the lower-cased address (trim does nothing), it still matches, and it is its own normal form |
| `JsString.IsWhitespace` | backend/src/api/store/email-subscribe/route.ts:34 | The ECMAScript `\s` / `trim` whitespace set; every member lies in the Basic Multilingual Plane |
| `JsString.Trim` | backend/src/api/store/email-subscribe/route.ts:66 | The result neither starts nor ends with whitespace |
| `JsString.TrimCutsOnlyWhitespace` | backend/src/api/store/email-subscribe/route.ts:66 | The input is the result with whitespace-only parts around it |
| `JsString.TrimIdentity` | backend/src/api/store/email-subscribe/route.ts:66 | A string that neither starts nor ends with whitespace is unchanged by trim |
| `JsString.TrimIdempotent` | backend/src/api/store/email-subscribe/route.ts:66 | Trimming twice is trimming once |
| `JsString.SkipWhitespaceForward` | backend/src/api/store/email-subscribe/route.ts:66 | Trim's start: an index at or after the given one where the character is not whitespace, or the end of the string |
| `JsString.SkippedForwardIsWhitespace` | backend/src/api/store/email-subscribe/route.ts:66 | Everything trim skips at the front is whitespace |
| `JsString.SkipWhitespaceBackward` | backend/src/api/store/email-subscribe/route.ts:66 | Trim's end: not before its start, and the character before it is not whitespace |
| `JsString.SkippedBackwardIsWhitespace` | backend/src/api/store/email-subscribe/route.ts:66 | Everything trim skips at the back is whitespace |
| `JsString.LowerChar` | backend/src/api/store/email-subscribe/route.ts:66 | The result is never an upper-case ASCII letter; a character is either kept or is an upper-case letter moved 32 code points down |
| `JsString.LowerCharKeepsClasses` | backend/src/api/store/email-subscribe/route.ts:34-35 | Lower-casing a character keeps whitespace, `@` and `.` what they are, in both directions |
| `JsString.Lower` | backend/src/api/store/email-subscribe/route.ts:66 | Same length, each character lower-cased in place |
| `JsString.LowerPointwise` | backend/src/api/store/email-subscribe/route.ts:66 | Any string that is the input lower-cased character by character equals `Lower` of it |
| `JsString.LowerIdempotent` | backend/src/api/store/email-subscribe/route.ts:66 | Lower-casing twice is lower-casing once |
| `JsString.LowerSlice` | backend/src/api/store/email-subscribe/route.ts:66 | Lower-casing a slice is the slice of the lower-cased string |
| `JsString.SkipForwardLower` | backend/src/api/store/email-subscribe/route.ts:66 | Lower-casing does not move where trim starts |
| `JsString.SkipBackwardLower` | backend/src/api/store/email-subscribe/route.ts:66 | Lower-casing does not move where trim ends |
| `JsString.TrimLowerCommute` | backend/src/api/store/email-subscribe/route.ts:66 | `trim(lower(s)) == lower(trim(s))` |
| `Json.Member` | backend/src/modules/email-notifications/templates/welcome-email.tsx:12-13 | Property access yields the object's field when present and `undefined` otherwise, including on non-objects |
| `Json.StringConversionThrows` | backend/src/api/store/email-subscribe/route.ts:25 | Only objects and arrays can fail to convert in `${email}`; an object fails exactly when it has an own `toString` |
| `WelcomeEmail.WelcomeEmailTemplate` | backend/src/modules/email-notifications/templates/welcome-email.tsx:4 | The template identifier `"welcome-email"` |
| `WelcomeEmail.IsWelcomeEmailData` | backend/src/modules/email-notifications/templates/welcome-email.tsx:11-13 | The guard `isWelcomeEmailData`; accepted data is an object with an `email` field |
| `WelcomeEmail.PreviewProps` | backend/src/modules/email-notifications/templates/welcome-email.tsx:49-51 | The preview sample `{ email: 'subscriber@example.com' }` |
| `WelcomeEmail.GuardCharacterization` | backend/src/modules/email-notifications/templates/welcome-email.tsx:11-13 | The guard holds if and only if the data is an object with a string `email`, and any `preview` field it has is a string or `undefined` |
| `WelcomeEmail.GuardRequiresStringEmail` | backend/src/modules/email-notifications/templates/welcome-email.tsx:12 | Data whose `email` is absent or not a string fails the guard, whatever `preview` is |
| `WelcomeEmail.GuardRejectsNonStringPreview` | backend/src/modules/email-notifications/templates/welcome-email.tsx:13 | A present `preview` that is not a string fails the guard even next to a string `email` |
| `WelcomeEmail.AsProps` | backend/src/modules/email-notifications/templates/welcome-email.tsx:6-13 | The typed view of accepted data carries its `email` string and its `preview`, which is absent exactly when the field is `undefined` |
| `WelcomeEmail.PropsRoundTrip` | backend/src/modules/email-notifications/templates/welcome-email.tsx:6-13 | Every well-typed `{ email, preview? }` passes the guard, and its typed view gives it back unchanged |
| `WelcomeEmail.DataRoundTrip` | backend/src/modules/email-notifications/templates/welcome-email.tsx:11-13 | Accepted data, taken to props and written back out, agrees with the original on `email` and `preview` |
| `WelcomeEmail.EffectivePreview` | backend/src/modules/email-notifications/templates/welcome-email.tsx:15-18 | A given preview is used unchanged; an absent one becomes "Welcome to cobain©!" |
| `WelcomeEmail.PreviewPropsAccepted` | backend/src/modules/email-notifications/templates/welcome-email.tsx:49-51 | The preview sample `{ email: 'subscriber@example.com' }` passes the guard, has no preview of its own and renders with the default one |
| `EmailSubscribeExamples.LowerCaseAddressMatches` | backend/src/api/store/email-subscribe/route.ts:34 | `user@example.com` matches |
| `EmailSubscribeExamples.MixedCaseAddressMatches` | backend/src/api/store/email-subscribe/route.ts:34 | `USER@Example.com` matches |
| `EmailSubscribeExamples.LowerCaseAddressUnchanged` | backend/src/api/store/email-subscribe/route.ts:66 | Lower-casing `user@example.com` changes nothing |
| `EmailSubscribeExamples.MixedCaseAddressLowered` | backend/src/api/store/email-subscribe/route.ts:66 | `USER@Example.com` lower-cases to `user@example.com` |
| `EmailSubscribeExamples.PostPlainAddress` | backend/src/api/store/email-subscribe/route.ts:65-76 | A request for `user@example.com` with a working service dispatches to `user@example.com` |
| `EmailSubscribeExamples.PostMixedCaseAddress` | backend/src/api/store/email-subscribe/route.ts:65-76 | A request for `USER@Example.com` with a working service dispatches to `user@example.com` |
| `EmailSubscribeExamples.PostEmailObjectWithToString` | backend/src/api/store/email-subscribe/route.ts:24-99 | `{"email": {"toString": 0}}` is answered 500 "Cannot convert object to primitive value" with no dispatch |
| `EmailSubscribeExamples.PostEmailArrayWithToString` | backend/src/api/store/email-subscribe/route.ts:24-99 | `{"email": [{"toString": 0}]}` is answered the same way |
| `EmailSubscribeExamples.PostEmailNotString` | backend/src/api/store/email-subscribe/route.ts:24-31 | A number `email`, or an object `email` without an own `toString`, is answered 400 "Email is required" |
| `EmailSubscribeExamples.PaddedEmailRejected` | backend/src/api/store/email-subscribe/route.ts:34-41 | A request for `"  USER@Example.com "` is answered 400 "Please enter a valid email address" with no dispatch, because validation runs before trimming |

## Left out

- Logging (`logger.info` / `logger.error`, route.ts:11-17, 25, 47, 49, 60, 64, 77, 84-85, 92-93): the messages themselves are not modelled. The one effect logging has on the response is modelled: building the text of route.ts:25 or 84 can throw a TypeError, which the outer catch answers with 500. Two more interpolations put a caught value into the log text: `${resolveError}` at route.ts:49 and `${error}` at route.ts:93. The model takes the container's resolution error to be an `Error`, which always converts, so `serviceResolves == false` always gives the configuration message. The error at route.ts:93 is either the TypeError the model produces, which converts, or a framework error, which is not modelled. The remaining interpolations are of strings, or go through `JSON.stringify` of a parsed body, and cannot throw.
- The logger lookup `req.scope.resolve(ContainerRegistrationKeys.LOGGER)`: a container call whose failure is reachable only through the framework. A lookup that fails at route.ts:11 fails again at route.ts:92 inside the outer catch, so the failure escapes the handler and no reply is sent.
- The notification service lookup: modelled only as whether it resolves (`serviceResolves`), not as a container.
- The notification service itself and the `await` on `createNotifications`: the outcome of the call is an input value. The Resend provider behind it is not part of this model.
- The outer catch-all (route.ts:91-99): its answer to a string conversion that throws is modelled. Its answer to a framework call that throws after the logger was found, such as `res.status().json()`, is not: that would be 500 with the thrown `Error`'s message or "Something went wrong. Please try again.".
- `JsString.Lower`: models `toLowerCase` for ASCII letters only. JavaScript lower-cases all of Unicode, and some characters lower-case to two code units. For every other character the model keeps it unchanged.
- `JsString.IsWhitespace`: strings are sequences of Unicode scalar values, not UTF-16 code units. This makes no difference for `\s` or `trim`, whose characters all lie in the Basic Multilingual Plane.
- `Json.Value`: numbers, booleans and `null` are all one case, `Other`. Neither the handler nor the guard tells them apart, and all three convert to a string without error. Arrays are their own case because their string conversion can fail.
- `Json.Member`: inherited properties (such as `toString`) and the own `length` and index properties of strings and arrays are not modelled; every key the handler and the guard read (`email`, `preview`, `emailOptions`, `subject`) is none of these.
- `EmailSubscribe.Post`: the TypeError message is Node's wording, "Cannot convert object to primitive value"; another engine would word it differently.
- `WelcomeEmail.WelcomeEmailTemplate`: the handler imports the template key as `EmailTemplates.WELCOME_EMAIL` from `templates/index`, which is not part of this model; the model takes that key to be the `WELCOME_EMAIL` constant of `welcome-email.tsx`, `"welcome-email"`.
- `EmailSubscribe.Post`: the request's method and headers are only logged by the handler, so they are not inputs.
- The `WelcomeEmail` JSX markup and the `Base` layout: rendering only. Only the preview value handed to `Base` is modelled (`EffectivePreview`).
- The storefront server action `subscribeEmail` (storefront/src/app/[countryCode]/(main)/coming-soon/actions.ts): it repeats the same checks on the client side of the network call, and it is not part of this model.
- Collection and region data fetching, and the product and home page components: SDK calls and UI layout with no stateable logic.
- Persistence of subscribers: the handler stores nothing, so there is nothing to model.
