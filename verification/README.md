# request-browser: request dispatch and error routing

A Dafny model of the two pieces of logic at the heart of the request-browser
HTTP client helpers:

- **`makeApiRequest` and its handle.** A request configuration (method, URL,
  optional headers, optional JSON body) is handed to the transport unchanged,
  and a handle is returned at once. The caller chains `onSuccess`,
  `onRequestError` and `onUnexpectedError` on that handle. When the exchange
  settles it is classified: a 2xx response whose body parses goes to
  `onSuccess` with the parsed body, any other status goes to `onRequestError`
  with the status and the raw body text, and a transport failure goes to
  `onUnexpectedError`. Exactly the matching channel fires, once, whether its
  callback was registered before or after settlement.
- **`RequestErrorHandler`.** Rules `(status pattern, code pattern, action)` are
  added by chained `add` calls. `handle(err)` runs the action of the first
  rule, in insertion order, whose status pattern matches `err.status` and
  whose code pattern matches the `code` member of the JSON body. A body that
  is not JSON, or has no string `code` member, matches only wildcard code
  patterns. At most one action runs.

The implementation files under `src/` are not part of this model; the model
is built from the design of the library and from the behaviour its test
suite (`tests/request-test.ts`, `tests/request-error-test.ts`) asserts. Every
test scenario appears as a lemma about a concrete input.

Modules:

| file | module | contents |
|---|---|---|
| `wrappers.dfy` | `Wrappers` | `Option` |
| `json.dfy` | `JsonValues` | parsed JSON values, the parser type, member access |
| `request.dfy` | `Request` | outgoing request, classification, the request handle as a state machine, delivery lemmas |
| `request_scenarios.dfy` | `RequestScenarios` | the GET, GET-404, POST/PUT and DELETE exchanges of the test suite |
| `error_handler.dfy` | `ErrorHandler` | patterns, rules, `add`, code extraction, first-match `handle`, routing lemmas |
| `error_handler_scenarios.dfy` | `ErrorHandlerScenarios` | the seven routing scenarios of the test suite |

Modelling choices:

- Patterns are `Any | Exact(v)` instead of the magic string `"*"`;
  `ErrorHandler.CodePattern` maps the string argument of `add` to a pattern.
- An action is represented by the position of its rule: `Handle` returns
  `Option<nat>`, the rule whose action runs, or `None` when no rule matches.
- A callback is represented by a number; the handle records every invocation
  in `delivered`, so "fires exactly once on one channel" is a statement about
  that log.
- The handle is a `Pending | Settled(outcome)` cell plus three optional
  callback slots. Settling and registering are pure transitions. Any
  interleaving of them is a sequence of `Event`s run by `Request.Run`.
- `add` updates the handler in place and returns it; the model returns the
  extended handler as a new value. Chained calls behave the same; aliasing
  of one handler through several references is not modelled.
- A second registration on an already registered channel is ignored (the
  first callback is kept); a second settlement is ignored.
- A 2xx response whose body does not parse is classified as an unexpected
  error (`UnparsableBody`). No test exercises this case.
- JSON parsing is a parameter `parse: string -> Option<Json>`, so the model
  holds for every parser. Scenario lemmas state the parse facts they need
  (for example, that the text `{"code":"EXAMPLE_ERROR"}` parses to the object
  with that member) as preconditions.
- The transport is a parameter: a function from the outgoing request to a
  response `(status, body)` or a failure. The request target the server
  reads (`req.url` on the test server) is `Request.RequestTarget`, the origin
  form of section 5.3.1 of RFC 7230: the authority ends at the first '/',
  '?' or '#', the fragment is dropped, and an empty path becomes "/".

## Model

| member | source | states |
|---|---|---|
| ErrorHandler.Add | tests/request-error-test.ts:20-33 | `add` keeps every earlier rule at its position and puts the new rule last |
| ErrorHandler.AddAllAppends | tests/request-error-test.ts:20-33 | a chain of `add` calls yields the rules in call order after the existing ones |
| ErrorHandler.ErrorCode | tests/request-error-test.ts:13-14 | a code is extracted exactly when the body parses to an object with a string `code` member, and it is that string |
| ErrorHandler.FirstMatch | tests/request-error-test.ts:58-76 | the returned position matches and no earlier rule does; none is returned only when no rule matches |
| ErrorHandler.Handle | tests/request-error-test.ts:20-35 | `handle` chooses a rule whose status and code patterns both match, no earlier rule matches, and it chooses none exactly when no rule matches |
| ErrorHandler.HandleChoosesEarliest | tests/request-error-test.ts:58-76 | rule i runs if and only if it matches and no earlier rule matches |
| ErrorHandler.EarlierMatchWins | tests/request-error-test.ts:62-67 | when rule i matches, no later rule j runs and the chosen rule is at or before i |
| ErrorHandler.StatusMismatchSkipped | tests/request-error-test.ts:39-54 | a rule with an exact status different from the error's never runs, whatever its code pattern |
| ErrorHandler.NoCodeMatchesOnlyWildcard | tests/request-error-test.ts:109-127 | with no extractable code, a rule matches if and only if its status matches and its code pattern is the wildcard |
| ErrorHandler.ExactCodeMatches | tests/request-error-test.ts:13-14 | a rule whose exact code equals the body's string `code` member matches if and only if its status matches |
| ErrorHandler.CatchAllHandles | tests/request-error-test.ts:168-181 | with a `("*","*")` rule present, some rule always runs and it is no later than the catch-all |
| ErrorHandler.AddKeepsEarlierChoice | tests/request-error-test.ts:20-33 | appending a rule never changes an existing choice; when nothing matched before, the new rule runs exactly when it matches |
| ErrorHandler.CodePatternMatches | tests/request-error-test.ts:40-46 | the code argument "*" matches any code or none; any other string matches only an equal code |
| ErrorHandlerScenarios.StatusRuleHandlesCodedError | tests/request-error-test.ts:9-35 | for 404 with code EXAMPLE_ERROR and rules (400,*),(404,*),(403,*),(*,*) the (404,*) rule runs |
| ErrorHandlerScenarios.StatusMismatchSkipsCodeRule | tests/request-error-test.ts:37-54 | (400,EXAMPLE_ERROR) is skipped for a 404 and (404,*) runs |
| ErrorHandlerScenarios.ExactCodeRuleWins | tests/request-error-test.ts:56-76 | (404,EXAMPLE_ERROR) runs and the later (404,*) does not |
| ErrorHandlerScenarios.UncodedBodyMatchesWildcard | tests/request-error-test.ts:79-105 | a 404 whose body has only `randomField` is handled by (404,*) |
| ErrorHandlerScenarios.UncodedBodySkipsExactCode | tests/request-error-test.ts:107-127 | the same body skips (404,EXAMPLE_ERROR) and the (404,*) after it runs |
| ErrorHandlerScenarios.NonJsonBodyRoutesByStatus | tests/request-error-test.ts:130-157 | a 403 with a non-JSON body is handled by (403,*) |
| ErrorHandlerScenarios.EmptyErrorReachesCatchAll | tests/request-error-test.ts:159-183 | status 0 with an empty body reaches only the catch-all, whatever the parser does |
| Request.Outgoing | tests/request-test.ts:130-144 | the transport receives the method and URL unchanged, exactly the configured headers, and the `json` value as body |
| Request.TargetOfHttpUrl | tests/request-test.ts:64-72 | for `http://<authority><path>` with no '/', '?' or '#' in the authority and no fragment, the server reads exactly the path with its query string |
| Request.TargetOfQueryOnlyUrl | tests/request-test.ts:64-72 | for `http://<authority>?<query>` the server reads "/?" followed by the query |
| Request.Classify | tests/request-test.ts:59-118 | success if and only if a 2xx response parses, with the parsed body; request error if and only if the status is not 2xx, with status and raw body; transport failures are unexpected |
| Request.ErrorBodyIsRaw | tests/request-test.ts:102-105 | a non-2xx response is a request error whose body parses exactly as the server's body does |
| Request.MakeApiRequest | tests/request-test.ts:64-67 | the request goes to the transport and a valid, pending handle with no callback registered and nothing delivered is returned |
| Request.Start | tests/request-test.ts:64-67 | a fresh handle is pending, has no callbacks, has delivered nothing and satisfies the handle invariant |
| Request.Settle | tests/request-test.ts:59-84 | the first settlement fills the cell, later ones change nothing; callbacks are untouched; past deliveries are kept; the invariant is preserved |
| Request.Register | tests/request-test.ts:64-83 | registration keeps the exchange and the cell, keeps the first callback of a channel, leaves other channels alone, keeps past deliveries and preserves the invariant |
| Request.OnSuccess | tests/request-test.ts:68-77 | `onSuccess` returns the same handle (same exchange and settlement); the success slot keeps its first callback, the other slots, past deliveries and the handle invariant are kept |
| Request.OnRequestError | tests/request-test.ts:78-80 | `onRequestError` returns the same handle; the request-error slot keeps its first callback, the other slots, past deliveries and the handle invariant are kept |
| Request.OnUnexpectedError | tests/request-test.ts:81-83 | `onUnexpectedError` returns the same handle; the unexpected-error slot keeps its first callback, the other slots, past deliveries and the handle invariant are kept |
| Request.Run | tests/request-test.ts:64-83 | any sequence of settlements and registrations keeps the handle's exchange, only extends the delivery log and keeps at most one delivery |
| Request.RunState | tests/request-test.ts:64-83 | after any sequence of events the cell holds the first settled outcome and each slot the first callback registered on it |
| Request.DeliveryIsOrderIndependent | tests/request-test.ts:64-83 | the deliveries of any interleaving depend only on the first outcome and the first callback per channel |
| Request.ExactlyOnce | tests/request-test.ts:78-83 | at most one callback runs, on the outcome's own channel, and it runs once the outcome and that channel's callback both exist |
| Request.SettlementTimingIrrelevant | tests/request-test.ts:64-83 | registering all callbacks before settlement or after it invokes the same callbacks |
| Request.Exchange | tests/request-test.ts:87-118 | a whole `makeApiRequest` call with registrations and settlement leaves a valid handle with at most one delivery |
| Request.ExchangeDelivers | tests/request-test.ts:87-118 | every delivery of an exchange carries its classified outcome on that outcome's channel, and one happens if and only if that channel was registered |
| RequestScenarios.GetSucceeds | tests/request-test.ts:59-85 | a GET answered 200 delivers `{field:"example"}` to `onSuccess` only; the server saw GET and `/api/test/get?a=1&b=2` |
| RequestScenarios.GetFailsWithRequestError | tests/request-test.ts:87-118 | a GET answered 404 delivers status 404 and the raw body, which parses to `{code:"NOT_FOUND"}`, to `onRequestError` only; method, path and header reached the server |
| RequestScenarios.JsonBodyRequestSucceeds | tests/request-test.ts:120-196 | a POST or PUT with a JSON body and a header, answered 200, sends method, path, header and a body equal to the JSON value, and fires `onSuccess` only |
| RequestScenarios.DeleteSucceeds | tests/request-test.ts:198-228 | a DELETE with a query string and a header, answered 200, reaches the server unchanged and fires `onSuccess` only |

## Left out

- Sockets, the test HTTP server, request streaming and server shutdown: the
  transport is a function parameter.
- JSON serialization and parsing: the parser is a parameter. The outgoing
  body is kept as the JSON value, so "the server parses a body deep-equal to
  the `json` value" is stated as the body being that value.
- The JSON content type sent with a `json` body, and header-name case
  folding: the model forwards exactly the configured headers.
- JSON numbers are integers; floating point is not modelled.
- Asynchrony and the event loop: settlement and registrations are ordered
  pure transitions, and "registered later" is a later event in the sequence.
- Side effects of callbacks and rule actions: only which callback or rule
  is chosen is recorded.
- Schemes other than `http` and `https`, percent-encoding and dot-segment
  removal in the path: `RequestTarget` passes the characters of the URL
  through unchanged, so a path such as `/a/../b` is not normalised to `/b`.
- Request.Classify: a 2xx response with an unparsable body is classified as
  an unexpected error, a choice the test suite does not pin down.
