# AI code reviewer: the resilient request layer

This project models the service module `backend/src/services/ai.service.js` of the
AI code reviewer and proves properties of the model. The module has four parts:

- **backoff** (`backoffDelay`): an exponential ceiling `min(maxDelay, baseDelay * 2^(attempt-1))`
  and a jittered delay drawn between half the base delay and that ceiling, rounded to whole
  milliseconds;
- **status resolution**: the first truthy value of `err.status`, `err.response.status` and
  `err.error.code`; only the number 503 is retried;
- **the retry loop** (`generateWithRetry`): up to `maxAttempts` calls of the model client, a
  warning and a delay for each overloaded failure, a sleep before every retry, and one wrapped
  error (status, `"AI service error: "` message, the raw failure) when retrying stops;
- **`main`**: rejects missing code with status 400, builds the prompt (the system instruction,
  then the code fenced with its language, `'javascript'` by default), calls the loop with 5
  attempts, base 600 ms and cap 8000 ms, and extracts the review text from the response through
  the fallback chain of lines 131-150.

Modules, one per file:

- `Wrappers` (`wrappers.dfy`): `Option` and `Result`.
- `JsValues` (`js_values.dfy`): the JavaScript values the module handles, with truthiness, `||`,
  `&&`, `??`, optional-chaining property access, `String(v)` and `JSON.stringify(v)`.
- `Backoff` (`backoff.dfy`): `backoffDelay`, with `Math.random()` passed in as the real `draw`.
- `Status` (`status.dfy`): status resolution, the overload classifier and the wrapped error.
- `Retry` (`retry.dfy`): `generateWithRetry`.
  - The model client is an oracle `remote` from the request and the call number to what that
    call returns or throws.
  - The random draws are an oracle `draws`, indexed the same way.
  - Calls, overload warnings and sleeps are recorded as a trace of events.
  - The loop is an imperative method. It is proved to follow the recursive specification
    `RetryFrom`, and the lemmas about runs are proved about `RetryFrom`.
- `Review` (`review.dfy`): `main`.
  - `ReviewCode` is the imperative version. It sets a mutable `text` inside the modelled try/catch
    and is proved equal to the specification `ReviewRun`.
  - The lemmas about `main` are stated for any instruction text, so they hold in particular for
    `SystemInstruction`, the constant `main` uses.

## Model

| member | source | states |
|---|---|---|
| JsValues.Truthy | backend/src/services/ai.service.js:101 | JavaScript truthiness; every array and object, even an empty one, is truthy |
| JsValues.Nullish | backend/src/services/ai.service.js:144 | the values `??` and `?.` treat as missing, `null` and `undefined`, both of them falsy |
| JsValues.Or | backend/src/services/ai.service.js:69 | the logical or is truthy exactly when either operand is, and is one of the two operands |
| JsValues.And | backend/src/services/ai.service.js:69 | `a && b` is truthy exactly when both operands are, and is one of the two operands |
| JsValues.Coalesce | backend/src/services/ai.service.js:144 | `a ?? b` is nullish only when both are, and keeps any non-nullish left operand (so `""` is kept) |
| JsValues.Prop | backend/src/services/ai.service.js:69 | optional chaining: a property of `null` or `undefined` is `undefined` instead of an exception |
| JsValues.Index0 | backend/src/services/ai.service.js:135 | `v?.[0]` of a falsy value is `undefined` |
| JsValues.JoinSep | backend/src/services/ai.service.js:138 | `join` of one element is that element, of none the empty string |
| JsValues.ToStr | backend/src/services/ai.service.js:150 | `String(v)` keeps a string as it is, and only strings and arrays can give the empty string |
| JsValues.Stringify | backend/src/services/ai.service.js:89 | `JSON.stringify(v)` is `undefined` exactly for `undefined`; otherwise non-empty text, beginning with `{` for an object |
| JsValues.JsonValue | backend/src/services/ai.service.js:144 | the value of a `JSON.stringify` result is `undefined` exactly when it produced none |
| JsValues.StringifyExample | backend/src/services/ai.service.js:89 | `JSON.stringify({foo: 1})` is `{"foo":1}` |
| Backoff.Doubled | backend/src/services/ai.service.js:47 | `base * 2^k` of a non-negative base is non-negative, and at least `base` for `k >= 0` |
| Backoff.Min | backend/src/services/ai.service.js:47 | `Math.min` is at most both arguments and equal to one of them |
| Backoff.Round | backend/src/services/ai.service.js:50 | `Math.round(x)` is within half a unit of `x`, halves rounded up |
| Backoff.Ceiling | backend/src/services/ai.service.js:47 | the exponential ceiling never exceeds `maxDelay` |
| Backoff.Lerp | backend/src/services/ai.service.js:49 | for a draw in [0, 1) the jitter lies between half the base delay and the ceiling, in whichever order they come |
| Backoff.BackoffDelay | backend/src/services/ai.service.js:45-51 | for a draw in [0, 1) the delay lies between the rounded half base delay and the rounded ceiling, either way round |
| Backoff.DoubledMonotone | backend/src/services/ai.service.js:47 | doubling a non-negative base more times never gives less |
| Backoff.CeilingMonotone | backend/src/services/ai.service.js:45-47 | the ceiling does not decrease as `attempt` grows and stays at most `maxDelay` |
| Backoff.CeilingAtLeastBase | backend/src/services/ai.service.js:47 | from attempt 1 on, the ceiling is at least `min(maxDelay, baseDelay)` |
| Backoff.DelayWithinPolicy | backend/src/services/ai.service.js:45-51 | with `0 <= baseDelay <= 2 * maxDelay` and a draw in [0, 1), every delay lies in [round(baseDelay/2), maxDelay] |
| Backoff.DelayCanExceedCap | backend/src/services/ai.service.js:47-50 | with base 1000 and cap 100 the ceiling is 100, yet the draw 0.5 gives a delay of 300 |
| Backoff.ServiceSchedule | backend/src/services/ai.service.js:125-129 | with base 600 and cap 8000 the ceilings of attempts 1 to 5 are 600, 1200, 2400, 4800 and 8000, and the lower end rounds to 300 |
| Status.ResolveStatus | backend/src/services/ai.service.js:69 | the resolved status is truthy or is the fallback, and a truthy fallback gives a truthy status |
| Status.IsOverloaded | backend/src/services/ai.service.js:69-72 | the classifier retries a failure when its status resolves to 503; resolving with the fallback 500 of line 88 instead gives 503 for exactly the same failures |
| Status.StatusPrecedence | backend/src/services/ai.service.js:69 | the status comes from `status`, then `response.status`, then `error.code` (only when `error` is truthy), then the fallback |
| Status.OverloadedIff | backend/src/services/ai.service.js:69-72 | a failure is retried if and only if the first status found is the number 503 |
| Status.RetriedExamples | backend/src/services/ai.service.js:69-72 | a 503 in any of the three places is retried |
| Status.FatalExamples | backend/src/services/ai.service.js:69-72 | any other numeric status, a status given as a string (even "503"), and `null` are not retried |
| Status.PrecedenceExamples | backend/src/services/ai.service.js:69-72 | an earlier 429 hides a later 503, and a failure without a status is not retried |
| Status.WrapError | backend/src/services/ai.service.js:87-94 | the thrown error wraps the last failure, has a truthy status, and its message starts with "AI service error: " |
| Status.WrapStatus | backend/src/services/ai.service.js:88-92 | the wrapped status is `status`, else `response.status`, else `error.code` when `error` is truthy, else 500 |
| Status.WrappedOverloadIs503 | backend/src/services/ai.service.js:72-88 | a retried failure keeps status 503 once wrapped |
| Status.WrapMessage | backend/src/services/ai.service.js:89-91 | the message is the failure's truthy `message`, else its JSON text, and the placeholder only for `undefined` |
| Status.WrapNothing | backend/src/services/ai.service.js:88-91 | with no failure recorded the error is status 500, "AI service error: null" |
| Retry.RetryFrom | backend/src/services/ai.service.js:62-85 | the loop from attempt `a` makes a call exactly when `a <= maxAttempts`, and its first event is that call |
| Retry.Finish | backend/src/services/ai.service.js:65-94 | a response is returned as it came; otherwise the wrapped last failure, with the prefixed message, is thrown |
| Retry.GenerateWithRetry | backend/src/services/ai.service.js:57-95 | the loop's result and trace are those of `RetryFrom` from attempt 1 with no failure seen, then `Finish` |
| Retry.RoundStops | backend/src/services/ai.service.js:72-83 | a failure that is not retried, or one on the last attempt, ends the loop with that failure, logging a delay without sleeping if it was an overload |
| Retry.RoundRetries | backend/src/services/ai.service.js:72-78 | an overload before the last attempt logs the delay, sleeps it and goes on to the next attempt |
| Retry.RunSucceedsAt | backend/src/services/ai.service.js:63-65 | the first response is returned unchanged, after one call per attempt so far and one sleep per earlier call, and it is the last call |
| Retry.RunFailsAt | backend/src/services/ai.service.js:66-83 | a failure that is not retried ends the loop with that failure; it is the last call |
| Retry.RunExhausted | backend/src/services/ai.service.js:63-85 | when every call is overloaded, all remaining attempts are made, each logs a warning, there is a sleep after all but the last, and the last failure is kept |
| Retry.RunCallsBounded | backend/src/services/ai.service.js:63-78 | at most one call per remaining attempt, and exactly one sleep between consecutive calls |
| Retry.RunDelaysBounded | backend/src/services/ai.service.js:73-77 | with `0 <= baseDelay <= 2 * maxDelay` and draws in [0, 1), every sleep lasts between round(baseDelay/2) and maxDelay |
| Retry.RunWithoutAttempts | backend/src/services/ai.service.js:62-63 | with `maxAttempts < 1` no call is made and the error is status 500, "AI service error: null" |
| Review.LanguageOrDefault | backend/src/services/ai.service.js:100 | the language tag is never `undefined`: it is the language passed, or "javascript" |
| Review.Prompt | backend/src/services/ai.service.js:107-116 | the template: a newline, the instruction, the language line, the code between a fence tagged with the language and a closing fence, and the closing request; characterised by `PromptRoundTrip` and `PromptContents` |
| Review.ReviewRequest | backend/src/services/ai.service.js:119-122 | the request names the model "gemini-2.5-flash"; its prompt is characterised by `ReviewPrompt` |
| Review.CodeOf | backend/src/services/ai.service.js:107-116 | the code read back out of a prompt is the prompt minus its fixed head and tail |
| Review.PromptRoundTrip | backend/src/services/ai.service.js:107-116 | the code is sent verbatim: reading it back out of the prompt gives it unchanged |
| Review.PromptContents | backend/src/services/ai.service.js:107-116 | the prompt contains the whole instruction, and the code inside fences tagged with the language |
| Review.ReviewPrompt | backend/src/services/ai.service.js:100-122 | the request names the model "gemini-2.5-flash" and carries the instruction and `String(userCode)`; an absent language gives "javascript", and a passed one is used as `String(language)`, so `null` gives "null" |
| Review.PartTexts | backend/src/services/ai.service.js:138 | `parts.map(p => p.text)` throws exactly when some part is `null` or `undefined`, and otherwise gives each part's `text` in order |
| Review.MapPartTexts | backend/src/services/ai.service.js:138 | the loop over the parts throws or returns the texts exactly as `PartTexts` says |
| Review.FirstParts | backend/src/services/ai.service.js:134-137 | no response has no candidates, and an array of candidates yields first-candidate parts exactly when it is non-empty |
| Review.FromParts | backend/src/services/ai.service.js:137-138 | the candidate-parts step takes a string when it takes anything, and throws exactly when `parts` is truthy and is not an array or holds a `null` or `undefined` part |
| Review.Try | backend/src/services/ai.service.js:131-148 | only the candidate-parts step can throw, serializing the response always gives a value, a text taken from a response is never `null` or `undefined`, and with no response only serializing applies, giving `undefined` |
| Review.FirstApplicable | backend/src/services/ai.service.js:131-148 | for any order of strategies, the value found is `null` or `undefined` exactly when there is no response |
| Review.ExtractText | backend/src/services/ai.service.js:150 | `String` of the value found, so "undefined" when there is no response; `ExtractionChain` and the `Extract*` lemmas characterise it |
| Review.ExtractionChain | backend/src/services/ai.service.js:131-148 | the ordered strategies agree with the code: the parts' text, the JSON text after an exception, else `text ?? response.text ?? response.response.text ?? JSON.stringify(response)` |
| Review.NormalizeResponse | backend/src/services/ai.service.js:131-150 | the extraction block with its mutable `text` and its try/catch returns `ExtractText(response)` |
| Review.FirstPartBranchDead | backend/src/services/ai.service.js:137-141 | the `else if` on `parts?.[0]?.text` is never taken: a falsy `parts` has no first text |
| Review.ReviewRun | backend/src/services/ai.service.js:100-151 | `main` as a function of the code, the language and the model client: the trace is empty exactly when the code is missing, which fails with status 400, and otherwise starts with call 1 |
| Review.ReviewCode | backend/src/services/ai.service.js:100-151 | `main`'s result and trace are those of `ReviewRun` for the service's system instruction |
| Review.ExtractJoinsParts | backend/src/services/ai.service.js:134-138 | first-candidate parts with no missing part give their texts joined by newlines |
| Review.ExtractAfterException | backend/src/services/ai.service.js:145-147 | when `map` throws (parts not an array, or a missing part) the result is the JSON text of the response |
| Review.ExtractDirectText | backend/src/services/ai.service.js:144 | without usable candidate parts, a string `response.text` is the result, even when it is empty |
| Review.ExtractNestedText | backend/src/services/ai.service.js:144 | next, `response.response.text` is used when `response.text` is `null` or `undefined` |
| Review.ExtractSerialized | backend/src/services/ai.service.js:144-150 | otherwise the result is the JSON text of the response, or "undefined" when there is no response |
| Review.ExtractCandidateExample | backend/src/services/ai.service.js:134-138 | a first candidate with parts of texts `a` and `b` gives `a + "\n" + b` |
| Review.ExtractTextExample | backend/src/services/ai.service.js:144 | `{text: "hello"}` gives "hello" |
| Review.ExtractUnknownExample | backend/src/services/ai.service.js:144 | `{foo: 1}` gives its JSON text `{"foo":1}` |
| Review.ReviewRejectsMissingCode | backend/src/services/ai.service.js:101-105 | missing or empty code fails with status 400 and the model is never called |
| Review.ReviewCallsBounded | backend/src/services/ai.service.js:125-129 | `main` calls the model at most five times, with exactly one sleep between consecutive calls |
| Review.ReviewDelaysBounded | backend/src/services/ai.service.js:125-129 | for draws in [0, 1), every sleep of `main` lasts between 300 and 8000 ms |
| Review.ReviewSucceedsAfter | backend/src/services/ai.service.js:125-150 | an answer after `k` overloaded failures gives the text extracted from it, after `k + 1` calls and `k` sleeps |
| Review.ReviewFatal | backend/src/services/ai.service.js:66-94 | a first failure that is not an overload is thrown, wrapped, after exactly one call |
| Review.ReviewExhausted | backend/src/services/ai.service.js:72-94 | when all five calls are overloaded, the error has status 503 and wraps the fifth failure, after five calls, five warnings and four sleeps |

## Left out

- The SDK client, the API key lookup and the missing-key warning (lines 2 and 9-14) are a foreign library and process configuration. The model client is the oracle `remote`.
- `console.warn` and `console.error` (lines 74 and 146) are observability only. The warning is kept as a trace event with its attempt and delay, but not its text. `console.error` is not modelled.
- `sleep` (lines 37-39) takes no time here. It is a `Slept(delay)` event in the trace.
- `Math.random()` is the parameter `draw` (the oracle `draws` in the loop).
- The backoff arithmetic is done over the reals, not IEEE doubles. `Math.round` is modelled as rounding halves up.
- `JSON.stringify` is modelled only for integer numbers and plain objects, arrays and strings. `toJSON`, cyclic structures and BigInt (all of which throw or change the output) are not modelled, and nor is the escaping of lone surrogates. So the extraction chain's own serialisation, and the one inside the catch, never throw in the model.
- Property access covers objects, and the `length` of arrays and strings. Prototypes, getters and functions are not modelled, and nor are array holes that `map` skips.
- `String(v)` of a Symbol, which would throw, is not modelled: there are no symbols.
- Numbers from 1e21 upward are printed in plain decimal, where JavaScript prints exponent notation ("1e+21"). Only integers are modelled, and the service only handles status codes and lengths.
- An object is a list of fields in the order written. JavaScript lists integer-like keys first, in ascending order, when it serialises. An object may also hold a key twice: property access reads the first occurrence, while `JSON.stringify` writes every occurrence. The model has no well-formedness predicate for unique keys.
- Non-enumerable properties are not modelled. An `Error` with an empty `message` serialises to "{}" in JavaScript at line 89, but the model's object with a `message` field serialises that field.
- `backoffDelay`'s own parameter defaults (500 and 10000, line 45) are not modelled, because every call passes both values.
- The declaration of `generateWithRetry` defaults to `{maxAttempts: 5, baseDelay: 500, maxDelay: 10000}` (lines 57-61). Its only caller always passes `MainPolicy`, so the model takes the policy as a required parameter.
- The controller, the Express app and the React front end (`backend/src/controllers/ai.controller.js`, `backend/src/app.js`, `frontend/src/App.jsx`) are not part of this model. The controller answers every error with HTTP 500, ignoring the status computed here.
- `async`/`await` is not modelled: each run is one sequential computation.

Two consequences of the code that a reader might not expect:

- When `baseDelay > 2 * maxDelay`, the delay can exceed `maxDelay`, despite that parameter's name (`Backoff.DelayCanExceedCap`). The bound `[round(baseDelay/2), maxDelay]` is proved under `baseDelay <= 2 * maxDelay`, which `main`'s policy meets.
- An absent `language` becomes `'javascript'` (line 100); `null` gives the tag "null".
