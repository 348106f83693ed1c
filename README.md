# Verified model of the chat relay endpoint

The repository is a website chatbot whose one server-side piece, the
serverless function `api/chat.js`, stands between the browser widget and a
hosted AI service. For every request it:

1. decides from the `Origin` and `Referer` headers whether the caller is an
   allowed site or a local development server, refuses everyone else with
   403, and chooses the `Access-Control-Allow-Origin` value;
2. answers the CORS preflight, refuses methods other than POST, requires a
   `Text` field, and requires the service key and domain name from the
   environment;
3. sends one request to the AI service, with defaults filled in for the
   optional fields;
4. relays the service's streamed answer: it cuts the byte stream into lines,
   keeps the `data: ` lines, drops `[DONE]` and empty payloads, re-emits each
   payload as a `data: …` frame (as-is when it is JSON, wrapped as
   `{"ai_message": …}` otherwise), flushes the unterminated last line, and
   turns a broken stream or a thrown call into a fixed apology frame; a
   failure status from the service is passed through with a fixed
   `{error}` body instead.

The model has one module per concern:

- `JsStrings` — the JavaScript string operations the handler relies on:
  `includes`, `startsWith`, ASCII `toLowerCase`, `trim` over the
  ECMAScript white-space and line-terminator set, and `split("\n")`, with
  its round trip against joining by newlines.
- `JsValues` — JSON body values with JavaScript truthiness, `||`,
  `Array.prototype.some` and the decimal rendering of `Date.now()`.
- `AccessGuard` — the origin policy and the CORS origin choice, as pure
  functions of the configured domains and the two header values.
- `Admission` — the order of checks before the upstream call, and the
  upstream request body with its defaults.
- `Framing` — what one line of the upstream stream becomes on the client
  side.
- `StreamRelay` — the relay as a class whose `buffer` holds the
  unterminated tail and whose `written` sequence holds the frames sent to
  the client. Its methods are proved against a specification function
  `RelayedFrames` of the whole upstream text. The model shows that the
  frames depend only on the concatenated text and not on how it was
  chunked.
- `Handler` — the complete request handling, combining the decision, the
  upstream answer and the relay.

`JSON.parse` is a parameter `isJson: string -> bool`. A frame is recorded
as `Passthrough(payload)` or `Wrapped(payload)` rather than as rendered JSON
text. The clock (`Date.now()`), the environment and the upstream answer are
parameters.

One observable consequence of the code, proved as
`Framing.DoneOnlySkippedOnCompleteLines`: the `[DONE]` sentinel and empty
payloads are skipped only on newline-terminated lines. A final unterminated
`data: [DONE]` is flushed to the client as a wrapped frame. Similarly,
`AccessGuard.UpperCaseLocalhostOriginRefused` shows that an upper-cased
`localhost` development origin (such as `HTTP://LOCALHOST:3000`) matches
the allowed-origin list, which is compared case-insensitively, but is still
refused, because the localhost test is case-sensitive. Upper-cased
loopback-address origins still contain `127.0.0.1` and are accepted
(`AccessGuard.UpperCaseLoopbackOriginAccepted`).

## Model

| member | source | states |
|---|---|---|
| `JsStrings.Includes` | api/chat.js:46-59 | `s.includes(t)` holds exactly when `t` occurs in `s` at some position |
| `JsStrings.ToLower` | api/chat.js:37-43 | the lower-cased string has the same length, holds no upper-case ASCII letter, and keeps every character that is not one |
| `JsStrings.ToLowerAppend` | api/chat.js:41-51 | lower-casing distributes over concatenation, so a lower-cased template literal is the template of the lower-cased parts |
| `JsStrings.ToLowerIdempotent` | api/chat.js:37-43 | lower-casing twice is the same as once |
| `JsStrings.TrimStartSpec` | api/chat.js:197-201 | trimming the start leaves a suffix whose removed prefix is all white space and whose first character is not white space |
| `JsStrings.TrimEndSpec` | api/chat.js:197-201 | trimming the end leaves a prefix whose removed suffix is all white space and whose last character is not white space |
| `JsStrings.TrimEmptyIffBlank` | api/chat.js:197 | `line.trim() === ""` exactly when the line is all white space |
| `JsStrings.TrimUnchanged` | api/chat.js:201 | a string with non-white-space ends is its own trim |
| `JsStrings.TrimBounds` | api/chat.js:201 | a non-empty trim begins and ends with non-white-space and occurs inside the original |
| `JsStrings.Split` | api/chat.js:193 | `split("\n")` yields at least one piece and no piece holds a newline |
| `JsStrings.UnlinesSplit` | api/chat.js:193-194 | joining the complete lines with newlines and appending the popped tail gives back the original text |
| `JsStrings.UnlinesAppend` | api/chat.js:192-194 | newline-joining of complete lines distributes over concatenation of line lists |
| `JsStrings.SplitUnlines` | api/chat.js:192-194 | splitting newline-terminated lines followed by an unterminated tail gives back exactly those lines and the tail |
| `JsValues.Or` | api/chat.js:137-141 | `a \|\| b` is one of its operands and is truthy exactly when either operand is, so a default that is truthy is never replaced by a falsy value |
| `JsValues.Some` | api/chat.js:36-53 | `some` holds exactly when the predicate holds for some element |
| `JsValues.Decimal` | api/chat.js:139 | the rendering of a timestamp is a non-empty digit string without a leading zero unless it is 0 |
| `JsValues.DecimalRoundTrip` | api/chat.js:139 | reading the decimal rendering back gives the timestamp |
| `JsValues.DecimalInjective` | api/chat.js:139 | different timestamps render differently |
| `AccessGuard.DomainOrigins` | api/chat.js:22-26 | each domain contributes `https://d` then `https://www.d`, in order |
| `AccessGuard.IsAllowedOrigin` | api/chat.js:36-38 | the origin is allowed exactly when it equals some allow-list entry, ignoring case |
| `AccessGuard.AllowedOriginsMembers` | api/chat.js:22-27 | an entry is allowed exactly when it is one of the two origins of a configured domain or one of the four development origins |
| `AccessGuard.CorsOrigin` | api/chat.js:78-82 | the CORS origin is the request's origin or `https://` plus the first domain; it is the origin whenever the origin equals an allow-list entry ignoring case or the request is local, and for an authorised request it is never the `https://undefined` fallback |
| `AccessGuard.AuthorizedIff` | api/chat.js:40-65 | a request is authorised exactly when some domain matches one of the six substring tests or a header mentions `localhost` or `127.0.0.1` |
| `AccessGuard.NoDomainsOnlyLocalhost` | api/chat.js:6-82 | with no configured domain only local callers are authorised, and each gets its own origin back |
| `AccessGuard.DomainOriginAuthorized` | api/chat.js:36-82 | an origin equal (ignoring case) to `https://d` or `https://www.d` for a configured `d` is authorised and echoed |
| `AccessGuard.UpperCaseLocalhostOriginRefused` | api/chat.js:36-59 | a case variant of a `localhost` development origin that does not spell `localhost` in lower case is on the allowed list yet not authorised when nothing else mentions a local host |
| `AccessGuard.UpperCaseLoopbackOriginAccepted` | api/chat.js:36-82 | any case variant of a `127.0.0.1` development origin is authorised and echoed, because its address is unchanged by case |
| `AccessGuard.PathMentionAuthorizes` | api/chat.js:40-53 | a referer whose path holds `.` followed by the configured domain authorises the request, whatever its host |
| `Admission.OrEmpty` | api/chat.js:33 | the header value read is empty exactly when the header is missing or empty, and otherwise is the header's own value |
| `Admission.RefererOf` | api/chat.js:34 | the referer read is empty exactly when both `Referer` and `Referrer` are missing or empty; otherwise it is one of the two header values, `Referer` taking precedence |
| `Admission.DeniedIffUnauthorized` | api/chat.js:65-86 | the 403 denial without CORS headers happens exactly for unauthorised requests; every other immediate reply carries the chosen CORS origin |
| `Admission.DispatchOrder` | api/chat.js:92-128 | after authorisation: OPTIONS gives 200 and no body, other non-POST methods 405, a missing `Text` 400, a missing key or domain name 500, in that order |
| `Admission.TextMissingIff` | api/chat.js:106-108 | `Text` is rejected exactly when it is absent, `null`, `false` or `0`; the empty string is accepted |
| `Admission.ForwardIff` | api/chat.js:114-162 | the upstream call is made exactly when all checks pass, with the configured key, the domain name, the configured or default URL and the caller's `Text` |
| `Admission.ReplyStatuses` | api/chat.js:67-128 | every immediate reply has status 200, 403, 405, 400 or 500 |
| `Admission.UpstreamDefaults` | api/chat.js:135-147 | user name, source name and session id are always truthy and `is_draft` is truthy or `false`; each truthy given value is kept, and a falsy one becomes `anonymous@user.com`, `WebChat`, `session_` plus the timestamp, or `false`; `Text` and the domain name are passed as given, and `Context` is sent exactly when truthy |
| `Admission.DefaultsIdempotent` | api/chat.js:135-147 | filling in the defaults of an already defaulted body changes nothing, whatever the time |
| `Admission.FreshSessionsDiffer` | api/chat.js:139 | requests without a session id made at different times get different session ids |
| `Admission.ShippedConfigServesOnlyLocal` | api/chat.js:6-8 | with the shipped empty domain list only local callers are served, with their own origin as CORS origin |
| `Framing.LineFramesAppend` | api/chat.js:195-219 | the frames of consecutive batches of lines are the concatenation of each batch's frames |
| `Framing.DataLineNotBlank` | api/chat.js:197-201 | a `data: ` line is never skipped as blank |
| `Framing.LineFrameIff` | api/chat.js:196-219 | a complete line yields a frame exactly when it starts with `data: ` and its trimmed payload is neither empty nor `[DONE]`; the frame carries that payload, passed through exactly when it parses as JSON and wrapped otherwise |
| `Framing.FlushFrameIff` | api/chat.js:222-237 | the leftover buffer yields a frame exactly when it starts with `data: `, carrying its trimmed payload with no sentinel check, passed through exactly when it parses as JSON and wrapped otherwise |
| `Framing.LineFramesPayloads` | api/chat.js:203-205 | no frame from complete lines carries an empty or `[DONE]` payload |
| `Framing.DoneOnlySkippedOnCompleteLines` | api/chat.js:203-232 | `data: [DONE]` is dropped as a complete line but flushed as a wrapped frame when it is the unterminated tail |
| `StreamRelay.Relay.constructor` | api/chat.js:183-185 | a fresh relay has an empty buffer, nothing received and nothing written |
| `StreamRelay.Relay.Feed` | api/chat.js:188-219 | appending a chunk writes the frames of the newly completed lines and keeps the unterminated tail as the buffer; the received text is always the complete lines joined by newlines plus the buffer |
| `StreamRelay.Relay.WriteLines` | api/chat.js:195-219 | the frames of a batch of lines are appended in order |
| `StreamRelay.Relay.WriteLine` | api/chat.js:196-219 | one line appends its frame, or nothing when it is skipped |
| `StreamRelay.Relay.Finish` | api/chat.js:221-237 | the leftover buffer appends its flush frame, if any |
| `StreamRelay.Relay.Fail` | api/chat.js:238-245 | a broken stream appends exactly the apology frame |
| `StreamRelay.Relay.End` | api/chat.js:247 | the response is ended |
| `StreamRelay.FeedKeepsText` | api/chat.js:192-194 | re-splitting buffer plus chunk keeps the text invariant and the newline-free lines |
| `StreamRelay.Pump` | api/chat.js:183-247 | reading all chunks through the relay writes exactly the specified frames of the whole upstream text |
| `StreamRelay.StateDeterminedByText` | api/chat.js:192-194 | the complete lines and the buffer are determined by the text received |
| `StreamRelay.ChunkingIrrelevant` | api/chat.js:183-237 | two chunkings of the same text give the same frames |
| `StreamRelay.FailEndsWithOneApology` | api/chat.js:238-245 | a broken stream sends the frames of the lines completed before the error, then exactly one apology frame |
| `Handler.Handle` | api/chat.js:1-257 | the upstream call is made exactly when the decision forwards, with its URL, key and body; the reply is the specified outcome of the request and the upstream answer |
| `Handler.StreamOnlyAfterChecks` | api/chat.js:164-181 | a streamed reply goes only to an authorised POST with `Text` and full configuration, with status 200 and the chosen CORS origin |
| `Handler.UpstreamFailures` | api/chat.js:164-257 | an upstream failure status is passed through with the fixed error body; a thrown call becomes a 200 stream with only the handler's apology |
| `Handler.ReplyShape` | api/chat.js:67-173 | only the denial lacks a CORS origin, and every status is one the handler sets or the upstream's failure status |
| `Handler.BrokenStreamApologises` | api/chat.js:238-245 | a stream broken mid-way ends with the apology frame |

## Left out

- Network I/O: `fetch`, the response reader and `TextDecoder` are not modelled. The upstream answer is a parameter: a thrown call, or a status with a body given as decoded text chunks and an ending (completed or failed).
- An ok answer without a body (a 204 or 205 status, where `body` is `null` and `getReader()` throws) is represented as `Threw`: the handler's outer catch then sends the handler apology, which is what `Threw` yields.
- Multi-byte characters split across chunks are not modelled, because the chunks are already decoded text. JavaScript strings are UTF-16 code units, and the model uses Unicode scalar values.
- `JSON.parse` is the parameter `isJson`. `JSON.stringify` and the `data: …\n\n` rendering are not modelled; a frame records its payload and whether it was passed through or wrapped. Re-serialisation of a parsed payload (whitespace, key order) is therefore not captured.
- Response mechanics: `res.status`, `res.json`, `setHeader`, `write` and `end` become the `Reply` value and the relay's `written` sequence. The fixed CORS headers (methods, headers, credentials) and the content-type and cache headers are implied by the reply kind rather than listed.
- Console logging is not modelled, because it has no effect on the reply.
- `process.env` and `Date.now()` are parameters (`Config`, `now`).
- The per-line and flush `try/catch` blocks around frame writing are not modelled. Their only failure source is `res.write`, which the model treats as infallible.
- Client disconnects and concurrent requests are not modelled.
- `JsStrings.ToLower`: maps only ASCII letters; JavaScript's full Unicode case mapping is not modelled.
- A request body that is `null` or `undefined` makes the destructuring throw before any reply; this is not modelled, and the body is a map.
- `NaN` and `BigInt` values are not modelled, because a JSON body cannot hold them; numbers are reals and objects and arrays are truthy `Composite` values.
