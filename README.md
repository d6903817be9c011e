# AI chat companion: session state machine and relay proxy

This project models the two pieces of logic in a small chat front end for a
generative-language provider, and proves properties of them in Dafny.

* **The chat client** (`script.js`). Its state is three globals: the message
  list, the loading flag and the API key. The page handlers change them: page
  load, sending a message, the end of the provider call, clearing the chat and
  saving a key. `ChatSpec` describes each handler as a function on a `Session`
  value. `ChatClient.Chat` is a class with the same three fields; its methods
  update those fields in place, and each method is proved to make exactly the
  `ChatSpec` transition. The provider call is split into two steps: `Send`
  starts it and `Complete` receives one of three results (failure, no
  candidates, a candidate's text).
* **The proxy** (`api.php`). It is modelled as one pure function, `Proxy.Handle`,
  which uses the corrected status rule of the Findings section below;
  `Proxy.HandleAsWritten` is the same function with the script's own status
  rule, and the two are proved to differ only when curl reports no status.
  The inputs are the request method, the decoded request body, and the
  provider's status code and decoded body. The output is the outbound request,
  if any, plus the reply: a status and a JSON envelope.
* **Shared pieces.** `Gemini` builds the provider request; client and proxy
  build exactly the same one. `Text.Trim` is ECMAScript's `String.prototype.trim`.
  `Decimal` writes integers in decimal. The client needs that for its
  clock-based message ids, and the proxy for PHP's string conversion.
  `Agreement` connects the two halves.

Main results:
* A send is accepted exactly when the send button's rule holds.
* Without a key, a send opens the key prompt.
* An accepted round trip adds the user message, then the assistant message.
* Clearing leaves only the greeting.
* A saved key is always trimmed and never empty.
* Starting from page load, no sequence of events can put two user messages
  next to each other. This follows from the "one request in flight" rule:
  `Send` sets the loading flag, only `Complete` clears it, and a send while
  loading changes nothing (`ChatSpec.NoSendWhileLoading`). The event runs of
  `ChatSpec.Run` also allow a completion when no call is in flight; that
  over-approximates what the page can do, so the invariant holds a fortiori.
* In the proxy, every reply branch is stated in `Proxy.Respond`'s and
  `Proxy.Validate`'s contracts; lemmas single out 405, 400, a provider status
  other than 200, curl code 0 and an empty candidate list.
* The proxy makes one outbound call exactly when the method is POST and both
  parameters are set.
* With the corrected status rule, a proxy reply has status 200 exactly when
  its envelope reports success. The script as written breaks this when curl
  gets no response at all (see Findings).

The proxy checks its parameters with `isset`. An empty `message` or `apiKey`
therefore counts as present and is forwarded, not rejected with 400
(`Proxy.EmptyStringsAreSet`); the model follows the code here.

## Model

| member | source | states |
|---|---|---|
| Text.Trim | script.js:71-73 | the trimmed text is empty exactly when the input is all white space; otherwise it is the slice between the leading and the trailing white space, and starts and ends with a character that is not white space |
| Text.TrimIdempotent | script.js:315-318 | trimming an already trimmed string changes nothing |
| Text.TrimUnique | script.js:71 | any slice with only white space around it that starts and ends with a non-white-space character is the trimmed text, so the contract of `Text.Trim` determines it |
| Decimal.NatToString | script.js:82 | the clock written in decimal is a non-empty digit string with no leading zero |
| Decimal.ParseNatToString | script.js:82 | reading the decimal id back gives the clock value |
| Decimal.NatToStringInjective | script.js:139 | different clock values give different ids |
| Decimal.IntToString | api.php:31 | PHP's notation of an integer: the digits of its absolute value with no leading zero, after a minus sign when negative |
| Decimal.CanonicalNotation | api.php:31 | a digit string with no leading zero is the notation of its own value, so the notation is unique |
| Decimal.IntToStringInjective | api.php:24 | different integers are written differently |
| Gemini.BuildRequest | api.php:24-42 | the URL is the fixed endpoint, then `?key=`, then the key; the prompt is the fixed preamble, then the message; top-k 40 and 2048 output tokens |
| Gemini.RequestRoundTrip | script.js:109-117 | the key and the message can be read back from the request; the message is the prompt's suffix |
| Gemini.BuildRequestInjective | api.php:24-31 | different message/key pairs never give the same request |
| Proxy.At | api.php:66 | a PHP offset exists only on an array; a named member only on an object, holding that member's value |
| Proxy.Lookup | api.php:66 | the empty path gives the value itself; on a scalar (null, boolean, number, string) no offset path exists |
| Proxy.LookupAppend | api.php:66 | looking up a path in two halves is the same as looking up the whole path |
| Proxy.MissingStepIsFinal | api.php:66 | once a step of a chained offset is missing, the whole chain is missing rather than an error |
| Proxy.IsSet | api.php:15 | `isset` is false below a null and false whenever any step on the way is missing |
| Proxy.PhpString | api.php:21-31 | what `.` makes of a parameter: a string is kept as is, an integer becomes its decimal notation with its value and no leading zero |
| Proxy.Validate | api.php:7-42 | a request is forwarded iff the method is POST and `message` and `apiKey` are both set; non-POST gives 405 "Method not allowed", otherwise 400 "Missing required parameters"; the forwarded request carries both parameters |
| Proxy.FailureStatus | api.php:58-62 | after a failed provider call the status is never 200: the provider's own status whenever one exists, and 502 when curl got none |
| Proxy.Respond | api.php:58-74 | status 200 iff the envelope is a success; a provider status other than 200 gives "API request failed" with that status (502 when curl got none); 200 with `candidates[0].content.parts[0].text` set gives exactly that value; otherwise 500 "Invalid API response" |
| Proxy.Handle | api.php:7-74 | an outbound request exists iff validation forwards; then the reply comes from the provider's answer, otherwise it is the validation reply |
| Proxy.ExactlyOneCallWhenValid | api.php:44-56 | exactly one outbound call iff the method is POST and both parameters are set, none otherwise |
| Proxy.RejectionIgnoresUpstream | api.php:7-19 | a rejected request gets the same reply whatever the provider would have answered |
| Proxy.NonPostRejected | api.php:7-11 | any method other than POST gives 405 `{error:"Method not allowed"}` and no outbound call |
| Proxy.MissingParameterRejected | api.php:15-19 | a missing or null `message` or `apiKey`, whichever it is, gives 400 `{error:"Missing required parameters"}` and no outbound call |
| Proxy.EmptyStringsAreSet | api.php:15 | an empty message with an empty key is still forwarded, because the check is `isset` |
| Proxy.ForwardedRequestCarriesParameters | api.php:21-31 | string parameters are forwarded as the prompt's suffix and the URL's key |
| Proxy.RelaysCandidateText | api.php:64-70 | a provider answer with one candidate and one text part is relayed as `{success:true, response:text}` with exactly that text |
| Proxy.UpstreamStatusRelayed | api.php:55-62 | a provider status other than 200 (and other than curl's 0) is passed on with `{error:"API request failed"}` |
| Proxy.NoCandidatesIsInvalid | api.php:71-74 | a provider 200 with an empty candidate list gives 500 `{error:"Invalid API response"}` |
| Proxy.PhpResponseCode | api.php:59 | `http_response_code(0)` sets nothing; any other code is set |
| Proxy.FailureStatusAsWritten | api.php:54-59 | as written, the failure status is the provider's code when it is not 0, and the default 200 when it is 0 |
| Proxy.RespondAsWritten | api.php:58-74 | as written, curl code 0 is answered with status 200 and "API request failed"; every other code gets exactly the corrected reply of `Proxy.Respond` |
| Proxy.HandleAsWritten | api.php:7-74 | the script as written makes the same outbound call as `Proxy.Handle`, replies as `Proxy.RespondAsWritten` when it forwards, and gives the validation reply otherwise |
| Proxy.HandleAsWrittenDiffersOnlyWithoutStatus | api.php:44-74 | whenever curl reports a status, the script as written and `Proxy.Handle` give the same exchange |
| Proxy.HandleAsWrittenTransportFailure | api.php:54-62 | for a valid request with no response at all, the script answers 200 where `Proxy.Handle` answers 502, both with "API request failed" |
| Proxy.TransportFailureAnsweredWith200 | api.php:54-62 | as written, a call with no response at all (curl code 0) is answered with status 200 and an error envelope |
| Proxy.AsWrittenDiffersOnlyWithoutStatus | api.php:58-62 | the script as written and `Proxy.Respond` differ only for curl code 0 |
| ChatSpec.Init | script.js:7-17 | after page load the list is just the greeting, nothing is loading, a stored non-empty key is used, and the key prompt opens exactly when there is no key |
| ChatSpec.Send | script.js:69-103 | the message is sent iff the send-button rule holds; the key prompt opens iff there is no key; a refused send changes nothing; an accepted one appends one user message with the trimmed text and the clock as id, sets loading, keeps the key, and issues a request carrying that text and key |
| ChatSpec.ReplyText | script.js:135-157 | the reply is the candidate's text, or the fixed apology on every failure path |
| ChatSpec.Complete | script.js:129-163 | exactly one message is appended, not the user's, with the reply text and the clock plus one as id; earlier messages are unchanged; loading ends; the key stays |
| ChatSpec.Clear | script.js:284-287 | the list is exactly one greeting: id `welcome`, not the user's, the fixed text; loading flag and key unchanged |
| ChatSpec.SaveKey | script.js:312-319 | the key is replaced by the trimmed input iff the input is not all white space; otherwise nothing changes |
| ChatSpec.SavedKeyIsTrimmed | script.js:315-319 | a saved key is non-empty and already trimmed, and saving never removes a key |
| ChatSpec.NoSendWhileLoading | script.js:73-77 | while loading, a send leaves the session unchanged, so no second user message is added |
| ChatSpec.RoundTrip | script.js:80-162 | an accepted send followed by its completion adds exactly two messages, the user's with the trimmed text and then the assistant's, keeps the old list as a prefix, and ends not loading |
| ChatSpec.UserIdIsNotWelcome | script.js:81-82 | a user message's id never equals the greeting's id |
| ChatSpec.InitEstablishes | script.js:2-17 | the session after page load satisfies the session invariant |
| ChatSpec.ApplyPreserves | script.js:69-163 | every send, completion, clear and key save preserves the session invariant: greeting first, clock ids on user messages, no two adjacent user messages, and when idle the last message is not the user's |
| ChatSpec.RunPreserves | script.js:69-319 | any sequence of events preserves the session invariant |
| ChatSpec.ReachableSessionsAlternate | script.js:73-99 | every session reachable from page load satisfies the session invariant, so in particular no user message directly follows another |
| ChatClient.Chat.constructor | script.js:2-17 | the fields hold the page-load session, which satisfies the invariant |
| ChatClient.Chat.AddWelcomeMessage | script.js:50-60 | the greeting is appended; flag and key unchanged |
| ChatClient.Chat.SetLoading | script.js:166-167 | the flag takes the given value; list and key unchanged |
| ChatClient.Chat.Send | script.js:69-103 | the fields and the result are exactly `ChatSpec.Send` of the old fields; the invariant is kept |
| ChatClient.Chat.Complete | script.js:129-163 | the fields become exactly `ChatSpec.Complete` of the old fields; the invariant is kept |
| ChatClient.Chat.Clear | script.js:284-287 | the fields become exactly `ChatSpec.Clear` of the old fields; the invariant is kept |
| ChatClient.Chat.SaveKey | script.js:312-319 | the fields and the result are exactly `ChatSpec.SaveKey` of the old fields; the invariant is kept |
| ChatClient.Chat.CanSend | script.js:42-44 | the button is enabled iff the trimmed input is non-empty, nothing is loading and a key is present |
| Agreement.ClientSendsWhatProxyForwards | script.js:106-126 | an accepted send issues exactly the request the proxy would forward for the trimmed text and the session's key |
| Agreement.HelloThroughProxy | api.php:64-70 | "Hello" with key "VALIDKEY", answered "Hi there!", goes out as one request and comes back as `{success:true, response:"Hi there!"}` |
| Agreement.HelloInClient | script.js:80-145 | in the client the same example ends with the user's "Hello" and then the assistant's "Hi there!" |

## Left out

- Rendering and every other DOM effect is not modelled: message markup, the "thinking" indicator, the welcome screen, modals, scrolling, textarea resizing and CSS class toggles. `SendResult.NeedKey` stands for opening the key prompt. `SendResult.Sent` marks the path where the input box is cleared.
- `escapeHtml` is not modelled. It delegates to the browser's DOM serialisation, which the model cannot see.
- `fetch`, `curl_*` and `localStorage` are I/O, so none of them is modelled. The provider's answer is an input: an `Outcome` in the client, a status code and decoded body in the proxy. The stored key is an input to page load. Saving the key to storage is not modelled.
- JSON encoding and decoding are not modelled. Decoded bodies are the `Proxy.Json` datatype; text that does not parse is `Null`, as with `json_decode`. JSON numbers with a fraction or an exponent, and integers beyond PHP's integer range, are not modelled.
- `Date.now()` and `toLocaleTimeString` are clock reads, so both are parameters: `now` is the millisecond clock and `time` the display string.
- The floating-point generation parameters (temperature 0.7, top-p 0.95) are not modelled. The integer ones are.
- CORS headers, the disabled certificate check, `setTimeout` and the async interleaving are transport concerns and are not modelled. A call is two sequential steps, `Send` and `Complete`.
- ChatSpec.Complete: the client's own navigation of the parsed body (`data.candidates[0].content.parts[0].text`) is abstracted into `Outcome`. A body on which that path throws counts as `Failed`. A candidate text that is not a string (JavaScript would push `undefined` or a number as the message text) is not modelled.
- ChatClient.Chat.CanSend: this is the rule of the input handler (script.js:43-44) only. `setLoading` (script.js:171) and `saveApiKey` (script.js:326) set the button from shorter rules, and that button state is not modelled. `Send` re-checks the full rule either way.
- Proxy.At: a string offset (`"abc"[0]`) is treated as unset. On the two paths used here it is always followed by a named step, where PHP's `isset` fails on a string, so the result is the same.
- Proxy.PhpString: a float parameter is not modelled. A boolean becomes "1" or "", and an array becomes "Array".
- Proxy.Handle: through `Proxy.Respond` it answers curl code 0 with 502 where the script answers 200; `Proxy.HandleAsWritten` keeps the script's behaviour.
- Proxy.Respond: uses the corrected status for curl code 0 (502) instead of the 200 the script sends; see Findings. `Proxy.RespondAsWritten` keeps the script's behaviour.

## Findings

| source | as written | input that shows it | evidently intended | confidence | as-written member | corrected member |
|---|---|---|---|---|---|---|
| api.php:55-62 | after a failed provider call the script runs `http_response_code($httpCode)`; PHP treats an argument of 0 as "no argument" and only reads the status | curl gets no response at all (DNS failure, refused connection, timeout), so `$httpCode` is 0: the reply is status 200 with `{error:"API request failed"}` | a failed relay never reports status 200: the provider's status when there is one, an error status (502) otherwise | medium, not executed | Proxy.TransportFailureAnsweredWith200 | Proxy.FailureStatus |
