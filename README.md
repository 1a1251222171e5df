# geventhttpclient user agent, modelled in Dafny

This project models `UserAgent` from geventhttpclient's `useragent.py`. `UserAgent` is the
layer above the pooled HTTP client that builds a request and drives it through two nested
loops: `max_retries` attempts, each following up to `max_redirects` redirects. On every hop
it calls the cookie jar, validates the status code, consults the overridable error hook
`_handle_error` and re-targets the request in place when it follows a redirect. The model
also covers the two objects `UserAgent` works with:

- `CompatRequest`, the mutable request;
- `CompatResponse`, the adapter that decodes the body by `content-encoding` and keeps the
  decoded body once it has one.

Layout, one module per file:

- `wrappers.dfy`: `Option` and `Result`.
- `text.dfy`: ASCII case folding, `str(int)`, and `int(str)` with its whitespace and sign
  rules.
- `urls.dfy`: the split URL, `set_url`'s two fields, and resolving a redirect's `location`
  against the request it answers.
- `errors.dfy`: the `ConnectionError` hierarchy and the foreign exceptions the loops catch.
- `requests.dfy`: the payload kinds, the header decision table of `_make_request`, and the
  `CompatRequest` class.
- `responses.dfy`: `getheaders`, the `content-encoding` dispatch, and the `CompatResponse`
  class with its memoised `content()` and `__len__`.
- `orchestrator.dfy`: the retry and redirect state machine of `urlopen`, as functions over
  values.
  - `RunAttempt` is the inner loop and `RunRetries` the outer loop.
  - `Open` is the whole call.
  - The transport is a script `nat -> Outcome`: the outcome of the n-th call.
  - The calls into the cookie jar, the transport and `gevent.sleep` are recorded as a trace
    of events.
- `orchestrator_lemmas.dfy`: what `Open` does, including:
  - the call and attempt budgets;
  - the delays between attempts;
  - the default hook only ever retrying timeouts;
  - endless redirects;
  - the cookie jar's call order;
  - redirect scenarios.
- `trace_calls.dfy`: the trace read call by call. Each transport call, numbered as the
  script numbers it, contributes the cookie jar calls around its send, and each pause
  between attempts contributes one sleep.
- `agent.dfy`: the `UserAgent` class with imperative `MakeRequest`, `Urlopen`, `Retries`,
  `Round`, `TryOnce`, `Pass` and `Retarget`. These mutate one `CompatRequest` in place. Each one is
  proved equal to the function that specifies it.

Some behaviour of the code that the model follows:

- For `deflate`, `unzipped` tries raw deflate first and falls back to the zlib wrapper only
  when raw deflate fails (:121-124).
- `urlopen` never reads its `response_codes` argument (:250). Validation always uses
  `valid_response_codes` (:232).
- With `to_string`, `urlopen` returns `resp.content`, the bound method, without calling it
  (:316). The body is never decoded there, so no decoding error reaches the hook.
- `__len__` falls back to `len(self.content)`, the length of the bound method, not of the
  decoded body (:157; see Findings).
- With `max_retries <= 0` the outer loop never runs, and its `else` branch reads `e`,
  which was never bound (:323). `urlopen` then raises UnboundLocalError, modelled as
  `Errors.UnboundLocal`.

## Model

| member | source | states |
|---|---|---|
| Text.IntTextRoundTrip | src/geventhttpclient/useragent.py:155 | `int()` reads back the `str()` of every int, surrounding whitespace rules included |
| Text.NumeralRoundTrip | src/geventhttpclient/useragent.py:155 | the sign-and-digits numeral that `str(n)` prints parses back to `n` |
| Urls.Url.Netloc | src/geventhttpclient/useragent.py:298 | a netloc is empty exactly when the URL has neither a host nor a port, which is the test that makes a `location` relative |
| Urls.Fields | src/geventhttpclient/useragent.py:48-54 | `set_url` keeps `url` and `url_split` in step: a split URL is stored with its printed form, a string with its parse |
| Urls.Resolve | src/geventhttpclient/useragent.py:297-301 | a `location` with a network location is taken as is; one without inherits scheme, host and port from the current request; the request URI always comes from the location; a hop never loses the network location |
| Urls.ResolveAllSnoc | src/geventhttpclient/useragent.py:294-302 | following one more redirect resolves its location against the target of the chain so far |
| Urls.ResolveAllOrigin | src/geventhttpclient/useragent.py:294-302 | after a chain of redirects the origin is that of the last absolute location, or the first URL's if there is none: relative hops chain from the current request, not the original one |
| Requests.WithKeywords | src/geventhttpclient/useragent.py:255-259 | keyword arguments become the payload when it is falsy, and are dropped for any payload that is neither falsy nor a dict; merged into a dict payload, the keys are the union, the keywords win, and every other entry keeps its value |
| Requests.Prepare | src/geventhttpclient/useragent.py:200-222 | call headers win over defaults; without a payload nothing else changes; a payload fails with NotImplementedError exactly when the preset content-type starts with `multipart/form-data`; otherwise the body leaves as a string with `content-length` declared, url-encoded for a dict with the form content-type, octet-stream for anything else without a preset type, the preset type kept otherwise |
| Requests.ContentLengthReadsBack | src/geventhttpclient/useragent.py:210-221 | the declared `content-length` of a prepared body reads back with `int()` as the body's length |
| Requests.CompatRequest.constructor | src/geventhttpclient/useragent.py:41-46 | the new request holds the `set_url` fields, `original_host` is the first URL's netloc, and method, headers and payload are those given |
| Requests.CompatRequest.SetUrl | src/geventhttpclient/useragent.py:48-54 | both URL fields are replaced together, as `Urls.Fields` gives them |
| Requests.CompatRequest.DiscardHeaders | src/geventhttpclient/useragent.py:306-307 | exactly the named headers are gone and every other header keeps its value |
| Responses.GetHeaders | src/geventhttpclient/useragent.py:136 | `getheaders` returns at most one value per header; `Responses.GetHeadersSpec` states which values it finds |
| Responses.GetHeadersSpec | src/geventhttpclient/useragent.py:136 | `getheaders` finds nothing exactly when no header has the name, whatever the case; it finds only values of headers with that name, and the first value comes from the first such header |
| Responses.ContentEncoding | src/geventhttpclient/useragent.py:135-139 | the first `content-encoding` value lower-cased, or `identity` when the header is absent |
| Responses.Inflated | src/geventhttpclient/useragent.py:114-124 | gzip succeeds exactly when gzip framing decodes, with the gzip output; deflate succeeds exactly when raw deflate or the zlib wrapper decodes, with the raw output when raw deflate decodes and the wrapper's output otherwise; any failure is `zlib.error` |
| Responses.Decoded | src/geventhttpclient/useragent.py:141-150 | identity gives the body; gzip and deflate inflate it; `compress` fails as unsupported; any other encoding fails as unknown, naming the encoding |
| Responses.IdentityByDefault | src/geventhttpclient/useragent.py:135-146 | a response without a `content-encoding` header decodes to its raw body |
| Responses.DeclaredLength | src/geventhttpclient/useragent.py:154-156 | the first `content-length` value parsed by `int()`; none when the header is missing or not a numeral |
| Responses.CompatResponse.constructor | src/geventhttpclient/useragent.py:90-93 | the new adapter holds the status, headers and decoder of the response it wraps, with the whole body unread, nothing kept and the stream not yet read |
| Responses.CompatResponse.Read | src/geventhttpclient/useragent.py:110-112 | `read()` returns what was left of the stream and leaves it empty |
| Responses.CompatResponse.Unzipped | src/geventhttpclient/useragent.py:114-124 | reads the whole stream once and returns its inflation |
| Responses.CompatResponse.ComputeContent | src/geventhttpclient/useragent.py:134-150 | the result is the decoding of the unread stream; the stream is read exactly once for gzip, deflate and identity, and not at all for an encoding that fails |
| Responses.CompatResponse.Content | src/geventhttpclient/useragent.py:126-132 | the first successful call decodes and keeps the body; every later call returns the kept body without touching the stream; a failure keeps nothing |
| Responses.CompatResponse.Length | src/geventhttpclient/useragent.py:152-157 | the declared length when there is one, with the stream and the kept body untouched; otherwise the kept body's length with nothing touched, or else the decoding of the stream: its length with the body kept on success, the decoding error with nothing kept on failure, and the stream read exactly when the encoding reads it |
| Responses.ContentTwice | src/geventhttpclient/useragent.py:126-132 | two `content()` calls on a fresh response: after a success the second call is identical and the stream was read once |
| Responses.ContentAsWritten | src/geventhttpclient/useragent.py:126-132 | as written, `content()` always raises, and raises AttributeError whenever decoding succeeds |
| Responses.SlotsMismatchExample | src/geventhttpclient/useragent.py:88 | for a plain identity response the intended body is the raw body, while the code as written raises AttributeError |
| Responses.LengthAsWritten | src/geventhttpclient/useragent.py:152-157 | as written, `__len__` returns the declared length or raises TypeError |
| Responses.LengthWithoutDeclaration | src/geventhttpclient/useragent.py:157 | without `content-length` the intended length is the body's, while the code as written raises TypeError |
| Orchestrator.RedirectsExceeded | src/geventhttpclient/useragent.py:241-243 | the error an attempt that used up its redirects leaves in `e`: `RetriesExceeded` for the caller's URL with the redirect limit and no original error |
| Orchestrator.RetriesExceeded | src/geventhttpclient/useragent.py:245-248 | the error raised once every retry was used: `RetriesExceeded` for the caller's URL with the retry limit and the last error as the original |
| Orchestrator.Exhausted | src/geventhttpclient/useragent.py:320-323 | after the outer loop, `RetriesExceeded` with the retry limit and the last attempt's error when an attempt ran, and UnboundLocalError exactly when none ran |
| Orchestrator.DefaultHandleError | src/geventhttpclient/useragent.py:235-239 | the default hook returns a failure exactly when it is a timeout, and re-raises everything else unchanged |
| Orchestrator.VerifyStatus | src/geventhttpclient/useragent.py:230-233 | a status passes exactly when it is a valid code; otherwise the failure is `BadStatusCode` with the caller's URL and the status |
| Orchestrator.FollowRedirectEffects | src/geventhttpclient/useragent.py:294-307 | a redirect hop sends the request to the resolved location with `url` and `url_split` in step and `original_host` untouched; 302 and 303 switch to GET while 301 and 307 keep the method; the payload is dropped and exactly the five stale headers are removed |
| Orchestrator.Hop | src/geventhttpclient/useragent.py:268-319 | one pass goes to the hook exactly when the call failed or its status was rejected; it follows exactly an accepted redirect code with a `location`, to `FollowRedirect` of the request; it returns exactly any other accepted reply |
| Orchestrator.HopAsWritten | src/geventhttpclient/useragent.py:272-276 | as written, a timed-out call is raised past both `except Exception` clauses; every other outcome is handled as `Hop` handles it |
| Orchestrator.HopEvents | src/geventhttpclient/useragent.py:268-292 | without a jar a pass only sends; with one, `add_cookie_header` then the send, and `extract_cookies` with the reply's status after it exactly when the status passed validation |
| Orchestrator.FollowRedirect | src/geventhttpclient/useragent.py:294-307 | the request after a redirect hop; `FollowRedirectEffects` states its effects |
| Orchestrator.RunAttempt | src/geventhttpclient/useragent.py:266-321 | the inner loop as a function of the request, the script and the calls made so far; `AttemptStep` and the lemmas below state what it does |
| Orchestrator.RunRetries | src/geventhttpclient/useragent.py:262-323 | the outer loop, passing each abandoned attempt's error and request on to the next; `RetriesStep` and the lemmas below state what it does |
| Orchestrator.Open | src/geventhttpclient/useragent.py:250-323 | the whole `urlopen`: a request that cannot be prepared fails before any call, otherwise the outer loop runs from the built request |
| Orchestrator.AttemptStep | src/geventhttpclient/useragent.py:266-319 | one inner-loop pass either ends the attempt (raise, abandon, return) after one call, or continues from the redirected request with its events in front |
| Orchestrator.RetriesStep | src/geventhttpclient/useragent.py:262-323 | one outer-loop pass sleeps only when it is not the first pass and the delay is non-zero; a returned or raised attempt ends `urlopen`, and an abandoned one passes its error on to the next pass |
| Orchestrator.Initial | src/geventhttpclient/useragent.py:200-222 | the request `_make_request` builds carries the `set_url` fields, the first URL's netloc as `original_host`, and the prepared headers and payload |
| OrchestratorLemmas.HopEventsShape | src/geventhttpclient/useragent.py:268-292 | each inner pass sends exactly the current request once and never sleeps |
| OrchestratorLemmas.AttemptBudget | src/geventhttpclient/useragent.py:266 | an attempt makes at most one transport call per remaining redirect slot |
| OrchestratorLemmas.AttemptTrace | src/geventhttpclient/useragent.py:266-292 | every transport call of an attempt appears as one send in its trace, and an attempt never sleeps |
| OrchestratorLemmas.RetriesBudget | src/geventhttpclient/useragent.py:262-266 | the transport is called at most `max_retries * max_redirects` times, in at most `max_retries` attempts |
| OrchestratorLemmas.RetriesSends | src/geventhttpclient/useragent.py:262-273 | every transport call of a run is one send of its trace |
| OrchestratorLemmas.RetriesSleeps | src/geventhttpclient/useragent.py:262-265 | there is no sleep with a zero delay; otherwise there is one sleep before every attempt but the first, and at least one attempt starts when the retry budget allows |
| OrchestratorLemmas.FirstReplyReturned | src/geventhttpclient/useragent.py:308-311 | an accepted first reply that is not a redirect is returned after one call, in one attempt, with no sleep, and the request sent is the one built |
| OrchestratorLemmas.AttemptUnderDefaultHook | src/geventhttpclient/useragent.py:272-288 | with the default hook, an attempt raises only the non-timeout failure of its own last call, and is abandoned only on a timeout or an exhausted redirect budget |
| OrchestratorLemmas.FatalFailureShape | src/geventhttpclient/useragent.py:272-288 | a failure caught from one call that is not a timeout is a transport error or a `BadStatusCode` naming the caller's URL |
| OrchestratorLemmas.FailureKindsUnderDefaultHook | src/geventhttpclient/useragent.py:272-288 | with the default hook, a failed run raises `RetriesExceeded` for the retry limit and the caller's URL with an original error, or UnboundLocalError exactly when no attempt ran and after no call, or else the transport error or bad status of its very last call |
| OrchestratorLemmas.AttemptCallsAccepted | src/geventhttpclient/useragent.py:268-307 | within an attempt every call but the last got a reply that passed validation, since only a followed redirect lets the inner loop go on |
| OrchestratorLemmas.AttemptCallsUnderDefaultHook | src/geventhttpclient/useragent.py:235-239 | with the default hook an abandoned attempt made no call that failed other than by timing out |
| OrchestratorLemmas.RetriesCallsUnderDefaultHook | src/geventhttpclient/useragent.py:262-288 | with the default hook every call of a run but its last got an accepted reply or timed out, so no call follows a failure the hook re-raises |
| OrchestratorLemmas.ExhaustedOriginUnderDefaultHook | src/geventhttpclient/useragent.py:241-248 | with the default hook, starting from no error (as `urlopen` does) or from one an attempt can be abandoned with, the original error of a `RetriesExceeded` is a timeout or the redirect-limit error |
| OrchestratorLemmas.FailuresUnderDefaultHook | src/geventhttpclient/useragent.py:235-323 | for a whole run with the default hook: a failed run fails only in the ways `FailureKindsUnderDefaultHook` lists; every call but the last got an accepted reply or timed out, so no call follows a fatal failure; and, from no error or an abandoning one, `RetriesExceeded` carries a timeout or the redirect-limit error. |
| OrchestratorLemmas.DefaultCodesFollowRedirects | src/geventhttpclient/useragent.py:186 | under the default `valid_response_codes` every redirect code passes validation, so a redirect with a `location` is always followed |
| OrchestratorLemmas.TimeoutEscapesAsWritten | src/geventhttpclient/useragent.py:272-276 | as written, a timed-out call is raised although the default hook would have retried it; on every other outcome the code as written and `Hop` agree |
| OrchestratorLemmas.OnlyTimeouts | src/geventhttpclient/useragent.py:320-323 | a transport that always times out, under a hook that returns timeouts, gives `RetriesExceeded` with the timeout as the original error, after exactly one call per attempt and `max_retries` attempts |
| OrchestratorLemmas.AttemptAlwaysRedirected | src/geventhttpclient/useragent.py:320-321 | when every reply is an accepted redirect, an attempt makes `max_redirects` calls and ends with the redirect-limit error |
| OrchestratorLemmas.EndlessRedirects | src/geventhttpclient/useragent.py:262-321 | endless redirects end in `RetriesExceeded` whose original error is the redirect-limit error, after exactly `max_retries` attempts and `max_retries * max_redirects` calls |
| OrchestratorLemmas.AttemptCookieOrder | src/geventhttpclient/useragent.py:268-292 | within an attempt, read from the trace alone: a send is preceded by `add_cookie_header` on the same request exactly when there is a jar; every `add_cookie_header` is followed by a send of that request; every `extract_cookies` comes right after a send of the request it names, with a status that passed validation, and only with a jar. That every accepted call is followed by `extract_cookies` is `TraceCalls.AttemptCallCookies` |
| OrchestratorLemmas.RetriesCookieOrder | src/geventhttpclient/useragent.py:262-292 | the whole run, sleeps included, keeps that one-way discipline; `TraceCalls.RetriesCallCookies` gives the other direction for every call |
| OrchestratorLemmas.RelativeRedirectThenSuccess | src/geventhttpclient/useragent.py:294-311 | a 302 or 303 to a relative location followed by an accepted reply: the second call is a GET with no body to the same scheme, host and port, with the location's request URI, and its reply is what `urlopen` returns after two calls |
| OrchestratorLemmas.AttemptFirstSend | src/geventhttpclient/useragent.py:266-273 | an attempt with redirect budget left first sends the request it is given |
| OrchestratorLemmas.RetriesFirstSend | src/geventhttpclient/useragent.py:266-273 | a run with retry and redirect budget left first sends the request it is given |
| OrchestratorLemmas.RedirectThenTimeout | src/geventhttpclient/useragent.py:272-308 | a redirect followed by a recovered timeout abandons the attempt after two calls and leaves the redirected request in place |
| OrchestratorLemmas.RetryResumesAtRedirectTarget | src/geventhttpclient/useragent.py:261-308 | the request is built once, so the retry after that timeout sends the redirected request again, not the original one |
| OrchestratorLemmas.OpenBudget | src/geventhttpclient/useragent.py:250-323 | a whole `urlopen` makes at most `max_retries * max_redirects` transport calls, each one a send of the trace, within at most `max_retries` attempts |
| OrchestratorLemmas.OpenMultipart | src/geventhttpclient/useragent.py:215-218 | a body under a preset multipart content type fails with NotImplementedError before any transport call or sleep |
| TraceCalls.AttemptCallsNumbered | src/geventhttpclient/useragent.py:266-273 | the `k`-th call of an attempt is transport call `calls + k`, and the first one sends the request the attempt began with |
| TraceCalls.AttemptCount | src/geventhttpclient/useragent.py:266-273 | an attempt has one call per transport call it makes |
| TraceCalls.AttemptExpand | src/geventhttpclient/useragent.py:266-292 | an attempt's trace is the events of its calls, in order |
| TraceCalls.AttemptAsCalls | src/geventhttpclient/useragent.py:266-292 | the three facts above together |
| TraceCalls.RetriesExpand | src/geventhttpclient/useragent.py:262-292 | a run's trace is the events of its calls and pauses, in order |
| TraceCalls.RetriesNumbered | src/geventhttpclient/useragent.py:262-273 | the calls of a run are numbered consecutively from its first transport call up to its last |
| TraceCalls.RetriesPauses | src/geventhttpclient/useragent.py:263-265 | every pause of a run lasts `retry_delay` |
| TraceCalls.RetriesFirstCall | src/geventhttpclient/useragent.py:262-273 | a run from the first pass, with retry and redirect budget, starts with its first transport call on the request it was given |
| TraceCalls.RetriesAsCalls | src/geventhttpclient/useragent.py:262-292 | the four facts above together |
| TraceCalls.ExpandCall | src/geventhttpclient/useragent.py:268-292 | every call of a trace has a send of its request, `add_cookie_header` on that request right before it when there is a jar, and `extract_cookies` with that call's status right after it exactly when the jar extracts for that call's outcome |
| TraceCalls.AttemptCallCookies | src/geventhttpclient/useragent.py:268-292 | the `k`-th transport call of an attempt has those cookie jar calls around its send, decided by outcome `calls + k` of the script |
| TraceCalls.RetriesCallCookies | src/geventhttpclient/useragent.py:262-292 | every transport call of a whole run has those cookie jar calls around its send, decided by that call's own outcome in the script |
| TraceCalls.ExpandSleeps | src/geventhttpclient/useragent.py:263-265 | every sleep of a trace comes from a pause, so when every pause lasts `d`, so does every sleep |
| TraceCalls.RetriesSleepPlacement | src/geventhttpclient/useragent.py:262-273 | every sleep lasts `retry_delay`; a run from the first pass begins with the events of its first call, whose send is its first or second event, with no sleep before it |
| Agent.UserAgent.constructor | src/geventhttpclient/useragent.py:189-198 | the default headers are the client defaults updated by the given headers, which win; the limits, delay, jar and hooks are those given |
| Agent.UserAgent.MakeRequest | src/geventhttpclient/useragent.py:200-222 | fails exactly as `Requests.Prepare` does; otherwise returns a fresh request whose state is `Orchestrator.Initial` of the prepared headers and payload |
| Agent.UserAgent.Urlopen | src/geventhttpclient/useragent.py:250-323 | its result, transport call count and collaborator trace are those of `Orchestrator.Open` |
| Agent.UserAgent.Retries | src/geventhttpclient/useragent.py:262-323 | the outer loop over a request mutated in place yields the result, calls and trace of `Orchestrator.RunRetries` from the request's initial state |
| Agent.UserAgent.Round | src/geventhttpclient/useragent.py:262-323 | one pass of the outer loop: when it ends `urlopen`, its result, calls and events are those of `Orchestrator.RunRetries`; otherwise its events followed by the rest of the run's are the rest of that run |
| Agent.UserAgent.TryOnce | src/geventhttpclient/useragent.py:266-321 | the inner loop ends as `Orchestrator.RunAttempt` does, with the request mutated into the attempt's final request |
| Agent.UserAgent.Pass | src/geventhttpclient/useragent.py:268-319 | one pass decides the step `Orchestrator.Hop` gives, records `Orchestrator.HopEvents`, and changes the request only when it follows a redirect |
| Agent.UserAgent.Retarget | src/geventhttpclient/useragent.py:294-307 | the in-place redirect leaves the request equal to `Orchestrator.FollowRedirect` of its old state |
| Agent.KeptHeaders | src/geventhttpclient/useragent.py:306-307 | discarding the five stale headers one by one leaves exactly the map of the other headers |

## Left out

- Network I/O: the client pool, `_urlopen` and `HTTPClientPool` (:198, :224-228) are not modelled. The transport is the `script` parameter, the outcome of each numbered call.
- gevent: `gevent.sleep` and scheduling are not modelled. A sleep is a `Sleep` event of the trace, and concurrency between agents is out of scope.
- Timeouts: `gevent.Timeout` derives from `BaseException`, so the `except Exception` clauses (:274, :282) never catch it. As written, a timeout escapes `urlopen` at once, and the timeout branch of `_handle_error` (:237-238) is unreachable from `urlopen` (see Findings). The model follows the evident intent, in which the hook receives the timeout. `OnlyTimeouts`, `RedirectThenTimeout`, `RetryResumesAtRedirectTarget` and the timeout clauses of `AttemptUnderDefaultHook` describe that intent, not the code as written.
- The redirect body drain `resp.read()` (:296) is not modelled. It runs outside both `try` blocks, so an error raised there leaves `urlopen` at once, bypassing `_handle_error` and using no retry. The model follows every redirect as if that read succeeded.
- The cookie jar: its storage and the headers it adds are not modelled. Its two calls are events naming the request they receive.
- Request header names are used as given, with no case folding. The header dictionary type of `client.py` is not part of this model.
- The `request` and `response` attributes that the loops attach to caught exceptions (:275, :285-286) are not modelled.
- The message formatting of `ConnectionError` (:14-27) is not modelled. A failure carries its URL, the limit or status, and the original error.
- `download` (:325-334) is not modelled: it is file I/O around `urlopen`.
- `RestkitCompatResponse` and `RestkitCompatUserAgent` (:168-181, :337-338) add aliases only, so they are not modelled.
- The `CompatRequest` cookielib accessors (:56-82) are not modelled. `get_host`, `get_type` and `get_origin_req_host` lack a `return`, and the cookie jar that calls them is not part of this model.
- `HTTPClient.DEFAULT_HEADERS` is the constructor's `clientDefaults` parameter.
- The subclassing hooks `_verify_status`, `_handle_redirects_exceeded` and `_handle_retries_exceeded` (:230-248) are fixed to their default bodies (`VerifyStatus`, `RedirectsExceeded`, `Exhausted`). An override that returns a value from `_handle_retries_exceeded`, which `urlopen` would return at :323, is not modelled.
- `_handle_error` is a `Failure -> Verdict` parameter. Its recover case returns a failure, so a hook that returns `None` or any other non-failure value is not modelled. After such a return `e` would be bound yet `None`, and `RetriesExceeded` would carry `original=None`; the model's "UnboundLocalError exactly when no attempt ran" relies on this restriction.
- `url.py` is not part of this model. `URL(text)` and `str(url)` are the two functions of `Urls.UrlSyntax`, so the properties hold for any parser.
- `Urls.Url.Netloc` assumes that the netloc is the host followed by `:port` when a port is given.
- `urlencode`, `str(dict)` and zlib are not modelled: they are function parameters (`Requests.Encoders`, `Responses.Zlib`).
- The `response_codes` argument of `urlopen` (:250) is not a parameter, because the source never reads it.
- With `to_string`, the value returned is `Orchestrator.ContentAccessor`, the un-called `content` method. The intended decode at that point, and its route to the hook (:313-319), are not modelled because the code does not do them.
- The model does not capture that `payload.update(kwargs)` (:259) also mutates the caller's dict. The merged payload is computed as a value.
- `content-length` is stored as its decimal text rather than as the int `len(payload)` (:210, :214, :221). Header values are strings in the model.
- Responses.CompatResponse.Length: a negative declared length is returned as it is. The source would reject it, because `__len__` must not return a negative number.
- Responses.GetHeaders: its own contract is only a length bound. `Responses.GetHeadersSpec` states what it finds.

## Findings

| source | as written | input that shows it | evidently intended | confidence | as-written member | corrected member |
|---|---|---|---|---|---|---|
| src/geventhttpclient/useragent.py:88 | `__slots__` reserves `_content_cached` while `content()` (:129-131) reads and writes `_cached_content`, so the memoising store raises AttributeError | any plain `CompatResponse` with no `content-encoding` header whose `content()` is called | `content()` decodes once, keeps the body and returns it | not executed | Responses.SlotsMismatchExample | Responses.CompatResponse.Content |
| src/geventhttpclient/useragent.py:157 | `len(self.content)` takes the length of the bound method, which raises TypeError | a response without a `content-length` header whose `len()` is taken | the length of the decoded body | not executed | Responses.LengthAsWritten | Responses.CompatResponse.Length |
| src/geventhttpclient/useragent.py:274 | `except Exception` does not catch `gevent.Timeout`, which derives from `BaseException`, so the timeout test of `_handle_error` (:237) is never reached from `urlopen` | a transport call that times out, under the default hook | the hook returns the timeout and the next attempt retries | not executed; rests on gevent's `Timeout` class, which is not part of this model | OrchestratorLemmas.TimeoutEscapesAsWritten | OrchestratorLemmas.OnlyTimeouts |
