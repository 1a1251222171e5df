/** The retry/redirect state machine of `UserAgent.urlopen`, stated as
    functions over values. The transport is a script of outcomes indexed by call
    number, the error hook is a function, and the calls made into the cookie jar,
    the transport and `gevent.sleep` are recorded as a trace of events. The
    imperative `Agent.UserAgent.Urlopen` is proved equal to `Open`; the lemmas
    here say what `Open` does. */
module Orchestrator {
  import opened Wrappers
  import Urls
  import Errors
  import Requests
  import Responses

  type Failure = Errors.Failure
  type Req = Requests.Req

  /** What the transport hands back: status, headers and the unread body. */
  datatype Reply = Reply(status: int, headers: seq<Responses.Header>, body: Responses.Bytes)

  /** One scripted result of `_urlopen`. */
  datatype Outcome = TimedOut | Crashed(reason: string) | Answered(reply: Reply)

  /** What `_handle_error` does with a caught failure: return a value (the
      attempt ends and the next retry starts) or raise (everything ends). */
  datatype Verdict = Recover(last: Failure) | Raise(error: Failure)

  /** The user agent's configuration and its two overridable decisions. */
  datatype Policy = Policy(maxRedirects: int, maxRetries: int, retryDelay: real,
                           validCodes: set<int>, hasCookieJar: bool,
                           handleError: Failure -> Verdict, syntax: Urls.UrlSyntax)

  /** The calls the orchestrator makes into its collaborators, in order. */
  datatype Event =
    | AddCookieHeader(req: Req)
    | Send(req: Req)
    | ExtractCookies(status: int, req: Req)
    | Sleep(delay: real)

  /** What `urlopen` returns: the response, or, with `to_string`, the response's
      `content` attribute, which the source returns without calling it. */
  datatype Opened = Response(reply: Reply) | ContentAccessor(reply: Reply)

  const DefaultValidCodes: set<int> := {200, 301, 302, 303, 307}
  const RedirectCodes: set<int> := {301, 302, 303, 307}
  const StrippedOnRedirect: seq<string> := ["content-length", "content-type", "content-encoding", "cookie", "cookie2"]

  /** The default `_handle_error`: a timeout is returned, anything else re-raised. */
  function DefaultHandleError(f: Failure): (v: Verdict)
    ensures v.Recover? <==> f.Timeout?
    ensures v.Recover? ==> v.last == f
    ensures v.Raise? ==> v.error == f
  {
    if f.Timeout? then Recover(f) else Raise(f)
  }

  ghost predicate DefaultHook(p: Policy) {
    forall f :: p.handleError(f) == DefaultHandleError(f)
  }

  /** `_verify_status`: None when the status is accepted. */
  function VerifyStatus(validCodes: set<int>, status: int, url: Urls.UrlLike): (r: Option<Failure>)
    ensures r.None? <==> status in validCodes
    ensures r.Some? ==> r.value == Errors.BadStatusCode(url, status)
  {
    if status in validCodes then None else Some(Errors.BadStatusCode(url, status))
  }

  /** `_handle_redirects_exceeded` */
  function RedirectsExceeded(url: Urls.UrlLike, maxRedirects: int): Failure {
    Errors.RetriesExceeded(url, Errors.RedirectLimit(maxRedirects), None)
  }

  /** `_handle_retries_exceeded` */
  function RetriesExceeded(url: Urls.UrlLike, maxRetries: int, last: Option<Failure>): Failure {
    Errors.RetriesExceeded(url, Errors.RetryLimit(maxRetries), last)
  }

  /** What `urlopen` raises once the outer loop is over: `RetriesExceeded`
      carrying the error of the last attempt, or UnboundLocalError when no
      attempt ran and that error was never bound. */
  function Exhausted(url: Urls.UrlLike, maxRetries: int, last: Option<Failure>): (f: Failure)
    ensures f.RetriesExceeded? <==> last.Some?
    ensures f.RetriesExceeded? ==> f.url == url && f.limit == Errors.RetryLimit(maxRetries) && f.original == last
    ensures last.None? ==> f == Errors.UnboundLocal
  {
    if last.Some? then RetriesExceeded(url, maxRetries, last) else Errors.UnboundLocal
  }

  function Location(reply: Reply): seq<string> {
    Responses.GetHeaders(reply.headers, "location")
  }

  /** A reply is followed when its status is a redirect code and it carries a
      `location` header. */
  predicate Redirects(reply: Reply) {
    reply.status in RedirectCodes && Location(reply) != []
  }

  /** The request after one redirect hop. */
  function FollowRedirect(req: Req, reply: Reply, syntax: Urls.UrlSyntax): Req
    requires Redirects(reply)
  {
    var target := Urls.Resolve(req.urlSplit, Location(reply)[0], syntax);
    var kept := map k | k in req.headers && k !in StrippedOnRedirect :: req.headers[k];
    req.(url := syntax.show(target), urlSplit := target,
         verb := if reply.status in {302, 303} then "GET" else req.verb,
         payload := Requests.NoPayload, headers := kept)
  }

  /** A redirect hop re-targets the request at the resolved `location`, with
      `url` and `url_split` in step and `original_host` untouched; 302 and 303
      turn the method into GET while 301 and 307 keep it; the payload is dropped
      and exactly the five stale headers are removed. */
  lemma FollowRedirectEffects(req: Req, reply: Reply, syntax: Urls.UrlSyntax)
    requires Redirects(reply)
    ensures var r := FollowRedirect(req, reply, syntax);
            r.urlSplit == Urls.Resolve(req.urlSplit, Location(reply)[0], syntax) &&
            r.url == syntax.show(r.urlSplit) &&
            r.originalHost == req.originalHost &&
            r.verb == (if reply.status == 302 || reply.status == 303 then "GET" else req.verb) &&
            r.payload == Requests.NoPayload &&
            (forall k :: k in r.headers <==> k in req.headers && k !in StrippedOnRedirect) &&
            (forall k :: k in r.headers ==> r.headers[k] == req.headers[k])
  {
  }

  /** What one pass of the inner loop does next. */
  datatype Step = Abort(error: Failure) | Retry(last: Failure) | Follow(next: Req) | Finish(reply: Reply)

  /** A caught failure goes through the hook. */
  function Caught(p: Policy, f: Failure): Step {
    match p.handleError(f)
    case Recover(v) => Retry(v)
    case Raise(e) => Abort(e)
  }

  /** The failure a transport outcome is caught as, if any. */
  function FailureOf(p: Policy, url: Urls.UrlLike, o: Outcome): Option<Failure> {
    match o
    case TimedOut => Some(Errors.Timeout)
    case Crashed(reason) => Some(Errors.TransportError(reason))
    case Answered(reply) => VerifyStatus(p.validCodes, reply.status, url)
  }

  /** One pass of the inner loop after its transport call: a caught failure
      goes to the hook; an accepted redirect with a `location` is followed; any
      other accepted reply is returned. */
  function Hop(p: Policy, url: Urls.UrlLike, req: Req, o: Outcome): (s: Step)
    ensures (s.Abort? || s.Retry?) <==> FailureOf(p, url, o).Some?
    ensures s.Abort? || s.Retry? ==> s == Caught(p, FailureOf(p, url, o).value)
    ensures s.Follow? <==> o.Answered? && o.reply.status in p.validCodes && Redirects(o.reply)
    ensures s.Follow? ==> s.next == FollowRedirect(req, o.reply, p.syntax)
    ensures s.Finish? <==> o.Answered? && o.reply.status in p.validCodes && !Redirects(o.reply)
    ensures s.Finish? ==> s.reply == o.reply
  {
    match FailureOf(p, url, o)
    case Some(f) => Caught(p, f)
    case None =>
      if Redirects(o.reply) then Follow(FollowRedirect(req, o.reply, p.syntax)) else Finish(o.reply)
  }

  /** `Hop` as the code is written. `gevent.Timeout` derives from
      `BaseException`, so neither `except Exception` clause of the inner loop
      catches it: a timed-out call leaves `urlopen` at once, and the timeout
      branch of `_handle_error` is never reached from it. `Hop`, which hands
      the timeout to the hook, is the evident intent and the one the rest of
      the model follows. */
  function HopAsWritten(p: Policy, url: Urls.UrlLike, req: Req, o: Outcome): Step {
    if o.TimedOut? then Abort(Errors.Timeout) else Hop(p, url, req, o)
  }

  /** The collaborator calls of one pass of the inner loop: with a jar,
      `add_cookie_header` then the call, and `extract_cookies` exactly when the
      reply passed validation; without a jar, the call alone. */
  function HopEvents(p: Policy, req: Req, o: Outcome): (e: seq<Event>)
    ensures !p.hasCookieJar ==> e == [Send(req)]
    ensures p.hasCookieJar ==> 2 <= |e| <= 3 && e[0] == AddCookieHeader(req) && e[1] == Send(req)
    ensures p.hasCookieJar ==> (|e| == 3 <==> o.Answered? && o.reply.status in p.validCodes)
    ensures |e| == 3 ==> o.Answered? && e[2] == ExtractCookies(o.reply.status, req)
  {
    (if p.hasCookieJar then [AddCookieHeader(req)] else [])
    + [Send(req)]
    + (if p.hasCookieJar && o.Answered? && o.reply.status in p.validCodes
       then [ExtractCookies(o.reply.status, req)] else [])
  }

  /** How the inner loop ends: a return, a raise, or an abandoned attempt with
      the error it leaves in `e`. */
  datatype AttemptEnd = Returned(reply: Reply) | Aborted(error: Failure) | Abandoned(last: Failure)

  datatype Attempt = Attempt(end: AttemptEnd, req: Req, calls: nat, trace: seq<Event>)

  /** The inner loop `for redirect_count in xrange(max_redirects)` from pass
      `hop` on, with `calls` transport calls made so far. */
  function RunAttempt(p: Policy, url: Urls.UrlLike, req: Req, script: nat -> Outcome, calls: nat, hop: int): (a: Attempt)
    decreases p.maxRedirects - hop
  {
    if hop >= p.maxRedirects then Attempt(Abandoned(RedirectsExceeded(url, p.maxRedirects)), req, calls, [])
    else
      var o := script(calls);
      var events := HopEvents(p, req, o);
      match Hop(p, url, req, o)
      case Abort(e) => Attempt(Aborted(e), req, calls + 1, events)
      case Retry(v) => Attempt(Abandoned(v), req, calls + 1, events)
      case Finish(reply) => Attempt(Returned(reply), req, calls + 1, events)
      case Follow(next) =>
        var rest := RunAttempt(p, url, next, script, calls + 1, hop + 1);
        rest.(trace := events + rest.trace)
  }

  /** One pass of the inner loop, as `RunAttempt` takes it: the step decides
      whether the attempt ends here or continues from the redirected request. */
  lemma AttemptStep(p: Policy, url: Urls.UrlLike, req: Req, script: nat -> Outcome, calls: nat, hop: int)
    requires hop < p.maxRedirects
    ensures var a := RunAttempt(p, url, req, script, calls, hop);
            var step := Hop(p, url, req, script(calls));
            var events := HopEvents(p, req, script(calls));
            match step
            case Abort(e) => a == Attempt(Aborted(e), req, calls + 1, events)
            case Retry(v) => a == Attempt(Abandoned(v), req, calls + 1, events)
            case Finish(reply) => a == Attempt(Returned(reply), req, calls + 1, events)
            case Follow(next) =>
              var rest := RunAttempt(p, url, next, script, calls + 1, hop + 1);
              a == rest.(trace := events + rest.trace)
  {
  }

  /** The outcome of `urlopen`, the transport calls made, the attempts started
      and the trace. */
  datatype Run = Run(result: Result<Opened, Failure>, calls: nat, attempts: nat, trace: seq<Event>)

  /** The outer loop `for retry in xrange(max_retries)` from `retry` on, with
      `last` the error `e` left by the previous attempt, None while it is
      unbound. */
  function RunRetries(p: Policy, url: Urls.UrlLike, req: Req, script: nat -> Outcome, calls: nat,
                      retry: int, last: Option<Failure>, toString: bool): (r: Run)
    decreases p.maxRetries - retry
  {
    if retry >= p.maxRetries then
      Run(Failure(Exhausted(url, p.maxRetries, last)), calls, 0, [])
    else
      var pause := if retry > 0 && p.retryDelay != 0.0 then [Sleep(p.retryDelay)] else [];
      var a := RunAttempt(p, url, req, script, calls, 0);
      match a.end
      case Returned(reply) =>
        Run(Success(if toString then ContentAccessor(reply) else Response(reply)), a.calls, 1, pause + a.trace)
      case Aborted(e) => Run(Failure(e), a.calls, 1, pause + a.trace)
      case Abandoned(v) =>
        var rest := RunRetries(p, url, a.req, script, a.calls, retry + 1, Some(v), toString);
        Run(rest.result, rest.calls, rest.attempts + 1, pause + a.trace + rest.trace)
  }

  /** One pass of the outer loop, as `RunRetries` takes it: the pause, one
      attempt, and the remaining retries only when the attempt was abandoned. */
  lemma RetriesStep(p: Policy, url: Urls.UrlLike, req: Req, script: nat -> Outcome, calls: nat,
                    retry: int, last: Option<Failure>, toString: bool)
    requires retry < p.maxRetries
    ensures var r := RunRetries(p, url, req, script, calls, retry, last, toString);
            var pause := if retry > 0 && p.retryDelay != 0.0 then [Sleep(p.retryDelay)] else [];
            var a := RunAttempt(p, url, req, script, calls, 0);
            match a.end
            case Returned(reply) =>
              r == Run(Success(if toString then ContentAccessor(reply) else Response(reply)), a.calls, 1, pause + a.trace)
            case Aborted(e) => r == Run(Failure(e), a.calls, 1, pause + a.trace)
            case Abandoned(v) =>
              var rest := RunRetries(p, url, a.req, script, a.calls, retry + 1, Some(v), toString);
              r == Run(rest.result, rest.calls, rest.attempts + 1, pause + a.trace + rest.trace)
  {
  }

  /** The request `_make_request` builds, before any transport call. */
  function Initial(url: Urls.UrlLike, verb: string, prepared: Requests.Prepared, syntax: Urls.UrlSyntax): (r: Req)
    ensures (r.url, r.urlSplit) == Urls.Fields(url, syntax) && r.originalHost == r.urlSplit.Netloc()
    ensures r.verb == verb && r.headers == prepared.headers && r.payload == prepared.payload
  {
    var fields := Urls.Fields(url, syntax);
    Requests.Req(fields.0, fields.1, fields.1.Netloc(), verb, prepared.headers, prepared.payload)
  }

  /** `urlopen(url, method, headers=..., payload=..., to_string=..., **keywords)`. */
  function Open(p: Policy, defaults: Requests.Headers, enc: Requests.Encoders, url: Urls.UrlLike, verb: string,
                headers: Requests.Headers, payload: Requests.Payload, keywords: map<string, string>,
                toString: bool, script: nat -> Outcome): Run
  {
    match Requests.Prepare(defaults, headers, Requests.WithKeywords(payload, keywords), enc)
    case Failure(e) => Run(Failure(e), 0, 0, [])
    case Success(prepared) => RunRetries(p, url, Initial(url, verb, prepared, p.syntax), script, 0, 0, None, toString)
  }
}
