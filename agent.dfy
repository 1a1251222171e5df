/** `UserAgent`: the configuration it is built with, `_make_request`, and
    `urlopen`, which drives one `CompatRequest` through the retry and redirect
    loops and mutates it in place on every hop. Each method is proved to do
    what the functions of `Requests` and `Orchestrator` say. */
module Agent {
  import opened Wrappers
  import Text
  import Urls
  import Errors
  import Requests
  import Responses
  import opened Orchestrator

  class UserAgent {
    const maxRedirects: int
    const maxRetries: int
    const retryDelay: real
    /** `valid_response_codes`, a class attribute a subclass may override. */
    const validResponseCodes: set<int>
    const defaultHeaders: Requests.Headers
    /** `cookiejar is not None` */
    const hasCookieJar: bool
    /** `_handle_error`, the hook a subclass may override. */
    const handleError: Failure -> Verdict
    const syntax: Urls.UrlSyntax
    const encoders: Requests.Encoders

    /** `__init__`: `clientDefaults` is `HTTPClient.DEFAULT_HEADERS`, which
        the given headers update. `validResponseCodes` is the class attribute
        `valid_response_codes`, `Orchestrator.DefaultValidCodes` unless a
        subclass overrides it. */
    constructor (clientDefaults: Requests.Headers, maxRedirects: int, maxRetries: int, retryDelay: real,
                 hasCookieJar: bool, headers: Requests.Headers, validResponseCodes: set<int>,
                 handleError: Failure -> Verdict, syntax: Urls.UrlSyntax, encoders: Requests.Encoders)
      ensures this.maxRedirects == maxRedirects && this.maxRetries == maxRetries && this.retryDelay == retryDelay
      ensures this.hasCookieJar == hasCookieJar && this.validResponseCodes == validResponseCodes
      ensures this.handleError == handleError && this.syntax == syntax && this.encoders == encoders
      ensures forall k :: k in defaultHeaders <==> k in clientDefaults || k in headers
      ensures forall k :: k in headers ==> defaultHeaders[k] == headers[k]
      ensures forall k :: k in clientDefaults && k !in headers ==> defaultHeaders[k] == clientDefaults[k]
    {
      var merged := clientDefaults;
      if headers != map[] {
        merged := merged + headers;
      }
      this.maxRedirects, this.maxRetries, this.retryDelay := maxRedirects, maxRetries, retryDelay;
      defaultHeaders := merged;
      this.hasCookieJar, this.validResponseCodes := hasCookieJar, validResponseCodes;
      this.handleError, this.syntax, this.encoders := handleError, syntax, encoders;
    }

    /** The parts of this agent the retry and redirect loops consult. */
    function Config(): (p: Policy)
      ensures p.maxRedirects == maxRedirects && p.maxRetries == maxRetries && p.retryDelay == retryDelay
      ensures p.validCodes == validResponseCodes && p.hasCookieJar == hasCookieJar
      ensures p.handleError == handleError && p.syntax == syntax
    {
      Policy(maxRedirects, maxRetries, retryDelay, validResponseCodes, hasCookieJar, handleError, syntax)
    }

    /** `_make_request`: copies the defaults, lays the call's headers over
        them, adjusts the content headers to the payload and builds a fresh
        request, or fails with `NotImplementedError` for a multipart body. */
    method MakeRequest(url: Urls.UrlLike, verb: string, headers: Requests.Headers, payload: Requests.Payload)
      returns (r: Result<Requests.CompatRequest, Failure>)
      ensures var prepared := Requests.Prepare(defaultHeaders, headers, payload, encoders);
              match prepared
              case Failure(e) => r == Failure(e)
              case Success(ready) =>
                r.Success? && fresh(r.value) && r.value.Snapshot() == Initial(url, verb, ready, syntax)
    {
      ghost var prepared := Requests.Prepare(defaultHeaders, headers, payload, encoders);
      var reqHeaders := defaultHeaders;
      if headers != map[] {
        reqHeaders := reqHeaders + headers;
      }
      assert reqHeaders == defaultHeaders + headers;
      var body := payload;
      if Requests.Truthy(payload) {
        var contentType := Requests.ContentType(reqHeaders);
        if contentType == "" && payload.Form? {
          reqHeaders := reqHeaders["content-type" := Requests.FormUrlEncoded];
          body := Requests.Chars(encoders.urlencode(payload.fields));
          reqHeaders := reqHeaders["content-length" := Text.Decimal(|body.text|)];
        } else if contentType == "" {
          reqHeaders := reqHeaders["content-type" := Requests.OctetStream];
          body := Requests.Chars(Requests.Stringified(payload, encoders));
          reqHeaders := reqHeaders["content-length" := Text.Decimal(|body.text|)];
        } else if Requests.StartsWith(contentType, Requests.Multipart) {
          assert prepared == Failure(Errors.NotImplemented);
          return Failure(Errors.NotImplemented);
        } else {
          body := Requests.Chars(Requests.Stringified(payload, encoders));
          reqHeaders := reqHeaders["content-length" := Text.Decimal(|body.text|)];
        }
      }
      assert prepared == Success(Requests.Prepared(reqHeaders, body));
      var req := new Requests.CompatRequest(url, verb, reqHeaders, body, syntax);
      return Success(req);
    }

    /** `urlopen`: `script(n)` is what the transport does on its `n`-th call;
        `calls` counts those calls and `trace` records every call into the
        cookie jar, the transport and `gevent.sleep`, in order. */
    method Urlopen(url: Urls.UrlLike, verb: string, headers: Requests.Headers, payload: Requests.Payload,
                   keywords: map<string, string>, toString: bool, script: nat -> Outcome)
      returns (r: Result<Opened, Failure>, calls: nat, ghost trace: seq<Event>)
      ensures var run := Open(Config(), defaultHeaders, encoders, url, verb, headers, payload, keywords, toString, script);
              r == run.result && calls == run.calls && trace == run.trace
    {
      var made := MakeRequest(url, verb, headers, Requests.WithKeywords(payload, keywords));
      if made.Failure? {
        return Failure(made.error), 0, [];
      }
      r, calls, trace := Retries(url, made.value, toString, script);
    }

    /** The outer loop of `urlopen`, `for retry in xrange(max_retries)`,
        over the request `req`, which every redirect hop re-targets in place;
        `last` is the variable `e` the source carries from one attempt to the
        next, None while it is unbound. */
    method Retries(url: Urls.UrlLike, req: Requests.CompatRequest, toString: bool, script: nat -> Outcome)
      returns (r: Result<Opened, Failure>, calls: nat, ghost trace: seq<Event>)
      modifies req
      ensures var run := RunRetries(Config(), url, old(req.Snapshot()), script, 0, 0, None, toString);
              r == run.result && calls == run.calls && trace == run.trace
    {
      calls, trace := 0, [];
      ghost var p := Config();
      ghost var full := RunRetries(p, url, req.Snapshot(), script, 0, 0, None, toString);
      var last: Option<Failure> := None;
      var retry := 0;
      while retry < maxRetries
        invariant 0 <= retry && (retry <= maxRetries || retry == 0)
        invariant var rest := RunRetries(p, url, req.Snapshot(), script, calls, retry, last, toString);
                  full.result == rest.result && full.calls == rest.calls && full.trace == trace + rest.trace
        decreases maxRetries - retry
      {
        ghost var before := trace;
        var done, result;
        ghost var events;
        done, result, calls, events, last := Round(url, req, toString, script, calls, retry, last);
        trace := trace + events;
        if done {
          return result, calls, trace;
        }
        ghost var next := RunRetries(p, url, req.Snapshot(), script, calls, retry + 1, last, toString);
        Concat(before, events, next.trace);
        retry := retry + 1;
      }
      r := Failure(Exhausted(url, maxRetries, last));
      assert trace + [] == trace;
    }

    /** One pass of the outer loop: the pause before every attempt but the
        first, then one attempt. It is `done` when the attempt returned or
        raised; otherwise `last` is the error it left and the loop goes on. */
    method Round(url: Urls.UrlLike, req: Requests.CompatRequest, toString: bool, script: nat -> Outcome,
                 calls0: nat, retry: int, last0: Option<Failure>)
      returns (done: bool, r: Result<Opened, Failure>, calls: nat, ghost events: seq<Event>, last: Option<Failure>)
      requires 0 <= retry < maxRetries
      modifies req
      ensures var rest := RunRetries(Config(), url, old(req.Snapshot()), script, calls0, retry, last0, toString);
              if done then r == rest.result && calls == rest.calls && events == rest.trace
              else
                var next := RunRetries(Config(), url, req.Snapshot(), script, calls, retry + 1, last, toString);
                rest.result == next.result && rest.calls == next.calls && rest.trace == events + next.trace
    {
      ghost var p := Config();
      RetriesStep(p, url, req.Snapshot(), script, calls0, retry, last0, toString);
      ghost var a := RunAttempt(p, url, req.Snapshot(), script, calls0, 0);
      ghost var pause: seq<Event> := [];
      if retry > 0 && retryDelay != 0.0 {
        pause := [Sleep(retryDelay)];
      }
      var end;
      ghost var hops;
      end, calls, hops := TryOnce(url, req, calls0, script);
      events := pause + hops;
      last := last0;
      match end {
        case Returned(reply) =>
          done, r := true, Success(if toString then ContentAccessor(reply) else Response(reply));
        case Aborted(e) =>
          done, r := true, Failure(e);
        case Abandoned(v) =>
          done, r, last := false, Failure(v), Some(v);
      }
    }

    /** A redirect hop applied to `req` in place: `set_url` with the resolved
        `location`, the method downgrade, the dropped payload and the five
        discarded headers. */
    method Retarget(req: Requests.CompatRequest, reply: Reply)
      requires Redirects(reply)
      modifies req
      ensures req.Snapshot() == FollowRedirect(old(req.Snapshot()), reply, syntax)
    {
      ghost var before := req.Snapshot();
      var redirect := Responses.GetHeaders(reply.headers, "location");
      var newUrl := syntax.parse(redirect[0]);
      if newUrl.Netloc() == "" {
        newUrl := newUrl.(scheme := req.urlSplit.scheme, host := req.urlSplit.host, port := req.urlSplit.port);
      }
      req.SetUrl(Urls.Parsed(newUrl), syntax);
      if reply.status in {302, 303} {
        req.verb := "GET";
      }
      req.payload := Requests.NoPayload;
      req.DiscardHeaders(StrippedOnRedirect);
      KeptHeaders(before.headers, req.headers);
    }

    /** One attempt: the inner loop `for redirect_count in
        xrange(max_redirects)`, with its `else` branch, from the call numbered
        `calls0` on. It ends by returning a reply, by raising, or with the
        error `e` that sends `urlopen` on to the next retry. */
    method TryOnce(url: Urls.UrlLike, req: Requests.CompatRequest, calls0: nat, script: nat -> Outcome)
      returns (end: AttemptEnd, calls: nat, ghost trace: seq<Event>)
      modifies req
      ensures var a := RunAttempt(Config(), url, old(req.Snapshot()), script, calls0, 0);
              end == a.end && req.Snapshot() == a.req && calls == a.calls && trace == a.trace
    {
      ghost var p := Config();
      ghost var cur := req.Snapshot();
      ghost var attempt := RunAttempt(p, url, cur, script, calls0, 0);
      calls, trace := calls0, [];
      var hop := 0;
      while hop < maxRedirects
        invariant 0 <= hop && (hop <= maxRedirects || hop == 0)
        invariant req.Snapshot() == cur
        invariant var a := RunAttempt(p, url, cur, script, calls, hop);
                  attempt == a.(trace := trace + a.trace)
        decreases maxRedirects - hop
      {
        ghost var a := RunAttempt(p, url, cur, script, calls, hop);
        AttemptStep(p, url, cur, script, calls, hop);
        ghost var t := trace;
        var step;
        ghost var events;
        step, events := Pass(url, req, script(calls));
        calls := calls + 1;
        trace := trace + events;
        match step {
          case Abort(e) =>
            return Aborted(e), calls, trace;
          case Retry(v) =>
            return Abandoned(v), calls, trace;
          case Finish(reply) =>
            return Returned(reply), calls, trace;
          case Follow(next) =>
            ghost var rest := RunAttempt(p, url, next, script, calls, hop + 1);
            Concat(t, events, rest.trace);
            cur := next;
            hop := hop + 1;
        }
      }
      end := Abandoned(RedirectsExceeded(url, maxRedirects));
    }

    /** One pass of the inner loop on the transport outcome `o`: the cookie
        header, the call, status validation and the error hook, cookie
        extraction, then either the redirect applied to `req` in place or the
        reply to return. */
    method Pass(url: Urls.UrlLike, req: Requests.CompatRequest, o: Outcome)
      returns (step: Step, ghost events: seq<Event>)
      modifies req
      ensures step == Hop(Config(), url, old(req.Snapshot()), o)
      ensures events == HopEvents(Config(), old(req.Snapshot()), o)
      ensures req.Snapshot() == if step.Follow? then step.next else old(req.Snapshot())
    {
      ghost var p := Config();
      events := [];
      if hasCookieJar {
        events := events + [AddCookieHeader(req.Snapshot())];
      }
      events := events + [Send(req.Snapshot())];
      var caught: Option<Failure> := None;
      match o {
        case TimedOut =>
          caught := Some(Errors.Timeout);
        case Crashed(reason) =>
          caught := Some(Errors.TransportError(reason));
        case Answered(reply) =>
          if reply.status !in validResponseCodes {
            caught := Some(Errors.BadStatusCode(url, reply.status));
          }
      }
      assert caught == FailureOf(p, url, o);
      if caught.Some? {
        match handleError(caught.value) {
          case Raise(e) =>
            return Abort(e), events;
          case Recover(v) =>
            return Retry(v), events;
        }
      }
      var reply := o.reply;
      if hasCookieJar {
        events := events + [ExtractCookies(reply.status, req.Snapshot())];
      }
      var redirect := Responses.GetHeaders(reply.headers, "location");
      if reply.status in {301, 302, 303, 307} && redirect != [] {
        Retarget(req, reply);
        step := Follow(req.Snapshot());
      } else {
        step := Finish(reply);
      }
    }
  }

  /** What `DiscardHeaders(StrippedOnRedirect)` leaves is the map a redirect
      hop keeps. */
  lemma KeptHeaders(before: Requests.Headers, after: Requests.Headers)
    requires forall k :: k in after <==> k in before && k !in StrippedOnRedirect
    requires forall k :: k in after ==> after[k] == before[k]
    ensures after == map k | k in before && k !in StrippedOnRedirect :: before[k]
  {
  }

  lemma Concat(a: seq<Event>, b: seq<Event>, c: seq<Event>)
    ensures a + b + c == a + (b + c)
  {
  }
}
