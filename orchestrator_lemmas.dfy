/** What the retry/redirect state machine of `Orchestrator` guarantees. */
module OrchestratorLemmas {
  import opened Wrappers
  import Urls
  import Errors
  import Requests
  import Responses
  import opened Orchestrator

  /** The number of passes `xrange(n)` makes. */
  function Budget(n: int): nat {
    if n > 0 then n else 0
  }

  /** The requests handed to the transport, in order. */
  function Sends(t: seq<Event>): seq<Req> {
    if t == [] then [] else (if t[0].Send? then [t[0].req] else []) + Sends(t[1..])
  }

  function CountSleeps(t: seq<Event>): nat {
    if t == [] then 0 else (if t[0].Sleep? then 1 else 0) + CountSleeps(t[1..])
  }

  lemma {:induction false} SendsAppend(a: seq<Event>, b: seq<Event>)
    ensures Sends(a + b) == Sends(a) + Sends(b)
  {
    if a != [] {
      var head: seq<Req> := if a[0].Send? then [a[0].req] else [];
      assert (a + b)[0] == a[0] && (a + b)[1..] == a[1..] + b;
      SendsAppend(a[1..], b);
      calc {
        Sends(a + b);
        head + Sends(a[1..] + b);
        head + (Sends(a[1..]) + Sends(b));
        (head + Sends(a[1..])) + Sends(b);
        Sends(a) + Sends(b);
      }
    } else {
      assert a + b == b;
    }
  }

  lemma {:induction false} CountSleepsAppend(a: seq<Event>, b: seq<Event>)
    ensures CountSleeps(a + b) == CountSleeps(a) + CountSleeps(b)
  {
    if a != [] {
      assert (a + b)[0] == a[0] && (a + b)[1..] == a[1..] + b;
      CountSleepsAppend(a[1..], b);
      assert CountSleeps(a + b) == (if a[0].Sleep? then 1 else 0) + CountSleeps(a[1..] + b);
    } else {
      assert a + b == b;
    }
  }

  lemma HopEventsShape(p: Policy, req: Req, o: Outcome)
    ensures Sends(HopEvents(p, req, o)) == [req]
    ensures CountSleeps(HopEvents(p, req, o)) == 0
  {
    var pre: seq<Event> := if p.hasCookieJar then [AddCookieHeader(req)] else [];
    var post: seq<Event> := if p.hasCookieJar && o.Answered? && o.reply.status in p.validCodes
                            then [ExtractCookies(o.reply.status, req)] else [];
    assert HopEvents(p, req, o) == pre + [Send(req)] + post;
    SendsAppend(pre + [Send(req)], post);
    SendsAppend(pre, [Send(req)]);
    CountSleepsAppend(pre + [Send(req)], post);
    CountSleepsAppend(pre, [Send(req)]);
  }

  /** One attempt makes at most one transport call per remaining redirect slot. */
  lemma {:induction false} AttemptBudget(p: Policy, url: Urls.UrlLike, req: Req, script: nat -> Outcome, calls: nat, hop: int)
    requires 0 <= hop
    ensures var a := RunAttempt(p, url, req, script, calls, hop);
            calls <= a.calls <= calls + Budget(p.maxRedirects - hop)
    decreases p.maxRedirects - hop
  {
    if hop < p.maxRedirects {
      var step := Hop(p, url, req, script(calls));
      if step.Follow? {
        AttemptBudget(p, url, step.next, script, calls + 1, hop + 1);
      }
    }
  }

  /** Within an attempt every transport call is one `Send` of the trace, and
      no sleep happens. */
  lemma {:induction false} AttemptTrace(p: Policy, url: Urls.UrlLike, req: Req, script: nat -> Outcome, calls: nat, hop: int)
    ensures var a := RunAttempt(p, url, req, script, calls, hop);
            |Sends(a.trace)| == a.calls - calls && CountSleeps(a.trace) == 0
    decreases p.maxRedirects - hop
  {
    if hop < p.maxRedirects {
      var o := script(calls);
      var step := Hop(p, url, req, o);
      var events := HopEvents(p, req, o);
      HopEventsShape(p, req, o);
      if step.Follow? {
        var rest := RunAttempt(p, url, step.next, script, calls + 1, hop + 1);
        AttemptTrace(p, url, step.next, script, calls + 1, hop + 1);
        SendsAppend(events, rest.trace);
        CountSleepsAppend(events, rest.trace);
        assert RunAttempt(p, url, req, script, calls, hop).trace == events + rest.trace;
      }
    }
  }

  lemma OneMore(m: int, b: nat)
    requires m >= 1
    ensures m * b == b + (m - 1) * b && (m - 1) * b >= 0
  {
  }

  /** The transport is called at most `max_retries * max_redirects` times, and
      at most `max_retries` attempts start. */
  lemma {:induction false} RetriesBudget(p: Policy, url: Urls.UrlLike, req: Req, script: nat -> Outcome, calls: nat,
                                         retry: int, last: Option<Failure>, toString: bool)
    requires 0 <= retry
    ensures var r := RunRetries(p, url, req, script, calls, retry, last, toString);
            calls <= r.calls <= calls + Budget(p.maxRetries - retry) * Budget(p.maxRedirects) &&
            r.attempts <= Budget(p.maxRetries - retry)
    decreases p.maxRetries - retry
  {
    if retry < p.maxRetries {
      var a := RunAttempt(p, url, req, script, calls, 0);
      AttemptBudget(p, url, req, script, calls, 0);
      var b := Budget(p.maxRedirects);
      var m := p.maxRetries - retry;
      OneMore(m, b);
      if a.end.Abandoned? {
        RetriesBudget(p, url, a.req, script, a.calls, retry + 1, Some(a.end.last), toString);
        assert Budget(p.maxRetries - (retry + 1)) == m - 1;
      }
    }
  }

  /** Every transport call of a run is one `Send` of its trace. */
  lemma {:induction false} RetriesSends(p: Policy, url: Urls.UrlLike, req: Req, script: nat -> Outcome, calls: nat,
                                        retry: int, last: Option<Failure>, toString: bool)
    ensures var r := RunRetries(p, url, req, script, calls, retry, last, toString);
            |Sends(r.trace)| == r.calls - calls
    decreases p.maxRetries - retry
  {
    if retry < p.maxRetries {
      var pause := if retry > 0 && p.retryDelay != 0.0 then [Sleep(p.retryDelay)] else [];
      var a := RunAttempt(p, url, req, script, calls, 0);
      AttemptTrace(p, url, req, script, calls, 0);
      SendsAppend(pause, a.trace);
      if a.end.Abandoned? {
        var rest := RunRetries(p, url, a.req, script, a.calls, retry + 1, Some(a.end.last), toString);
        RetriesSends(p, url, a.req, script, a.calls, retry + 1, Some(a.end.last), toString);
        SendsAppend(pause + a.trace, rest.trace);
      }
    }
  }

  /** A sleep of `retry_delay` precedes every attempt but the first, and none is
      taken when the delay is zero. */
  lemma {:induction false} RetriesSleeps(p: Policy, url: Urls.UrlLike, req: Req, script: nat -> Outcome, calls: nat,
                                         retry: int, last: Option<Failure>, toString: bool)
    requires 0 <= retry
    ensures var r := RunRetries(p, url, req, script, calls, retry, last, toString);
            CountSleeps(r.trace) ==
              if p.retryDelay == 0.0 || r.attempts == 0 then 0
              else if retry > 0 then r.attempts else r.attempts - 1
    ensures retry < p.maxRetries ==> RunRetries(p, url, req, script, calls, retry, last, toString).attempts >= 1
    decreases p.maxRetries - retry
  {
    if retry < p.maxRetries {
      var pause := if retry > 0 && p.retryDelay != 0.0 then [Sleep(p.retryDelay)] else [];
      var a := RunAttempt(p, url, req, script, calls, 0);
      RetriesStep(p, url, req, script, calls, retry, last, toString);
      AttemptTrace(p, url, req, script, calls, 0);
      CountSleepsAppend(pause, a.trace);
      assert CountSleeps(pause) == if retry > 0 && p.retryDelay != 0.0 then 1 else 0;
      if a.end.Abandoned? {
        var rest := RunRetries(p, url, a.req, script, a.calls, retry + 1, Some(a.end.last), toString);
        RetriesSleeps(p, url, a.req, script, a.calls, retry + 1, Some(a.end.last), toString);
        CountSleepsAppend(pause + a.trace, rest.trace);
      }
    }
  }

  /** A first reply that is accepted and not a redirect is returned after one
      transport call, in the first attempt, with no sleep. */
  lemma FirstReplyReturned(p: Policy, url: Urls.UrlLike, req: Req, script: nat -> Outcome, toString: bool)
    requires p.maxRetries >= 1 && p.maxRedirects >= 1
    requires script(0).Answered? && script(0).reply.status in p.validCodes && !Redirects(script(0).reply)
    ensures var r := RunRetries(p, url, req, script, 0, 0, None, toString);
            r.result == Success(if toString then ContentAccessor(script(0).reply) else Response(script(0).reply)) &&
            r.calls == 1 && r.attempts == 1 && CountSleeps(r.trace) == 0 && Sends(r.trace) == [req]
  {
    var a := RunAttempt(p, url, req, script, 0, 0);
    HopEventsShape(p, req, script(0));
    assert [] + a.trace == a.trace;
  }

  /** With the default hook an attempt ends in a raise only for the failure of
      its own last transport call, never for a timeout; it is abandoned only on
      a timeout or when the redirect budget runs out. */
  lemma {:induction false} AttemptUnderDefaultHook(p: Policy, url: Urls.UrlLike, req: Req, script: nat -> Outcome, calls: nat, hop: int)
    requires DefaultHook(p)
    ensures var a := RunAttempt(p, url, req, script, calls, hop);
            (a.end.Aborted? ==> a.calls > calls && FailureOf(p, url, script(a.calls - 1)) == Some(a.end.error) &&
                                 !a.end.error.Timeout?) &&
            (a.end.Abandoned? ==> a.end.last == Errors.Timeout || a.end.last == RedirectsExceeded(url, p.maxRedirects))
    decreases p.maxRedirects - hop
  {
    if hop < p.maxRedirects {
      var o := script(calls);
      match FailureOf(p, url, o)
      case Some(f) =>
        assert p.handleError(f) == DefaultHandleError(f);
      case None =>
        if Redirects(o.reply) {
          AttemptUnderDefaultHook(p, url, FollowRedirect(req, o.reply, p.syntax), script, calls + 1, hop + 1);
        }
    }
  }

  /** A failure of one transport call that is not a timeout is a transport
      error or a bad status naming the URL asked for. */
  lemma FatalFailureShape(p: Policy, url: Urls.UrlLike, o: Outcome, e: Failure)
    requires FailureOf(p, url, o) == Some(e) && !e.Timeout?
    ensures e.TransportError? || (e.BadStatusCode? && e.url == url)
  {
    if o.Answered? {
      assert VerifyStatus(p.validCodes, o.reply.status, url) == Some(e);
    }
  }

  /** With the default hook, `urlopen` fails either with `RetriesExceeded` for
      its retry budget, or with the failure of the very last transport call it
      made (a transport error or a bad status); every connection error names
      the URL the caller asked for. Only a loop that runs no attempt at all ends
      in UnboundLocalError. */
  lemma {:induction false} FailureKindsUnderDefaultHook(p: Policy, url: Urls.UrlLike, req: Req, script: nat -> Outcome, calls: nat,
                                                    retry: int, last: Option<Failure>, toString: bool)
    requires DefaultHook(p)
    ensures var r := RunRetries(p, url, req, script, calls, retry, last, toString);
            r.result.Failure? ==>
              (r.result.error.RetriesExceeded? ==>
                 r.result.error.url == url && r.result.error.limit == Errors.RetryLimit(p.maxRetries) &&
                 r.result.error.original.Some?) &&
              (r.result.error.UnboundLocal? <==> retry >= p.maxRetries && last.None?) &&
              (r.result.error.UnboundLocal? ==> r.calls == calls) &&
              (!r.result.error.RetriesExceeded? && !r.result.error.UnboundLocal? ==>
                 r.calls > calls && FailureOf(p, url, script(r.calls - 1)) == Some(r.result.error) &&
                 (r.result.error.TransportError? || (r.result.error.BadStatusCode? && r.result.error.url == url)))
    decreases p.maxRetries - retry
  {
    if retry < p.maxRetries {
      var r := RunRetries(p, url, req, script, calls, retry, last, toString);
      var a := RunAttempt(p, url, req, script, calls, 0);
      AttemptUnderDefaultHook(p, url, req, script, calls, 0);
      RetriesStep(p, url, req, script, calls, retry, last, toString);
      match a.end
      case Returned(_) =>
      case Aborted(e) =>
        assert r.result == Failure(e) && r.calls == a.calls;
        FatalFailureShape(p, url, script(a.calls - 1), e);
      case Abandoned(v) =>
        var rest := RunRetries(p, url, a.req, script, a.calls, retry + 1, Some(v), toString);
        assert r.result == rest.result && r.calls == rest.calls;
        FailureKindsUnderDefaultHook(p, url, a.req, script, a.calls, retry + 1, Some(v), toString);
        AttemptBudget(p, url, req, script, calls, 0);
    }
  }

  /** The transport calls numbered `from` up to but excluding `to` all got a
      reply that passed validation. */
  ghost predicate CallsAccepted(p: Policy, url: Urls.UrlLike, script: nat -> Outcome, from: int, to: int) {
    forall n: nat :: from <= n < to ==> FailureOf(p, url, script(n)).None?
  }

  /** The transport calls numbered `from` up to but excluding `to` each got a
      reply that passed validation or timed out: none failed in a way the
      default hook re-raises. */
  ghost predicate CallsRecoverable(p: Policy, url: Urls.UrlLike, script: nat -> Outcome, from: int, to: int) {
    forall n: nat :: from <= n < to ==>
      FailureOf(p, url, script(n)).None? || FailureOf(p, url, script(n)) == Some(Errors.Timeout)
  }

  /** Within an attempt only the last call can fail: every earlier one was
      followed as a redirect. */
  lemma {:induction false} AttemptCallsAccepted(p: Policy, url: Urls.UrlLike, req: Req, script: nat -> Outcome, calls: nat, hop: int)
    ensures calls <= RunAttempt(p, url, req, script, calls, hop).calls
    ensures CallsAccepted(p, url, script, calls, RunAttempt(p, url, req, script, calls, hop).calls - 1)
    decreases p.maxRedirects - hop
  {
    if hop < p.maxRedirects {
      var o := script(calls);
      AttemptStep(p, url, req, script, calls, hop);
      if Hop(p, url, req, o).Follow? {
        var next := FollowRedirect(req, o.reply, p.syntax);
        AttemptCallsAccepted(p, url, next, script, calls + 1, hop + 1);
        assert RunAttempt(p, url, req, script, calls, hop).calls == RunAttempt(p, url, next, script, calls + 1, hop + 1).calls;
      }
    }
  }

  /** With the default hook an abandoned attempt made no call that failed
      other than by timing out. */
  lemma {:induction false} AttemptCallsUnderDefaultHook(p: Policy, url: Urls.UrlLike, req: Req, script: nat -> Outcome, calls: nat, hop: int)
    requires DefaultHook(p)
    ensures RunAttempt(p, url, req, script, calls, hop).end.Abandoned? ==>
              CallsRecoverable(p, url, script, calls, RunAttempt(p, url, req, script, calls, hop).calls)
    decreases p.maxRedirects - hop
  {
    if hop < p.maxRedirects {
      var o := script(calls);
      AttemptStep(p, url, req, script, calls, hop);
      match FailureOf(p, url, o)
      case Some(f) =>
        assert p.handleError(f) == DefaultHandleError(f);
      case None =>
        if Redirects(o.reply) {
          var next := FollowRedirect(req, o.reply, p.syntax);
          assert Hop(p, url, req, o) == Follow(next);
          AttemptCallsUnderDefaultHook(p, url, next, script, calls + 1, hop + 1);
          assert RunAttempt(p, url, req, script, calls, hop).calls == RunAttempt(p, url, next, script, calls + 1, hop + 1).calls;
          assert RunAttempt(p, url, req, script, calls, hop).end == RunAttempt(p, url, next, script, calls + 1, hop + 1).end;
        }
    }
  }

  /** With the default hook, every transport call of a run but its last got a
      reply that passed validation or timed out: no call follows a failure the
      hook re-raises. */
  lemma {:induction false} RetriesCallsUnderDefaultHook(p: Policy, url: Urls.UrlLike, req: Req, script: nat -> Outcome, calls: nat,
                                                        retry: int, last: Option<Failure>, toString: bool)
    requires DefaultHook(p)
    ensures CallsRecoverable(p, url, script, calls, RunRetries(p, url, req, script, calls, retry, last, toString).calls - 1)
    decreases p.maxRetries - retry
  {
    if retry < p.maxRetries {
      var r := RunRetries(p, url, req, script, calls, retry, last, toString);
      var a := RunAttempt(p, url, req, script, calls, 0);
      RetriesStep(p, url, req, script, calls, retry, last, toString);
      AttemptCallsAccepted(p, url, req, script, calls, 0);
      AttemptCallsUnderDefaultHook(p, url, req, script, calls, 0);
      if a.end.Abandoned? {
        var rest := RunRetries(p, url, a.req, script, a.calls, retry + 1, Some(a.end.last), toString);
        assert r.calls == rest.calls;
        RetriesCallsUnderDefaultHook(p, url, a.req, script, a.calls, retry + 1, Some(a.end.last), toString);
      } else {
        assert r.calls == a.calls;
      }
    }
  }

  /** With the default hook, the error a `RetriesExceeded` carries is a timeout
      or the redirect-limit error, the only errors an attempt is abandoned
      with. */
  lemma {:induction false} ExhaustedOriginUnderDefaultHook(p: Policy, url: Urls.UrlLike, req: Req, script: nat -> Outcome, calls: nat,
                                                           retry: int, last: Option<Failure>, toString: bool)
    requires DefaultHook(p)
    requires last.None? || last == Some(Errors.Timeout) || last == Some(RedirectsExceeded(url, p.maxRedirects))
    ensures var r := RunRetries(p, url, req, script, calls, retry, last, toString);
            r.result.Failure? && r.result.error.RetriesExceeded? ==>
              r.result.error.original == Some(Errors.Timeout) ||
              r.result.error.original == Some(RedirectsExceeded(url, p.maxRedirects))
    decreases p.maxRetries - retry
  {
    if retry < p.maxRetries {
      var r := RunRetries(p, url, req, script, calls, retry, last, toString);
      var a := RunAttempt(p, url, req, script, calls, 0);
      RetriesStep(p, url, req, script, calls, retry, last, toString);
      AttemptUnderDefaultHook(p, url, req, script, calls, 0);
      match a.end
      case Returned(_) =>
      case Aborted(e) =>
        assert r.result == Failure(e);
        FatalFailureShape(p, url, script(a.calls - 1), e);
      case Abandoned(v) =>
        var rest := RunRetries(p, url, a.req, script, a.calls, retry + 1, Some(v), toString);
        assert r.result == rest.result;
        ExhaustedOriginUnderDefaultHook(p, url, a.req, script, a.calls, retry + 1, Some(v), toString);
    }
  }

  /** With the default hook, `urlopen` fails either with `RetriesExceeded` for
      its retry budget, carrying a timeout or the redirect-limit error, or with
      the failure of the very last transport call it made (a transport error or
      a bad status); every call before the last got an accepted reply or timed
      out, so no call follows a fatal failure. Only a loop that runs no attempt
      at all ends in UnboundLocalError. */
  lemma FailuresUnderDefaultHook(p: Policy, url: Urls.UrlLike, req: Req, script: nat -> Outcome, calls: nat,
                                 retry: int, last: Option<Failure>, toString: bool)
    requires DefaultHook(p)
    ensures var r := RunRetries(p, url, req, script, calls, retry, last, toString);
            r.result.Failure? ==>
              (r.result.error.RetriesExceeded? ==>
                 r.result.error.url == url && r.result.error.limit == Errors.RetryLimit(p.maxRetries) &&
                 r.result.error.original.Some?) &&
              (r.result.error.UnboundLocal? <==> retry >= p.maxRetries && last.None?) &&
              (r.result.error.UnboundLocal? ==> r.calls == calls) &&
              (!r.result.error.RetriesExceeded? && !r.result.error.UnboundLocal? ==>
                 r.calls > calls && FailureOf(p, url, script(r.calls - 1)) == Some(r.result.error) &&
                 (r.result.error.TransportError? || (r.result.error.BadStatusCode? && r.result.error.url == url)))
    ensures CallsRecoverable(p, url, script, calls, RunRetries(p, url, req, script, calls, retry, last, toString).calls - 1)
    ensures var r := RunRetries(p, url, req, script, calls, retry, last, toString);
            (last.None? || last == Some(Errors.Timeout) || last == Some(RedirectsExceeded(url, p.maxRedirects))) &&
            r.result.Failure? && r.result.error.RetriesExceeded? ==>
              r.result.error.original == Some(Errors.Timeout) ||
              r.result.error.original == Some(RedirectsExceeded(url, p.maxRedirects))
  {
    FailureKindsUnderDefaultHook(p, url, req, script, calls, retry, last, toString);
    RetriesCallsUnderDefaultHook(p, url, req, script, calls, retry, last, toString);
    if last.None? || last == Some(Errors.Timeout) || last == Some(RedirectsExceeded(url, p.maxRedirects)) {
      ExhaustedOriginUnderDefaultHook(p, url, req, script, calls, retry, last, toString);
    }
  }

  /** As written, a timed-out call is raised whatever the hook would say, while
      the default hook, which tests for exactly this case, retries it; on
      every other outcome the code as written and the intended step agree. */
  lemma TimeoutEscapesAsWritten(p: Policy, url: Urls.UrlLike, req: Req, o: Outcome)
    ensures o.TimedOut? ==> HopAsWritten(p, url, req, o) == Abort(Errors.Timeout)
    ensures o.TimedOut? && DefaultHook(p) ==> Hop(p, url, req, o) == Retry(Errors.Timeout)
    ensures !o.TimedOut? ==> HopAsWritten(p, url, req, o) == Hop(p, url, req, o)
  {
  }

  /** Under the class's default `valid_response_codes` every redirect code
      passes validation, so a redirect that names a `location` is always
      followed, whatever the hook. */
  lemma DefaultCodesFollowRedirects(p: Policy, url: Urls.UrlLike, req: Req, o: Outcome)
    requires p.validCodes == DefaultValidCodes
    requires o.Answered? && Redirects(o.reply)
    ensures Hop(p, url, req, o) == Follow(FollowRedirect(req, o.reply, p.syntax))
  {
  }

  /** A transport that only ever times out, under a hook that returns timeouts:
      every attempt makes one call and is abandoned, and `RetriesExceeded`
      carries the timeout as its original error. */
  lemma {:induction false} OnlyTimeouts(p: Policy, url: Urls.UrlLike, req: Req, script: nat -> Outcome, calls: nat,
                                        retry: int, last: Option<Failure>, toString: bool)
    requires p.maxRedirects >= 1 && 0 <= retry < p.maxRetries
    requires p.handleError(Errors.Timeout) == Recover(Errors.Timeout)
    requires forall i :: script(i) == TimedOut
    ensures var r := RunRetries(p, url, req, script, calls, retry, last, toString);
            r.result == Failure(RetriesExceeded(url, p.maxRetries, Some(Errors.Timeout))) &&
            r.calls == calls + p.maxRetries - retry && r.attempts == p.maxRetries - retry
    decreases p.maxRetries - retry
  {
    var a := RunAttempt(p, url, req, script, calls, 0);
    assert a.end == Abandoned(Errors.Timeout) && a.calls == calls + 1 && a.req == req;
    if retry + 1 < p.maxRetries {
      OnlyTimeouts(p, url, req, script, calls + 1, retry + 1, Some(Errors.Timeout), toString);
    }
  }

  /** Every reply is an accepted redirect: each attempt spends its whole
      redirect budget, which does not consume retries. */
  lemma {:induction false} AttemptAlwaysRedirected(p: Policy, url: Urls.UrlLike, req: Req, script: nat -> Outcome, calls: nat, hop: int)
    requires 0 <= hop
    requires forall i :: script(i).Answered? && script(i).reply.status in p.validCodes && Redirects(script(i).reply)
    ensures var a := RunAttempt(p, url, req, script, calls, hop);
            a.end == Abandoned(RedirectsExceeded(url, p.maxRedirects)) &&
            a.calls == calls + Budget(p.maxRedirects - hop)
    decreases p.maxRedirects - hop
  {
    if hop < p.maxRedirects {
      var o := script(calls);
      AttemptAlwaysRedirected(p, url, FollowRedirect(req, o.reply, p.syntax), script, calls + 1, hop + 1);
    }
  }

  /** Redirects beyond `max_redirects` in every attempt end, after exactly
      `max_retries` attempts and `max_retries * max_redirects` calls, in
      `RetriesExceeded` whose original error is the redirect-limit error. */
  lemma {:induction false} EndlessRedirects(p: Policy, url: Urls.UrlLike, req: Req, script: nat -> Outcome, calls: nat,
                                            retry: int, last: Option<Failure>, toString: bool)
    requires 0 <= retry < p.maxRetries
    requires forall i :: script(i).Answered? && script(i).reply.status in p.validCodes && Redirects(script(i).reply)
    ensures var r := RunRetries(p, url, req, script, calls, retry, last, toString);
            r.result == Failure(RetriesExceeded(url, p.maxRetries, Some(RedirectsExceeded(url, p.maxRedirects)))) &&
            r.calls == calls + (p.maxRetries - retry) * Budget(p.maxRedirects) &&
            r.attempts == p.maxRetries - retry
    decreases p.maxRetries - retry
  {
    var a := RunAttempt(p, url, req, script, calls, 0);
    AttemptAlwaysRedirected(p, url, req, script, calls, 0);
    var b := Budget(p.maxRedirects);
    var m := p.maxRetries - retry;
    assert m * b == b + (m - 1) * b;
    if retry + 1 < p.maxRetries {
      EndlessRedirects(p, url, a.req, script, a.calls, retry + 1, Some(a.end.last), toString);
    }
  }

  /** The cookie jar discipline of a trace, read from the events alone: with a
      jar, `add_cookie_header` runs on the very request each transport call
      then sends, right before it; every `extract_cookies` comes right after a
      send of the request it names, before any redirect changed it, and carries
      a status that passed validation; without a jar neither is called. That
      each accepted call is followed by `extract_cookies` needs the script, and
      is `TraceCalls.AttemptCallCookies`. */
  ghost predicate CookieOrder(p: Policy, t: seq<Event>) {
    && (forall i {:trigger t[i]} :: 0 <= i < |t| && t[i].Send? ==>
          (p.hasCookieJar <==> (i > 0 && t[i - 1] == AddCookieHeader(t[i].req))))
    && (forall i :: 0 <= i < |t| && t[i].AddCookieHeader? ==>
          p.hasCookieJar && i + 1 < |t| && t[i + 1] == Send(t[i].req))
    && (forall i {:trigger t[i]} :: 0 <= i < |t| && t[i].ExtractCookies? ==>
          p.hasCookieJar && i > 0 && t[i - 1] == Send(t[i].req) && t[i].status in p.validCodes)
  }

  lemma CookieOrderAppend(p: Policy, a: seq<Event>, b: seq<Event>)
    requires CookieOrder(p, a) && CookieOrder(p, b)
    ensures CookieOrder(p, a + b)
  {
    var t := a + b;
    forall i | 0 <= i < |t| && t[i].Send?
      ensures p.hasCookieJar <==> (i > 0 && t[i - 1] == AddCookieHeader(t[i].req))
    {
      if i < |a| {
        assert t[i] == a[i];
        if i > 0 { assert t[i - 1] == a[i - 1]; }
      } else if i > |a| {
        assert t[i] == b[i - |a|] && t[i - 1] == b[i - 1 - |a|];
      } else {
        assert t[i] == b[0] && b[0].Send?;
        assert !p.hasCookieJar;
        if i > 0 {
          assert t[i - 1] == a[|a| - 1];
          // the last event of a cannot be an `add_cookie_header`: a send must follow it
          assert !a[|a| - 1].AddCookieHeader?;
        }
      }
    }
    forall i | 0 <= i < |t| && t[i].AddCookieHeader?
      ensures p.hasCookieJar && i + 1 < |t| && t[i + 1] == Send(t[i].req)
    {
      if i < |a| {
        assert t[i] == a[i] && t[i + 1] == a[i + 1];
      } else {
        assert t[i] == b[i - |a|] && t[i + 1] == b[i + 1 - |a|];
      }
    }
    forall i | 0 <= i < |t| && t[i].ExtractCookies?
      ensures p.hasCookieJar && i > 0 && t[i - 1] == Send(t[i].req) && t[i].status in p.validCodes
    {
      if i < |a| {
        assert t[i] == a[i] && t[i - 1] == a[i - 1];
      } else {
        assert t[i] == b[i - |a|] && t[i - 1] == b[i - 1 - |a|];
      }
    }
  }

  lemma HopEventsCookieOrder(p: Policy, req: Req, o: Outcome)
    ensures CookieOrder(p, HopEvents(p, req, o))
  {
  }

  lemma {:induction false} AttemptCookieOrder(p: Policy, url: Urls.UrlLike, req: Req, script: nat -> Outcome, calls: nat, hop: int)
    ensures CookieOrder(p, RunAttempt(p, url, req, script, calls, hop).trace)
    decreases p.maxRedirects - hop
  {
    if hop < p.maxRedirects {
      var o := script(calls);
      var step := Hop(p, url, req, o);
      HopEventsCookieOrder(p, req, o);
      if step.Follow? {
        var rest := RunAttempt(p, url, step.next, script, calls + 1, hop + 1);
        AttemptCookieOrder(p, url, step.next, script, calls + 1, hop + 1);
        CookieOrderAppend(p, HopEvents(p, req, o), rest.trace);
        assert RunAttempt(p, url, req, script, calls, hop).trace == HopEvents(p, req, o) + rest.trace;
      }
    }
  }

  /** The whole run keeps the cookie jar discipline, sleeps included. */
  lemma {:induction false} RetriesCookieOrder(p: Policy, url: Urls.UrlLike, req: Req, script: nat -> Outcome, calls: nat,
                                              retry: int, last: Option<Failure>, toString: bool)
    ensures CookieOrder(p, RunRetries(p, url, req, script, calls, retry, last, toString).trace)
    decreases p.maxRetries - retry
  {
    if retry < p.maxRetries {
      var pause := if retry > 0 && p.retryDelay != 0.0 then [Sleep(p.retryDelay)] else [];
      var a := RunAttempt(p, url, req, script, calls, 0);
      AttemptCookieOrder(p, url, req, script, calls, 0);
      CookieOrderAppend(p, pause, a.trace);
      if a.end.Abandoned? {
        var rest := RunRetries(p, url, a.req, script, a.calls, retry + 1, Some(a.end.last), toString);
        RetriesCookieOrder(p, url, a.req, script, a.calls, retry + 1, Some(a.end.last), toString);
        CookieOrderAppend(p, pause + a.trace, rest.trace);
      }
    }
  }

  /** A 302 or 303 to a relative location followed by an accepted final reply:
      the second call goes to the same scheme, host and port with GET and no
      body, and its reply is what `urlopen` returns. */
  lemma RelativeRedirectThenSuccess(p: Policy, url: Urls.UrlLike, req: Req, script: nat -> Outcome)
    requires p.maxRetries >= 1 && p.maxRedirects >= 2
    requires script(0).Answered? && script(1).Answered?
    requires script(0).reply.status in {302, 303} && script(0).reply.status in p.validCodes && Redirects(script(0).reply)
    requires p.syntax.parse(Location(script(0).reply)[0]).Netloc() == ""
    requires script(1).reply.status in p.validCodes && !Redirects(script(1).reply)
    ensures var r := RunRetries(p, url, req, script, 0, 0, None, false);
            r.result == Success(Response(script(1).reply)) && r.calls == 2 &&
            |Sends(r.trace)| == 2 && Sends(r.trace)[0] == req &&
            Sends(r.trace)[1].verb == "GET" && Sends(r.trace)[1].payload == Requests.NoPayload &&
            Sends(r.trace)[1].urlSplit.Origin() == req.urlSplit.Origin() &&
            Sends(r.trace)[1].urlSplit.requestUri == p.syntax.parse(Location(script(0).reply)[0]).requestUri
  {
    var next := FollowRedirect(req, script(0).reply, p.syntax);
    FollowRedirectEffects(req, script(0).reply, p.syntax);
    var second := RunAttempt(p, url, next, script, 1, 1);
    HopEventsShape(p, req, script(0));
    HopEventsShape(p, next, script(1));
    assert second.trace == HopEvents(p, next, script(1));
    var a := RunAttempt(p, url, req, script, 0, 0);
    assert a.trace == HopEvents(p, req, script(0)) + second.trace;
    SendsAppend(HopEvents(p, req, script(0)), second.trace);
    assert [] + a.trace == a.trace;
  }

  /** An attempt with redirect budget left starts by sending the request it is given. */
  lemma AttemptFirstSend(p: Policy, url: Urls.UrlLike, req: Req, script: nat -> Outcome, calls: nat, hop: int)
    requires hop < p.maxRedirects
    ensures var a := RunAttempt(p, url, req, script, calls, hop);
            |Sends(a.trace)| >= 1 && Sends(a.trace)[0] == req
  {
    HopEventsShape(p, req, script(calls));
    var step := Hop(p, url, req, script(calls));
    if step.Follow? {
      var tail := RunAttempt(p, url, step.next, script, calls + 1, hop + 1);
      SendsAppend(HopEvents(p, req, script(calls)), tail.trace);
    }
  }

  /** A retry loop with attempts and redirects left starts by sending the request it is given. */
  lemma RetriesFirstSend(p: Policy, url: Urls.UrlLike, req: Req, script: nat -> Outcome, calls: nat,
                         retry: int, last: Option<Failure>, toString: bool)
    requires retry < p.maxRetries && 0 < p.maxRedirects
    ensures var r := RunRetries(p, url, req, script, calls, retry, last, toString);
            |Sends(r.trace)| >= 1 && Sends(r.trace)[0] == req
  {
    var pause := if retry > 0 && p.retryDelay != 0.0 then [Sleep(p.retryDelay)] else [];
    var a := RunAttempt(p, url, req, script, calls, 0);
    RetriesStep(p, url, req, script, calls, retry, last, toString);
    AttemptFirstSend(p, url, req, script, calls, 0);
    assert Sends(pause) == [];
    SendsAppend(pause, a.trace);
    if a.end.Abandoned? {
      var rest := RunRetries(p, url, a.req, script, a.calls, retry + 1, Some(a.end.last), toString);
      SendsAppend(pause + a.trace, rest.trace);
    }
  }

  /** The first attempt of that scenario: a redirect, then a timeout that the
      hook recovers from, leaving the redirected request in place. */
  lemma RedirectThenTimeout(p: Policy, url: Urls.UrlLike, req: Req, script: nat -> Outcome)
    requires p.maxRedirects >= 2
    requires p.handleError(Errors.Timeout) == Recover(Errors.Timeout)
    requires script(0).Answered? && script(0).reply.status in p.validCodes && Redirects(script(0).reply)
    requires script(1) == TimedOut
    ensures var next := FollowRedirect(req, script(0).reply, p.syntax);
            var a := RunAttempt(p, url, req, script, 0, 0);
            a.end == Abandoned(Errors.Timeout) && a.req == next && a.calls == 2 && Sends(a.trace) == [req, next]
  {
    var next := FollowRedirect(req, script(0).reply, p.syntax);
    HopEventsShape(p, req, script(0));
    HopEventsShape(p, next, script(1));
    assert Hop(p, url, req, script(0)) == Follow(next);
    AttemptStep(p, url, req, script, 0, 0);
    assert Hop(p, url, next, script(1)) == Retry(Errors.Timeout);
    AttemptStep(p, url, next, script, 1, 1);
    SendsAppend(HopEvents(p, req, script(0)), HopEvents(p, next, script(1)));
  }

  /** A timeout after a redirect does not rebuild the request: the next attempt
      sends the redirected request again, from the first hop of its own
      redirect budget. */
  lemma RetryResumesAtRedirectTarget(p: Policy, url: Urls.UrlLike, req: Req, script: nat -> Outcome, toString: bool)
    requires p.maxRetries >= 2 && p.maxRedirects >= 2
    requires p.handleError(Errors.Timeout) == Recover(Errors.Timeout)
    requires script(0).Answered? && script(0).reply.status in p.validCodes && Redirects(script(0).reply)
    requires script(1) == TimedOut
    ensures var r := RunRetries(p, url, req, script, 0, 0, None, toString);
            |Sends(r.trace)| >= 3 &&
            Sends(r.trace)[1] == FollowRedirect(req, script(0).reply, p.syntax) &&
            Sends(r.trace)[2] == Sends(r.trace)[1]
  {
    var next := FollowRedirect(req, script(0).reply, p.syntax);
    var first := RunAttempt(p, url, req, script, 0, 0);
    RedirectThenTimeout(p, url, req, script);
    var rest := RunRetries(p, url, next, script, 2, 1, Some(Errors.Timeout), toString);
    RetriesFirstSend(p, url, next, script, 2, 1, Some(Errors.Timeout), toString);
    RetriesStep(p, url, req, script, 0, 0, None, toString);
    assert first.end == Abandoned(Errors.Timeout) && first.req == next && first.calls == 2;
    var r := RunRetries(p, url, req, script, 0, 0, None, toString);
    assert r.trace == [] + first.trace + rest.trace;
    assert [] + first.trace == first.trace;
    SendsAppend(first.trace, rest.trace);
  }

  /** `urlopen` as a whole: at most `max_retries * max_redirects` transport
      calls, each one a `Send` of the trace, within at most `max_retries`
      attempts. */
  lemma OpenBudget(p: Policy, defaults: Requests.Headers, enc: Requests.Encoders, url: Urls.UrlLike, verb: string,
                   headers: Requests.Headers, payload: Requests.Payload, keywords: map<string, string>,
                   toString: bool, script: nat -> Outcome)
    ensures var r := Open(p, defaults, enc, url, verb, headers, payload, keywords, toString, script);
            r.calls <= Budget(p.maxRetries) * Budget(p.maxRedirects) &&
            |Sends(r.trace)| == r.calls && r.attempts <= Budget(p.maxRetries)
  {
    var prepared := Requests.Prepare(defaults, headers, Requests.WithKeywords(payload, keywords), enc);
    var run := Open(p, defaults, enc, url, verb, headers, payload, keywords, toString, script);
    if prepared.Success? {
      var req := Initial(url, verb, prepared.value, p.syntax);
      assert run == RunRetries(p, url, req, script, 0, 0, None, toString);
      RetriesBudget(p, url, req, script, 0, 0, None, toString);
      RetriesSends(p, url, req, script, 0, 0, None, toString);
    } else {
      assert run == Run(Failure(prepared.error), 0, 0, []);
      OneMore(Budget(p.maxRetries) + 1, Budget(p.maxRedirects));
    }
  }

  /** A body under a preset `multipart/form-data` content type fails with
      `NotImplementedError` before any transport call. */
  lemma OpenMultipart(p: Policy, defaults: Requests.Headers, enc: Requests.Encoders, url: Urls.UrlLike, verb: string,
                      headers: Requests.Headers, payload: Requests.Payload, keywords: map<string, string>,
                      toString: bool, script: nat -> Outcome)
    requires Requests.Truthy(Requests.WithKeywords(payload, keywords))
    requires Requests.StartsWith(Requests.ContentType(defaults + headers), Requests.Multipart)
    ensures Open(p, defaults, enc, url, verb, headers, payload, keywords, toString, script)
         == Run(Failure(Errors.NotImplemented), 0, 0, [])
  {
  }
}
