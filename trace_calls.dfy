/** The trace of `urlopen` read call by call: every transport call, numbered
    as the script numbers it, contributes the events of its pass of the inner
    loop, and the pauses between attempts contribute one sleep each. This ties
    each cookie jar call and each sleep to the call it belongs to. */
module TraceCalls {
  import opened Wrappers
  import Urls
  import opened Orchestrator

  /** One piece of a trace: a pause between attempts, or the pass that makes
      transport call number `n` with the request `req`. */
  datatype Segment = Pause(delay: real) | Call(n: nat, req: Req)

  function SegmentEvents(p: Policy, script: nat -> Outcome, s: Segment): (e: seq<Event>)
    ensures |e| >= 1 && !e[0].ExtractCookies?
    ensures forall i :: 0 <= i < |e| && e[i].Sleep? ==> s.Pause? && e[i] == Sleep(s.delay)
  {
    match s
    case Pause(d) => [Sleep(d)]
    case Call(n, r) =>
      var e := HopEvents(p, r, script(n));
      assert forall i :: 0 <= i < |e| ==> e[i].AddCookieHeader? || e[i].Send? || e[i].ExtractCookies? by {
        forall i | 0 <= i < |e| ensures e[i].AddCookieHeader? || e[i].Send? || e[i].ExtractCookies? {
          if p.hasCookieJar { assert i == 0 || i == 1 || i == 2; }
        }
      }
      e
  }

  /** The events of a sequence of segments, one after another. */
  function Expand(p: Policy, script: nat -> Outcome, segs: seq<Segment>): seq<Event>
    decreases |segs|
  {
    if segs == [] then [] else SegmentEvents(p, script, segs[0]) + Expand(p, script, segs[1..])
  }

  lemma {:induction false} ExpandAppend(p: Policy, script: nat -> Outcome, a: seq<Segment>, b: seq<Segment>)
    ensures Expand(p, script, a + b) == Expand(p, script, a) + Expand(p, script, b)
    decreases |a|
  {
    if a == [] {
      assert a + b == b;
    } else {
      assert (a + b)[0] == a[0] && (a + b)[1..] == a[1..] + b;
      ExpandAppend(p, script, a[1..], b);
    }
  }

  /** The calls among `segs` are numbered `from`, `from + 1`, ... up to but
      excluding `to`, in order. */
  predicate Numbered(segs: seq<Segment>, from: int, to: int)
    decreases |segs|
  {
    if segs == [] then from == to
    else match segs[0]
      case Pause(_) => Numbered(segs[1..], from, to)
      case Call(n, _) => n == from && Numbered(segs[1..], from + 1, to)
  }

  lemma {:induction false} NumberedAppend(a: seq<Segment>, b: seq<Segment>, x: int, y: int, z: int)
    requires Numbered(a, x, y) && Numbered(b, y, z)
    ensures Numbered(a + b, x, z)
    decreases |a|
  {
    if a == [] {
      assert a + b == b;
    } else {
      assert (a + b)[0] == a[0] && (a + b)[1..] == a[1..] + b;
      match a[0]
      case Pause(_) => NumberedAppend(a[1..], b, x, y, z);
      case Call(n, _) => NumberedAppend(a[1..], b, x + 1, y, z);
    }
  }

  /** The calls of one attempt, from pass `hop` on. */
  function AttemptCalls(p: Policy, url: Urls.UrlLike, req: Req, script: nat -> Outcome, calls: nat, hop: int): seq<Segment>
    decreases p.maxRedirects - hop
  {
    if hop >= p.maxRedirects then []
    else
      var step := Hop(p, url, req, script(calls));
      if step.Follow? then [Call(calls, req)] + AttemptCalls(p, url, step.next, script, calls + 1, hop + 1)
      else [Call(calls, req)]
  }

  /** The `k`-th call of an attempt is the transport call numbered
      `calls + k`, and the first one sends the request the attempt began with. */
  lemma {:induction false} AttemptCallsNumbered(p: Policy, url: Urls.UrlLike, req: Req, script: nat -> Outcome, calls: nat, hop: int)
    ensures forall k :: 0 <= k < |AttemptCalls(p, url, req, script, calls, hop)| ==>
              AttemptCalls(p, url, req, script, calls, hop)[k].Call? &&
              AttemptCalls(p, url, req, script, calls, hop)[k].n == calls + k
    ensures hop < p.maxRedirects ==>
              AttemptCalls(p, url, req, script, calls, hop) != [] &&
              AttemptCalls(p, url, req, script, calls, hop)[0] == Call(calls, req)
    decreases p.maxRedirects - hop
  {
    if hop < p.maxRedirects {
      var step := Hop(p, url, req, script(calls));
      var s := AttemptCalls(p, url, req, script, calls, hop);
      if step.Follow? {
        var rest := AttemptCalls(p, url, step.next, script, calls + 1, hop + 1);
        assert s == [Call(calls, req)] + rest;
        AttemptCallsNumbered(p, url, step.next, script, calls + 1, hop + 1);
        forall k | 0 <= k < |s| ensures s[k].Call? && s[k].n == calls + k {
          if k > 0 { assert s[k] == rest[k - 1]; }
        }
      }
    }
  }

  /** An attempt has one call per transport call it makes. */
  lemma {:induction false} AttemptCount(p: Policy, url: Urls.UrlLike, req: Req, script: nat -> Outcome, calls: nat, hop: int)
    ensures |AttemptCalls(p, url, req, script, calls, hop)| == RunAttempt(p, url, req, script, calls, hop).calls - calls
    decreases p.maxRedirects - hop
  {
    if hop < p.maxRedirects {
      AttemptStep(p, url, req, script, calls, hop);
      var step := Hop(p, url, req, script(calls));
      if step.Follow? {
        AttemptCount(p, url, step.next, script, calls + 1, hop + 1);
      }
    }
  }

  /** An attempt's trace is the events of its calls. */
  lemma {:induction false} AttemptExpand(p: Policy, url: Urls.UrlLike, req: Req, script: nat -> Outcome, calls: nat, hop: int)
    ensures RunAttempt(p, url, req, script, calls, hop).trace == Expand(p, script, AttemptCalls(p, url, req, script, calls, hop))
    decreases p.maxRedirects - hop
  {
    if hop < p.maxRedirects {
      AttemptStep(p, url, req, script, calls, hop);
      var step := Hop(p, url, req, script(calls));
      assert Expand(p, script, [Call(calls, req)]) == HopEvents(p, req, script(calls));
      if step.Follow? {
        var rest := AttemptCalls(p, url, step.next, script, calls + 1, hop + 1);
        AttemptExpand(p, url, step.next, script, calls + 1, hop + 1);
        ExpandAppend(p, script, [Call(calls, req)], rest);
      }
    }
  }

  /** An attempt's trace is the events of its calls, and its `k`-th call is
      the transport call numbered `calls + k`. */
  lemma AttemptAsCalls(p: Policy, url: Urls.UrlLike, req: Req, script: nat -> Outcome, calls: nat, hop: int)
    ensures var a := RunAttempt(p, url, req, script, calls, hop);
            var s := AttemptCalls(p, url, req, script, calls, hop);
            a.trace == Expand(p, script, s) && |s| == a.calls - calls &&
            (forall k :: 0 <= k < |s| ==> s[k].Call? && s[k].n == calls + k) &&
            (|s| > 0 ==> s[0] == Call(calls, req))
  {
    AttemptCallsNumbered(p, url, req, script, calls, hop);
    AttemptCount(p, url, req, script, calls, hop);
    AttemptExpand(p, url, req, script, calls, hop);
  }

  /** The calls and pauses of the outer loop from pass `retry` on. */
  function RetriesCalls(p: Policy, url: Urls.UrlLike, req: Req, script: nat -> Outcome, calls: nat, retry: int): seq<Segment>
    decreases p.maxRetries - retry
  {
    if retry >= p.maxRetries then []
    else
      var pause := if retry > 0 && p.retryDelay != 0.0 then [Pause(p.retryDelay)] else [];
      var a := RunAttempt(p, url, req, script, calls, 0);
      var s := pause + AttemptCalls(p, url, req, script, calls, 0);
      if a.end.Abandoned? then s + RetriesCalls(p, url, a.req, script, a.calls, retry + 1) else s
  }

  /** A run's trace is the events of its calls and pauses. */
  lemma {:induction false} RetriesExpand(p: Policy, url: Urls.UrlLike, req: Req, script: nat -> Outcome, calls: nat,
                                         retry: int, last: Option<Failure>, toString: bool)
    ensures RunRetries(p, url, req, script, calls, retry, last, toString).trace
         == Expand(p, script, RetriesCalls(p, url, req, script, calls, retry))
    decreases p.maxRetries - retry
  {
    if retry < p.maxRetries {
      RetriesStep(p, url, req, script, calls, retry, last, toString);
      var pauseEvents := if retry > 0 && p.retryDelay != 0.0 then [Sleep(p.retryDelay)] else [];
      var pause := if retry > 0 && p.retryDelay != 0.0 then [Pause(p.retryDelay)] else [];
      var a := RunAttempt(p, url, req, script, calls, 0);
      var ac := AttemptCalls(p, url, req, script, calls, 0);
      AttemptAsCalls(p, url, req, script, calls, 0);
      assert Expand(p, script, pause) == pauseEvents;
      ExpandAppend(p, script, pause, ac);
      if a.end.Abandoned? {
        var rest := RetriesCalls(p, url, a.req, script, a.calls, retry + 1);
        RetriesExpand(p, url, a.req, script, a.calls, retry + 1, Some(a.end.last), toString);
        ExpandAppend(p, script, pause + ac, rest);
      }
    }
  }

  /** The calls of a run are the transport calls it makes, numbered
      consecutively from the first one. */
  lemma {:induction false} RetriesNumbered(p: Policy, url: Urls.UrlLike, req: Req, script: nat -> Outcome, calls: nat,
                                           retry: int, last: Option<Failure>, toString: bool)
    ensures Numbered(RetriesCalls(p, url, req, script, calls, retry), calls,
                     RunRetries(p, url, req, script, calls, retry, last, toString).calls)
    decreases p.maxRetries - retry
  {
    if retry < p.maxRetries {
      RetriesStep(p, url, req, script, calls, retry, last, toString);
      var pause := if retry > 0 && p.retryDelay != 0.0 then [Pause(p.retryDelay)] else [];
      var a := RunAttempt(p, url, req, script, calls, 0);
      var ac := AttemptCalls(p, url, req, script, calls, 0);
      AttemptAsCalls(p, url, req, script, calls, 0);
      AttemptNumbered(ac, calls);
      assert Numbered(pause, calls, calls);
      NumberedAppend(pause, ac, calls, calls, a.calls);
      if a.end.Abandoned? {
        var rest := RetriesCalls(p, url, a.req, script, a.calls, retry + 1);
        var restRun := RunRetries(p, url, a.req, script, a.calls, retry + 1, Some(a.end.last), toString);
        RetriesNumbered(p, url, a.req, script, a.calls, retry + 1, Some(a.end.last), toString);
        NumberedAppend(pause + ac, rest, calls, a.calls, restRun.calls);
      }
    }
  }

  /** Every pause of a run lasts `retry_delay`. */
  lemma {:induction false} RetriesPauses(p: Policy, url: Urls.UrlLike, req: Req, script: nat -> Outcome, calls: nat, retry: int)
    ensures forall j :: 0 <= j < |RetriesCalls(p, url, req, script, calls, retry)| &&
                        RetriesCalls(p, url, req, script, calls, retry)[j].Pause? ==>
              RetriesCalls(p, url, req, script, calls, retry)[j].delay == p.retryDelay
    decreases p.maxRetries - retry
  {
    if retry < p.maxRetries {
      var s := RetriesCalls(p, url, req, script, calls, retry);
      var pause := if retry > 0 && p.retryDelay != 0.0 then [Pause(p.retryDelay)] else [];
      var a := RunAttempt(p, url, req, script, calls, 0);
      var ac := AttemptCalls(p, url, req, script, calls, 0);
      AttemptCallsNumbered(p, url, req, script, calls, 0);
      var rest := if a.end.Abandoned? then RetriesCalls(p, url, a.req, script, a.calls, retry + 1) else [];
      assert s == pause + ac + rest;
      if a.end.Abandoned? {
        RetriesPauses(p, url, a.req, script, a.calls, retry + 1);
      }
      forall j | 0 <= j < |s| && s[j].Pause? ensures s[j].delay == p.retryDelay {
        if j >= |pause| + |ac| {
          assert s[j] == rest[j - |pause| - |ac|];
        } else if j < |pause| {
          assert s[j] == pause[j];
        }
      }
    }
  }

  /** A run from the first pass starts with its first call, on the request it
      was given. */
  lemma RetriesFirstCall(p: Policy, url: Urls.UrlLike, req: Req, script: nat -> Outcome, calls: nat, retry: int)
    requires retry <= 0 < p.maxRetries && p.maxRedirects >= 1
    ensures var s := RetriesCalls(p, url, req, script, calls, retry);
            |s| > 0 && s[0] == Call(calls, req)
  {
    var ac := AttemptCalls(p, url, req, script, calls, 0);
    assert ac[0] == Call(calls, req);
  }

  /** A run's trace is the events of its calls and pauses; the calls are
      numbered consecutively from the first one it makes; every pause lasts
      `retry_delay`; and a run from the first pass starts with its first call,
      on the request it was given. */
  lemma RetriesAsCalls(p: Policy, url: Urls.UrlLike, req: Req, script: nat -> Outcome, calls: nat,
                       retry: int, last: Option<Failure>, toString: bool)
    ensures var r := RunRetries(p, url, req, script, calls, retry, last, toString);
            var s := RetriesCalls(p, url, req, script, calls, retry);
            r.trace == Expand(p, script, s) && Numbered(s, calls, r.calls) &&
            (forall j :: 0 <= j < |s| && s[j].Pause? ==> s[j].delay == p.retryDelay) &&
            (retry <= 0 < p.maxRetries && p.maxRedirects >= 1 ==> |s| > 0 && s[0] == Call(calls, req))
  {
    RetriesExpand(p, url, req, script, calls, retry, last, toString);
    RetriesNumbered(p, url, req, script, calls, retry, last, toString);
    RetriesPauses(p, url, req, script, calls, retry);
    if retry <= 0 < p.maxRetries && p.maxRedirects >= 1 {
      RetriesFirstCall(p, url, req, script, calls, retry);
    }
  }

  /** The consecutive numbering of an attempt's calls, in the form the outer
      loop uses. */
  lemma {:induction false} AttemptNumbered(s: seq<Segment>, calls: nat)
    requires forall k :: 0 <= k < |s| ==> s[k].Call? && s[k].n == calls + k
    ensures Numbered(s, calls, calls + |s|)
    decreases |s|
  {
    if s != [] {
      var tail := s[1..];
      forall k | 0 <= k < |tail| ensures tail[k].Call? && tail[k].n == calls + 1 + k {
        assert tail[k] == s[k + 1];
      }
      AttemptNumbered(tail, calls + 1);
    }
  }

  /** Whether the cookie jar extracts cookies after a call with outcome `o`. */
  predicate Extracts(p: Policy, o: Outcome) {
    p.hasCookieJar && o.Answered? && o.reply.status in p.validCodes
  }

  /** The cookie jar around position `i` of a trace: `i` is a send of `sent`;
      with a jar, `add_cookie_header` on `sent` comes right before it; and
      `extract_cookies` with the reply's status comes right after it exactly
      when the jar extracts after the outcome `o`. */
  predicate CookiesAround(p: Policy, t: seq<Event>, i: int, sent: Req, o: Outcome) {
    && 0 <= i < |t| && t[i] == Send(sent)
    && (p.hasCookieJar ==> 0 < i && t[i - 1] == AddCookieHeader(sent))
    && (Extracts(p, o) <==> i + 1 < |t| && t[i + 1].ExtractCookies?)
    && (Extracts(p, o) ==> t[i + 1] == ExtractCookies(o.reply.status, sent))
  }

  /** The first event of an expanded trace is never an `extract_cookies`. */
  lemma ExpandFirst(p: Policy, script: nat -> Outcome, segs: seq<Segment>)
    requires segs != []
    ensures Expand(p, script, segs) != [] && !Expand(p, script, segs)[0].ExtractCookies?
  {
    var t := Expand(p, script, segs);
    assert t == SegmentEvents(p, script, segs[0]) + Expand(p, script, segs[1..]);
  }

  /** Events put in front of a trace shift every position by their number. */
  lemma CookiesAroundShift(p: Policy, head: seq<Event>, rest: seq<Event>, i: int, sent: Req, o: Outcome)
    requires CookiesAround(p, rest, i, sent, o)
    ensures CookiesAround(p, head + rest, |head| + i, sent, o)
  {
    var t := head + rest;
    var k := |head| + i;
    assert t[k] == rest[i];
    if p.hasCookieJar { assert t[k - 1] == rest[i - 1]; }
    if k + 1 < |t| { assert t[k + 1] == rest[i + 1]; }
  }

  /** The first pass of an expanded trace has the cookie jar around its send. */
  lemma CookiesAroundFirst(p: Policy, script: nat -> Outcome, segs: seq<Segment>)
    requires segs != [] && segs[0].Call?
    ensures CookiesAround(p, Expand(p, script, segs), if p.hasCookieJar then 1 else 0, segs[0].req, script(segs[0].n))
  {
    var c := segs[0];
    var o := script(c.n);
    var head := HopEvents(p, c.req, o);
    var rest := Expand(p, script, segs[1..]);
    var t := Expand(p, script, segs);
    assert t == head + rest;
    var i := if p.hasCookieJar then 1 else 0;
    assert t[i] == head[i];
    if p.hasCookieJar { assert t[i - 1] == head[0]; }
    if i + 1 < |head| {
      assert t[i + 1] == head[i + 1];
    } else if i + 1 < |t| {
      ExpandFirst(p, script, segs[1..]);
      assert t[i + 1] == rest[0];
    }
  }

  /** Every call of an expanded trace has the cookie jar around its send. */
  lemma {:induction false} ExpandCall(p: Policy, script: nat -> Outcome, segs: seq<Segment>, j: int)
    requires 0 <= j < |segs| && segs[j].Call?
    ensures exists i :: CookiesAround(p, Expand(p, script, segs), i, segs[j].req, script(segs[j].n))
    decreases |segs|
  {
    if j == 0 {
      CookiesAroundFirst(p, script, segs);
    } else {
      var head := SegmentEvents(p, script, segs[0]);
      var rest := Expand(p, script, segs[1..]);
      assert Expand(p, script, segs) == head + rest;
      assert segs[1..][j - 1] == segs[j];
      ExpandCall(p, script, segs[1..], j - 1);
      var i :| CookiesAround(p, rest, i, segs[j].req, script(segs[j].n));
      CookiesAroundShift(p, head, rest, i, segs[j].req, script(segs[j].n));
    }
  }

  /** The `k`-th call of an attempt is the transport call numbered `calls + k`,
      and the cookie jar is around its send as `CookiesAround` says. */
  lemma AttemptCallCookies(p: Policy, url: Urls.UrlLike, req: Req, script: nat -> Outcome, calls: nat, k: int)
    requires 0 <= k < RunAttempt(p, url, req, script, calls, 0).calls - calls
    ensures var s := AttemptCalls(p, url, req, script, calls, 0);
            k < |s| && s[k].Call? && s[k].n == calls + k &&
            exists i :: CookiesAround(p, RunAttempt(p, url, req, script, calls, 0).trace, i, s[k].req, script(s[k].n))
  {
    var s := AttemptCalls(p, url, req, script, calls, 0);
    AttemptAsCalls(p, url, req, script, calls, 0);
    ExpandCall(p, script, s, k);
  }

  /** Every call of a whole run has the cookie jar around its send. */
  lemma RetriesCallCookies(p: Policy, url: Urls.UrlLike, req: Req, script: nat -> Outcome, calls: nat,
                           retry: int, last: Option<Failure>, toString: bool, j: int)
    requires 0 <= j < |RetriesCalls(p, url, req, script, calls, retry)|
    requires RetriesCalls(p, url, req, script, calls, retry)[j].Call?
    ensures var c := RetriesCalls(p, url, req, script, calls, retry)[j];
            exists i :: CookiesAround(p, RunRetries(p, url, req, script, calls, retry, last, toString).trace, i, c.req, script(c.n))
  {
    RetriesExpand(p, url, req, script, calls, retry, last, toString);
    ExpandCall(p, script, RetriesCalls(p, url, req, script, calls, retry), j);
  }

  /** Every sleep of an expanded trace comes from a pause, so when every pause
      lasts `d`, so does every sleep. */
  lemma {:induction false} ExpandSleeps(p: Policy, script: nat -> Outcome, segs: seq<Segment>, d: real)
    requires forall j :: 0 <= j < |segs| && segs[j].Pause? ==> segs[j].delay == d
    ensures forall i :: 0 <= i < |Expand(p, script, segs)| && Expand(p, script, segs)[i].Sleep? ==>
              Expand(p, script, segs)[i] == Sleep(d)
    decreases |segs|
  {
    if segs != [] {
      var head := SegmentEvents(p, script, segs[0]);
      var rest := Expand(p, script, segs[1..]);
      var t := Expand(p, script, segs);
      assert t == head + rest;
      assert forall j :: 0 <= j < |segs[1..]| && segs[1..][j].Pause? ==> segs[1..][j].delay == d by {
        forall j | 0 <= j < |segs[1..]| ensures segs[1..][j] == segs[j + 1] { }
      }
      ExpandSleeps(p, script, segs[1..], d);
      forall i | 0 <= i < |t| && t[i].Sleep? ensures t[i] == Sleep(d) {
        if i >= |head| {
          assert t[i] == rest[i - |head|];
        } else {
          assert t[i] == head[i];
          assert segs[0].Pause? && head[i] == Sleep(segs[0].delay);
          assert segs[0].delay == d;
        }
      }
    }
  }

  /** Every sleep lasts `retry_delay`, and a run from the first pass begins
      with the events of its first call, so no sleep comes before the first
      send. */
  lemma RetriesSleepPlacement(p: Policy, url: Urls.UrlLike, req: Req, script: nat -> Outcome, calls: nat,
                              retry: int, last: Option<Failure>, toString: bool)
    ensures var t := RunRetries(p, url, req, script, calls, retry, last, toString).trace;
            forall i :: 0 <= i < |t| && t[i].Sleep? ==> t[i] == Sleep(p.retryDelay)
    ensures retry <= 0 < p.maxRetries && p.maxRedirects >= 1 ==>
              HopEvents(p, req, script(calls)) <= RunRetries(p, url, req, script, calls, retry, last, toString).trace
    ensures retry <= 0 < p.maxRetries && p.maxRedirects >= 1 ==>
              var t := RunRetries(p, url, req, script, calls, retry, last, toString).trace;
              var first := if p.hasCookieJar then 1 else 0;
              first < |t| && t[first] == Send(req) && !t[0].Sleep? && !t[first].Sleep?
  {
    var s := RetriesCalls(p, url, req, script, calls, retry);
    RetriesExpand(p, url, req, script, calls, retry, last, toString);
    RetriesPauses(p, url, req, script, calls, retry);
    ExpandSleeps(p, script, s, p.retryDelay);
    if retry <= 0 < p.maxRetries && p.maxRedirects >= 1 {
      RetriesFirstCall(p, url, req, script, calls, retry);
      var t := Expand(p, script, s);
      assert t == HopEvents(p, req, script(calls)) + Expand(p, script, s[1..]);
    }
  }
}
