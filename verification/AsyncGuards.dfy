/**
 AsyncRateLimiter.acquire and the async circuit breaker (core/async_context.py).
 */
module AsyncLimiter {

  // The requests still inside the window at `now`.
  function Recent(q: seq<real>, now: real, window: real): (r: seq<real>)
    ensures |r| <= |q|
  {
    if q == [] then []
    else (if now - q[0] < window then [q[0]] else []) + Recent(q[1..], now, window)
  }

  // One round of the filtering loop.
  lemma RecentStep(kept: seq<real>, q: seq<real>, i: nat, now: real, window: real)
    requires i < |q|
    ensures kept + Recent(q[i..], now, window)
            == (if now - q[i] < window then kept + [q[i]] else kept) + Recent(q[i + 1..], now, window)
  {
    assert q[i..][1..] == q[i + 1..] && q[i..][0] == q[i];
  }

  lemma RecentNothing(kept: seq<real>, q: seq<real>, now: real, window: real)
    ensures kept + Recent(q[|q|..], now, window) == kept
  {
  }

  // Whether an acquire at `now` has to sleep, and for how long it asks.
  predicate MustSleep(q: seq<real>, maxRequests: nat, now: real, window: real) {
    var r := Recent(q, now, window);
    |r| >= maxRequests && r != [] && window - (now - r[0]) > 0.0
  }

  function SleepTime(q: seq<real>, maxRequests: nat, now: real, window: real): real
    requires MustSleep(q, maxRequests, now, window)
  {
    window - (now - Recent(q, now, window)[0])
  }

  // An acquire that reads the clock at `now` and, if it sleeps, wakes at `wake`.
  datatype Call = Call(now: real, wake: real)

  function GrantedAt(q: seq<real>, maxRequests: nat, window: real, c: Call): real {
    if MustSleep(q, maxRequests, c.now, window) then c.wake else c.now
  }

  function After(q: seq<real>, maxRequests: nat, window: real, c: Call): seq<real> {
    var r := Recent(q, c.now, window);
    (if MustSleep(q, maxRequests, c.now, window) then Recent(r, c.wake, window) else r)
    + [GrantedAt(q, maxRequests, window, c)]
  }

  class AsyncRateLimiter {
    const maxRequests: nat
    const timeWindow: real
    var requests: seq<real>

    constructor (maxRequests: nat, timeWindow: real)
      requires maxRequests > 0 && timeWindow > 0.0
      ensures this.maxRequests == maxRequests && this.timeWindow == timeWindow && requests == []
    {
      this.maxRequests, this.timeWindow := maxRequests, timeWindow;
      requests := [];
    }

    method DropOld(now: real)
      modifies this
      ensures requests == Recent(old(requests), now, timeWindow)
    {
      hide Recent;
      var kept: seq<real> := [];
      for i := 0 to |requests|
        invariant requests == old(requests)
        invariant kept + Recent(requests[i..], now, timeWindow) == Recent(requests, now, timeWindow)
      {
        RecentStep(kept, requests, i, now, timeWindow);
        if now - requests[i] < timeWindow { kept := kept + [requests[i]]; }
      }
      RecentNothing(kept, requests, now, timeWindow);
      requests := kept;
    }

    // The lock is held throughout, also across the sleep.
    method Acquire(c: Call) returns (at: real)
      requires maxRequests > 0
      modifies this
      ensures at == GrantedAt(old(requests), maxRequests, timeWindow, c)
      ensures requests == After(old(requests), maxRequests, timeWindow, c)
    {
      at := c.now;
      DropOld(at);
      if |requests| >= maxRequests {
        var sleepTime := timeWindow - (at - requests[0]);
        if sleepTime > 0.0 {
          at := c.wake;
          DropOld(at);
        }
      }
      requests := requests + [at];
    }
  }

  // ---------------------------------------------------------------- runs

  datatype State = State(requests: seq<real>, granted: seq<real>)

  function Run(maxRequests: nat, window: real, calls: seq<Call>): State {
    if calls == [] then State([], [])
    else
      var s, c := Run(maxRequests, window, calls[..|calls| - 1]), calls[|calls| - 1];
      State(After(s.requests, maxRequests, window, c), s.granted + [GrantedAt(s.requests, maxRequests, window, c)])
  }

  // When the last acquire of the run returned.
  function LastGrant(s: State, default: real): real {
    if s.granted == [] then default else s.granted[|s.granted| - 1]
  }

  // The clock does not go back, and a sleep lasts at least as long as asked.
  ghost predicate GoodClock(maxRequests: nat, window: real, calls: seq<Call>) {
    calls == [] ||
    var init, c := calls[..|calls| - 1], calls[|calls| - 1];
    var s := Run(maxRequests, window, init);
    && GoodClock(maxRequests, window, init)
    && LastGrant(s, c.now) <= c.now
    && (MustSleep(s.requests, maxRequests, c.now, window) ==>
          c.wake >= c.now + SleepTime(s.requests, maxRequests, c.now, window))
  }

  // How many times of q are later than lo.
  function CountAfter(q: seq<real>, lo: real): nat {
    if q == [] then 0 else CountAfter(q[..|q| - 1], lo) + if q[|q| - 1] > lo then 1 else 0
  }

  // How many times of q fall in [lo, lo + window).
  function CountIn(q: seq<real>, lo: real, window: real): nat {
    if q == [] then 0 else CountIn(q[..|q| - 1], lo, window) + if lo <= q[|q| - 1] < lo + window then 1 else 0
  }

  lemma {:induction false} CountConcat(a: seq<real>, b: seq<real>, lo: real)
    ensures CountAfter(a + b, lo) == CountAfter(a, lo) + CountAfter(b, lo)
  {
    if b == [] {
      assert a + b == a;
    } else {
      assert (a + b)[..|a + b| - 1] == a + b[..|b| - 1];
      CountConcat(a, b[..|b| - 1], lo);
    }
  }

  lemma {:induction false} CountAtMost(q: seq<real>, lo: real)
    ensures CountAfter(q, lo) <= |q|
  {
    if q != [] { CountAtMost(q[..|q| - 1], lo); }
  }

  lemma CountCons(x: real, q: seq<real>, lo: real)
    ensures CountAfter([x] + q, lo) == (if x > lo then 1 else 0) + CountAfter(q, lo)
  {
    CountConcat([x], q, lo);
    assert [x][..0] == [];
  }

  lemma {:induction false} RecentCounts(q: seq<real>, now: real, window: real, lo: real)
    requires lo >= now - window
    ensures CountAfter(Recent(q, now, window), lo) == CountAfter(q, lo)
  {
    if q != [] {
      var r := Recent(q[1..], now, window);
      RecentCounts(q[1..], now, window, lo);
      CountCons(q[0], q[1..], lo);
      CountCons(q[0], r, lo);
      assert [q[0]] + q[1..] == q && [] + r == r;
    }
  }

  lemma {:induction false} RecentLength(q: seq<real>, now: real, window: real)
    ensures |Recent(q, now, window)| == CountAfter(q, now - window)
  {
    if q != [] {
      RecentLength(q[1..], now, window);
      CountCons(q[0], q[1..], now - window);
      assert [q[0]] + q[1..] == q;
    }
  }

  lemma {:induction false} WindowCount(q: seq<real>, lo: real, s: real, window: real)
    requires lo < s
    ensures CountIn(q, s, window) <= CountAfter(q, lo)
  {
    if q != [] { WindowCount(q[..|q| - 1], lo, s, window); }
  }

  lemma {:induction false} RecentHead(q: seq<real>, now: real, window: real)
    ensures forall i :: 0 <= i < |Recent(q, now, window)| ==> now - Recent(q, now, window)[i] < window
  {
    if q != [] { RecentHead(q[1..], now, window); }
  }

  ghost predicate Tracks(s: State, clock: real, maxRequests: nat, window: real) {
    && |s.requests| <= maxRequests
    && forall lo: real :: lo >= clock - window ==> CountAfter(s.granted, lo) == CountAfter(s.requests, lo)
  }

  lemma {:induction false} AcquireTracks(s: State, clock: real, maxRequests: nat, window: real, c: Call)
    requires Tracks(s, clock, maxRequests, window) && clock <= c.now && maxRequests > 0 && window > 0.0
    requires MustSleep(s.requests, maxRequests, c.now, window) ==>
               c.wake >= c.now + SleepTime(s.requests, maxRequests, c.now, window)
    ensures var at := GrantedAt(s.requests, maxRequests, window, c);
      at >= c.now && Tracks(State(After(s.requests, maxRequests, window, c), s.granted + [at]), at, maxRequests, window)
  {
    var at := GrantedAt(s.requests, maxRequests, window, c);
    var r := Recent(s.requests, c.now, window);
    RecentHead(s.requests, c.now, window);
    var q' := After(s.requests, maxRequests, window, c);
    forall lo: real | lo >= at - window
      ensures CountAfter(s.granted + [at], lo) == CountAfter(q', lo)
    {
      RecentCounts(s.requests, c.now, window, lo);
      RecentCounts(r, c.wake, window, if lo >= c.wake - window then lo else c.wake - window);
      CountConcat(s.granted, [at], lo);
      CountConcat(q'[..|q'| - 1], [at], lo);
      assert q' == q'[..|q'| - 1] + [at];
    }
  }

  lemma {:induction false} RunTracks(maxRequests: nat, window: real, calls: seq<Call>, now: real)
    requires maxRequests > 0 && window > 0.0 && GoodClock(maxRequests, window, calls)
    requires LastGrant(Run(maxRequests, window, calls), now) <= now
    ensures Tracks(Run(maxRequests, window, calls), now, maxRequests, window)
  {
    if calls != [] {
      var init, c := calls[..|calls| - 1], calls[|calls| - 1];
      RunTracks(maxRequests, window, init, c.now);
      AcquireTracks(Run(maxRequests, window, init), c.now, maxRequests, window, c);
    }
  }

  lemma NewestWindow(s: State, at: real, maxRequests: nat, window: real, lo: real)
    requires Tracks(s, at, maxRequests, window) && at - window < lo
    ensures CountIn(s.granted, lo, window) <= maxRequests
  {
    WindowCount(s.granted, at - window, lo, window);
    CountAtMost(s.requests, at - window);
  }

  /** If sleeps last as long as asked, no half-open window of length timeWindow, wherever it starts, ever
      holds more than maxRequests grants - although the append after the sleep is unconditional. */
  lemma {:induction false} GrantsBounded(maxRequests: nat, window: real, calls: seq<Call>, lo: real)
    requires maxRequests > 0 && window > 0.0 && GoodClock(maxRequests, window, calls)
    ensures CountIn(Run(maxRequests, window, calls).granted, lo, window) <= maxRequests
  {
    hide After, GrantedAt, MustSleep, Recent, Tracks;
    if calls != [] {
      var s := Run(maxRequests, window, calls);
      var at := s.granted[|s.granted| - 1];
      GrantsBounded(maxRequests, window, calls[..|calls| - 1], lo);
      assert s.granted[..|s.granted| - 1] == Run(maxRequests, window, calls[..|calls| - 1]).granted;
      if lo <= at < lo + window {
        RunTracks(maxRequests, window, calls, at);
        NewestWindow(s, at, maxRequests, window, lo);
      }
    }
  }

  /** No needless sleep: an acquire sleeps exactly when the run already granted maxRequests times within
      the last timeWindow seconds. */
  lemma {:induction false} SleepsExactlyWhenFull(maxRequests: nat, window: real, calls: seq<Call>, now: real)
    requires maxRequests > 0 && window > 0.0 && GoodClock(maxRequests, window, calls)
    requires LastGrant(Run(maxRequests, window, calls), now) <= now
    ensures var s := Run(maxRequests, window, calls);
      MustSleep(s.requests, maxRequests, now, window) <==> CountAfter(s.granted, now - window) >= maxRequests
  {
    RunTracks(maxRequests, window, calls, now);
    var s := Run(maxRequests, window, calls);
    RecentLength(s.requests, now, window);
    RecentHead(s.requests, now, window);
  }

  // ---------------------------------------------------------------- exactly when the bound holds

  // Every half-open window of length `window` holds at most maxRequests of the grants.
  ghost predicate Bounded(granted: seq<real>, maxRequests: nat, window: real) {
    forall lo: real :: CountIn(granted, lo, window) <= maxRequests
  }

  // The clock does not go back, asleep or awake; a sleep may be as short as it likes.
  ghost predicate ForwardClock(maxRequests: nat, window: real, calls: seq<Call>) {
    calls == [] ||
    var init, c := calls[..|calls| - 1], calls[|calls| - 1];
    var s := Run(maxRequests, window, init);
    && ForwardClock(maxRequests, window, init)
    && LastGrant(s, c.now) <= c.now
    && (MustSleep(s.requests, maxRequests, c.now, window) ==> c.wake >= c.now)
  }

  predicate InOrder(q: seq<real>, now: real) {
    && (forall i :: 0 <= i < |q| ==> q[i] <= now)
    && (forall i, j :: 0 <= i < j < |q| ==> q[i] <= q[j])
  }

  lemma {:induction false} RecentInOrder(q: seq<real>, now: real, window: real, end: real)
    requires InOrder(q, end)
    ensures InOrder(Recent(q, now, window), end)
    ensures q != [] ==> forall i :: 0 <= i < |Recent(q, now, window)| ==> q[0] <= Recent(q, now, window)[i]
  {
    if q != [] {
      assert InOrder(q[1..], end);
      RecentInOrder(q[1..], now, window, end);
      if |q| > 1 { assert q[0] <= q[1]; }
    }
  }

  lemma {:induction false} RunInOrder(maxRequests: nat, window: real, calls: seq<Call>, now: real)
    requires ForwardClock(maxRequests, window, calls) && LastGrant(Run(maxRequests, window, calls), now) <= now
    ensures InOrder(Run(maxRequests, window, calls).requests, now)
    ensures InOrder(Run(maxRequests, window, calls).granted, now)
  {
    if calls != [] {
      var init, c := calls[..|calls| - 1], calls[|calls| - 1];
      var s := Run(maxRequests, window, init);
      var r := Recent(s.requests, c.now, window);
      RunInOrder(maxRequests, window, init, c.now);
      RecentInOrder(s.requests, c.now, window, c.now);
      RecentInOrder(r, c.wake, window, c.now);
      hide InOrder, Recent;
      var at := GrantedAt(s.requests, maxRequests, window, c);
      AppendInOrder(s.granted, c.now, at, now);
      AppendInOrder(r, c.now, at, now);
      AppendInOrder(Recent(r, c.wake, window), c.now, at, now);
    }
  }

  lemma AppendInOrder(q: seq<real>, end: real, at: real, now: real)
    requires InOrder(q, end) && end <= at <= now
    ensures InOrder(q + [at], now)
  {
  }

  lemma {:induction false} CountAll(q: seq<real>, lo: real)
    requires forall i :: 0 <= i < |q| ==> q[i] > lo
    ensures CountAfter(q, lo) == |q|
  {
    if q != [] { CountAll(q[..|q| - 1], lo); }
  }

  // A window that reaches past every time counts at least the times after its start.
  lemma {:induction false} CountReaches(q: seq<real>, lo: real, window: real)
    requires forall i :: 0 <= i < |q| ==> q[i] < lo + window
    ensures CountIn(q, lo, window) >= CountAfter(q, lo)
  {
    if q != [] { CountReaches(q[..|q| - 1], lo, window); }
  }

  // A sleep cut short: the window that starts half-way between the end of its own window and the oldest
  // recent request holds all the recent requests and the new one.
  lemma {:induction false} ShortSleepOvershoots(s: State, maxRequests: nat, window: real, c: Call)
    requires Tracks(s, c.now, maxRequests, window) && InOrder(s.requests, c.now) && InOrder(s.granted, c.now)
    requires MustSleep(s.requests, maxRequests, c.now, window)
    requires c.now <= c.wake < c.now + SleepTime(s.requests, maxRequests, c.now, window)
    ensures !Bounded(s.granted + [c.wake], maxRequests, window)
  {
    var r := Recent(s.requests, c.now, window);
    var lo := (c.wake - window + r[0]) / 2.0;
    assert c.wake - window < lo < r[0];
    RecentInOrder(s.requests, c.now, window, c.now);
    CountAll(r, lo);
    RecentCounts(s.requests, c.now, window, lo);
    CountReaches(s.granted, lo, window);
    var g := s.granted + [c.wake];
    assert g[..|g| - 1] == s.granted;
    assert CountIn(g, lo, window) > maxRequests;
  }

  /** The bound is exactly as good as the sleeps: while the clock does not go back, every half-open window
      of every run holds at most maxRequests grants if and only if no sleep was cut short. */
  lemma {:induction false} BoundedIffSleepsLast(maxRequests: nat, window: real, calls: seq<Call>)
    requires maxRequests > 0 && window > 0.0 && ForwardClock(maxRequests, window, calls)
    ensures Bounded(Run(maxRequests, window, calls).granted, maxRequests, window)
            <==> GoodClock(maxRequests, window, calls)
  {
    hide After, MustSleep, Recent, Tracks, InOrder;
    if GoodClock(maxRequests, window, calls) {
      forall lo: real ensures CountIn(Run(maxRequests, window, calls).granted, lo, window) <= maxRequests {
        GrantsBounded(maxRequests, window, calls, lo);
      }
    } else {
      var init, c := calls[..|calls| - 1], calls[|calls| - 1];
      var s := Run(maxRequests, window, init);
      var g := Run(maxRequests, window, calls).granted;
      assert g[..|g| - 1] == s.granted;
      BoundedIffSleepsLast(maxRequests, window, init);
      if GoodClock(maxRequests, window, init) {
        RunTracks(maxRequests, window, init, c.now);
        RunInOrder(maxRequests, window, init, c.now);
        ShortSleepOvershoots(s, maxRequests, window, c);
      } else {
        var lo: real :| CountIn(s.granted, lo, window) > maxRequests;
        assert CountIn(g, lo, window) > maxRequests;
      }
    }
  }

  // A sleep that returns early breaks the bound: the append does not look again.
  lemma EarlyWakeOvershoots()
    ensures CountIn(Run(1, 10.0, [Call(0.0, 0.0), Call(1.0, 5.0)]).granted, 0.0, 10.0) == 2
  {
    var calls := [Call(0.0, 0.0), Call(1.0, 5.0)];
    assert calls[..1] == [Call(0.0, 0.0)] && calls[..1][..0] == [];
    assert Run(1, 10.0, calls[..1]) == State([0.0], [0.0]);
    var g := Run(1, 10.0, calls).granted;
    assert g == [0.0, 5.0] && g[..1] == [0.0];
  }
}

module CircuitBreaker {
  import opened Base

  datatype Mode = CLOSED | OPEN | HALF_OPEN

  datatype Circuit = Circuit(failures: nat, lastFailure: Option<real>, mode: Mode)

  // What happens around the decorated coroutine: a call asks to start, a started call succeeds, or
  // fails with the expected exception. Calls overlap, so the three interleave freely.
  datatype Event = Attempt(now: real) | Success | Failure(now: real)

  predicate ShouldAttempt(c: Circuit, now: real, recovery: real) {
    match c.mode
    case CLOSED => true
    case OPEN => c.lastFailure.Some? && now - c.lastFailure.value > recovery
    case HALF_OPEN => true
  }

  function Step(c: Circuit, e: Event, threshold: nat, recovery: real): Circuit {
    match e
    case Attempt(now) =>
      if c.mode == OPEN && ShouldAttempt(c, now, recovery) then c.(mode := HALF_OPEN) else c
    case Success => c.(failures := 0, mode := CLOSED)
    case Failure(now) =>
      Circuit(c.failures + 1, Some(now), if c.failures + 1 >= threshold then OPEN else c.mode)
  }

  function Run(es: seq<Event>, threshold: nat, recovery: real): Circuit {
    if es == [] then Circuit(0, None, CLOSED)
    else Step(Run(es[..|es| - 1], threshold, recovery), es[|es| - 1], threshold, recovery)
  }

  class Breaker {
    const threshold: nat
    const recovery: real
    var failures: nat
    var lastFailure: Option<real>
    var mode: Mode

    constructor (threshold: nat, recovery: real)
      requires threshold > 0 && recovery >= 0.0
      ensures this.threshold == threshold && this.recovery == recovery && View() == Run([], threshold, recovery)
    {
      this.threshold, this.recovery := threshold, recovery;
      failures, lastFailure, mode := 0, None, CLOSED;
    }

    function View(): Circuit
      reads this
    {
      Circuit(failures, lastFailure, mode)
    }

    method TryStart(now: real) returns (ok: bool)
      modifies this
      ensures ok == ShouldAttempt(old(View()), now, recovery)
      ensures View() == Step(old(View()), Attempt(now), threshold, recovery)
    {
      if mode == CLOSED {
        return true;
      } else if mode == OPEN {
        if lastFailure.Some? && now - lastFailure.value > recovery {
          mode := HALF_OPEN;
          return true;
        }
        return false;
      }
      return true;
    }

    method OnSuccess()
      modifies this
      ensures View() == Step(old(View()), Success, threshold, recovery)
    {
      failures := 0;
      mode := CLOSED;
    }

    method OnFailure(now: real)
      modifies this
      ensures View() == Step(old(View()), Failure(now), threshold, recovery)
    {
      failures := failures + 1;
      lastFailure := Some(now);
      if failures >= threshold {
        mode := OPEN;
      }
    }
  }

  // ---------------------------------------------------------------- what the history says

  function FailuresSinceSuccess(es: seq<Event>): nat {
    if es == [] then 0
    else match es[|es| - 1]
      case Attempt(_) => FailuresSinceSuccess(es[..|es| - 1])
      case Success => 0
      case Failure(_) => FailuresSinceSuccess(es[..|es| - 1]) + 1
  }

  function LatestFailure(es: seq<Event>): Option<real> {
    if es == [] then None
    else if es[|es| - 1].Failure? then Some(es[|es| - 1].now)
    else LatestFailure(es[..|es| - 1])
  }

  // The clock never goes back and has not passed `now`.
  predicate Clocked(es: seq<Event>, now: real) {
    es == [] ||
    var e := es[|es| - 1];
    if e.Success? then Clocked(es[..|es| - 1], now) else e.now <= now && Clocked(es[..|es| - 1], e.now)
  }

  /** The breaker is open or half open exactly when at least `threshold` calls have failed since the
      last success, whatever the interleaving. */
  lemma {:induction false} TrippedIffFailures(es: seq<Event>, threshold: nat, recovery: real)
    requires threshold > 0
    ensures var c := Run(es, threshold, recovery);
      && (c.mode != CLOSED <==> FailuresSinceSuccess(es) >= threshold)
      && c.failures == FailuresSinceSuccess(es) && c.lastFailure == LatestFailure(es)
  {
    if es != [] { TrippedIffFailures(es[..|es| - 1], threshold, recovery); }
  }

  // A half-open breaker has waited out its latest failure.
  lemma {:induction false} HalfOpenHasWaited(es: seq<Event>, threshold: nat, recovery: real, now: real)
    requires threshold > 0 && Clocked(es, now)
    ensures var c := Run(es, threshold, recovery);
      c.mode == HALF_OPEN ==> c.lastFailure.Some? && now - c.lastFailure.value > recovery
  {
    if es != [] {
      var init, e := es[..|es| - 1], es[|es| - 1];
      TrippedIffFailures(init, threshold, recovery);
      HalfOpenHasWaited(init, threshold, recovery, if e.Success? then now else e.now);
    }
  }

  /** The three-state machine decides from history alone: a call may start if and only if fewer than
      `threshold` calls failed since the last success, or more than `recovery` seconds have passed since
      the latest failure. */
  lemma {:induction false} StartsIffHistoryAllows(es: seq<Event>, threshold: nat, recovery: real, now: real)
    requires threshold > 0 && Clocked(es, now)
    ensures ShouldAttempt(Run(es, threshold, recovery), now, recovery)
            <==> FailuresSinceSuccess(es) < threshold
                 || (LatestFailure(es).Some? && now - LatestFailure(es).value > recovery)
  {
    TrippedIffFailures(es, threshold, recovery);
    HalfOpenHasWaited(es, threshold, recovery, now);
  }

  lemma {:induction false} NoSuccessKeepsCount(es: seq<Event>, more: seq<Event>)
    requires forall i :: 0 <= i < |more| ==> !more[i].Success?
    ensures FailuresSinceSuccess(es + more) >= FailuresSinceSuccess(es)
  {
    if more == [] {
      assert es + more == es;
    } else {
      assert (es + more)[..|es + more| - 1] == es + more[..|more| - 1];
      NoSuccessKeepsCount(es, more[..|more| - 1]);
    }
  }

  /** Once tripped, and until some call succeeds, no call starts unless `recovery` seconds have passed
      since the latest failure of all. */
  lemma {:induction false} TrippedStaysShut(es: seq<Event>, more: seq<Event>, threshold: nat, recovery: real, now: real)
    requires threshold > 0 && Clocked(es + more, now)
    requires Run(es, threshold, recovery).mode != CLOSED
    requires forall i :: 0 <= i < |more| ==> !more[i].Success?
    requires ShouldAttempt(Run(es + more, threshold, recovery), now, recovery)
    ensures LatestFailure(es + more).Some? && now > LatestFailure(es + more).value + recovery
  {
    TrippedIffFailures(es, threshold, recovery);
    NoSuccessKeepsCount(es, more);
    StartsIffHistoryAllows(es + more, threshold, recovery, now);
  }
}
