/**
 What RateLimiter.acquire promises (rate_limiter.py): refused calls leave no trace, decisions are those of
 a plain log, and every limiter keeps its bound over whole runs.
 */
module RateLimitTheorems {
  import opened Base
  import opened Limiters
  import opened LimiterBounds
  import opened RateLimiting

  // ---------------------------------------------------------------- a refused call leaves no trace

  // A limiter as any run can leave it at time `now`: a deque is in order, and a counter that is not zero
  // belongs to a window that has begun.
  predicate Timely(l: Limiter, now: real) {
    match l
    case Sliding(_, _, q) => InOrder(q, now)
    case Fixed(interval, _, start, count) => interval > 0 && (count != 0 ==> start <= Window(now, interval) * interval)
  }

  // And its counter, once rolled to the current window, is not negative.
  predicate Sane(l: Limiter, now: real) {
    Timely(l, now) && (l.Fixed? ==> Settle(l, now).count >= 0)
  }

  // l' is l, or l merely pruned or rolled at some time between lo and hi.
  ghost predicate Restored(l: Limiter, l': Limiter, lo: real, hi: real)
    requires Usable(l)
  {
    l' == l || exists t :: lo <= t <= hi && l' == Settle(l, t)
  }

  lemma LaterStart(s: real, t: real, interval: int)
    requires interval > 0 && s <= t
    ensures Window(s, interval) * interval <= Window(t, interval) * interval
    ensures Window(s, interval) < Window(t, interval) ==>
            Window(s, interval) * interval < Window(t, interval) * interval
  {
    WindowMonotone(s, t, interval);
    var j, k := Window(s, interval), Window(t, interval);
    assert k * interval - j * interval == (k - j) * interval;
  }

  lemma {:induction false} TimelyLater(l: Limiter, s: real, t: real)
    requires Timely(l, s) && s <= t
    ensures Timely(l, t) && (Sane(l, s) ==> Sane(l, t))
  {
    if l.Fixed? {
      LaterStart(s, t, l.interval);
      WindowMonotone(s, t, l.interval);
      hide Window;
    }
  }

  lemma {:induction false} TimelyCharged(l: Limiter, w: int, now: real)
    requires Timely(l, now)
    ensures Timely(Settle(l, now), now) && Timely(Charged(l, w, now), now)
    ensures Sane(l, now) ==> Sane(Settle(l, now), now)
    ensures Sane(l, now) && (l.Fixed? ==> w >= 0) ==> Sane(Charged(l, w, now), now)
  {
    if l.Sliding? {
      var k := PruneIsSuffix(l.requests, now - l.interval as real);
    }
    hide Window;
  }

  // Giving back a sliding charge leaves the old deque merely pruned, even when the charge has
  // itself expired in between.
  lemma {:induction false} UndoSliding(l: Limiter, w: int, t0: real, t1: real, t2: real)
    requires l.Sliding? && Timely(l, t0) && t0 <= t1 <= t2
    ensures Give(Settle(Charged(l, w, t0), t1), w, t2) == Settle(l, t2)
  {
    var i := l.interval as real;
    hide Prune, DropNewest, InOrder;
    UndoPruned(l.requests, w, t0, t0 - i, t1 - i, t2 - i);
  }

  lemma {:induction false} UndoPruned(q: seq<Charge>, w: int, t0: real, c0: real, c1: real, c2: real)
    requires InOrder(q, t0) && c0 <= c1 <= c2
    ensures DropNewest(Prune(Prune(Prune(q, c0) + [Charge(t0, w)], c1), c2), w) == Prune(q, c2)
  {
    var p, e := Prune(q, c0), Charge(t0, w);
    var k := PruneIsSuffix(q, c0);
    hide Prune, DropNewest, InOrder;
    PruneTwice(p + [e], c1, c2);
    PruneTwice(q, c0, c2);
    OrderedSuffix(q, k, t0);
    DropAppended(p, e, c2);
  }

  lemma OrderedSuffix(q: seq<Charge>, k: nat, now: real)
    requires InOrder(q, now) && k <= |q|
    ensures forall i :: 0 <= i < |q[k..]| ==> q[k..][i].at <= now
  {
  }

  // Taking back the youngest charge, or finding that it has expired with all the others.
  lemma DropAppended(p: seq<Charge>, e: Charge, cutoff: real)
    requires forall i :: 0 <= i < |p| ==> p[i].at <= e.at
    ensures DropNewest(Prune(p + [e], cutoff), e.weight) == Prune(p, cutoff)
  {
    PruneAppend(p, e, cutoff);
    var q := Prune(p, cutoff);
    assert (q + [e])[..|q|] == q;
  }

  lemma {:induction false} PruneAppend(p: seq<Charge>, e: Charge, cutoff: real)
    requires forall i :: 0 <= i < |p| ==> p[i].at <= e.at
    ensures Prune(p + [e], cutoff) == if e.at < cutoff then [] else Prune(p, cutoff) + [e]
    ensures e.at < cutoff ==> Prune(p, cutoff) == []
  {
    if p == [] {
      assert p + [e] == [e];
    } else if p[0].at < cutoff {
      assert (p + [e])[1..] == p[1..] + [e];
      PruneAppend(p[1..], e, cutoff);
    }
  }

  // Giving back a fixed-window charge restores the counter, or finds it already reset by a roll.
  lemma {:induction false} UndoFixed(l: Limiter, w: int, t0: real, t1: real, t2: real)
    requires l.Fixed? && Sane(l, t0) && t0 <= t1 <= t2 && w >= 0
    ensures Give(Settle(Charged(l, w, t0), t1), w, t2) == Settle(l, t1)
  {
    WindowMonotone(t0, t1, l.interval);
    LaterStart(t0, t1, l.interval);
    hide Window;
  }

  // Without a roll in between, a release undoes a fixed-window charge exactly when the counter was
  // not negative: the release clamps at zero.
  lemma FixedRefundIff(l: Limiter, w: int, now: real)
    requires l.Fixed? && Usable(l)
    ensures Give(Charged(l, w, now), w, now) == Settle(l, now) <==> Settle(l, now).count >= 0
  {
  }

  /** Over all later readings of the clock, a release takes its charge back without trace exactly when the
      limiter is a sliding window, or neither the weight nor the counter it was added to is negative: the
      release of a negative weight after a roll is a charge, and a negative counter is clamped to zero. */
  lemma {:induction false} HandBackExactIff(l: Limiter, w: int, t0: real)
    requires Timely(l, t0)
    ensures (forall t1, t2 :: t0 <= t1 <= t2 ==> Restored(l, Give(Settle(Charged(l, w, t0), t1), w, t2), t0, t2))
            <==> l.Sliding? || (w >= 0 && Settle(l, t0).count >= 0)
  {
    if l.Sliding? || (w >= 0 && Settle(l, t0).count >= 0) {
      forall t1, t2 | t0 <= t1 <= t2 ensures Restored(l, Give(Settle(Charged(l, w, t0), t1), w, t2), t0, t2) {
        UndoTake(l, Settle(Charged(l, w, t0), t1), w, t0, t1, t2);
      }
    } else if w < 0 {
      var t1 := NextWindow(l.interval, t0);
      RolledReleaseCharges(l, w, t0, t1, t1);
    } else {
      ClampedReleaseForgets(l, w, t0);
    }
  }

  // Releasing at once a weight that was added to a negative counter leaves zero.
  lemma {:induction false} ClampedReleaseForgets(l: Limiter, w: int, t0: real)
    requires l.Fixed? && Timely(l, t0) && w >= 0 && Settle(l, t0).count < 0
    ensures Charged(l, w, t0) == l.(count := l.count + w) == Settle(Charged(l, w, t0), t0)
    ensures !Restored(l, Give(Settle(Charged(l, w, t0), t0), w, t0), t0, t0)
  {
    hide Window;
  }

  // A reading in the window after the one that holds t.
  function NextWindow(interval: int, t: real): (r: real)
    requires interval > 0
    ensures t <= r && Window(r, interval) == Window(t, interval) + 1
  {
    var i, k := interval as real, (Window(t, interval) + 1) as real;
    assert k * i / i == k;
    TimesAtLeast(t / i, k, i);
    k * i
  }

  lemma TimesAtLeast(x: real, k: real, i: real)
    requires x <= k && i > 0.0
    ensures x * i <= k * i
  {
  }

  // Once its window is over, the counter starts from zero, whatever was charged.
  lemma {:induction false} RolledCounter(l: Limiter, w: int, t0: real, t: real)
    requires l.Fixed? && Timely(l, t0) && t0 <= t && Window(t, l.interval) > Window(t0, l.interval)
    ensures var start := Window(t, l.interval) * l.interval;
      Settle(Charged(l, w, t0), t) == Fixed(l.interval, l.limit, start, 0) && (l.count != 0 ==> l.windowStart < start)
  {
    LaterStart(t0, t, l.interval);
    hide Window;
  }

  // Releasing a negative weight then raises it.
  lemma {:induction false} RolledReleaseCharges(l: Limiter, w: int, t0: real, t1: real, t2: real)
    requires l.Fixed? && Timely(l, t0) && w < 0 && t0 <= t1 <= t2 && Window(t1, l.interval) > Window(t0, l.interval)
    ensures !Restored(l, Give(Settle(Charged(l, w, t0), t1), w, t2), t0, t2)
  {
    RolledCounter(l, w, t0, t1);
    hide Window, Charged;
  }

  lemma {:induction false} UndoTake(l: Limiter, l2: Limiter, w: int, t0: real, t1: real, t2: real)
    requires Sane(l, t0) && t0 <= t1 <= t2 && (l.Fixed? ==> w >= 0)
    requires Restored(Charged(l, w, t0), l2, t0, t1)
    ensures Restored(l, Give(l2, w, t2), t0, t2)
  {
    var c := Charged(l, w, t0);
    if l.Sliding? {
      if l2 == c {
        // The release prunes first, so an unsettled deque gives the same result.
        var i := l.interval as real;
        PruneTwice(c.requests, t2 - i, t2 - i);
        UndoSliding(l, w, t0, t2, t2);
      } else {
        var t :| t0 <= t <= t1 && l2 == Settle(c, t);
        UndoSliding(l, w, t0, t, t2);
      }
      assert Give(l2, w, t2) == Settle(l, t2);
    } else {
      assert c == Settle(c, t0);
      var t :| t0 <= t <= t1 && l2 == Settle(c, t);
      UndoFixed(l, w, t0, t, t2);
    }
  }

  // No demand on limiter n is negative.
  predicate NonNegativeFor(n: string, ds: seq<Demand>) {
    forall i :: 0 <= i < |ds| && ds[i].name == n ==> ds[i].weight >= 0
  }

  // All demands but the last: the last is never handed back.
  function ButLast(ds: seq<Demand>): seq<Demand> {
    if ds == [] then [] else ds[..|ds| - 1]
  }

  lemma RestoredWithin(l: Limiter, l': Limiter, lo: real, hi: real, lo': real, hi': real)
    requires Usable(l) && Restored(l, l', lo, hi) && lo' <= lo && hi <= hi'
    ensures Restored(l, l', lo', hi')
  {
  }

  lemma TailNonNegative(n: string, ds: seq<Demand>)
    requires ds != [] && NonNegativeFor(n, ds)
    ensures ds[0].name == n ==> ds[0].weight >= 0
    ensures NonNegativeFor(n, ds[1..])
  {
  }

  lemma TailButLast(n: string, ds: seq<Demand>)
    requires |ds| > 1 && NonNegativeFor(n, ButLast(ds))
    ensures ds[0].name == n ==> ds[0].weight >= 0
    ensures NonNegativeFor(n, ButLast(ds[1..]))
  {
    assert ButLast(ds)[0] == ds[0] && ButLast(ds[1..]) == ButLast(ds)[1..];
    TailNonNegative(n, ButLast(ds));
  }

  lemma InTurn(clock: Clock, i: nat, j: nat)
    requires NeverBack(clock) && i <= j
    ensures clock(i) <= clock(j)
  {
  }

  /** All or nothing: when a call is refused, every limiter is its old self merely pruned or rolled
      at some moment of the call, even if windows roll during the call and several demands share
      one limiter. A fixed window needs its own demands not to be negative, and its counter; the
      demands on other limiters do not matter. */
  lemma {:induction false} RefusalLeavesNoCharge(b: Bank, ds: seq<Demand>, clock: Clock, tick: nat, n: string)
    requires UsableBank(b) && Known(ds, b) && NeverBack(clock) && n in b
    requires Timely(b[n], clock(tick))
    requires b[n].Fixed? ==> Sane(b[n], clock(tick)) && NonNegativeFor(n, ButLast(ds))
    requires !Attempt(b, ds, clock, tick).ok
    ensures var o := Attempt(b, ds, clock, tick); Restored(b[n], o.bank[n], clock(tick), clock(o.tick - 1))
    decreases |ds|
  {
    hide Give, Take, Charged, Settle, Usage, Timely, Sane, Admits, Restored, Usable, NonNegativeFor, ButLast, NeverBack;
    var d, now := ds[0], clock(tick);
    TakeIs(b[d.name], d.weight, now);
    if !Admits(b[d.name], d.weight, now) {
      RefusedAlone(b, d, now, n);
    } else {
      var b1 := b[d.name := Charged(b[d.name], d.weight, now)];
      var rest := Attempt(b1, ds[1..], clock, tick + 1);
      if b[n].Fixed? { TailButLast(n, ds); }
      InTurn(clock, tick, tick + 1);
      SaneAfterCharge(b, d, n, now, clock(tick + 1));
      RefusalLeavesNoCharge(b1, ds[1..], clock, tick + 1, n);
      HandBackRestores(b, d, rest, clock, tick, n);
    }
  }

  lemma SaneAfterCharge(b: Bank, d: Demand, n: string, now: real, later: real)
    requires UsableBank(b) && d.name in b && n in b && Timely(b[n], now) && now <= later
    requires b[n].Fixed? ==> Sane(b[n], now) && (n == d.name ==> d.weight >= 0)
    ensures var l := b[d.name := Charged(b[d.name], d.weight, now)][n];
      Sane(b[n], now) && Timely(l, later) && (l.Fixed? ==> Sane(l, later)) && (l.Fixed? <==> b[n].Fixed?)
  {
    SlidingSane(b[n], now);
    hide Timely, Sane, Charged, Settle;
    if n == d.name { TimelyCharged(b[n], d.weight, now); }
    TimelyLater(b[d.name := Charged(b[d.name], d.weight, now)][n], now, later);
  }

  // Only the counter of a fixed window can be out of order with the clock right.
  lemma SlidingSane(l: Limiter, now: real)
    requires Timely(l, now)
    ensures l.Sliding? ==> Sane(l, now)
  {
  }

  // The charge of d was made at the reading `tick`; `rest` is the refused rest of the call.
  lemma {:induction false} HandBackRestores(b: Bank, d: Demand, rest: Outcome, clock: Clock, tick: nat, n: string)
    requires UsableBank(b) && UsableBank(rest.bank) && b.Keys == rest.bank.Keys && d.name in b && n in b
    requires Sane(b[n], clock(tick)) && NeverBack(clock) && rest.tick > tick + 1
    requires n == d.name && b[n].Fixed? ==> d.weight >= 0
    requires Restored(b[d.name := Charged(b[d.name], d.weight, clock(tick))][n], rest.bank[n],
                      clock(tick + 1), clock(rest.tick - 1))
    ensures Restored(b[n], HandBack(rest, d, clock).bank[n], clock(tick), clock(rest.tick))
  {
    hide Give, Charged, Settle, Usage, Timely, Sane, Restored, Usable, NeverBack;
    var b1, now, end := b[d.name := Charged(b[d.name], d.weight, clock(tick))], clock(tick), clock(rest.tick);
    InTurn(clock, tick, tick + 1);
    InTurn(clock, tick, rest.tick);
    InTurn(clock, rest.tick - 1, rest.tick);
    RestoredWithin(b1[n], rest.bank[n], clock(tick + 1), clock(rest.tick - 1), now, end);
    if n == d.name { UndoTake(b[n], rest.bank[n], d.weight, now, end, end); }
  }

  lemma TakeIs(l: Limiter, w: int, now: real)
    requires Usable(l)
    ensures Take(l, w, now) == if Admits(l, w, now) then Charged(l, w, now) else Settle(l, now)
  {
  }

  /** Limiters that no demand names are left alone, whether the call succeeds or not. */
  lemma {:induction false} OthersUntouched(b: Bank, ds: seq<Demand>, clock: Clock, tick: nat, n: string)
    requires UsableBank(b) && Known(ds, b) && n in b
    requires forall d :: d in ds ==> d.name != n
    ensures Attempt(b, ds, clock, tick).bank[n] == b[n]
    decreases |ds|
  {
    hide Give, Take, Charged, Settle, Admits;
    if ds != [] {
      var d := ds[0];
      OthersUntouched(b[d.name := Take(b[d.name], d.weight, clock(tick))], ds[1..], clock, tick + 1, n);
    }
  }

  lemma RefusedAlone(b: Bank, d: Demand, now: real, n: string)
    requires UsableBank(b) && d.name in b && n in b && !Admits(b[d.name], d.weight, now)
    ensures Restored(b[n], b[d.name := Take(b[d.name], d.weight, now)][n], now, now)
  {
    assert Take(b[d.name], d.weight, now) == Settle(b[d.name], now);
  }

  // Three readings of the clock, the last of which lasts.
  function Readings(t0: real, t1: real, t2: real): Clock {
    (i: nat) => if i == 0 then t0 else if i == 1 then t1 else t2
  }

  lemma ReadingsInOrder(t0: real, t1: real, t2: real)
    requires t0 <= t1 <= t2
    ensures NeverBack(Readings(t0, t1, t2))
  {
  }

  // A call that asks one limiter for w and then for v leaves no trace if it is refused.
  ghost predicate LeavesNoCharge(l: Limiter, w: int, v: int, t0: real, t1: real, t2: real)
    requires Usable(l)
  {
    var o := Attempt(map["x" := l], [Demand("x", w), Demand("x", v)], Readings(t0, t1, t2), 0);
    !o.ok ==> Restored(l, o.bank["x"], t0, t2)
  }

  lemma {:induction false} RestoredPair(l: Limiter, w: int, v: int, t0: real, t1: real, t2: real)
    requires Timely(l, t0) && t0 <= t1 <= t2
    requires l.Sliding? || (w >= 0 && Sane(l, t0)) || !Admits(l, w, t0)
    ensures LeavesNoCharge(l, w, v, t0, t1, t2)
  {
    var b: Bank := map["x" := l];
    var ds, clock := [Demand("x", w), Demand("x", v)], Readings(t0, t1, t2);
    var o := Attempt(b, ds, clock, 0);
    if !Admits(l, w, t0) {
      RefusedAlone(b, ds[0], t0, "x");
    } else if !o.ok {
      assert ButLast(ds) == [ds[0]];
      hide Give, Take, Charged, Settle, Admits, Restored, Attempt, Timely, Sane;
      RefusalLeavesNoCharge(b, ds, clock, 0, "x");
      RestoredWithin(l, o.bank["x"], t0, clock(o.tick - 1), t0, t2);
    }
  }

  // Admitted, then refused in the next window by asking for more than the limit.
  lemma {:induction false} ChargedPair(l: Limiter, w: int, t0: real)
    requires Timely(l, t0) && l.Fixed? && w < 0 && Admits(l, w, t0)
    ensures var t1 := NextWindow(l.interval, t0);
      var o := Attempt(map["x" := l], [Demand("x", w), Demand("x", l.limit + 1)], Readings(t0, t1, t1), 0);
      && !o.ok && o.bank["x"] == Fixed(l.interval, l.limit, Window(t1, l.interval) * l.interval, -w)
      && !LeavesNoCharge(l, w, l.limit + 1, t0, t1, t1)
  {
    var t1 := NextWindow(l.interval, t0);
    var b: Bank := map["x" := l];
    var d, e := Demand("x", w), Demand("x", l.limit + 1);
    var ds, clock := [d, e], Readings(t0, t1, t1);
    RolledCounter(l, w, t0, t1);
    RolledReleaseCharges(l, w, t0, t1, t1);
    TakeIs(l, w, t0);
    var c := Charged(l, w, t0);
    var b1 := b["x" := c];
    assert ds[1..] == [e];
    hide Settle, Charged, Give, Restored;
    RolledRefuses(c, l.limit + 1, t1);
    var rest := Attempt(b1, [e], clock, 1);
    assert rest == Outcome(false, b1["x" := Settle(c, t1)], 2);
    assert Attempt(b, ds, clock, 0) == HandBack(rest, d, clock);
    RefundOfNegative(Settle(c, t1), w, t1);
  }

  lemma RefundOfNegative(l: Limiter, w: int, t: real)
    requires l.Fixed? && l.interval != 0 && l.count == 0 && w < 0
    ensures Give(l, w, t) == l.(count := -w)
  {
  }

  lemma RolledRefuses(c: Limiter, v: int, t: real)
    requires Usable(c) && c.Fixed? && Settle(c, t).count == 0 && v > c.limit
    ensures !Admits(c, v, t) && Take(c, v, t) == Settle(c, t)
  {
  }

  // Admitted on top of a negative counter, then refused at once.
  lemma {:induction false} ClampedPair(l: Limiter, w: int, t0: real)
    requires Timely(l, t0) && l.Fixed? && w >= 0 && Settle(l, t0).count < 0 && Admits(l, w, t0)
    ensures !LeavesNoCharge(l, w, l.limit - l.count - w + 1, t0, t0, t0)
  {
    var b: Bank := map["x" := l];
    var d, e := Demand("x", w), Demand("x", l.limit - l.count - w + 1);
    var ds, clock := [d, e], Readings(t0, t0, t0);
    ClampedReleaseForgets(l, w, t0);
    TakeIs(l, w, t0);
    var c := Charged(l, w, t0);
    var b1 := b["x" := c];
    assert ds[1..] == [e];
    assert !Admits(c, e.weight, t0);
    TakeIs(c, e.weight, t0);
    hide Settle, Charged, Give, Restored, Admits;
    var rest := Attempt(b1, [e], clock, 1);
    assert rest == Outcome(false, b1["x" := c], 2);
    assert Attempt(b, ds, clock, 0) == HandBack(rest, d, clock);
  }

  /** The all-or-nothing promise in one limiter's terms: whatever is asked next and whenever the clock is
      read, a refused call leaves no charge of w behind if and only if the limiter is a sliding window, or
      neither w nor the current counter is negative, or w was not admitted in the first place. */
  lemma {:induction false} AllOrNothingIff(l: Limiter, w: int, t0: real)
    requires Timely(l, t0)
    ensures (forall v, t1, t2 :: t0 <= t1 <= t2 ==> LeavesNoCharge(l, w, v, t0, t1, t2))
            <==> l.Sliding? || (w >= 0 && Settle(l, t0).count >= 0) || !Admits(l, w, t0)
  {
    assert l.Fixed? ==> (Sane(l, t0) <==> Settle(l, t0).count >= 0);
    hide LeavesNoCharge, Admits, Timely, Sane, Settle;
    if l.Sliding? || (w >= 0 && Sane(l, t0)) || !Admits(l, w, t0) {
      forall v, t1, t2 | t0 <= t1 <= t2 ensures LeavesNoCharge(l, w, v, t0, t1, t2) {
        RestoredPair(l, w, v, t0, t1, t2);
      }
    } else if w < 0 {
      ChargedPair(l, w, t0);
    } else {
      ClampedPair(l, w, t0);
    }
  }

  /** Weights must not be negative: here a refused call leaves the counter at 5, because the window
      rolled between the charge of -5 and its release. */
  lemma NegativeWeightLeavesCharge()
    ensures var b: Bank := map["x" := Fixed(1, 10, 0, 0)];
      var o := Attempt(b, [Demand("x", -5), Demand("x", 20)], (i: nat) => i as real, 0);
      !o.ok && o.bank["x"].count == 5 && !Restored(b["x"], o.bank["x"], 0.0, 2.0)
  {
    var b: Bank := map["x" := Fixed(1, 10, 0, 0)];
    var clock: Clock := (i: nat) => i as real;
    var ds := [Demand("x", -5), Demand("x", 20)];
    assert ds[1..] == [Demand("x", 20)];
    assert Window(0.0, 1) == 0 && Window(1.0, 1) == 1;
    var b1 := b["x" := Fixed(1, 10, 0, -5)];
    var rest := Attempt(b1, ds[1..], clock, 1);
    assert !rest.ok && rest.bank["x"] == Fixed(1, 10, 1, 0);
    assert Attempt(b, ds, clock, 0) == HandBack(rest, ds[0], clock);
  }

  /** Nor must earlier weights have been: an admitted call leaves the counter of x at -3, and the next one,
      refused and with no negative weight, moves it to 0. */
  lemma NegativeCounterForgotten()
    ensures var b: Bank := map["x" := Fixed(1, 10, 0, 0), "y" := Fixed(1, 10, 0, 0)];
      var first := Attempt(b, [Demand("x", -3), Demand("y", 0)], (i: nat) => 0.0, 0);
      var second := Attempt(first.bank, [Demand("x", 2), Demand("y", 20)], (i: nat) => 0.0, first.tick);
      && first.ok && !second.ok && first.bank["x"].count == -3 && second.bank["x"].count == 0
      && !Restored(first.bank["x"], second.bank["x"], 0.0, 0.0)
  {
    var x, y := Fixed(1, 10, 0, 0), Fixed(1, 10, 0, 0);
    var b: Bank := map["x" := x, "y" := y];
    var clock: Clock := (i: nat) => 0.0;
    assert Window(0.0, 1) == 0;
    hide Window;
    var b1 := b["x" := x.(count := -3)];
    assert [Demand("x", -3), Demand("y", 0)][1..] == [Demand("y", 0)];
    assert Attempt(b1, [Demand("y", 0)], clock, 1) == Outcome(true, b1, 2);
    assert Attempt(b, [Demand("x", -3), Demand("y", 0)], clock, 0) == Outcome(true, b1, 2);
    var b2 := b1["x" := x.(count := -1)];
    assert [Demand("x", 2), Demand("y", 20)][1..] == [Demand("y", 20)];
    var rest := Attempt(b2, [Demand("y", 20)], clock, 3);
    assert rest == Outcome(false, b2, 4);
    assert Attempt(b1, [Demand("x", 2), Demand("y", 20)], clock, 2) == HandBack(rest, Demand("x", 2), clock);
  }

  // ---------------------------------------------------------------- refinement of a plain log

  datatype Policy = SlidingPolicy(interval: int, limit: int) | FixedPolicy(interval: int, limit: int)

  function PolicyOf(l: Limiter): Policy {
    if l.Sliding? then SlidingPolicy(l.interval, l.limit) else FixedPolicy(l.interval, l.limit)
  }

  type Log = map<string, seq<Charge>>

  // The range a policy looks back over at `now`.
  function LookBack(p: Policy, now: real): (r: Range)
    requires p.FixedPolicy? ==> p.interval > 0
    ensures r.Aligned? ==> r.interval > 0
  {
    match p
    case SlidingPolicy(interval, _) => Closed(now - interval as real, now)
    case FixedPolicy(interval, _) => Aligned(interval, Window(now, interval))
  }

  predicate GoodPolicies(ps: map<string, Policy>) {
    forall n :: n in ps && ps[n].FixedPolicy? ==> ps[n].interval > 0
  }

  // The reference limiter: it keeps every admitted charge for ever and only ever scans that log.
  predicate Fits(ps: map<string, Policy>, log: Log, ds: seq<Demand>, clock: Clock, tick: nat)
    requires GoodPolicies(ps) && ps.Keys == log.Keys && forall d :: d in ds ==> d.name in ps
    decreases |ds|
  {
    ds == [] ||
    var d, now := ds[0], clock(tick);
    && Mass(log[d.name], LookBack(ps[d.name], now)) + d.weight <= ps[d.name].limit
    && Fits(ps, log[d.name := log[d.name] + [Charge(now, d.weight)]], ds[1..], clock, tick + 1)
  }

  // One charge per demand, at consecutive clock readings.
  function LogAfter(log: Log, ds: seq<Demand>, clock: Clock, tick: nat): (r: Log)
    requires forall d :: d in ds ==> d.name in log
    ensures r.Keys == log.Keys
    decreases |ds|
  {
    if ds == [] then log
    else
      var d := ds[0];
      LogAfter(log[d.name := log[d.name] + [Charge(clock(tick), d.weight)]], ds[1..], clock, tick + 1)
  }

  // Every limiter accounts for its part of the log.
  ghost predicate Agrees(b: Bank, ps: map<string, Policy>, log: Log, now: real) {
    && b.Keys == ps.Keys == log.Keys
    && forall n :: n in b ==> PolicyOf(b[n]) == ps[n] && Accounts(b[n], log[n], now)
  }

  lemma {:induction false} AgreesUsable(b: Bank, ps: map<string, Policy>, log: Log, now: real)
    requires Agrees(b, ps, log, now)
    ensures UsableBank(b) && GoodPolicies(ps)
  {
    forall n | n in b ensures Usable(b[n]) && (ps[n].FixedPolicy? ==> ps[n].interval > 0) {
      assert Accounts(b[n], log[n], now);
    }
  }

  lemma {:induction false} AgreesLater(b: Bank, ps: map<string, Policy>, log: Log, s: real, t: real)
    requires Agrees(b, ps, log, s) && s <= t
    ensures Agrees(b, ps, log, t)
  {
    forall n | n in b ensures Accounts(b[n], log[n], t) { AccountsLater(b[n], log[n], s, t); }
  }

  lemma {:induction false} AgreesUpdate(b: Bank, ps: map<string, Policy>, log: Log, n: string, l: Limiter,
                                        h: seq<Charge>, now: real)
    requires Agrees(b, ps, log, now) && n in b
    requires PolicyOf(l) == ps[n] && Accounts(l, h, now)
    ensures Agrees(b[n := l], ps, log[n := h], now)
  {
    hide Accounts;
  }

  // One admitted charge, and the reading of the clock that follows it.
  lemma {:induction false} ChargeAgrees(b: Bank, ps: map<string, Policy>, log: Log, d: Demand, now: real, later: real)
    requires Agrees(b, ps, log, now) && d.name in b && now <= later && (ps[d.name].FixedPolicy? ==> d.weight >= 0)
    requires Usable(b[d.name]) && Admits(b[d.name], d.weight, now)
    ensures Agrees(b[d.name := Charged(b[d.name], d.weight, now)], ps,
                   log[d.name := log[d.name] + [Charge(now, d.weight)]], later)
  {
    AgreesAt(b, ps, log, d.name, now);
    ChargeAccounts(b[d.name], log[d.name], now, d.weight, now);
    hide Accounts;
    var c, h := Charged(b[d.name], d.weight, now), log[d.name] + [Charge(now, d.weight)];
    AgreesUpdate(b, ps, log, d.name, c, h, now);
    AgreesLater(b[d.name := c], ps, log[d.name := h], now, later);
  }

  lemma {:induction false} SettleAgrees(b: Bank, ps: map<string, Policy>, log: Log, n: string, now: real, later: real)
    requires Agrees(b, ps, log, now) && n in b && Usable(b[n]) && now <= later
    ensures Agrees(b[n := Settle(b[n], now)], ps, log, later)
  {
    SettleAccounts(b[n], log[n], now, now);
    hide Accounts;
    AgreesUpdate(b, ps, log, n, Settle(b[n], now), log[n], now);
    assert log[n := log[n]] == log;
    AgreesLater(b[n := Settle(b[n], now)], ps, log, now, later);
  }

  lemma {:induction false} HandBackAgrees(b: Bank, ps: map<string, Policy>, log: Log, d: Demand, at: real, now: real,
                                          later: real)
    requires d.name in log && now <= later
    requires Agrees(b, ps, log[d.name := log[d.name] + [Charge(at, d.weight)]], now)
    requires d.name in b && Usable(b[d.name])
    ensures Agrees(b[d.name := Give(b[d.name], d.weight, now)], ps, log, later)
  {
    hide Accounts, Give, Agrees;
    var e := Charge(at, d.weight);
    var log1 := log[d.name := log[d.name] + [e]];
    AgreesAt(b, ps, log1, d.name, now);
    GiveUnaccounts(b[d.name], log[d.name], e, now);
    var g := Give(b[d.name], d.weight, now);
    AgreesUpdate(b, ps, log1, d.name, g, log[d.name], now);
    assert log1[d.name := log[d.name]] == log;
    AgreesLater(b[d.name := g], ps, log, now, later);
  }

  lemma AgreesAt(b: Bank, ps: map<string, Policy>, log: Log, n: string, now: real)
    requires Agrees(b, ps, log, now) && n in b
    ensures n in ps && n in log && PolicyOf(b[n]) == ps[n] && Accounts(b[n], log[n], now)
  {
  }

  lemma {:induction false} AgreesDecides(b: Bank, ps: map<string, Policy>, log: Log, d: Demand, now: real)
    requires Agrees(b, ps, log, now) && d.name in b && Usable(b[d.name]) && GoodPolicies(ps)
    ensures b.Keys == ps.Keys == log.Keys
    ensures Admits(b[d.name], d.weight, now)
            <==> Mass(log[d.name], LookBack(ps[d.name], now)) + d.weight <= ps[d.name].limit
  {
    AdmitsIffHistoryAllows(b[d.name], log[d.name], d.weight, now);
    assert Current(b[d.name], now) == LookBack(ps[d.name], now);
  }

  // No fixed window is asked for a negative weight.
  predicate FixedNonNegative(ps: map<string, Policy>, ds: seq<Demand>) {
    forall i :: 0 <= i < |ds| && ds[i].name in ps && ps[ds[i].name].FixedPolicy? ==> ds[i].weight >= 0
  }

  /** The composite limiter, with its pruned deques, rolling counters and rollback, decides and
      records exactly what the plain log does: a call succeeds if and only if every demand fits the
      log in turn; a success adds one charge per demand, a refusal adds nothing. Only demands on fixed
      windows must not be negative. */
  lemma {:induction false} AttemptRefinesLog(b: Bank, ps: map<string, Policy>, log: Log, ds: seq<Demand>,
                                             clock: Clock, tick: nat)
    requires Agrees(b, ps, log, clock(tick)) && UsableBank(b) && GoodPolicies(ps)
    requires Known(ds, b) && NeverBack(clock) && FixedNonNegative(ps, ds)
    ensures var o := Attempt(b, ds, clock, tick);
      && (o.ok <==> Fits(ps, log, ds, clock, tick))
      && Agrees(o.bank, ps, if o.ok then LogAfter(log, ds, clock, tick) else log, clock(o.tick))
    decreases |ds|
  {
    hide Accounts, Agrees, Mass, Window, Charged, Settle, Give, Admits, Current;
    if ds != [] {
      var d, now := ds[0], clock(tick);
      AgreesDecides(b, ps, log, d, now);
      if Admits(b[d.name], d.weight, now) {
        ChargeAgrees(b, ps, log, d, now, clock(tick + 1));
        var b1 := b[d.name := Charged(b[d.name], d.weight, now)];
        var log1 := log[d.name := log[d.name] + [Charge(now, d.weight)]];
        AttemptRefinesLog(b1, ps, log1, ds[1..], clock, tick + 1);
        var rest := Attempt(b1, ds[1..], clock, tick + 1);
        if !rest.ok {
          HandBackAgrees(rest.bank, ps, log, d, now, clock(rest.tick), clock(rest.tick + 1));
        }
      } else {
        SettleAgrees(b, ps, log, d.name, now, clock(tick + 1));
      }
    }
  }

  lemma TimesMonotone(j: int, k: int, i: int)
    requires j <= k && i > 0
    ensures j * i <= k * i
  {
  }

  lemma {:induction false} AccountsSane(l: Limiter, h: seq<Charge>, now: real)
    requires l.Fixed? && Accounts(l, h, now)
    ensures Sane(l, now)
  {
    SettleAccounts(l, h, now, now);
    MassAtMostWeight(h, Current(l, now));
    var k :| l.windowStart == k * l.interval && Counts(h, l.interval, k, l.count, now);
    if l.count != 0 {
      assert h != [];
      TimesMonotone(k, Window(now, l.interval), l.interval);
    }
  }

  // After a refused call that asks for w and then for v, the limiter still accounts for the log h.
  ghost predicate StillAccounts(l: Limiter, h: seq<Charge>, w: int, v: int, t0: real, t1: real, t2: real)
    requires Usable(l)
  {
    var o := Attempt(map["x" := l], [Demand("x", w), Demand("x", v)], Readings(t0, t1, t2), 0);
    !o.ok ==> Accounts(o.bank["x"], h, t2)
  }

  lemma RestoredAccounts(l: Limiter, l': Limiter, h: seq<Charge>, lo: real, hi: real)
    requires Usable(l) && Accounts(l, h, lo) && lo <= hi && Restored(l, l', lo, hi)
    ensures Accounts(l', h, hi)
  {
    if l' == l {
      AccountsLater(l, h, lo, hi);
    } else {
      var t :| lo <= t <= hi && l' == Settle(l, t);
      SettleAccounts(l, h, lo, t);
      AccountsLater(l', h, t, hi);
    }
  }

  // A counter of -w, in a window later than everything in the log, accounts for nothing.
  lemma {:induction false} RefundUnaccounted(l: Limiter, h: seq<Charge>, w: int, t0: real, t1: real)
    requires l.Fixed? && Accounts(l, h, t0) && w < 0 && Window(t1, l.interval) == Window(t0, l.interval) + 1
    ensures !Accounts(Fixed(l.interval, l.limit, Window(t1, l.interval) * l.interval, -w), h, t1)
  {
    var k1 := Window(t1, l.interval);
    forall i | 0 <= i < |h| ensures Window(h[i].at, l.interval) < k1 { WindowMonotone(h[i].at, t0, l.interval); }
    MassOutside(h, Aligned(l.interval, k1));
    hide Window, Mass;
    var l1 := Fixed(l.interval, l.limit, k1 * l.interval, -w);
    if Accounts(l1, h, t1) {
      var k :| l1.windowStart == k * l.interval && Counts(h, l.interval, k, -w, t1);
      SameStart(k, k1, l.interval);
    }
  }

  /** How much the refinement needs its sign condition: over all further demands and readings, a refused call
      leaves a fixed window accounting for the log - and so deciding as the log does - if and only if the demand
      was not negative, or was not admitted in the first place. */
  lemma {:induction false} RefusalKeepsAccountIff(l: Limiter, h: seq<Charge>, w: int, t0: real)
    requires l.Fixed? && Accounts(l, h, t0)
    ensures (forall v, t1, t2 :: t0 <= t1 <= t2 ==> StillAccounts(l, h, w, v, t0, t1, t2))
            <==> w >= 0 || !Admits(l, w, t0)
  {
    AccountsSane(l, h, t0);
    if w >= 0 || !Admits(l, w, t0) {
      forall v, t1, t2 | t0 <= t1 <= t2 ensures StillAccounts(l, h, w, v, t0, t1, t2) {
        RestoredPair(l, w, v, t0, t1, t2);
        hide Accounts, Sane, Timely, Restored, Attempt;
        var o := Attempt(map["x" := l], [Demand("x", w), Demand("x", v)], Readings(t0, t1, t2), 0);
        if !o.ok { RestoredAccounts(l, o.bank["x"], h, t0, t2); }
      }
    } else {
      var t1 := NextWindow(l.interval, t0);
      ChargedPair(l, w, t0);
      RefundUnaccounted(l, h, w, t0, t1);
      hide Accounts, Sane, Timely, Attempt, Admits;
      assert !StillAccounts(l, h, w, l.limit + 1, t0, t1, t1);
    }
  }

  // The limiters after one charge per demand, at consecutive readings.
  function ChargeAll(b: Bank, ds: seq<Demand>, clock: Clock, tick: nat): (r: Bank)
    requires UsableBank(b) && Known(ds, b)
    ensures UsableBank(r) && r.Keys == b.Keys
    decreases |ds|
  {
    if ds == [] then b
    else ChargeAll(b[ds[0].name := Charged(b[ds[0].name], ds[0].weight, clock(tick))], ds[1..], clock, tick + 1)
  }

  /** Whatever the signs, a call that succeeds has charged every matched rule exactly once, in turn. */
  lemma {:induction false} SuccessChargesEachOnce(b: Bank, ds: seq<Demand>, clock: Clock, tick: nat)
    requires UsableBank(b) && Known(ds, b) && Attempt(b, ds, clock, tick).ok
    ensures Attempt(b, ds, clock, tick) == Outcome(true, ChargeAll(b, ds, clock, tick), tick + |ds|)
    decreases |ds|
  {
    hide Charged, Settle, Admits, Take;
    if ds != [] {
      var d, now := ds[0], clock(tick);
      TakeIs(b[d.name], d.weight, now);
      SuccessChargesEachOnce(b[d.name := Charged(b[d.name], d.weight, now)], ds[1..], clock, tick + 1);
    }
  }

  // ---------------------------------------------------------------- whole runs

  datatype Request = Request(method_: string, path: string, weight: int)

  datatype Session = Session(bank: Bank, log: Log, tick: nat)

  function Policies(b: Bank): map<string, Policy> {
    map n | n in b :: PolicyOf(b[n])
  }

  // Every limiter starts out fresh.
  lemma {:induction false} BuildFresh(rules: seq<Rule>, n: string)
    requires n in Build(rules)
    ensures Build(rules)[n] == if Build(rules)[n].Sliding? then Build(rules)[n].(requests := [])
                               else Build(rules)[n].(windowStart := 0, count := 0)
  {
    var init := rules[..|rules| - 1];
    if n in Build(init) { BuildFresh(init, n); }
  }

  // Only a zero interval makes a fixed window unusable; a negative one makes windows run backwards.
  predicate ForwardWindows(rules: seq<Rule>) {
    GoodPolicies(Policies(Build(rules)))
  }

  lemma {:induction false} BuildAgrees(rules: seq<Rule>, now: real)
    requires ForwardWindows(rules)
    ensures Agrees(Build(rules), Policies(Build(rules)), map n | n in Build(rules) :: [], now)
  {
    var b, ps := Build(rules), Policies(Build(rules));
    forall n | n in b ensures Accounts(b[n], [], now) {
      BuildFresh(rules, n);
      assert ps[n] == PolicyOf(b[n]);
      EmptyAccounts(b[n], now);
    }
    hide Accounts, Build;
  }

  // What a request asks of the limiters that the rules create.
  function DemandsOf(rules: seq<Rule>, q: Request, glob: (string, string) -> bool): seq<Demand> {
    Demands(rules, Build(rules).Keys, q.method_, q.path, glob, q.weight)
  }

  function Serve(s: Session, rules: seq<Rule>, q: Request, glob: (string, string) -> bool, clock: Clock): (r: Session)
    requires UsableBank(s.bank) && s.bank.Keys == s.log.Keys
    ensures UsableBank(r.bank) && r.bank.Keys == r.log.Keys == s.bank.Keys
  {
    var ds := Demands(rules, s.bank.Keys, q.method_, q.path, glob, q.weight);
    var o := Attempt(s.bank, ds, clock, s.tick);
    Session(o.bank, if o.ok then LogAfter(s.log, ds, clock, s.tick) else s.log, o.tick)
  }

  // The log holds the charges of admitted calls only; rolled-back charges never enter it.
  function RunSession(rules: seq<Rule>, qs: seq<Request>, glob: (string, string) -> bool, clock: Clock): (r: Session)
    requires UsableBank(Build(rules))
    ensures UsableBank(r.bank) && r.bank.Keys == r.log.Keys == Build(rules).Keys
  {
    if qs == [] then Session(Build(rules), map n | n in Build(rules) :: [], 0)
    else Serve(RunSession(rules, qs[..|qs| - 1], glob, clock), rules, qs[|qs| - 1], glob, clock)
  }

  lemma {:induction false} RunAgrees(rules: seq<Rule>, qs: seq<Request>, glob: (string, string) -> bool, clock: Clock)
    requires UsableBank(Build(rules)) && ForwardWindows(rules) && NeverBack(clock)
    requires forall q :: q in qs ==> FixedNonNegative(Policies(Build(rules)), DemandsOf(rules, q, glob))
    ensures var s := RunSession(rules, qs, glob, clock);
      Agrees(s.bank, Policies(Build(rules)), s.log, clock(s.tick))
  {
    BuildAgrees(rules, clock(0));
    if qs != [] {
      hide Agrees, Attempt, LogAfter, Demands, Build, FixedNonNegative;
      var init, q := qs[..|qs| - 1], qs[|qs| - 1];
      RunAgrees(rules, init, glob, clock);
      var s, ps := RunSession(rules, init, glob, clock), Policies(Build(rules));
      AgreesUsable(s.bank, ps, s.log, clock(s.tick));
      AttemptRefinesLog(s.bank, ps, s.log, DemandsOf(rules, q, glob), clock, s.tick);
    }
  }

  /** In every run a request is decided as the plain log would decide it. */
  lemma RequestsDecidedByLog(rules: seq<Rule>, qs: seq<Request>, q: Request, glob: (string, string) -> bool,
                             clock: Clock)
    requires UsableBank(Build(rules)) && ForwardWindows(rules) && NeverBack(clock)
    requires forall p :: p in qs + [q] ==> FixedNonNegative(Policies(Build(rules)), DemandsOf(rules, p, glob))
    ensures var s := RunSession(rules, qs, glob, clock);
      Attempt(s.bank, DemandsOf(rules, q, glob), clock, s.tick).ok
      <==> Fits(Policies(Build(rules)), s.log, DemandsOf(rules, q, glob), clock, s.tick)
  {
    RunAgrees(rules, qs, glob, clock);
    hide Agrees, Attempt, Fits, Demands, Build, FixedNonNegative;
    var s, ps := RunSession(rules, qs, glob, clock), Policies(Build(rules));
    AgreesUsable(s.bank, ps, s.log, clock(s.tick));
    AttemptRefinesLog(s.bank, ps, s.log, DemandsOf(rules, q, glob), clock, s.tick);
  }

  // ---------------------------------------------------------------- one limiter in whole runs

  // The limiter's state and its part of the log go together, and the log keeps the limiter's bounds. With
  // weights that are not negative this is the full account; without, a fixed window still overcounts.
  ghost predicate Keeps(l: Limiter, h: seq<Charge>, now: real, signed: bool) {
    if signed then Accounts(l, h, now) && KeepsBound(l, h)
    else Overcounts(l, h, now) && AlignedBound(h, l.interval, l.limit)
  }

  lemma KeepsSettle(l: Limiter, h: seq<Charge>, now: real, later: real, signed: bool)
    requires Keeps(l, h, now, signed) && now <= later
    ensures Usable(l) && Keeps(Settle(l, now), h, later, signed)
  {
    if signed {
      SettleAccounts(l, h, now, now);
      AccountsLater(Settle(l, now), h, now, later);
    } else {
      SettleOvercounts(l, h, now);
      OvercountsLater(Settle(l, now), h, now, later);
    }
  }

  lemma KeepsCharge(l: Limiter, h: seq<Charge>, weight: int, now: real, later: real, signed: bool)
    requires Keeps(l, h, now, signed) && now <= later && (signed ==> weight >= 0)
    requires Usable(l) && Admits(l, weight, now)
    ensures Keeps(Charged(l, weight, now), h + [Charge(now, weight)], later, signed)
  {
    var c, g := Charged(l, weight, now), h + [Charge(now, weight)];
    if signed {
      ChargeKeepsBound(l, h, weight, now);
      ChargeAccounts(l, h, now, weight, now);
      AccountsLater(c, g, now, later);
    } else {
      ChargeOvercounts(l, h, weight, now);
      OvercountsLater(c, g, now, later);
    }
  }

  // The bound of the log without the charge is known from before it.
  lemma KeepsGive(l: Limiter, h: seq<Charge>, e: Charge, now: real, later: real, signed: bool)
    requires Keeps(l, h + [e], now, signed) && now <= later
    requires !signed ==> AlignedBound(h, l.interval, l.limit)
    ensures Usable(l) && Keeps(Give(l, e.weight, now), h, later, signed)
  {
    var g := Give(l, e.weight, now);
    if signed {
      DropLastKeepsBound(l, h, e, e.weight, now);
      GiveUnaccounts(l, h, e, now);
      AccountsLater(g, h, now, later);
    } else {
      GiveOvercounts(l, h, e, now);
      OvercountsLater(g, h, now, later);
    }
  }

  lemma KeepsLater(l: Limiter, h: seq<Charge>, now: real, later: real, signed: bool)
    requires Keeps(l, h, now, signed) && now <= later
    ensures Keeps(l, h, later, signed)
  {
    if signed { AccountsLater(l, h, now, later); } else { OvercountsLater(l, h, now, later); }
  }

  // One call, seen by limiter n alone: demands on other limiters only take time.
  lemma {:induction false} AttemptKeeps(b: Bank, log: Log, ds: seq<Demand>, clock: Clock, tick: nat, n: string,
                                        signed: bool)
    requires UsableBank(b) && Known(ds, b) && NeverBack(clock) && b.Keys == log.Keys && n in b
    requires Keeps(b[n], log[n], clock(tick), signed) && (signed ==> NonNegativeFor(n, ds))
    ensures var o := Attempt(b, ds, clock, tick);
      && PolicyOf(o.bank[n]) == PolicyOf(b[n])
      && Keeps(o.bank[n], if o.ok then LogAfter(log, ds, clock, tick)[n] else log[n], clock(o.tick), signed)
    decreases |ds|
  {
    hide Keeps, Settle, Charged, Give, Take, Admits, NonNegativeFor, NeverBack, Usable;
    if ds != [] {
      var d, now, later := ds[0], clock(tick), clock(tick + 1);
      var b1 := b[d.name := Take(b[d.name], d.weight, now)];
      var log1 := log[d.name := log[d.name] + [Charge(now, d.weight)]];
      TakeIs(b[d.name], d.weight, now);
      InTurn(clock, tick, tick + 1);
      if signed { TailNonNegative(n, ds); }
      if !Admits(b[d.name], d.weight, now) {
        if n == d.name {
          KeepsSettle(b[n], log[n], now, later, signed);
        } else {
          KeepsLater(b[n], log[n], now, later, signed);
        }
      } else {
        if n == d.name {
          KeepsCharge(b[n], log[n], d.weight, now, later, signed);
        } else {
          KeepsLater(b[n], log[n], now, later, signed);
        }
        AttemptKeeps(b1, log1, ds[1..], clock, tick + 1, n, signed);
        var rest := Attempt(b1, ds[1..], clock, tick + 1);
        if !rest.ok { HandBackKeeps(b, log, d, now, rest, clock, n, signed); }
      }
    }
  }

  lemma {:induction false} HandBackKeeps(b: Bank, log: Log, d: Demand, now: real, rest: Outcome, clock: Clock,
                                         n: string, signed: bool)
    requires UsableBank(rest.bank) && b.Keys == rest.bank.Keys == log.Keys && n in b && d.name in b && NeverBack(clock)
    requires PolicyOf(rest.bank[n]) == PolicyOf(b[n])
    requires Keeps(b[n], log[n], now, signed)
    requires Keeps(rest.bank[n], if n == d.name then log[n] + [Charge(now, d.weight)] else log[n],
                   clock(rest.tick), signed)
    ensures var o := HandBack(rest, d, clock);
      PolicyOf(o.bank[n]) == PolicyOf(b[n]) && Keeps(o.bank[n], log[n], clock(o.tick), signed)
  {
    hide Give, Accounts, Overcounts, AlignedBound, NeverBack, Usable;
    InTurn(clock, rest.tick, rest.tick + 1);
    if n == d.name {
      KeepsGive(rest.bank[n], log[n], Charge(now, d.weight), clock(rest.tick), clock(rest.tick + 1), signed);
    } else {
      KeepsLater(rest.bank[n], log[n], clock(rest.tick), clock(rest.tick + 1), signed);
    }
  }

  lemma FreshKeeps(l: Limiter, now: real, signed: bool)
    requires l.Sliding? ==> l.requests == [] && signed
    requires l.Fixed? ==> l.windowStart == 0 && l.count == 0 && l.interval > 0
    ensures Keeps(l, [], now, signed)
  {
    EmptyAccounts(l, now);
    if l.Fixed? { assert 0 == 0 * l.interval && CountsOver([], l.interval, 0, 0, now); }
  }

  // What a run leaves limiter n with; `signed` asks that no demand on it be negative.
  lemma {:induction false} RunKeeps(rules: seq<Rule>, qs: seq<Request>, glob: (string, string) -> bool, clock: Clock,
                                    n: string, signed: bool)
    requires UsableBank(Build(rules)) && NeverBack(clock) && n in Build(rules)
    requires if Build(rules)[n].Fixed? then Build(rules)[n].interval > 0 else signed
    requires signed ==> forall q :: q in qs ==> NonNegativeFor(n, DemandsOf(rules, q, glob))
    ensures var s := RunSession(rules, qs, glob, clock);
      PolicyOf(s.bank[n]) == PolicyOf(Build(rules)[n]) && Keeps(s.bank[n], s.log[n], clock(s.tick), signed)
  {
    if qs == [] {
      BuildFresh(rules, n);
      FreshKeeps(Build(rules)[n], clock(0), signed);
    } else {
      hide Build, Keeps, Attempt, Demands, LogAfter, NonNegativeFor, NeverBack;
      var init, q := qs[..|qs| - 1], qs[|qs| - 1];
      RunKeeps(rules, init, glob, clock, n, signed);
      var s := RunSession(rules, init, glob, clock);
      AttemptKeeps(s.bank, s.log, DemandsOf(rules, q, glob), clock, s.tick, n, signed);
    }
  }

  /** Every limiter keeps its promise through the composite limiter, in every run. A fixed window admits
      at most `limit` in any aligned window, whatever the signs of all weights. If no demand on the limiter
      is negative - those on others may be - a sliding window admits at most `limit` in any closed span of
      one interval, and a fixed one at most twice that in any half-open span. */
  lemma {:induction false} CompositeBounds(rules: seq<Rule>, qs: seq<Request>, glob: (string, string) -> bool,
                                           clock: Clock,
                                           n: string)
    requires UsableBank(Build(rules)) && NeverBack(clock) && n in Build(rules)
    requires Build(rules)[n].Fixed? ==> Build(rules)[n].interval > 0
    ensures var l, h := Build(rules)[n], RunSession(rules, qs, glob, clock).log[n];
      && (l.Fixed? ==> AlignedBound(h, l.interval, l.limit))
      && ((forall q :: q in qs ==> NonNegativeFor(n, DemandsOf(rules, q, glob))) ==>
            && (l.Sliding? ==> SlidingBound(h, l.interval, l.limit))
            && (l.Fixed? ==> TwiceBound(h, l.interval, l.limit)))
  {
    hide Build, RunSession, Mass, Remembers, CountsFrom, Overcounts, SlidingBound, AlignedBound,
      TwiceBound, NonNegativeFor,
      Demands, NeverBack;
    var l, h := Build(rules)[n], RunSession(rules, qs, glob, clock).log[n];
    if l.Fixed? { RunKeeps(rules, qs, glob, clock, n, false); }
    if forall q :: q in qs ==> NonNegativeFor(n, DemandsOf(rules, q, glob)) {
      RunKeeps(rules, qs, glob, clock, n, true);
      if l.Fixed? { AlignedBoundsSpans(h, l.interval, l.limit); }
    }
  }

  // ---------------------------------------------------------------- refused requests in whole runs

  // The counter's window has begun.
  predicate Begun(l: Limiter, now: real) {
    l.Fixed? ==> l.interval > 0 && l.windowStart <= Window(now, l.interval) * l.interval
  }

  // Timely, and begun or sane if asked.
  predicate Fit(l: Limiter, now: real, begun: bool, sane: bool) {
    Timely(l, now) && (begun ==> Begun(l, now)) && (sane ==> Sane(l, now))
  }

  lemma FitLater(l: Limiter, now: real, later: real, begun: bool, sane: bool)
    requires Fit(l, now, begun, sane) && now <= later
    ensures Usable(l) && Fit(l, later, begun, sane)
  {
    TimelyLater(l, now, later);
    if l.Fixed? { LaterStart(now, later, l.interval); }
    hide Window;
  }

  lemma FitSettle(l: Limiter, now: real, later: real, begun: bool, sane: bool)
    requires Usable(l) && Fit(l, now, begun, sane) && now <= later
    ensures Fit(Settle(l, now), later, begun, sane)
  {
    TimelyCharged(l, 0, now);
    assert begun ==> Begun(Settle(l, now), now);
    FitLater(Settle(l, now), now, later, begun, sane);
  }

  lemma FitCharge(l: Limiter, w: int, now: real, later: real, begun: bool, sane: bool)
    requires Usable(l) && Fit(l, now, begun, sane) && now <= later && (sane && l.Fixed? ==> w >= 0)
    ensures Fit(Charged(l, w, now), later, true, sane)
  {
    TimelyCharged(l, w, now);
    assert Begun(Charged(l, w, now), now);
    FitLater(Charged(l, w, now), now, later, true, sane);
  }

  lemma FitGive(l: Limiter, w: int, now: real, later: real, sane: bool)
    requires Usable(l) && Fit(l, now, true, sane) && now <= later
    ensures Fit(Give(l, w, now), later, true, sane)
  {
    if l.Sliding? { var k := PruneIsSuffix(l.requests, now - l.interval as real); }
    FitLater(Give(l, w, now), now, later, true, sane);
  }

  // A call, refused or not, leaves limiter n fit.
  lemma {:induction false} AttemptFit(b: Bank, ds: seq<Demand>, clock: Clock, tick: nat, n: string, begun: bool,
                                      sane: bool)
    requires UsableBank(b) && Known(ds, b) && NeverBack(clock) && n in b
    requires Fit(b[n], clock(tick), begun, sane) && (sane && b[n].Fixed? ==> NonNegativeFor(n, ds))
    ensures var o := Attempt(b, ds, clock, tick);
      PolicyOf(o.bank[n]) == PolicyOf(b[n]) && Fit(o.bank[n], clock(o.tick), begun, sane)
    decreases |ds|
  {
    hide Fit, Settle, Charged, Give, Take, Admits, NonNegativeFor, NeverBack, Usable;
    if ds != [] {
      var d, now, later := ds[0], clock(tick), clock(tick + 1);
      TakeIs(b[d.name], d.weight, now);
      InTurn(clock, tick, tick + 1);
      if sane && b[n].Fixed? { TailNonNegative(n, ds); }
      if n != d.name { FitLater(b[n], now, later, begun, sane); }
      if !Admits(b[d.name], d.weight, now) {
        if n == d.name { FitSettle(b[n], now, later, begun, sane); }
      } else {
        if n == d.name { FitCharge(b[n], d.weight, now, later, begun, sane); }
        var b1 := b[d.name := Take(b[d.name], d.weight, now)];
        var begun1 := begun || n == d.name;
        AttemptFit(b1, ds[1..], clock, tick + 1, n, begun1, sane);
        var rest := Attempt(b1, ds[1..], clock, tick + 1);
        FitLess(rest.bank[n], clock(rest.tick), begun1, begun, sane);
        if !rest.ok { HandBackFit(rest, d, clock, n, begun, sane); }
      }
    }
  }

  lemma HandBackFit(rest: Outcome, d: Demand, clock: Clock, n: string, begun: bool, sane: bool)
    requires UsableBank(rest.bank) && n in rest.bank && d.name in rest.bank && NeverBack(clock)
    requires Fit(rest.bank[n], clock(rest.tick), begun || n == d.name, sane)
    ensures var o := HandBack(rest, d, clock);
      PolicyOf(o.bank[n]) == PolicyOf(rest.bank[n]) && Fit(o.bank[n], clock(o.tick), begun, sane)
  {
    var end, after := clock(rest.tick), clock(rest.tick + 1);
    InTurn(clock, rest.tick, rest.tick + 1);
    hide Fit, Give, NeverBack;
    if n == d.name {
      FitGive(rest.bank[n], d.weight, end, after, sane);
      FitLess(Give(rest.bank[n], d.weight, end), after, true, begun, sane);
    } else {
      FitLater(rest.bank[n], end, after, begun, sane);
    }
  }

  lemma FitLess(l: Limiter, now: real, more: bool, begun: bool, sane: bool)
    requires Fit(l, now, more, sane) && (begun ==> more)
    ensures Fit(l, now, begun, sane)
  {
  }

  // What a run leaves limiter n as: timely always, and sane if no demand on a fixed window is negative.
  lemma {:induction false} RunFit(rules: seq<Rule>, qs: seq<Request>, glob: (string, string) -> bool, clock: Clock,
                                  n: string, sane: bool)
    requires UsableBank(Build(rules)) && NeverBack(clock) && n in Build(rules)
    requires Build(rules)[n].Fixed? ==> Build(rules)[n].interval > 0
    requires sane && Build(rules)[n].Fixed? ==> forall q :: q in qs ==> NonNegativeFor(n, DemandsOf(rules, q, glob))
    ensures var s := RunSession(rules, qs, glob, clock);
      PolicyOf(s.bank[n]) == PolicyOf(Build(rules)[n]) && Fit(s.bank[n], clock(s.tick), false, sane)
  {
    if qs == [] {
      BuildFresh(rules, n);
    } else {
      hide Build, Fit, Attempt, Demands, LogAfter, NonNegativeFor, NeverBack;
      var init, q := qs[..|qs| - 1], qs[|qs| - 1];
      RunFit(rules, init, glob, clock, n, sane);
      var s := RunSession(rules, init, glob, clock);
      AttemptFit(s.bank, DemandsOf(rules, q, glob), clock, s.tick, n, false, sane);
    }
  }

  /** In every run, a refused request leaves every limiter merely pruned or rolled, and the log as it was. Only
      demands on a fixed window itself must not be negative; sliding windows bear weights of any sign. */
  lemma {:induction false} RefusedRequestLeavesNoTrace(rules: seq<Rule>, qs: seq<Request>, q: Request,
                                                       glob: (string, string) -> bool, clock: Clock, n: string)
    requires UsableBank(Build(rules)) && NeverBack(clock) && n in Build(rules)
    requires Build(rules)[n].Fixed? ==>
      && Build(rules)[n].interval > 0
      && (forall p :: p in qs ==> NonNegativeFor(n, DemandsOf(rules, p, glob)))
      && NonNegativeFor(n, ButLast(DemandsOf(rules, q, glob)))
    requires var s := RunSession(rules, qs, glob, clock); !Attempt(s.bank, DemandsOf(rules, q, glob), clock, s.tick).ok
    ensures var s := RunSession(rules, qs, glob, clock);
      var r := Serve(s, rules, q, glob, clock);
      r.log == s.log && Restored(s.bank[n], r.bank[n], clock(s.tick), clock(r.tick - 1))
  {
    RunFit(rules, qs, glob, clock, n, true);
    hide RunSession, Build, Restored, Attempt, Timely, Sane, NonNegativeFor, ButLast, Demands;
    var s := RunSession(rules, qs, glob, clock);
    RefusalLeavesNoCharge(s.bank, DemandsOf(rules, q, glob), clock, s.tick, n);
  }

  // ---------------------------------------------------------------- which weights the span bound can bear

  // One fixed window for every path, charged with the weight of each request.
  function OneRule(interval: int, limit: int): seq<Rule> {
    [Rule("x", FixedWindow, interval, limit, Global, None, map[], 1)]
  }

  function Requests(weights: seq<int>): (qs: seq<Request>)
    ensures |qs| == |weights|
  {
    if weights == [] then [] else Requests(weights[..|weights| - 1]) + [Request("", "", weights[|weights| - 1])]
  }

  function NoGlob(): (string, string) -> bool {
    (path, pattern) => false
  }

  // What requests of these weights leave in the log of the one limiter.
  function LogOf(interval: int, limit: int, weights: seq<int>, clock: Clock): seq<Charge>
    requires interval > 0
  {
    RunSession(OneRule(interval, limit), Requests(weights), NoGlob(), clock).log["x"]
  }

  predicate AllFrom(least: int, weights: seq<int>) {
    forall i :: 0 <= i < |weights| ==> weights[i] >= least
  }

  ghost predicate SpansSafeFrom(interval: int, limit: int, least: int)
    requires interval > 0
  {
    forall weights, clock: Clock :: AllFrom(least, weights) && NeverBack(clock) ==>
      TwiceBound(LogOf(interval, limit, weights, clock), interval, limit)
  }

  lemma OneDemand(interval: int, limit: int, names: set<string>, weight: int)
    requires "x" in names
    ensures Demands(OneRule(interval, limit), names, "", "", NoGlob(), weight) == [Demand("x", weight)]
  {
    var r := OneRule(interval, limit);
    assert r[1..] == [];
    assert Demands(r[1..], names, "", "", NoGlob(), weight) == [];
    assert GetWeight(r[0], "", "") == 1;
  }

  function OneLimiter(l: Limiter, h: seq<Charge>, tick: nat): Session {
    Session(map["x" := l], map["x" := h], tick)
  }

  // One request to the one limiter.
  lemma ServeOne(interval: int, limit: int, l: Limiter, h: seq<Charge>, tick: nat, w: int, clock: Clock)
    requires Usable(l)
    ensures Serve(OneLimiter(l, h, tick), OneRule(interval, limit), Request("", "", w), NoGlob(), clock)
            == OneLimiter(Take(l, w, clock(tick)),
                          if Admits(l, w, clock(tick)) then h + [Charge(clock(tick), w)] else h, tick + 1)
  {
    var s, d := OneLimiter(l, h, tick), Demand("x", w);
    OneDemand(interval, limit, s.bank.Keys, w);
    var now := clock(tick);
    TakeIs(l, w, now);
    hide Take, Admits, Demands, OneRule;
    assert [d][1..] == [];
    var b1 := s.bank["x" := Take(l, w, now)];
    assert Attempt(b1, [], clock, tick + 1) == Outcome(true, b1, tick + 1);
    assert Attempt(s.bank, [d], clock, tick) == Outcome(Admits(l, w, now), b1, tick + 1);
    var log1 := s.log["x" := h + [Charge(now, w)]];
    assert LogAfter(log1, [], clock, tick + 1) == log1;
    assert LogAfter(s.log, [d], clock, tick) == log1;
    assert b1 == map["x" := Take(l, w, now)] && log1 == map["x" := h + [Charge(now, w)]];
  }

  lemma RunSnoc(interval: int, limit: int, weights: seq<int>, w: int, clock: Clock)
    requires interval > 0
    ensures RunSession(OneRule(interval, limit), Requests(weights + [w]), NoGlob(), clock)
            == Serve(RunSession(OneRule(interval, limit), Requests(weights), NoGlob(), clock),
                     OneRule(interval, limit), Request("", "", w), NoGlob(), clock)
  {
    var ws, q := weights + [w], Request("", "", w);
    assert ws[..|ws| - 1] == weights && ws[|weights|] == w;
    assert Requests(ws) == Requests(weights) + [q];
    assert (Requests(weights) + [q])[..|weights|] == Requests(weights);
    hide Serve, Requests;
  }

  // An admitted charge turns l into l'.
  predicate Takes(l: Limiter, w: int, now: real, l': Limiter) {
    Usable(l) && Admits(l, w, now) && Take(l, w, now) == l'
  }

  // The counter starts at zero, and is rolled before the third charge.
  lemma ThreeCharges(interval: int, limit: int, w: int)
    requires w < 0 && limit >= 0 && interval > 0
    ensures Takes(Fixed(interval, limit, 0, 0), w, 0.0, Fixed(interval, limit, 0, w))
    ensures Takes(Fixed(interval, limit, 0, w), limit - w, interval as real / 2.0, Fixed(interval, limit, 0, limit))
    ensures Takes(Fixed(interval, limit, 0, limit), limit, interval as real, Fixed(interval, limit, interval, limit))
  {
    var i := interval as real;
    assert (i / 2.0) / i == 0.5 && i / i == 1.0 && 0.0 / i == 0.0;
    assert Window(0.0, interval) == 0 && Window(i / 2.0, interval) == 0 && Window(i, interval) == 1;
    hide Window;
  }

  // Requests of these weights leave the limiter l and the log h.
  predicate LeavesWith(interval: int, limit: int, weights: seq<int>, clock: Clock, l: Limiter, h: seq<Charge>)
    requires interval > 0
  {
    RunSession(OneRule(interval, limit), Requests(weights), NoGlob(), clock) == OneLimiter(l, h, |weights|)
  }

  lemma LeavesFresh(interval: int, limit: int, clock: Clock)
    requires interval > 0
    ensures LeavesWith(interval, limit, [], clock, Fixed(interval, limit, 0, 0), [])
  {
    assert OneRule(interval, limit)[..0] == [];
    assert Build(OneRule(interval, limit)) == map["x" := Fixed(interval, limit, 0, 0)];
  }

  lemma LeavesMore(interval: int, limit: int, weights: seq<int>, clock: Clock, l: Limiter, h: seq<Charge>, w: int,
                   l': Limiter)
    requires interval > 0 && LeavesWith(interval, limit, weights, clock, l, h)
    requires Takes(l, w, clock(|weights|), l')
    ensures LeavesWith(interval, limit, weights + [w], clock, l', h + [Charge(clock(|weights|), w)])
  {
    hide RunSession, Serve, Take, Admits, Requests, OneRule;
    RunSnoc(interval, limit, weights, w, clock);
    ServeOne(interval, limit, l, h, |weights|, w, clock);
  }

  lemma OneByOne<T>(a: T, b: T, c: T)
    ensures [] + [a] == [a] && [a] + [b] == [a, b] && [a, b] + [c] == [a, b, c]
  {
  }

  // A negative weight makes room half an interval later, and the next window adds its own limit to that.
  lemma {:induction false} NegativeWeightBreaksSpan(interval: int, limit: int, w: int) returns (clock: Clock)
    requires w < 0 && limit >= 0 && interval > 0
    ensures NeverBack(clock) && !TwiceBound(LogOf(interval, limit, [w, limit - w, limit], clock), interval, limit)
  {
    var half, end := interval as real / 2.0, interval as real;
    clock := Readings(0.0, half, end);
    ReadingsInOrder(0.0, half, end);
    ThreeLeave(interval, limit, w, clock, Charge(0.0, w), Charge(half, limit - w), Charge(end, limit));
  }

  lemma ThreeLeave(interval: int, limit: int, w: int, clock: Clock, a: Charge, b: Charge, c: Charge)
    requires w < 0 && limit >= 0 && interval > 0
    requires var half, end := interval as real / 2.0, interval as real;
      && a == Charge(0.0, w) && b == Charge(half, limit - w) && c == Charge(end, limit)
      && clock(0) == 0.0 && clock(1) == half && clock(2) == end
    ensures !TwiceBound(LogOf(interval, limit, [w, limit - w, limit], clock), interval, limit)
  {
    var l, l1, l2, l3 := Fixed(interval, limit, 0, 0), Fixed(interval, limit, 0, w), Fixed(interval, limit, 0, limit),
      Fixed(interval, limit, interval, limit);
    hide *;
    ThreeCharges(interval, limit, w);
    LeavesFresh(interval, limit, clock);
    OneByOne(w, limit - w, limit);
    OneByOne(a, b, c);
    LeavesMore(interval, limit, [], clock, l, [], w, l1);
    LeavesMore(interval, limit, [w], clock, l1, [a], limit - w, l2);
    LeavesMore(interval, limit, [w, limit - w], clock, l2, [a, b], limit, l3);
    LeavesLog(interval, limit, [w, limit - w, limit], clock, l3, [a, b, c]);
    SpanOfThree(a, b, c, interval, limit);
  }

  lemma LeavesLog(interval: int, limit: int, weights: seq<int>, clock: Clock, l: Limiter, h: seq<Charge>)
    requires interval > 0 && LeavesWith(interval, limit, weights, clock, l, h)
    ensures LogOf(interval, limit, weights, clock) == h
  {
    hide RunSession;
  }

  lemma SpanOfThree(a: Charge, b: Charge, c: Charge, interval: int, limit: int)
    requires interval > 0 && limit >= 0 && a.at < b.at <= c.at < b.at + interval as real
    requires b.weight + c.weight > 2 * limit
    ensures !TwiceBound([a, b, c], interval, limit)
  {
    var r := HalfSpan(b.at, interval);
    OneByOne(a, b, c);
    MassConcat([a], [b], r);
    MassConcat([a, b], [c], r);
    MassOne(a, r);
    MassOne(b, r);
    MassOne(c, r);
    hide Mass;
    assert Mass([a, b, c], r) == b.weight + c.weight;
  }

  lemma {:induction false} RequestsFrom(least: int, weights: seq<int>)
    requires AllFrom(least, weights)
    ensures forall q :: q in Requests(weights) ==> q.method_ == q.path == "" && q.weight >= least
  {
    if weights != [] { RequestsFrom(least, weights[..|weights| - 1]); }
  }

  /** Which weights the span bound of a fixed window can bear: every run through the composite limiter whose
      weights are at least `least` keeps every span of one interval within twice the limit if and only if
      `least` is not negative. */
  lemma {:induction false} SpanBoundIffNonNegative(interval: int, limit: int, least: int)
    requires limit >= 0 && interval > 0
    ensures SpansSafeFrom(interval, limit, least) <==> least >= 0
  {
    hide TwiceBound, AlignedBound, Requests, RunSession;
    if least >= 0 {
      var rules := OneRule(interval, limit);
      assert Build(rules) == map["x" := Fixed(interval, limit, 0, 0)] by { assert rules[..0] == []; }
      hide Build, OneRule;
      forall weights, clock: Clock | AllFrom(least, weights) && NeverBack(clock)
        ensures TwiceBound(LogOf(interval, limit, weights, clock), interval, limit)
      {
        RequestsFrom(least, weights);
        forall q | q in Requests(weights) ensures NonNegativeFor("x", DemandsOf(rules, q, NoGlob())) {
          OneDemand(interval, limit, Build(rules).Keys, q.weight);
        }
        CompositeBounds(rules, Requests(weights), NoGlob(), clock, "x");
      }
    } else {
      var clock := NegativeWeightBreaksSpan(interval, limit, least);
      assert AllFrom(least, [least, limit - least, limit]);
    }
  }
}
