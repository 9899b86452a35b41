/**
 What the two limiters promise over whole runs: admitted weight in a time range is bounded.

 The limiter state is compared with the full history of admitted, unreleased charges, which
 the source never keeps.
 */
module LimiterBounds {
  import opened Limiters

  // ---------------------------------------------------------------- weight inside a time range

  datatype Range =
    | Closed(lo: real, hi: real)
    | HalfOpen(lo: real, hi: real)
    | Aligned(interval: int, index: int)

  predicate Holds(r: Range, t: real)
    requires r.Aligned? ==> r.interval > 0
  {
    match r
    case Closed(lo, hi) => lo <= t <= hi
    case HalfOpen(lo, hi) => lo <= t < hi
    case Aligned(interval, k) => Window(t, interval) == k
  }

  // Total weight of the charges of h that fall inside r.
  function Mass(h: seq<Charge>, r: Range): int
    requires r.Aligned? ==> r.interval > 0
  {
    if h == [] then 0
    else Mass(h[..|h| - 1], r) + if Holds(r, h[|h| - 1].at) then h[|h| - 1].weight else 0
  }

  predicate NonNegative(h: seq<Charge>) {
    forall i :: 0 <= i < |h| ==> h[i].weight >= 0
  }

  predicate InOrder(h: seq<Charge>, now: real) {
    && (forall i :: 0 <= i < |h| ==> h[i].at <= now)
    && (forall i, j :: 0 <= i < j < |h| ==> h[i].at <= h[j].at)
  }

  lemma {:induction false} MassConcat(a: seq<Charge>, b: seq<Charge>, r: Range)
    requires r.Aligned? ==> r.interval > 0
    ensures Mass(a + b, r) == Mass(a, r) + Mass(b, r)
  {
    if b == [] {
      assert a + b == a;
    } else {
      assert (a + b)[..|a + b| - 1] == a + b[..|b| - 1];
      MassConcat(a, b[..|b| - 1], r);
    }
  }

  lemma MassOne(e: Charge, r: Range)
    requires r.Aligned? ==> r.interval > 0
    ensures Mass([e], r) == if Holds(r, e.at) then e.weight else 0
  {
    assert [e][..0] == [];
  }

  lemma {:induction false} MassOutside(h: seq<Charge>, r: Range)
    requires r.Aligned? ==> r.interval > 0
    requires forall i :: 0 <= i < |h| ==> !Holds(r, h[i].at)
    ensures Mass(h, r) == 0
  {
    if h != [] {
      MassOutside(h[..|h| - 1], r);
    }
  }

  lemma {:induction false} MassInside(h: seq<Charge>, r: Range)
    requires r.Aligned? ==> r.interval > 0
    requires forall i :: 0 <= i < |h| ==> Holds(r, h[i].at)
    ensures Mass(h, r) == Weight(h)
  {
    if h != [] {
      MassInside(h[..|h| - 1], r);
    }
  }

  lemma {:induction false} MassAtMostWeight(h: seq<Charge>, r: Range)
    requires r.Aligned? ==> r.interval > 0
    requires NonNegative(h)
    ensures 0 <= Mass(h, r) <= Weight(h)
  {
    if h != [] {
      MassAtMostWeight(h[..|h| - 1], r);
    }
  }

  // A range covered by two others holds no more than both together.
  lemma {:induction false} MassCover(h: seq<Charge>, r: Range, a: Range, b: Range)
    requires r.Aligned? ==> r.interval > 0
    requires a.Aligned? ==> a.interval > 0
    requires b.Aligned? ==> b.interval > 0
    requires NonNegative(h)
    requires forall i :: 0 <= i < |h| && Holds(r, h[i].at) ==> Holds(a, h[i].at) || Holds(b, h[i].at)
    ensures Mass(h, r) <= Mass(h, a) + Mass(h, b)
  {
    if h != [] {
      MassCover(h[..|h| - 1], r, a, b);
    }
  }

  // ---------------------------------------------------------------- pruning

  lemma {:induction false} PruneIsSuffix(q: seq<Charge>, cutoff: real) returns (k: nat)
    ensures k <= |q| && Prune(q, cutoff) == q[k..]
    ensures forall i :: 0 <= i < k ==> q[i].at < cutoff
    ensures k < |q| ==> q[k].at >= cutoff
  {
    if q != [] && q[0].at < cutoff {
      var j := PruneIsSuffix(q[1..], cutoff);
      assert q[1..][j..] == q[j + 1..];
      forall i | 0 <= i < j + 1
        ensures q[i].at < cutoff
      {
        if i > 0 { assert q[i] == q[1..][i - 1]; }
      }
      k := j + 1;
    } else {
      k := 0;
    }
  }

  lemma {:induction false} PruneTwice(q: seq<Charge>, c0: real, c1: real)
    requires c0 <= c1
    ensures Prune(Prune(q, c0), c1) == Prune(q, c1)
  {
    if q != [] && q[0].at < c0 {
      PruneTwice(q[1..], c0, c1);
    }
  }

  // ---------------------------------------------------------------- state versus history

  function Cap(limit: int): nat {
    if limit < 0 then 0 else limit
  }

  // The deque is the unexpired suffix of the history.
  predicate Remembers(q: seq<Charge>, h: seq<Charge>, cutoff: real) {
    && |q| <= |h| && q == h[|h| - |q|..]
    && forall i :: 0 <= i < |h| - |q| ==> h[i].at < cutoff
  }

  // The closed window of length `interval` that starts at lo.
  function Span(lo: real, interval: int): Range {
    Closed(lo, lo + interval as real)
  }

  ghost predicate SlidingBound(h: seq<Charge>, interval: int, limit: int) {
    forall lo: real :: Mass(h, Span(lo, interval)) <= Cap(limit)
  }

  function HalfSpan(lo: real, interval: int): Range {
    HalfOpen(lo, lo + interval as real)
  }

  ghost predicate TwiceBound(h: seq<Charge>, interval: int, limit: int) {
    forall lo: real :: Mass(h, HalfSpan(lo, interval)) <= 2 * Cap(limit)
  }

  ghost predicate AlignedBound(h: seq<Charge>, interval: int, limit: int)
    requires interval > 0
  {
    forall k: int :: Mass(h, Aligned(interval, k)) <= Cap(limit)
  }

  // The counter is the weight admitted in the current window k, and no charge is from a later one.
  predicate Counts(h: seq<Charge>, interval: int, k: int, count: int, now: real)
    requires interval > 0
  {
    && count == Mass(h, Aligned(interval, k))
    && (forall i :: 0 <= i < |h| ==> Window(h[i].at, interval) <= k)
    && (h != [] ==> k <= Window(now, interval))
  }

  ghost predicate CountsFrom(h: seq<Charge>, interval: int, start: int, count: int, now: real)
    requires interval > 0
  {
    exists k :: start == k * interval && Counts(h, interval, k, count, now)
  }

  // The limiter's state is what the history of admitted charges says it should be. A deque says so for
  // weights of any sign; a counter that is clamped at zero needs weights that are not negative, and then
  // the history keeps the aligned bound.
  ghost predicate Accounts(l: Limiter, h: seq<Charge>, now: real) {
    InOrder(h, now) &&
    match l
    case Sliding(interval, _, q) => Remembers(q, h, now - interval as real)
    case Fixed(interval, limit, start, count) =>
      interval > 0 && NonNegative(h) && CountsFrom(h, interval, start, count, now) && AlignedBound(h, interval, limit)
  }

  // The history keeps the promise of a sliding window.
  ghost predicate KeepsBound(l: Limiter, h: seq<Charge>) {
    l.Sliding? ==> NonNegative(h) && SlidingBound(h, l.interval, l.limit)
  }

  lemma WindowMonotone(s: real, t: real, interval: int)
    requires interval > 0 && s <= t
    ensures Window(s, interval) <= Window(t, interval)
  {
    var i := interval as real;
    assert s / i <= t / i;
  }

  // A half-open span as long as a window meets at most two aligned windows.
  lemma SpanMeetsTwoWindows(s: real, t: real, interval: int)
    requires interval > 0 && s <= t < s + interval as real
    ensures Window(s, interval) <= Window(t, interval) <= Window(s, interval) + 1
  {
    WindowMonotone(s, t, interval);
    var i := interval as real;
    var d := t / i - s / i;
    assert d * i == t - s;
    if d >= 1.0 {
      assert d * i >= i;
    }
  }

  lemma SameStart(j: int, k: int, interval: int)
    requires interval > 0 && j * interval == k * interval
    ensures j == k
  {
    assert (j - k) * interval == 0;
  }

  lemma EmptyAccounts(l: Limiter, now: real)
    requires l.Sliding? ==> l.requests == []
    requires l.Fixed? ==> l.windowStart == 0 && l.count == 0 && l.interval > 0
    ensures Accounts(l, [], now) && KeepsBound(l, [])
  {
    if l.Fixed? {
      assert 0 == 0 * l.interval && Counts([], l.interval, 0, 0, now);
    }
  }

  // The range whose admitted weight an acquire at `now` compares with the limit.
  function Current(l: Limiter, now: real): (r: Range)
    requires l.Fixed? ==> l.interval > 0
    ensures r.Aligned? ==> r.interval > 0
  {
    match l
    case Sliding(interval, _, _) => Closed(now - interval as real, now)
    case Fixed(interval, _, _, _) => Aligned(interval, Window(now, interval))
  }

  lemma {:induction false} PruneRemembers(q: seq<Charge>, h: seq<Charge>, now: real, c0: real,
                                          c1: real) returns (p: seq<Charge>)
    requires Remembers(q, h, c0) && c0 <= c1 && InOrder(h, now)
    ensures p == Prune(q, c1) && Remembers(p, h, c1)
    ensures forall i :: 0 <= i < |p| ==> p[i].at >= c1
  {
    var k := PruneIsSuffix(q, c1);
    p := q[k..];
    var n := |h| - |p|;
    forall i | 0 <= i < n
      ensures h[i].at < c1
    {
      if i >= |h| - |q| { assert h[i] == q[i - (|h| - |q|)]; }
    }
    forall i | 0 <= i < |p|
      ensures p[i].at >= c1
    {
      assert p[i] == h[n + i] && p[0] == h[n];
    }
  }

  // What is left after pruning weighs as much as the history from the cutoff on.
  lemma {:induction false} RememberedWeight(p: seq<Charge>, h: seq<Charge>, cutoff: real, now: real)
    requires Remembers(p, h, cutoff) && InOrder(h, now)
    requires forall i :: 0 <= i < |p| ==> p[i].at >= cutoff
    ensures Weight(p) == Mass(h, Closed(cutoff, now))
  {
    var r := Closed(cutoff, now);
    var n := |h| - |p|;
    assert h == h[..n] + p;
    MassConcat(h[..n], p, r);
    MassOutside(h[..n], r);
    forall i | 0 <= i < |p|
      ensures Holds(r, p[i].at)
    {
      assert p[i] == h[n + i];
    }
    MassInside(p, r);
  }

  lemma {:induction false} SettleSliding(l: Limiter, h: seq<Charge>, before: real, now: real)
    requires l.Sliding? && Accounts(l, h, before) && before <= now
    ensures Accounts(Settle(l, now), h, now)
    ensures Usage(Settle(l, now)) == Mass(h, Current(l, now))
  {
    var cutoff := now - l.interval as real;
    var p := PruneRemembers(l.requests, h, before, before - l.interval as real, cutoff);
    assert InOrder(h, now);
    RememberedWeight(p, h, cutoff, now);
  }

  lemma {:induction false} SettleFixed(l: Limiter, h: seq<Charge>, before: real, now: real)
    requires l.Fixed? && Accounts(l, h, before) && before <= now
    ensures Accounts(Settle(l, now), h, now)
    ensures Usage(Settle(l, now)) == Mass(h, Current(l, now))
    ensures Settle(l, now).windowStart == Window(now, l.interval) * l.interval
    ensures Counts(h, l.interval, Window(now, l.interval), Settle(l, now).count, now)
  {
    var k :| l.windowStart == k * l.interval && Counts(h, l.interval, k, l.count, before);
    var w := Window(now, l.interval);
    WindowMonotone(before, now, l.interval);
    if w * l.interval != l.windowStart {
      MassOutside(h, Aligned(l.interval, w));
    } else {
      SameStart(k, w, l.interval);
    }
    assert Counts(h, l.interval, w, Settle(l, now).count, now);
  }

  // Settling keeps the account, and the usage it leaves is exactly the weight admitted in the last
  // `interval` seconds, or in the current aligned window.
  lemma SettleAccounts(l: Limiter, h: seq<Charge>, before: real, now: real)
    requires Accounts(l, h, before) && before <= now
    ensures Accounts(Settle(l, now), h, now)
    ensures Usage(Settle(l, now)) == Mass(h, Current(l, now))
  {
    if l.Sliding? { SettleSliding(l, h, before, now); } else { SettleFixed(l, h, before, now); }
  }

  /** A limiter whose state accounts for its history admits a request exactly when the history leaves
      room for it: the fast state decides what a scan of the whole history would. */
  lemma AdmitsIffHistoryAllows(l: Limiter, h: seq<Charge>, weight: int, now: real)
    requires Accounts(l, h, now)
    ensures Admits(l, weight, now) <==> Mass(h, Current(l, now)) + weight <= l.limit
  {
    SettleAccounts(l, h, now, now);
  }

  lemma {:induction false} ChargeKeepsSlidingBound(p: seq<Charge>, h: seq<Charge>, interval: int, limit: int, e: Charge)
    requires Remembers(p, h, e.at - interval as real) && NonNegative(h) && e.weight >= 0
    requires SlidingBound(h, interval, limit)
    requires Weight(p) + e.weight <= limit
    ensures SlidingBound(h + [e], interval, limit)
  {
    forall lo: real
      ensures Mass(h + [e], Span(lo, interval)) <= Cap(limit)
    {
      var r := Span(lo, interval);
      var n := |h| - |p|;
      assert (h + [e])[..|h|] == h;
      if Holds(r, e.at) {
        assert h == h[..n] + p;
        MassConcat(h[..n], p, r);
        MassOutside(h[..n], r);
        MassAtMostWeight(p, r);
      }
    }
  }

  lemma {:induction false} ChargeKeepsAlignedBound(h: seq<Charge>, interval: int, limit: int, e: Charge)
    requires interval > 0 && AlignedBound(h, interval, limit)
    requires Mass(h, Aligned(interval, Window(e.at, interval))) + e.weight <= limit
    ensures AlignedBound(h + [e], interval, limit)
  {
    forall k: int
      ensures Mass(h + [e], Aligned(interval, k)) <= Cap(limit)
    {
      assert (h + [e])[..|h|] == h;
    }
  }

  lemma {:induction false} ChargeSliding(l: Limiter, h: seq<Charge>, before: real, weight: int, now: real)
    requires l.Sliding? && Accounts(l, h, before) && before <= now
    ensures Accounts(Charged(l, weight, now), h + [Charge(now, weight)], now)
  {
    var e, p := Charge(now, weight), Settle(l, now).requests;
    SettleSliding(l, h, before, now);
    RemembersMore(p, h, e, now - l.interval as real);
    InOrderMore(h, e);
    hide Mass, Remembers, InOrder, Prune;
  }

  // With weights that are not negative an admitted charge keeps the bound of a sliding window.
  lemma {:induction false} ChargeKeepsBound(l: Limiter, h: seq<Charge>, weight: int, now: real)
    requires Accounts(l, h, now) && KeepsBound(l, h) && weight >= 0 && Admits(l, weight, now)
    ensures KeepsBound(Charged(l, weight, now), h + [Charge(now, weight)])
  {
    if l.Sliding? {
      var e, p := Charge(now, weight), Settle(l, now).requests;
      SettleSliding(l, h, now, now);
      ChargeKeepsSlidingBound(p, h, l.interval, l.limit, e);
      hide Mass, SlidingBound, Remembers, InOrder, Prune;
    }
  }

  lemma RemembersMore(p: seq<Charge>, h: seq<Charge>, e: Charge, cutoff: real)
    requires Remembers(p, h, cutoff)
    ensures Remembers(p + [e], h + [e], cutoff)
  {
    assert p + [e] == (h + [e])[|h| - |p|..];
  }

  lemma InOrderMore(h: seq<Charge>, e: Charge)
    requires InOrder(h, e.at)
    ensures InOrder(h + [e], e.at)
  {
  }

  lemma {:induction false} ChargeFixed(l: Limiter, h: seq<Charge>, before: real, weight: int, now: real)
    requires l.Fixed? && Accounts(l, h, before) && before <= now && weight >= 0
    requires Admits(l, weight, now)
    ensures Accounts(Charged(l, weight, now), h + [Charge(now, weight)], now)
  {
    var e, s := Charge(now, weight), Settle(l, now);
    SettleFixed(l, h, before, now);
    ChargeKeepsAlignedBound(h, l.interval, l.limit, e);
    hide AlignedBound;
    assert (h + [e])[..|h|] == h;
    assert Counts(h + [e], l.interval, Window(now, l.interval), s.count + weight, now);
  }

  // An admitted charge extends the history.
  lemma ChargeAccounts(l: Limiter, h: seq<Charge>, before: real, weight: int, now: real)
    requires Accounts(l, h, before) && before <= now && (l.Fixed? ==> weight >= 0)
    requires Admits(l, weight, now)
    ensures Accounts(Charged(l, weight, now), h + [Charge(now, weight)], now)
  {
    if l.Sliding? { ChargeSliding(l, h, before, weight, now); } else { ChargeFixed(l, h, before, weight, now); }
  }

  // Aligned windows bounded by `limit` bound every span of one interval by twice that.
  lemma {:induction false} AlignedBoundsSpans(h: seq<Charge>, interval: int, limit: int)
    requires interval > 0 && NonNegative(h) && AlignedBound(h, interval, limit)
    ensures TwiceBound(h, interval, limit)
  {
    forall lo: real
      ensures Mass(h, HalfSpan(lo, interval)) <= 2 * Cap(limit)
    {
      var k := Window(lo, interval);
      var r := HalfSpan(lo, interval);
      forall i | 0 <= i < |h| && Holds(r, h[i].at)
        ensures Holds(Aligned(interval, k), h[i].at) || Holds(Aligned(interval, k + 1), h[i].at)
      {
        SpanMeetsTwoWindows(lo, h[i].at, interval);
      }
      MassCover(h, r, Aligned(interval, k), Aligned(interval, k + 1));
    }
  }

  // The clock may advance between calls.
  lemma {:induction false} AccountsLater(l: Limiter, h: seq<Charge>, s: real, t: real)
    requires Accounts(l, h, s) && s <= t
    ensures Accounts(l, h, t)
  {
    if l.Fixed? {
      WindowMonotone(s, t, l.interval);
      var k :| l.windowStart == k * l.interval && Counts(h, l.interval, k, l.count, s);
      assert Counts(h, l.interval, k, l.count, t);
    }
  }

  lemma {:induction false} PrefixBound(h: seq<Charge>, interval: int, limit: int)
    requires h != [] && NonNegative(h) && SlidingBound(h, interval, limit)
    ensures SlidingBound(h[..|h| - 1], interval, limit)
  {
    forall lo: real
      ensures Mass(h[..|h| - 1], Span(lo, interval)) <= Cap(limit)
    {
      assert Mass(h, Span(lo, interval)) <= Cap(limit);
    }
  }

  lemma {:induction false} DropLastRemembers(p: seq<Charge>, h: seq<Charge>, e: Charge, cutoff: real)
    requires Remembers(p, h + [e], cutoff)
    ensures Remembers(DropNewest(p, e.weight), h, cutoff)
  {
    var g := h + [e];
    var n := |g| - |p|;
    forall i | 0 <= i < n && i < |h|
      ensures h[i].at < cutoff
    {
      assert g[i] == h[i];
    }
    if p != [] {
      var q := p[..|p| - 1];
      assert n == |h| - |q|;
      forall i | 0 <= i < |q| ensures q[i] == h[n..][i] {
        assert p[i] == g[n + i];
      }
      assert q == h[n..];
      assert p[|p| - 1] == g[|h|];
    }
  }

  lemma DropLastInOrder(h: seq<Charge>, e: Charge, now: real)
    requires InOrder(h + [e], now)
    ensures InOrder(h, now)
  {
    assert forall i :: 0 <= i < |h| ==> h[i] == (h + [e])[i];
  }

  lemma {:induction false} DropLastKeepsBound(l: Limiter, h: seq<Charge>, e: Charge, w: int, now: real)
    requires Usable(l) && KeepsBound(l, h + [e])
    ensures KeepsBound(Give(l, w, now), h)
  {
    if l.Sliding? {
      var g := h + [e];
      assert g[..|g| - 1] == h && forall i :: 0 <= i < |h| ==> h[i] == g[i];
      PrefixBound(g, l.interval, l.limit);
    }
  }

  lemma {:induction false} GiveUnaccountsSliding(l: Limiter, h: seq<Charge>, e: Charge, now: real)
    requires l.Sliding? && Accounts(l, h + [e], now)
    ensures Accounts(Give(l, e.weight, now), h, now)
  {
    hide InOrder, Remembers, Prune, DropNewest;
    var c := now - l.interval as real;
    var p := PruneRemembers(l.requests, h + [e], now, c, c);
    DropLastRemembers(p, h, e, c);
    DropLastInOrder(h, e, now);
  }

  lemma {:induction false} GiveUnaccountsFixed(l: Limiter, h: seq<Charge>, e: Charge, now: real)
    requires l.Fixed? && Accounts(l, h + [e], now)
    ensures Accounts(Give(l, e.weight, now), h, now)
  {
    var g := h + [e];
    assert g[..|g| - 1] == h && g[|h|] == e;
    assert forall i :: 0 <= i < |h| ==> h[i] == g[i];
    var k :| l.windowStart == k * l.interval && Counts(g, l.interval, k, l.count, now);
    MassAtMostWeight(h, Aligned(l.interval, k));
    if Window(e.at, l.interval) != k {
      forall i | 0 <= i < |h| ensures Window(h[i].at, l.interval) < k {
        WindowMonotone(h[i].at, e.at, l.interval);
      }
      MassOutside(h, Aligned(l.interval, k));
    }
    assert Counts(h, l.interval, k, Give(l, e.weight, now).count, now);
    forall j: int ensures Mass(h, Aligned(l.interval, j)) <= Cap(l.limit) {
      assert Mass(g, Aligned(l.interval, j)) <= Cap(l.limit);
    }
  }

  // Giving back the newest charge of a history takes it out of the account, expired or not.
  lemma GiveUnaccounts(l: Limiter, h: seq<Charge>, e: Charge, now: real)
    requires Accounts(l, h + [e], now)
    ensures Accounts(Give(l, e.weight, now), h, now)
  {
    if l.Sliding? { GiveUnaccountsSliding(l, h, e, now); } else { GiveUnaccountsFixed(l, h, e, now); }
  }

  // ---------------------------------------------------------------- fixed windows and weights of any sign

  // The counter is at least the weight admitted in window k, and no charge is from a later one.
  predicate CountsOver(h: seq<Charge>, interval: int, k: int, count: int, now: real)
    requires interval > 0
  {
    && count >= Mass(h, Aligned(interval, k))
    && (forall i :: 0 <= i < |h| ==> Window(h[i].at, interval) <= k)
    && (h != [] ==> k <= Window(now, interval))
  }

  // A fixed window never counts less than it admitted, whatever the signs: a release can only clamp
  // its counter upwards.
  ghost predicate Overcounts(l: Limiter, h: seq<Charge>, now: real) {
    && l.Fixed? && l.interval > 0 && InOrder(h, now)
    && exists k :: l.windowStart == k * l.interval && CountsOver(h, l.interval, k, l.count, now)
  }

  lemma {:induction false} OvercountsLater(l: Limiter, h: seq<Charge>, s: real, t: real)
    requires Overcounts(l, h, s) && s <= t
    ensures Overcounts(l, h, t)
  {
    WindowMonotone(s, t, l.interval);
    var k :| l.windowStart == k * l.interval && CountsOver(h, l.interval, k, l.count, s);
    assert CountsOver(h, l.interval, k, l.count, t);
  }

  lemma {:induction false} SettleOvercounts(l: Limiter, h: seq<Charge>, now: real)
    requires Overcounts(l, h, now)
    ensures Overcounts(Settle(l, now), h, now)
    ensures Settle(l, now).windowStart == Window(now, l.interval) * l.interval
    ensures CountsOver(h, l.interval, Window(now, l.interval), Settle(l, now).count, now)
  {
    var k :| l.windowStart == k * l.interval && CountsOver(h, l.interval, k, l.count, now);
    var w := Window(now, l.interval);
    if w * l.interval != l.windowStart {
      MassOutside(h, Aligned(l.interval, w));
    } else {
      SameStart(k, w, l.interval);
    }
    assert CountsOver(h, l.interval, w, Settle(l, now).count, now);
  }

  lemma {:induction false} ChargeOvercounts(l: Limiter, h: seq<Charge>, weight: int, now: real)
    requires Overcounts(l, h, now) && AlignedBound(h, l.interval, l.limit) && Admits(l, weight, now)
    ensures Overcounts(Charged(l, weight, now), h + [Charge(now, weight)], now)
    ensures AlignedBound(h + [Charge(now, weight)], l.interval, l.limit)
  {
    var e, k := Charge(now, weight), Window(now, l.interval);
    SettleOvercounts(l, h, now);
    ChargeKeepsAlignedBound(h, l.interval, l.limit, e);
    CountsOverSnoc(h, l.interval, k, Settle(l, now).count, e);
    hide AlignedBound, CountsOver, Window;
    var c := Charged(l, weight, now);
    assert c.windowStart == k * l.interval && c.count == Settle(l, now).count + weight;
  }

  lemma CountsOverSnoc(h: seq<Charge>, interval: int, k: int, count: int, e: Charge)
    requires interval > 0 && CountsOver(h, interval, k, count, e.at) && Window(e.at, interval) == k
    ensures CountsOver(h + [e], interval, k, count + e.weight, e.at)
  {
    assert (h + [e])[..|h|] == h;
    assert Mass(h + [e], Aligned(interval, k)) == Mass(h, Aligned(interval, k)) + e.weight;
    hide Mass;
  }

  lemma {:induction false} GiveOvercounts(l: Limiter, h: seq<Charge>, e: Charge, now: real)
    requires Overcounts(l, h + [e], now)
    ensures Overcounts(Give(l, e.weight, now), h, now)
  {
    var g := h + [e];
    assert g[..|g| - 1] == h && g[|h|] == e;
    assert forall i :: 0 <= i < |h| ==> h[i] == g[i];
    var k :| l.windowStart == k * l.interval && CountsOver(g, l.interval, k, l.count, now);
    if Window(e.at, l.interval) != k {
      forall i | 0 <= i < |h| ensures Window(h[i].at, l.interval) < k {
        WindowMonotone(h[i].at, e.at, l.interval);
      }
      MassOutside(h, Aligned(l.interval, k));
    }
    assert CountsOver(h, l.interval, k, Give(l, e.weight, now).count, now);
  }

  // ---------------------------------------------------------------- runs of one sliding limiter

  datatype Call =
    | Acquire(weight: int, now: real)
    | Release(weight: int, now: real)
    | ReadUsage(now: real)

  datatype Trace = Trace(limiter: Limiter, unreleased: seq<Charge>)

  // Whether a release at `now` finds a charge to take back.
  predicate TakesBack(l: Limiter, weight: int, now: real) {
    l.Sliding? &&
    var q := Prune(l.requests, now - l.interval as real);
    q != [] && q[|q| - 1].weight == weight
  }

  // One call on the limiter; `unreleased` is the history of admitted charges not handed back.
  function Do(t: Trace, c: Call): (r: Trace)
    requires t.limiter.Sliding?
    ensures r.limiter.Sliding? && r.limiter.interval == t.limiter.interval && r.limiter.limit == t.limiter.limit
  {
    var h := t.unreleased;
    match c
    case Acquire(w, now) =>
      Trace(Take(t.limiter, w, now), if Admits(t.limiter, w, now) then h + [Charge(now, w)] else h)
    case Release(w, now) =>
      Trace(Give(t.limiter, w, now), if TakesBack(t.limiter, w, now) && h != [] then h[..|h| - 1] else h)
    case ReadUsage(now) => Trace(Settle(t.limiter, now), h)
  }

  function RunCalls(interval: int, limit: int, calls: seq<Call>): (r: Trace)
    ensures r.limiter.Sliding? && r.limiter.interval == interval && r.limiter.limit == limit
  {
    if calls == [] then Trace(Sliding(interval, limit, []), [])
    else Do(RunCalls(interval, limit, calls[..|calls| - 1]), calls[|calls| - 1])
  }

  // The clock never goes back, and no reading is later than `now`.
  predicate ClockedCalls(calls: seq<Call>, now: real) {
    && (forall i :: 0 <= i < |calls| ==> calls[i].now <= now)
    && (forall i, j :: 0 <= i < j < |calls| ==> calls[i].now <= calls[j].now)
  }

  predicate NonNegativeAcquires(calls: seq<Call>) {
    forall i :: 0 <= i < |calls| && calls[i].Acquire? ==> calls[i].weight >= 0
  }

  // A release takes back the newest unexpired charge, or nothing.
  lemma {:induction false} ReleaseAccounts(t: Trace, before: real, weight: int, now: real)
    requires t.limiter.Sliding? && Accounts(t.limiter, t.unreleased, before) && before <= now
    ensures var r := Do(t, Release(weight, now)); Accounts(r.limiter, r.unreleased, now)
  {
    hide Accounts;
    var l, h := t.limiter, t.unreleased;
    AccountsLater(l, h, before, now);
    if TakesBack(l, weight, now) {
      NewestIsLast(l, h, weight, now);
      assert h == h[..|h| - 1] + [h[|h| - 1]];
      GiveUnaccounts(l, h[..|h| - 1], h[|h| - 1], now);
    } else {
      SettleAccounts(l, h, now, now);
    }
  }

  lemma {:induction false} NewestIsLast(l: Limiter, h: seq<Charge>, weight: int, now: real)
    requires l.Sliding? && Accounts(l, h, now) && TakesBack(l, weight, now)
    ensures h != [] && h[|h| - 1].weight == weight
  {
    var c := now - l.interval as real;
    var p := PruneRemembers(l.requests, h, now, c, c);
    assert p[|p| - 1] == h[|h| - 1];
  }

  lemma {:induction false} DoAccounts(t: Trace, before: real, c: Call)
    requires t.limiter.Sliding? && Accounts(t.limiter, t.unreleased, before) && before <= c.now
    ensures var r := Do(t, c); Accounts(r.limiter, r.unreleased, c.now)
  {
    match c {
      case Acquire(w, now) =>
        SettleAccounts(t.limiter, t.unreleased, before, now);
        if Admits(t.limiter, w, now) { ChargeAccounts(t.limiter, t.unreleased, before, w, now); }
      case Release(w, now) => ReleaseAccounts(t, before, w, now);
      case ReadUsage(now) => SettleAccounts(t.limiter, t.unreleased, before, now);
    }
  }

  lemma {:induction false} DoKeepsBound(t: Trace, before: real, c: Call)
    requires t.limiter.Sliding? && Accounts(t.limiter, t.unreleased, before) && before <= c.now
    requires KeepsBound(t.limiter, t.unreleased) && (c.Acquire? ==> c.weight >= 0)
    ensures var r := Do(t, c); KeepsBound(r.limiter, r.unreleased)
  {
    hide SlidingBound, NonNegative, Remembers, InOrder, Prune;
    AccountsLater(t.limiter, t.unreleased, before, c.now);
    var h := t.unreleased;
    match c {
      case Acquire(w, now) =>
        if Admits(t.limiter, w, now) { ChargeKeepsBound(t.limiter, h, w, now); }
      case Release(w, now) =>
        if h != [] {
          assert h == h[..|h| - 1] + [h[|h| - 1]];
          DropLastKeepsBound(t.limiter, h[..|h| - 1], h[|h| - 1], w, now);
        }
      case ReadUsage(now) =>
    }
  }

  /** Over whole runs, for weights of any sign: the deque is the unexpired suffix of the history of admitted,
      unreleased charges. */
  lemma {:induction false} DequeIsUnexpiredSuffix(interval: int, limit: int, calls: seq<Call>, now: real)
    requires ClockedCalls(calls, now)
    ensures var t := RunCalls(interval, limit, calls);
      Remembers(t.limiter.requests, t.unreleased, now - interval as real) && Accounts(t.limiter, t.unreleased, now)
  {
    if calls == [] {
      EmptyAccounts(Sliding(interval, limit, []), now);
    } else {
      var init, c := calls[..|calls| - 1], calls[|calls| - 1];
      DequeIsUnexpiredSuffix(interval, limit, init, c.now);
      DoAccounts(RunCalls(interval, limit, init), c.now, c);
      var t := RunCalls(interval, limit, calls);
      AccountsLater(t.limiter, t.unreleased, c.now, now);
    }
  }

  /** Sliding-window safety over whole runs: whatever the interleaving of acquire, release and usage
      reads, no closed window of length `interval` ever holds more than `limit` of admitted,
      unreleased weight. */
  lemma {:induction false} SlidingWindowSafety(interval: int, limit: int, calls: seq<Call>, now: real)
    requires ClockedCalls(calls, now) && NonNegativeAcquires(calls)
    ensures var t := RunCalls(interval, limit, calls);
      SlidingBound(t.unreleased, interval, limit) && KeepsBound(t.limiter, t.unreleased)
  {
    if calls == [] {
      EmptyAccounts(Sliding(interval, limit, []), now);
    } else {
      var init, c := calls[..|calls| - 1], calls[|calls| - 1];
      SlidingWindowSafety(interval, limit, init, c.now);
      DequeIsUnexpiredSuffix(interval, limit, init, c.now);
      hide Accounts, SlidingBound, NonNegative;
      DoKeepsBound(RunCalls(interval, limit, init), c.now, c);
    }
  }

  // An acquire is admitted exactly when the charges of the last `interval` seconds leave room for it.
  predicate DecidesByHistory(t: Trace, weight: int, now: real) {
    Usable(t.limiter) &&
    (Admits(t.limiter, weight, now)
     <==> Mass(t.unreleased, Closed(now - t.limiter.interval as real, now)) + weight <= t.limiter.limit)
  }

  lemma AccountsDecide(t: Trace, weight: int, now: real)
    requires t.limiter.Sliding? && Accounts(t.limiter, t.unreleased, now)
    ensures DecidesByHistory(t, weight, now)
  {
    hide Accounts, Admits, Mass;
    AdmitsIffHistoryAllows(t.limiter, t.unreleased, weight, now);
  }

  lemma SlidingDecisionsMatchHistory(interval: int, limit: int, calls: seq<Call>, weight: int, now: real)
    requires ClockedCalls(calls, now)
    ensures DecidesByHistory(RunCalls(interval, limit, calls), weight, now)
  {
    hide *;
    DequeIsUnexpiredSuffix(interval, limit, calls, now);
    AccountsDecide(RunCalls(interval, limit, calls), weight, now);
  }

  // A negative weight, and one interval later a request as large as the limit then allows.
  function Overshoot(interval: int, limit: int, w: int): seq<Call> {
    [Acquire(w, 0.0), Acquire(limit - w, interval as real)]
  }

  lemma OvershootAdmitted(interval: int, limit: int, w: int)
    requires w < 0 && limit >= 0 && interval > 0
    ensures var first, second := Charge(0.0, w), Charge(interval as real, limit - w);
      var t := Trace(Sliding(interval, limit, [first]), [first]);
      && Do(Trace(Sliding(interval, limit, []), []), Acquire(w, 0.0)) == t
      && Do(t, Acquire(limit - w, interval as real)).unreleased == [first, second]
  {
    var first := Charge(0.0, w);
    assert [first][..0] == [] && Weight([first]) == w;
    assert Prune([first], interval as real - interval as real) == [first];
  }

  /** Any negative weight breaks the bound: it makes room that the window starting one interval later, which
      no longer holds it, does not have. */
  lemma {:induction false} NegativeWeightBreaksBound(interval: int, limit: int, w: int)
    requires w < 0 && limit >= 0 && interval > 0
    ensures var calls := Overshoot(interval, limit, w);
      && ClockedCalls(calls, interval as real)
      && !SlidingBound(RunCalls(interval, limit, calls).unreleased, interval, limit)
  {
    var i := interval as real;
    var first, second := Charge(0.0, w), Charge(i, limit - w);
    var calls := Overshoot(interval, limit, w);
    assert calls[..1] == [Acquire(w, 0.0)] && calls[..1][..0] == [];
    OvershootAdmitted(interval, limit, w);
    hide Do;
    assert RunCalls(interval, limit, calls[..1]) == Trace(Sliding(interval, limit, [first]), [first]);
    assert RunCalls(interval, limit, calls).unreleased == [first, second];
    assert [first] + [second] == [first, second];
    MassConcat([first], [second], Span(i, interval));
    MassOne(first, Span(i, interval));
    MassOne(second, Span(i, interval));
    hide Mass, RunCalls;
    assert Mass([first, second], Span(i, interval)) == limit - w;
  }

  predicate WeightsFrom(least: int, calls: seq<Call>) {
    forall i :: 0 <= i < |calls| && calls[i].Acquire? ==> calls[i].weight >= least
  }

  ghost predicate SafeFrom(interval: int, limit: int, least: int) {
    forall calls, now :: ClockedCalls(calls, now) && WeightsFrom(least, calls) ==>
      SlidingBound(RunCalls(interval, limit, calls).unreleased, interval, limit)
  }

  /** Which weights the bound can bear: every run whose weights are at least `least` keeps it if and only if
      `least` is not negative. */
  lemma BoundIffNonNegative(interval: int, limit: int, least: int)
    requires limit >= 0 && interval > 0
    ensures SafeFrom(interval, limit, least) <==> least >= 0
  {
    hide SlidingBound, RunCalls;
    if least >= 0 {
      forall calls, now | ClockedCalls(calls, now) && WeightsFrom(least, calls)
        ensures SlidingBound(RunCalls(interval, limit, calls).unreleased, interval, limit)
      {
        SlidingWindowSafety(interval, limit, calls, now);
      }
    } else {
      NegativeWeightBreaksBound(interval, limit, least);
      assert WeightsFrom(least, Overshoot(interval, limit, least));
    }
  }
}
