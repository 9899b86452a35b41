/**
 Sliding-window and fixed-window limiters (rate_limiter.py).

 Clock readings are parameters, as reals. The value type Limiter and the functions Take,
 Give and Settle say what one locked call does; the two classes are proved against them.
 */
module Limiters {

  // One admitted request: when, and how much it weighs.
  datatype Charge = Charge(at: real, weight: int)

  datatype Limiter =
    | Sliding(interval: int, limit: int, requests: seq<Charge>)
    | Fixed(interval: int, limit: int, windowStart: int, count: int)

  // ---------------------------------------------------------------- operations

  function Prune(q: seq<Charge>, cutoff: real): seq<Charge> {
    if q != [] && q[0].at < cutoff then Prune(q[1..], cutoff) else q
  }

  function Weight(q: seq<Charge>): int {
    if q == [] then 0 else Weight(q[..|q| - 1]) + q[|q| - 1].weight
  }

  // Index of the aligned window that holds time t.
  function Window(t: real, interval: int): int
    requires interval != 0
  {
    (t / interval as real).Floor
  }

  // A fixed limiter divides by its interval: zero raises in the source.
  predicate Usable(l: Limiter) {
    l.Fixed? ==> l.interval != 0
  }

  // What every acquire does first: forget expired requests, or roll to the current window.
  function Settle(l: Limiter, now: real): (r: Limiter)
    requires Usable(l)
    ensures Usable(r) && r.interval == l.interval && r.limit == l.limit && (r.Sliding? <==> l.Sliding?)
  {
    match l
    case Sliding(interval, _, q) => l.(requests := Prune(q, now - interval as real))
    case Fixed(interval, _, start, _) =>
      var w := Window(now, interval) * interval;
      if w != start then l.(windowStart := w, count := 0) else l
  }

  function Usage(l: Limiter): int {
    match l
    case Sliding(_, _, q) => Weight(q)
    case Fixed(_, _, _, count) => count
  }

  predicate Admits(l: Limiter, weight: int, now: real)
    requires Usable(l)
  {
    Usage(Settle(l, now)) + weight <= l.limit
  }

  // The limiter after an admitted request.
  function Charged(l: Limiter, weight: int, now: real): (r: Limiter)
    requires Usable(l)
    ensures Usable(r) && r.interval == l.interval && r.limit == l.limit && (r.Sliding? <==> l.Sliding?)
  {
    var s := Settle(l, now);
    match s
    case Sliding(_, _, q) => s.(requests := q + [Charge(now, weight)])
    case Fixed(_, _, _, count) => s.(count := count + weight)
  }

  function Take(l: Limiter, weight: int, now: real): (r: Limiter)
    requires Usable(l)
    ensures Usable(r) && r.interval == l.interval && r.limit == l.limit && (r.Sliding? <==> l.Sliding?)
  {
    if Admits(l, weight, now) then Charged(l, weight, now) else Settle(l, now)
  }

  // A release takes back the newest entry, if its weight is the one given.
  function DropNewest(q: seq<Charge>, weight: int): seq<Charge> {
    if q != [] && q[|q| - 1].weight == weight then q[..|q| - 1] else q
  }

  function Give(l: Limiter, weight: int, now: real): (r: Limiter)
    requires Usable(l)
    ensures Usable(r) && r.interval == l.interval && r.limit == l.limit && (r.Sliding? <==> l.Sliding?)
  {
    match l
    case Sliding(interval, _, q0) =>
      l.(requests := DropNewest(Prune(q0, now - interval as real), weight))
    case Fixed(_, _, _, count) => l.(count := if count - weight < 0 then 0 else count - weight)
  }

  // ---------------------------------------------------------------- the classes

  class SlidingWindowLimiter {
    const interval: int
    const limit: int
    var requests: seq<Charge>

    constructor (interval: int, limit: int)
      ensures View() == Sliding(interval, limit, [])
    {
      this.interval, this.limit := interval, limit;
      requests := [];
    }

    function View(): Limiter
      reads this
    {
      Sliding(interval, limit, requests)
    }

    method PruneExpired(now: real)
      modifies this
      ensures View() == Settle(old(View()), now)
    {
      var cutoff := now - interval as real;
      while requests != [] && requests[0].at < cutoff
        invariant Prune(requests, cutoff) == Prune(old(requests), cutoff)
        decreases |requests|
      {
        requests := requests[1..];
      }
    }

    method SumWeights() returns (total: int)
      ensures total == Weight(requests)
    {
      total := 0;
      for i := 0 to |requests|
        invariant total == Weight(requests[..i])
      {
        assert requests[..i + 1][..i] == requests[..i];
        total := total + requests[i].weight;
      }
      assert requests[..|requests|] == requests;
    }

    method Acquire(weight: int, now: real) returns (ok: bool)
      modifies this
      ensures ok == Admits(old(View()), weight, now)
      ensures View() == Take(old(View()), weight, now)
    {
      PruneExpired(now);
      var current := SumWeights();
      if current + weight <= limit {
        requests := requests + [Charge(now, weight)];
        return true;
      }
      return false;
    }

    method Release(weight: int, now: real)
      modifies this
      ensures View() == Give(old(View()), weight, now)
    {
      PruneExpired(now);
      if requests != [] && requests[|requests| - 1].weight == weight {
        requests := requests[..|requests| - 1];
      }
    }

    method CurrentUsage(now: real) returns (usage: int)
      modifies this
      ensures View() == Settle(old(View()), now) && usage == Usage(View())
    {
      PruneExpired(now);
      usage := SumWeights();
    }
  }

  class FixedWindowLimiter {
    const interval: int
    const limit: int
    var windowStart: int
    var windowCount: int

    constructor (interval: int, limit: int)
      ensures View() == Fixed(interval, limit, 0, 0)
    {
      this.interval, this.limit := interval, limit;
      windowStart, windowCount := 0, 0;
    }

    function View(): Limiter
      reads this
    {
      Fixed(interval, limit, windowStart, windowCount)
    }

    method Acquire(weight: int, now: real) returns (ok: bool)
      requires Usable(View())
      modifies this
      ensures ok == Admits(old(View()), weight, now)
      ensures View() == Take(old(View()), weight, now)
    {
      var start := (now / interval as real).Floor * interval;
      if start != windowStart {
        windowStart := start;
        windowCount := 0;
      }
      if windowCount + weight <= limit {
        windowCount := windowCount + weight;
        return true;
      }
      return false;
    }

    method Release(weight: int)
      requires Usable(View())
      modifies this
      ensures forall now :: View() == Give(old(View()), weight, now)
    {
      windowCount := if windowCount - weight < 0 then 0 else windowCount - weight;
    }
  }
}
