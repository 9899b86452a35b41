/**
 RateLimiter.acquire (rate_limiter.py): charge the limiter of every matched rule in turn, and hand
 everything back, last charge first, as soon as one refuses.

 Rules that share a name share one limiter. `clock(i)` is the i-th reading of the clock; every
 acquire and release of a limiter takes one reading, so windows may roll in the middle of a call.
 */
module RateLimiting {
  import opened Base
  import opened Limiters

  // ---------------------------------------------------------------- rules

  datatype Kind = SlidingWindow | FixedWindow | TokenBucket
  datatype Scope = Global | Endpoint | Ip

  datatype Rule = Rule(name: string, kind: Kind, interval: int, limit: int, scope: Scope,
                       endpoint: Option<string>, weightMap: map<string, int>, weight: int)

  // `glob` stands for fnmatch.fnmatch.
  predicate Matches(r: Rule, path: string, glob: (string, string) -> bool) {
    r.scope == Global
    || (r.scope == Endpoint && r.endpoint.Some? && r.endpoint.value != "" && glob(path, r.endpoint.value))
  }

  function GetWeight(r: Rule, method_: string, path: string): int {
    var key := method_ + " " + path;
    if key in r.weightMap then r.weightMap[key]
    else if method_ in r.weightMap then r.weightMap[method_]
    else r.weight
  }

  type Bank = map<string, Limiter>

  function AddRule(b: Bank, r: Rule): Bank {
    match r.kind
    case SlidingWindow => b[r.name := Sliding(r.interval, r.limit, [])]
    case FixedWindow => b[r.name := Fixed(r.interval, r.limit, 0, 0)]
    case TokenBucket => b
  }

  // The limiters a rule set creates: the last rule of a name that has a limiter type wins.
  function Build(rules: seq<Rule>): Bank {
    if rules == [] then map[] else AddRule(Build(rules[..|rules| - 1]), rules[|rules| - 1])
  }

  // What one matched rule asks of the limiter it names.
  datatype Demand = Demand(name: string, weight: int)

  function Demands(rules: seq<Rule>, names: set<string>, method_: string, path: string,
                   glob: (string, string) -> bool, weight: int): (ds: seq<Demand>)
    ensures forall d :: d in ds ==> d.name in names
  {
    if rules == [] then []
    else
      var rest := Demands(rules[1..], names, method_, path, glob, weight);
      var r := rules[0];
      if Matches(r, path, glob) && r.name in names
      then [Demand(r.name, GetWeight(r, method_, path) * weight)] + rest
      else rest
  }

  // ---------------------------------------------------------------- one composite acquire

  type Clock = nat -> real

  ghost predicate NeverBack(clock: Clock) {
    forall i: nat, j: nat :: i <= j ==> clock(i) <= clock(j)
  }

  predicate UsableBank(b: Bank) {
    forall n :: n in b ==> Usable(b[n])
  }

  predicate Known(ds: seq<Demand>, b: Bank) {
    forall d :: d in ds ==> d.name in b
  }

  datatype Outcome = Outcome(ok: bool, bank: Bank, tick: nat)

  function HandBack(o: Outcome, d: Demand, clock: Clock): (r: Outcome)
    requires UsableBank(o.bank) && d.name in o.bank
    ensures UsableBank(r.bank) && r.bank.Keys == o.bank.Keys
  {
    Outcome(false, o.bank[d.name := Give(o.bank[d.name], d.weight, clock(o.tick))], o.tick + 1)
  }

  // Hand back the charges ds, last first.
  function Unwind(o: Outcome, ds: seq<Demand>, clock: Clock): (r: Outcome)
    requires UsableBank(o.bank) && Known(ds, o.bank)
    ensures UsableBank(r.bank) && r.bank.Keys == o.bank.Keys
    decreases |ds|
  {
    if ds == [] then o
    else Unwind(HandBack(o, ds[|ds| - 1], clock), ds[..|ds| - 1], clock)
  }

  // The whole call: charge ds[0]; if a later demand is refused, give ds[0] back after the others.
  function Attempt(b: Bank, ds: seq<Demand>, clock: Clock, tick: nat): (r: Outcome)
    requires UsableBank(b) && Known(ds, b)
    ensures UsableBank(r.bank) && r.bank.Keys == b.Keys && r.tick >= tick
    ensures !r.ok ==> r.tick > tick
    decreases |ds|
  {
    if ds == [] then Outcome(true, b, tick)
    else
      var d := ds[0];
      var now := clock(tick);
      var b1 := b[d.name := Take(b[d.name], d.weight, now)];
      if !Admits(b[d.name], d.weight, now) then Outcome(false, b1, tick + 1)
      else
        var rest := Attempt(b1, ds[1..], clock, tick + 1);
        if rest.ok then rest else HandBack(rest, d, clock)
  }

  // Finish a call whose demands `done` are already charged.
  function Finish(o: Outcome, done: seq<Demand>, clock: Clock): Outcome
    requires UsableBank(o.bank) && Known(done, o.bank)
  {
    if o.ok then o else Unwind(o, done, clock)
  }

  // One round of the loop over matched rules.
  lemma {:induction false} AttemptStep(b: Bank, ds: seq<Demand>, clock: Clock, tick: nat, done: seq<Demand>)
    requires UsableBank(b) && Known(ds, b) && Known(done, b) && ds != []
    ensures var d, now := ds[0], clock(tick);
      var b1 := b[d.name := Take(b[d.name], d.weight, now)];
      Finish(Attempt(b, ds, clock, tick), done, clock) ==
      if Admits(b[d.name], d.weight, now) then Finish(Attempt(b1, ds[1..], clock, tick + 1), done + [d], clock)
      else Unwind(Outcome(false, b1, tick + 1), done, clock)
  {
    assert (done + [ds[0]])[..|done|] == done;
  }

  lemma FinishNothing(o: Outcome, clock: Clock)
    requires UsableBank(o.bank)
    ensures Finish(o, [], clock) == o
  {
  }

  // One round of the rollback loop.
  lemma UnwindStep(o: Outcome, ds: seq<Demand>, clock: Clock)
    requires UsableBank(o.bank) && Known(ds, o.bank) && ds != []
    ensures Unwind(o, ds, clock) == Unwind(HandBack(o, ds[|ds| - 1], clock), ds[..|ds| - 1], clock)
  {
  }

  lemma UnwindNothing(o: Outcome, clock: Clock)
    requires UsableBank(o.bank)
    ensures Unwind(o, [], clock) == o
  {
  }

  lemma AttemptNothing(b: Bank, clock: Clock, tick: nat, done: seq<Demand>)
    requires UsableBank(b) && Known(done, b)
    ensures Finish(Attempt(b, [], clock, tick), done, clock) == Outcome(true, b, tick)
  {
  }

  lemma DemandsStep(rules: seq<Rule>, i: nat, names: set<string>, method_: string, path: string,
                    glob: (string, string) -> bool, weight: int)
    requires i <= |rules|
    ensures var ds := Demands(rules[i..], names, method_, path, glob, weight);
      if i == |rules| then ds == []
      else
        var r, rest := rules[i], Demands(rules[i + 1..], names, method_, path, glob, weight);
        if Matches(r, path, glob) && r.name in names
        then ds != [] && ds[0] == Demand(r.name, GetWeight(r, method_, path) * weight) && ds[1..] == rest
        else ds == rest
  {
    if i < |rules| { assert rules[i..][1..] == rules[i + 1..]; }
  }

  // ---------------------------------------------------------------- the class

  datatype Handle = SlidingHandle(s: SlidingWindowLimiter) | FixedHandle(f: FixedWindowLimiter)

  function Obj(h: Handle): object {
    if h.SlidingHandle? then h.s else h.f
  }

  function ViewOf(h: Handle): Limiter
    reads Obj(h)
  {
    if h.SlidingHandle? then h.s.View() else h.f.View()
  }

  class RateLimiter {
    const rules: seq<Rule>
    const glob: (string, string) -> bool
    var limiters: map<string, Handle>

    // Different names have different limiter objects; rules that share a name share the object.
    ghost predicate Valid()
      reads this
    {
      forall m, n :: m in limiters && n in limiters && m != n ==> Obj(limiters[m]) != Obj(limiters[n])
    }

    ghost function Objects(): set<object>
      reads this
    {
      set n | n in limiters :: Obj(limiters[n])
    }

    ghost function View(): Bank
      reads this, Objects()
    {
      map n | n in limiters :: ViewOf(limiters[n])
    }

    constructor (rules: seq<Rule>, glob: (string, string) -> bool)
      ensures Valid() && fresh(Objects()) && View() == Build(rules)
      ensures this.rules == rules && this.glob == glob
    {
      this.rules, this.glob := rules, glob;
      limiters := map[];
      new;
      hide AddRule;
      for i := 0 to |rules|
        invariant Valid() && View() == Build(rules[..i]) && fresh(Objects())
      {
        assert rules[..i + 1][..i] == rules[..i];
        Install(rules[i]);
      }
      assert rules[..|rules|] == rules;
    }

    method Put(name: string, h: Handle)
      requires Valid() && Obj(h) !in Objects()
      modifies this
      ensures Valid() && Objects() <= old(Objects()) + {Obj(h)}
      ensures View() == old(View())[name := ViewOf(h)]
    {
      limiters := limiters[name := h];
      assert forall n :: n in limiters && n != name ==> Obj(limiters[n]) in old(Objects());
    }

    method Install(r: Rule)
      requires Valid()
      modifies this
      ensures Valid() && View() == AddRule(old(View()), r) && fresh(Objects() - old(Objects()))
    {
      if r.kind == SlidingWindow {
        var s := new SlidingWindowLimiter(r.interval, r.limit);
        assert View() == old(View()) && Objects() == old(Objects());
        Put(r.name, SlidingHandle(s));
      } else if r.kind == FixedWindow {
        var f := new FixedWindowLimiter(r.interval, r.limit);
        assert View() == old(View()) && Objects() == old(Objects());
        Put(r.name, FixedHandle(f));
      }
    }

    // limiter.acquire(weight)
    method TakeOne(name: string, weight: int, now: real) returns (ok: bool)
      requires Valid() && name in limiters && UsableBank(View())
      modifies Objects()
      ensures Valid() && ok == Admits(old(View())[name], weight, now)
      ensures View() == old(View())[name := Take(old(View())[name], weight, now)]
    {
      assert Usable(View()[name]);
      match limiters[name]
      case SlidingHandle(s) => ok := s.Acquire(weight, now);
      case FixedHandle(f) => ok := f.Acquire(weight, now);
    }

    // limiter.release(weight)
    method GiveOne(name: string, weight: int, now: real)
      requires Valid() && name in limiters && UsableBank(View())
      modifies Objects()
      ensures Valid()
      ensures View() == old(View())[name := Give(old(View())[name], weight, now)]
    {
      assert Usable(View()[name]);
      match limiters[name]
      case SlidingHandle(s) => s.Release(weight, now);
      case FixedHandle(f) => f.Release(weight); assert f.View() == Give(old(View())[name], weight, now);
    }

    // Release one acquired limiter.
    method ReleaseOne(d: Demand, clock: Clock, tick: nat) returns (tick': nat)
      requires Valid() && UsableBank(View()) && d.name in View()
      modifies Objects()
      ensures Valid() && limiters == old(limiters) && UsableBank(View()) && View().Keys == old(View().Keys)
      ensures Outcome(false, View(), tick') == HandBack(Outcome(false, old(View()), tick), d, clock)
    {
      hide Give;
      GiveOne(d.name, d.weight, clock(tick));
      tick' := tick + 1;
    }

    // release every acquired limiter, in reverse order
    method RollBack(charged: seq<Demand>, clock: Clock, tick: nat) returns (tick': nat)
      requires Valid() && UsableBank(View()) && Known(charged, View())
      modifies Objects()
      ensures Valid() && limiters == old(limiters)
      ensures Outcome(false, View(), tick') == Unwind(Outcome(false, old(View()), tick), charged, clock)
    {
      hide Unwind, HandBack, View, Valid;
      var acquired := charged;
      tick' := tick;
      while acquired != []
        invariant Valid() && limiters == old(limiters) && UsableBank(View()) && Known(acquired, View())
        invariant Unwind(Outcome(false, View(), tick'), acquired, clock)
                  == Unwind(Outcome(false, old(View()), tick), charged, clock)
        decreases |acquired|
      {
        UnwindStep(Outcome(false, View(), tick'), acquired, clock);
        tick' := ReleaseOne(acquired[|acquired| - 1], clock, tick');
        acquired := acquired[..|acquired| - 1];
      }
      UnwindNothing(Outcome(false, View(), tick'), clock);
    }

    // One demand: charge it, or hand everything back. `rest` is what remains to be charged, d included.
    method Round(d: Demand, acquired: seq<Demand>, clock: Clock, tick: nat, ghost rest: seq<Demand>)
      returns (ok: bool, tick': nat)
      requires Valid() && UsableBank(View()) && Known(acquired, View())
      requires rest != [] && rest[0] == d && Known(rest, View()) && d.name in limiters
      modifies Objects()
      ensures Valid() && limiters == old(limiters) && UsableBank(View()) && View().Keys == old(View().Keys)
      ensures Finish(Attempt(old(View()), rest, clock, tick), acquired, clock) ==
              if ok then Finish(Attempt(View(), rest[1..], clock, tick'), acquired + [d], clock)
              else Outcome(false, View(), tick')
    {
      hide Attempt, Unwind, Finish, Take, Admits;
      AttemptStep(View(), rest, clock, tick, acquired);
      ok := TakeOne(d.name, d.weight, clock(tick));
      tick' := tick + 1;
      hide View;
      if !ok {
        tick' := RollBack(acquired, clock, tick');
      }
    }

    // Readings of the clock start at clock(tick).
    method Acquire(method_: string, path: string, weight: int, clock: Clock, tick: nat) returns (ok: bool, tick': nat)
      requires Valid() && UsableBank(View())
      modifies Objects()
      ensures Valid() && limiters == old(limiters)
      ensures Outcome(ok, View(), tick') ==
              Attempt(old(View()), Demands(rules, old(View()).Keys, method_, path, glob, weight), clock, tick)
    {
      hide Attempt, Unwind, Finish, Demands, Take, Admits, GetWeight, Matches;
      ghost var names := View().Keys;
      assert names == limiters.Keys;
      hide View, Valid;
      ghost var rest := Demands(rules, names, method_, path, glob, weight);
      ghost var whole := Attempt(View(), rest, clock, tick);
      var acquired: seq<Demand> := [];
      tick' := tick;
      assert rules[0..] == rules;
      FinishNothing(whole, clock);
      for i := 0 to |rules|
        invariant Valid() && limiters == old(limiters) && UsableBank(View()) && View().Keys == names == limiters.Keys
        invariant Known(acquired, View())
        invariant rest == Demands(rules[i..], names, method_, path, glob, weight)
        invariant whole == Finish(Attempt(View(), rest, clock, tick'), acquired, clock)
      {
        var r := rules[i];
        DemandsStep(rules, i, names, method_, path, glob, weight);
        if Matches(r, path, glob) && r.name in limiters {
          var d := Demand(r.name, GetWeight(r, method_, path) * weight);
          ok, tick' := Round(d, acquired, clock, tick', rest);
          if !ok { return false, tick'; }
          acquired := acquired + [d];
          rest := rest[1..];
        }
      }
      DemandsStep(rules, |rules|, names, method_, path, glob, weight);
      AttemptNothing(View(), clock, tick', acquired);
      ok := true;
    }
  }
}
