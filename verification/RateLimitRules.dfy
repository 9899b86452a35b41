/**
 What the rules of a RateLimiter mean (rate_limiter.py): which calls a rule applies to, what it charges
 them, and which limiter it gets.
 */
module RateLimitRules {
  import opened Base
  import opened Limiters
  import opened RateLimiting

  // ---------------------------------------------------------------- the weight of a call

  // The rule weighs a call as w: by its entry for "METHOD path", else by that for METHOD, else by its own weight.
  predicate WeighsAs(r: Rule, method_: string, path: string, w: int) {
    || (method_ + " " + path, w) in r.weightMap.Items
    || (method_ + " " + path !in r.weightMap.Keys && (method_, w) in r.weightMap.Items)
    || (r.weightMap.Keys !! {method_ + " " + path, method_} && w == r.weight)
  }

  /** Exactly one weight fits, and it is the one charged. */
  lemma WeightIsCharged(r: Rule, method_: string, path: string, w: int)
    ensures WeighsAs(r, method_, path, w) <==> GetWeight(r, method_, path) == w
  {
  }

  /** An entry under "METHOD path" decides whatever else the map holds; without one, an entry under METHOD decides;
      an entry under any other key changes nothing; and an empty map leaves the rule's own weight. */
  lemma EntriesDecide(r: Rule, method_: string, path: string, key: string, w: int)
    ensures var exact := method_ + " " + path;
      var with := r.(weightMap := r.weightMap[key := w]);
      && (key == exact ==> GetWeight(with, method_, path) == w)
      && (key == method_ && exact !in r.weightMap ==> GetWeight(with, method_, path) == w)
      && (key == method_ && exact in r.weightMap ==> GetWeight(with, method_, path) == GetWeight(r, method_, path))
      && (key != method_ && key != exact ==> GetWeight(with, method_, path) == GetWeight(r, method_, path))
    ensures GetWeight(r.(weightMap := map[]), method_, path) == r.weight
  {
    assert method_ != method_ + " " + path by { assert |method_ + " " + path| > |method_|; }
  }

  // ---------------------------------------------------------------- which rules are charged

  // How many of the rules are matched and have a limiter.
  function Rank(rules: seq<Rule>, names: set<string>, path: string, glob: (string, string) -> bool): nat {
    if rules == [] then 0
    else Rank(rules[..|rules| - 1], names, path, glob)
         + if Matches(rules[|rules| - 1], path, glob) && rules[|rules| - 1].name in names then 1 else 0
  }

  lemma {:induction false} DemandsConcat(a: seq<Rule>, b: seq<Rule>, names: set<string>, method_: string, path: string,
                                         glob: (string, string) -> bool, weight: int)
    ensures Demands(a + b, names, method_, path, glob, weight)
            == Demands(a, names, method_, path, glob, weight) + Demands(b, names, method_, path, glob, weight)
  {
    if a == [] {
      assert a + b == b;
    } else {
      assert (a + b)[1..] == a[1..] + b;
      DemandsConcat(a[1..], b, names, method_, path, glob, weight);
    }
  }

  // What a rule set charges, one rule more.
  lemma DemandsSnoc(rules: seq<Rule>, names: set<string>, method_: string, path: string,
                    glob: (string, string) -> bool, weight: int)
    requires rules != []
    ensures var init, r := rules[..|rules| - 1], rules[|rules| - 1];
      Demands(rules, names, method_, path, glob, weight) ==
      if Matches(r, path, glob) && r.name in names
      then Demands(init, names, method_, path, glob, weight) + [Demand(r.name, GetWeight(r, method_, path) * weight)]
      else Demands(init, names, method_, path, glob, weight)
  {
    var init, r := rules[..|rules| - 1], rules[|rules| - 1];
    assert rules == init + [r] && [r][1..] == [];
    DemandsConcat(init, [r], names, method_, path, glob, weight);
    assert Demands([r][1..], names, method_, path, glob, weight) == [];
  }

  predicate IsCharged(r: Rule, names: set<string>, path: string, glob: (string, string) -> bool) {
    Matches(r, path, glob) && r.name in names
  }

  /** A call is charged once for every matched rule with a limiter, in the order of the rules, on the limiter
      of the rule's name, with the rule's weight for the call times the call's own; and for nothing else. */
  lemma {:induction false} ChargesInOrder(rules: seq<Rule>, names: set<string>, method_: string, path: string,
                                          glob: (string, string) -> bool, weight: int)
    ensures var ds := Demands(rules, names, method_, path, glob, weight);
      && |ds| == Rank(rules, names, path, glob)
      && forall i, w ::
           (0 <= i < |rules| && IsCharged(rules[i], names, path, glob) && WeighsAs(rules[i], method_, path, w)) ==>
             var k := Rank(rules[..i], names, path, glob);
             k < |ds| && ds[k] == Demand(rules[i].name, w * weight)
  {
    if rules != [] {
      var init, last := rules[..|rules| - 1], rules[|rules| - 1];
      ChargesInOrder(init, names, method_, path, glob, weight);
      DemandsSnoc(rules, names, method_, path, glob, weight);
      var ds := Demands(rules, names, method_, path, glob, weight);
      var before := Demands(init, names, method_, path, glob, weight);
      hide Demands, GetWeight, WeighsAs, Matches;
      forall i, w | 0 <= i < |rules| && IsCharged(rules[i], names, path, glob) && WeighsAs(rules[i], method_, path, w)
        ensures var k := Rank(rules[..i], names, path, glob);
          k < |ds| && ds[k] == Demand(rules[i].name, w * weight)
      {
        WeightIsCharged(rules[i], method_, path, w);
        if i < |init| { assert init[..i] == rules[..i] && init[i] == rules[i]; } else { assert rules[..i] == init; }
      }
    }
  }

  /** A global rule applies to every path; an endpoint rule with a pattern to the paths it globs, and without one
      to none; any other to none. */
  lemma ScopeDecides(r: Rule, path: string, pattern: string, glob: (string, string) -> bool)
    ensures Matches(r.(scope := Global), path, glob)
    ensures pattern != "" ==>
      (Matches(r.(scope := Endpoint, endpoint := Some(pattern)), path, glob) <==> glob(path, pattern))
    ensures !Matches(r.(scope := Endpoint, endpoint := None), path, glob)
    ensures !Matches(r.(scope := Endpoint, endpoint := Some("")), path, glob) && !Matches(r.(scope := Ip), path, glob)
  {
  }

  // ---------------------------------------------------------------- one rule, one call

  // Rule i is the only one charged.
  predicate OnlyCharged(rules: seq<Rule>, i: nat, names: set<string>, path: string, glob: (string, string) -> bool) {
    i < |rules| && forall j :: 0 <= j < |rules| ==> (IsCharged(rules[j], names, path, glob) <==> j == i)
  }

  lemma {:induction false} RankOfOne(rules: seq<Rule>, i: nat, n: nat, names: set<string>, path: string,
                                     glob: (string, string) -> bool)
    requires OnlyCharged(rules, i, names, path, glob) && n <= |rules|
    ensures Rank(rules[..n], names, path, glob) == if i < n then 1 else 0
  {
    if n > 0 {
      RankOfOne(rules, i, n - 1, names, path, glob);
      assert rules[..n][..n - 1] == rules[..n - 1] && rules[..n][n - 1] == rules[n - 1];
      assert IsCharged(rules[n - 1], names, path, glob) <==> n - 1 == i;
    }
  }

  /** A call that one rule is charged for is admitted if and only if what the rule's limiter has in use, and the
      weight of the call under the rule's map times its own, are at most the limit. */
  lemma {:induction false} OneRuleAdmits(rules: seq<Rule>, i: nat, b: Bank, method_: string, path: string,
                                         glob: (string, string) -> bool, weight: int, clock: Clock, tick: nat, w: int)
    requires UsableBank(b) && OnlyCharged(rules, i, b.Keys, path, glob) && WeighsAs(rules[i], method_, path, w)
    ensures rules[i].name in b
    ensures var l := b[rules[i].name];
      Attempt(b, Demands(rules, b.Keys, method_, path, glob, weight), clock, tick).ok
      <==> Usage(Settle(l, clock(tick))) + w * weight <= l.limit
  {
    ChargesInOrder(rules, b.Keys, method_, path, glob, weight);
    RankOfOne(rules, i, i, b.Keys, path, glob);
    RankOfOne(rules, i, |rules|, b.Keys, path, glob);
    assert rules[..|rules|] == rules;
    assert IsCharged(rules[i], b.Keys, path, glob);
    var ds, d := Demands(rules, b.Keys, method_, path, glob, weight), Demand(rules[i].name, w * weight);
    assert Rank(rules[..i], b.Keys, path, glob) == 0;
    assert ds == [d];
    hide Demands, WeighsAs, Matches, Rank, OnlyCharged;
    OneDemandAdmits(b, d, clock, tick);
  }

  lemma OneDemandAdmits(b: Bank, d: Demand, clock: Clock, tick: nat)
    requires UsableBank(b) && d.name in b
    ensures Attempt(b, [d], clock, tick).ok <==> Usage(Settle(b[d.name], clock(tick))) + d.weight <= b[d.name].limit
    ensures Attempt(b, [d], clock, tick).bank == b[d.name := Take(b[d.name], d.weight, clock(tick))]
    ensures Attempt(b, [d], clock, tick).tick == tick + 1
  {
    assert [d][1..] == [];
    hide Settle, Take, Usage;
    var b1 := b[d.name := Take(b[d.name], d.weight, clock(tick))];
    assert Attempt(b1, [], clock, tick + 1) == Outcome(true, b1, tick + 1);
  }

  // ---------------------------------------------------------------- which limiter a rule gets

  predicate HasLimiter(r: Rule) {
    r.kind == SlidingWindow || r.kind == FixedWindow
  }

  // An unused limiter of the rule's kind, interval and limit.
  predicate IsFresh(l: Limiter, r: Rule) {
    && l.interval == r.interval && l.limit == r.limit
    && (r.kind == SlidingWindow ==> l.Sliding? && l.requests == [])
    && (r.kind == FixedWindow ==> l.Fixed? && l.windowStart == l.count == 0)
  }

  // Rule i is the last of its name that has a limiter type.
  predicate LastOfName(rules: seq<Rule>, i: nat, n: string) {
    && i < |rules| && rules[i].name == n && HasLimiter(rules[i])
    && forall j :: i < j < |rules| ==> rules[j].name != n || !HasLimiter(rules[j])
  }

  /** There is a limiter of a name if and only if some rule of that name has a limiter type, and the last such
      rule says which. */
  lemma {:induction false} LimiterOfName(rules: seq<Rule>, n: string)
    ensures n in Build(rules) <==> exists i :: 0 <= i < |rules| && rules[i].name == n && HasLimiter(rules[i])
    ensures forall i: nat :: LastOfName(rules, i, n) ==> n in Build(rules) && IsFresh(Build(rules)[n], rules[i])
  {
    if rules != [] {
      var init, last := rules[..|rules| - 1], rules[|rules| - 1];
      LimiterOfName(init, n);
      forall i: nat | LastOfName(rules, i, n) ensures n in Build(rules) && IsFresh(Build(rules)[n], rules[i]) {
        if i < |init| {
          assert LastOfName(init, i, n) by {
            forall j | i < j < |init| ensures init[j].name != n || !HasLimiter(init[j]) { assert init[j] == rules[j]; }
          }
          assert last == rules[|rules| - 1] && init[i] == rules[i];
          assert last.name != n || !HasLimiter(last);
        }
      }
      if i :| 0 <= i < |init| && init[i].name == n && HasLimiter(init[i]) { assert rules[i] == init[i]; }
      if i :| 0 <= i < |rules| && rules[i].name == n && HasLimiter(rules[i]) {
        if i < |init| { assert init[i] == rules[i]; }
      }
    }
  }

  // ---------------------------------------------------------------- an instance

  // POST weighs 5 and GET weighs 1, 10 a second.
  function OrderRule(): Rule {
    Rule("order", SlidingWindow, 1, 10, Global, None, map["POST" := 5, "GET" := 1], 1)
  }

  lemma PostWeighsFive(glob: (string, string) -> bool)
    ensures Demands([OrderRule()], {"order"}, "POST", "/order", glob, 1) == [Demand("order", 5)]
  {
    var r, key := OrderRule(), "POST" + " " + "/order";
    assert key !in r.weightMap by { assert |key| == 11; }
    assert WeighsAs(r, "POST", "/order", 5);
    WeightIsCharged(r, "POST", "/order", 5);
    hide GetWeight, WeighsAs;
    assert [r][1..] == [] && Demands([], {"order"}, "POST", "/order", glob, 1) == [];
  }

  lemma UsedAfter(e: Charge)
    requires e == Charge(0.0, 5)
    ensures Take(Sliding(1, 10, []), 5, 0.0) == Sliding(1, 10, [e]) && Usage(Settle(Sliding(1, 10, []), 0.0)) == 0
    ensures Take(Sliding(1, 10, [e]), 5, 0.0) == Sliding(1, 10, [e, e]) && Usage(Settle(Sliding(1, 10, [e]), 0.0)) == 5
    ensures Take(Sliding(1, 10, [e, e]), 5, 0.0) == Sliding(1, 10, [e, e])
    ensures Usage(Settle(Sliding(1, 10, [e, e]), 0.0)) == Usage(Sliding(1, 10, [e, e])) == 10
  {
    assert [e, e][..1] == [e] && [e][..0] == [] && [] + [e] == [e] && [e] + [e] == [e, e];
    assert Weight([e]) == 5 && Weight([e, e]) == 10;
    hide Weight;
    assert Prune([e], -1.0) == [e] && Prune([e, e], -1.0) == [e, e];
  }

  /** Of three POST requests within a second the first two are admitted, and the third is not: 15 > 10. */
  lemma ThreePosts(glob: (string, string) -> bool)
    ensures var rules, clock := [OrderRule()], (i: nat) => 0.0;
      var ds := Demands(rules, {"order"}, "POST", "/order", glob, 1);
      Build(rules).Keys == {"order"} &&
      var first := Attempt(Build(rules), ds, clock, 0);
      var second := Attempt(first.bank, ds, clock, first.tick);
      var third := Attempt(second.bank, ds, clock, second.tick);
      first.ok && second.ok && !third.ok && Usage(third.bank["order"]) == 10
  {
    var clock: Clock := (i: nat) => 0.0;
    var d, e := Demand("order", 5), Charge(0.0, 5);
    var b: Bank := map["order" := Sliding(1, 10, [])];
    assert [OrderRule()][..0] == [];
    assert Build([OrderRule()]) == b;
    PostWeighsFive(glob);
    UsedAfter(e);
    hide Demands, Build, Attempt, Take, Usage, Settle;
    var b1: Bank, b2: Bank := map["order" := Sliding(1, 10, [e])], map["order" := Sliding(1, 10, [e, e])];
    OneDemandAdmits(b, d, clock, 0);
    assert Attempt(b, [d], clock, 0).bank == b1;
    OneDemandAdmits(b1, d, clock, 1);
    assert Attempt(b1, [d], clock, 1).bank == b2;
    OneDemandAdmits(b2, d, clock, 2);
    assert Attempt(b2, [d], clock, 2).bank == b2;
  }
}
