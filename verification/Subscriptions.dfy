/**
 SubscriptionManager (gateway/subscription_manager.py) and the runtime command that drives it
 (gateway/runtime_remote.py, _subscribe_for_strategy).
 */
module Subscriptions {

  // Which symbols each strategy holds.
  type Table = map<string, set<string>>

  function Holding(m: Table, sid: string): set<string> {
    if sid in m then m[sid] else {}
  }

  // m with strategy sid holding exactly t; a strategy that holds nothing has no row.
  function Assign(m: Table, sid: string, t: set<string>): Table {
    if t == {} then m - {sid} else m[sid := t]
  }

  function Elements(s: seq<string>): set<string> {
    set x | x in s
  }

  function Holders(m: Table, symbol: string): set<string> {
    set sid | sid in m && symbol in m[sid]
  }

  // Symbols some strategy holds.
  function Active(m: Table): set<string> {
    set sid, symbol | sid in m && symbol in m[sid] :: symbol
  }

  // The counts the table calls for.
  function Counts(m: Table): map<string, int> {
    map symbol | symbol in Active(m) :: |Holders(m, symbol)|
  }

  predicate NoEmptyRow(m: Table) {
    forall sid :: sid in m ==> m[sid] != {}
  }

  lemma {:induction false} ActiveHasHolder(m: Table, symbol: string)
    ensures symbol in Active(m) <==> Holders(m, symbol) != {}
  {
    if symbol in Active(m) {
      var sid :| sid in m && symbol in m[sid];
      assert sid in Holders(m, symbol);
    }
  }

  // Changing one strategy's set moves a symbol's holders by at most that strategy.
  lemma {:induction false} HoldersAssign(m: Table, sid: string, t: set<string>, symbol: string)
    ensures Holders(Assign(m, sid, t), symbol) == Holders(m, symbol) - {sid} + if symbol in t then {sid} else {}
    ensures Holders(m[sid := t], symbol) == Holders(Assign(m, sid, t), symbol)
    ensures sid in Holders(m, symbol) <==> symbol in Holding(m, sid)
  {
  }

  lemma {:induction false} ActiveAssign(m: Table, sid: string, t: set<string>)
    requires Holding(m, sid) <= t
    ensures Active(Assign(m, sid, t)) == Active(m) + t
  {
    forall x ensures x in Active(Assign(m, sid, t)) <==> x in Active(m) + t {
      ActiveHasHolder(m, x);
      ActiveHasHolder(Assign(m, sid, t), x);
      HoldersAssign(m, sid, t, x);
      if x in t { assert sid in Holders(Assign(m, sid, t), x); }
    }
  }

  // Strategy sid takes on the symbols t as well.
  function Grown(m: Table, sid: string, t: set<string>): Table {
    Assign(m, sid, Holding(m, sid) + t)
  }

  lemma GrownByNothing(m: Table, sid: string)
    requires NoEmptyRow(m)
    ensures Grown(m, sid, {}) == m
  {
    assert Holding(m, sid) + {} == Holding(m, sid);
  }

  lemma GrownTwice(m: Table, sid: string, t: set<string>, u: set<string>)
    ensures Grown(Grown(m, sid, t), sid, u) == Grown(m, sid, t + u)
  {
    var h := Holding(m, sid);
    assert Holding(Grown(m, sid, t), sid) == h + t;
    assert h + t + u == h + (t + u);
  }

  lemma GrownActive(m: Table, sid: string, t: set<string>)
    ensures Active(Grown(m, sid, t)) == Active(m) + t
    ensures Holding(Grown(m, sid, t), sid) == Holding(m, sid) + t
    ensures forall other :: other != sid ==> Holding(Grown(m, sid, t), other) == Holding(m, other)
    ensures NoEmptyRow(m) ==> NoEmptyRow(Grown(m, sid, t))
  {
    ActiveAssign(m, sid, Holding(m, sid) + t);
    assert Holding(m, sid) <= Active(m);
    hide Active;
    assert Active(m) + (Holding(m, sid) + t) == Active(m) + t;
  }

  lemma CountOf(m: Table, symbol: string)
    ensures symbol in Active(m) <==> |Holders(m, symbol)| > 0
    ensures symbol in Counts(m) <==> symbol in Active(m)
    ensures symbol in Counts(m) ==> Counts(m)[symbol] == |Holders(m, symbol)|
  {
    ActiveHasHolder(m, symbol);
  }

  lemma {:induction false} HolderAdded(m: Table, sid: string, symbol: string, x: string)
    requires symbol !in Holding(m, sid)
    ensures |Holders(m[sid := Holding(m, sid) + {symbol}], x)| == |Holders(m, x)| + if x == symbol then 1 else 0
  {
    HoldersAssign(m, sid, Holding(m, sid) + {symbol}, x);
    var h, h' := Holders(m, x), Holders(m[sid := Holding(m, sid) + {symbol}], x);
    hide Holders;
    if x == symbol {
      assert h' == h + {sid};
    } else {
      assert h' == h;
    }
  }

  lemma {:induction false} HolderDropped(m: Table, sid: string, symbol: string, x: string)
    requires sid in m && symbol in m[sid]
    ensures |Holders(m[sid := m[sid] - {symbol}], x)| == |Holders(m, x)| - if x == symbol then 1 else 0
  {
    HoldersAssign(m, sid, m[sid] - {symbol}, x);
    var h, h' := Holders(m, x), Holders(m[sid := m[sid] - {symbol}], x);
    hide Holders;
    if x == symbol {
      assert h' == h - {sid};
    } else {
      assert h' == h;
    }
  }

  /** One more holder: the stored count goes up by one, starting from nothing for a new symbol. */
  lemma {:induction false} CountsAdd(m: Table, sid: string, symbol: string)
    requires symbol !in Holding(m, sid)
    ensures var m' := m[sid := Holding(m, sid) + {symbol}];
      && Counts(m') == Counts(m)[symbol := (if symbol in Counts(m) then Counts(m)[symbol] else 0) + 1]
      && (Counts(m')[symbol] == 1 <==> symbol !in Active(m))
      && Active(m') == Active(m) + {symbol}
  {
    var m' := m[sid := Holding(m, sid) + {symbol}];
    hide Active, Holders, Counts;
    forall x
      ensures x in Active(m') <==> x in Active(m) || x == symbol
      ensures x in Counts(m') <==> x in Counts(m) || x == symbol
      ensures x in Counts(m') ==>
        Counts(m')[x] == (if x in Counts(m) then Counts(m)[x] else 0) + if x == symbol then 1 else 0
      ensures x in Counts(m) ==> Counts(m)[x] > 0
      ensures x in Counts(m) <==> x in Active(m)
    {
      HolderAdded(m, sid, symbol, x);
      CountOf(m, x);
      CountOf(m', x);
    }
  }

  /** One holder less: the stored count goes down by one and the symbol is dropped at zero. */
  lemma {:induction false} CountsDrop(m: Table, sid: string, symbol: string)
    requires sid in m && symbol in m[sid]
    ensures var m' := m[sid := m[sid] - {symbol}];
      && symbol in Counts(m) && symbol in Active(m)
      && Counts(m') == (if Counts(m)[symbol] - 1 <= 0 then Counts(m) - {symbol}
                        else Counts(m)[symbol := Counts(m)[symbol] - 1])
      && Active(m') == if Counts(m)[symbol] - 1 <= 0 then Active(m) - {symbol} else Active(m)
  {
    var m' := m[sid := m[sid] - {symbol}];
    assert symbol in Active(m);
    hide Active, Holders, Counts;
    forall x
      ensures x in Active(m') <==> x in Counts(m) && (x == symbol ==> Counts(m)[x] > 1)
      ensures x in Counts(m') <==> x in Active(m')
      ensures x in Counts(m') ==> Counts(m')[x] == Counts(m)[x] - if x == symbol then 1 else 0
      ensures x in Counts(m) <==> x in Active(m)
    {
      HolderDropped(m, sid, symbol, x);
      CountOf(m, x);
      CountOf(m', x);
    }
  }

  // A row with nothing in it counts for nothing.
  lemma {:induction false} CountsDropRow(m: Table, sid: string)
    requires sid in m && m[sid] == {}
    ensures Active(m - {sid}) == Active(m) && Counts(m - {sid}) == Counts(m)
  {
    forall x ensures Holders(m - {sid}, x) == Holders(m, x) { }
    forall x ensures x in Active(m - {sid}) <==> x in Active(m) { CountOf(m, x); CountOf(m - {sid}, x); }
  }

  class SubscriptionManager {
    var strategySymbols: Table
    var refCounts: map<string, int>

    // A symbol's count is the number of strategies holding it; it has one exactly while active.
    ghost predicate Valid()
      reads this
    {
      refCounts == Counts(strategySymbols) && NoEmptyRow(strategySymbols)
    }

    constructor ()
      ensures Valid() && strategySymbols == map[]
    {
      strategySymbols, refCounts := map[], map[];
    }

    // The loop body of add.
    method AddOne(sid: string, symbol: string) returns (first: bool)
      requires Valid()
      modifies this
      ensures Valid()
      ensures strategySymbols == Grown(old(strategySymbols), sid, {symbol})
      ensures first == (symbol !in Active(old(strategySymbols)))
    {
      ghost var m := strategySymbols;
      first := false;
      if symbol !in Holding(strategySymbols, sid) {
        CountsAdd(m, sid, symbol);
        hide Active, Counts;
        strategySymbols := strategySymbols[sid := Holding(strategySymbols, sid) + {symbol}];
        refCounts := refCounts[symbol := (if symbol in refCounts then refCounts[symbol] else 0) + 1];
        first := refCounts[symbol] == 1;
      } else {
        assert m[sid] + {symbol} == m[sid];
      }
    }

    method Add(sid: string, symbols: seq<string>) returns (newly: set<string>)
      requires Valid()
      modifies this
      ensures Valid()
      ensures strategySymbols == Grown(old(strategySymbols), sid, Elements(symbols))
      ensures newly == Elements(symbols) - Active(old(strategySymbols))
    {
      ghost var m0 := strategySymbols;
      GrownByNothing(m0, sid);
      hide Active, Counts, Grown;
      newly := {};
      assert Elements(symbols[..0]) == {};
      for i := 0 to |symbols|
        invariant Valid() && strategySymbols == Grown(m0, sid, Elements(symbols[..i]))
        invariant newly == Elements(symbols[..i]) - Active(m0)
      {
        var symbol := symbols[i];
        ghost var seen := Elements(symbols[..i]);
        assert Elements(symbols[..i + 1]) == seen + {symbol};
        GrownActive(m0, sid, seen);
        GrownTwice(m0, sid, seen, {symbol});
        var first := AddOne(sid, symbol);
        if first { newly := newly + {symbol}; }
      }
      assert symbols[..|symbols|] == symbols;
    }

    // The loop body shared by remove and remove_strategy.
    method DropOne(sid: string, symbol: string) returns (last: bool)
      requires refCounts == Counts(strategySymbols)
      requires sid in strategySymbols && symbol in strategySymbols[sid]
      modifies this
      ensures refCounts == Counts(strategySymbols)
      ensures strategySymbols == old(strategySymbols)[sid := old(strategySymbols)[sid] - {symbol}]
      ensures Active(strategySymbols) == if last then Active(old(strategySymbols)) - {symbol}
              else Active(old(strategySymbols))
      ensures symbol in Active(old(strategySymbols))
    {
      CountsDrop(strategySymbols, sid, symbol);
      hide Active, Counts;
      strategySymbols := strategySymbols[sid := strategySymbols[sid] - {symbol}];
      refCounts := refCounts[symbol := refCounts[symbol] - 1];
      last := refCounts[symbol] <= 0;
      if last {
        refCounts := refCounts - {symbol};
      }
    }

    method Remove(sid: string, symbols: seq<string>) returns (unsubscribe: set<string>)
      requires Valid()
      modifies this
      ensures Valid()
      ensures strategySymbols ==
              Assign(old(strategySymbols), sid, Holding(old(strategySymbols), sid) - Elements(symbols))
      ensures unsubscribe == Active(old(strategySymbols)) - Active(strategySymbols)
    {
      hide Active, Counts;
      ghost var m0 := strategySymbols;
      unsubscribe := {};
      if sid !in strategySymbols { return; }
      assert Elements(symbols[..0]) == {} && m0[sid] - {} == m0[sid] && m0[sid := m0[sid]] == m0;
      for i := 0 to |symbols|
        invariant refCounts == Counts(strategySymbols)
        invariant strategySymbols == m0[sid := m0[sid] - Elements(symbols[..i])]
        invariant Active(strategySymbols) <= Active(m0) && unsubscribe == Active(m0) - Active(strategySymbols)
      {
        var symbol := symbols[i];
        assert Elements(symbols[..i + 1]) == Elements(symbols[..i]) + {symbol};
        ghost var left := m0[sid] - Elements(symbols[..i]);
        assert m0[sid] - Elements(symbols[..i + 1]) == left - {symbol};
        assert symbol !in left ==> left - {symbol} == left;
        if symbol in strategySymbols[sid] {
          var last := DropOne(sid, symbol);
          if last { unsubscribe := unsubscribe + {symbol}; }
        }
      }
      assert symbols[..|symbols|] == symbols;
      if strategySymbols[sid] == {} { DropRow(sid); }
    }

    method RemoveStrategy(sid: string) returns (unsubscribe: set<string>)
      requires Valid()
      modifies this
      ensures Valid()
      ensures strategySymbols == old(strategySymbols) - {sid}
      ensures unsubscribe == Active(old(strategySymbols)) - Active(strategySymbols)
    {
      hide Active, Counts;
      ghost var m0 := strategySymbols;
      unsubscribe := {};
      if sid !in strategySymbols { return; }
      var todo := strategySymbols[sid];
      while todo != {}
        invariant refCounts == Counts(strategySymbols)
        invariant strategySymbols == m0[sid := todo]
        invariant Active(strategySymbols) <= Active(m0) && unsubscribe == Active(m0) - Active(strategySymbols)
        decreases |todo|
      {
        var symbol :| symbol in todo;
        var last := DropOne(sid, symbol);
        if last { unsubscribe := unsubscribe + {symbol}; }
        todo := todo - {symbol};
      }
      DropRow(sid);
    }

    // del self._strategy_symbols[sid], once it is empty
    method DropRow(sid: string)
      requires refCounts == Counts(strategySymbols) && sid in strategySymbols && strategySymbols[sid] == {}
      modifies this`strategySymbols
      ensures strategySymbols == old(strategySymbols) - {sid}
      ensures Active(strategySymbols) == Active(old(strategySymbols))
      ensures refCounts == Counts(strategySymbols)
    {
      CountsDropRow(strategySymbols, sid);
      hide Active, Counts;
      strategySymbols := strategySymbols - {sid};
    }
  }

  // ---------------------------------------------------------------- subscribing a strategy

  // An adapter's answer to subscribe_symbols: lists under any of several keys, or something else.
  datatype Reply =
    | NotADict
    | Reply(accepted: seq<string>, symbols: seq<string>, subscribed: seq<string>,
            skipped: seq<string>, skippedSymbols: seq<string>)

  datatype Answer = Answer(subscribed: set<string>, accepted: set<string>, skipped: set<string>)

  function NonEmpty(s: seq<string>): (r: seq<string>)
    ensures forall x :: x in r <==> x in s && x != ""
  {
    if s == [] then [] else NonEmpty(s[..|s| - 1]) + if s[|s| - 1] == "" then [] else [s[|s| - 1]]
  }

  function FilterIn(s: seq<string>, t: set<string>, keep: bool): (r: seq<string>)
    ensures forall x :: x in r <==> x in s && ((x in t) == keep)
  {
    if s == [] then []
    else FilterIn(s[..|s| - 1], t, keep) + if (s[|s| - 1] in t) == keep then [s[|s| - 1]] else []
  }

  // adapter_result.get(a) or adapter_result.get(b) or ...
  function AcceptedBy(r: Reply, asked: seq<string>): seq<string> {
    match r
    case NotADict => asked
    case Reply(a, b, c, _, _) => NonEmpty(if a != [] then a else if b != [] then b else c)
  }

  function SkippedBy(r: Reply): seq<string> {
    match r
    case NotADict => []
    case Reply(_, _, _, a, b) => NonEmpty(if a != [] then a else b)
  }

  // The answer and the new table; the adapter is asked only when some requested symbol is not active.
  function Subscribe(m: Table, sid: string, symbols: seq<string>, adapter: seq<string> -> Reply): (Answer, Table) {
    var requested := NonEmpty(symbols);
    var known := FilterIn(requested, Active(m), true);
    var unknown := FilterIn(requested, Active(m), false);
    var acceptedNew := if unknown == [] then [] else AcceptedBy(adapter(unknown), unknown);
    var skipped := if unknown == [] then [] else SkippedBy(adapter(unknown));
    var m1 := Grown(m, sid, Elements(known));
    var m2 := Grown(m1, sid, Elements(acceptedNew));
    var accepted := Elements(known) + Elements(acceptedNew);
    (Answer(Elements(acceptedNew) - Active(m1), accepted, Elements(skipped) - accepted), m2)
  }

  lemma SubscribeNothing(m: Table, sid: string, symbols: seq<string>, adapter: seq<string> -> Reply)
    requires NoEmptyRow(m) && NonEmpty(symbols) == []
    ensures Subscribe(m, sid, symbols, adapter) == (Answer({}, {}, {}), m)
  {
    GrownByNothing(m, sid);
    hide Active, Grown;
    var known := FilterIn(NonEmpty(symbols), Active(m), true);
    var unknown := FilterIn(NonEmpty(symbols), Active(m), false);
    assert known == [] && unknown == [];
    var none: seq<string> := [];
    assert Elements(none) == {} && Elements(known) == Elements(none);
    assert Elements(none) + Elements(none) == {} && Elements(none) - Active(m) == {};
  }

  method SubscribeForStrategy(subscriptions: SubscriptionManager, sid: string, symbols: seq<string>,
                              adapter: seq<string> -> Reply) returns (answer: Answer)
    requires subscriptions.Valid()
    modifies subscriptions
    ensures subscriptions.Valid()
    ensures (answer, subscriptions.strategySymbols) ==
            Subscribe(old(subscriptions.strategySymbols), sid, symbols, adapter)
  {
    ghost var m := subscriptions.strategySymbols;
    assert subscriptions.refCounts.Keys == Active(m);
    hide AcceptedBy, SkippedBy, NonEmpty, FilterIn, Grown, Active;
    var requested := NonEmpty(symbols);
    if requested == [] {
      SubscribeNothing(m, sid, symbols, adapter);
      return Answer({}, {}, {});
    }
    var existing := subscriptions.refCounts.Keys;
    var alreadyActive := FilterIn(requested, existing, true);
    var newlyRequested := FilterIn(requested, existing, false);
    var acceptedNew, skippedSymbols := newlyRequested, [];
    if newlyRequested != [] {
      var reply := adapter(newlyRequested);
      acceptedNew := AcceptedBy(reply, newlyRequested);
      skippedSymbols := SkippedBy(reply);
    }
    var already := subscriptions.Add(sid, alreadyActive);
    var newly := subscriptions.Add(sid, acceptedNew);
    var accepted := Elements(alreadyActive) + Elements(acceptedNew);
    answer := Answer(newly, accepted, Elements(skippedSymbols) - accepted);
  }

  /** For any adapter answer: the symbols reported as newly subscribed are the accepted ones that were not
      active before; the active symbols become the old ones plus the accepted ones; accepted and skipped are
      disjoint; the strategy holds what it held plus what was accepted; no other strategy is touched. */
  lemma {:induction false} SubscribeLaws(m: Table, sid: string, symbols: seq<string>, adapter: seq<string> -> Reply)
    requires NoEmptyRow(m)
    ensures var (a, m') := Subscribe(m, sid, symbols, adapter);
      && a.subscribed == a.accepted - Active(m)
      && Active(m') == Active(m) + a.accepted
      && a.accepted !! a.skipped
      && Holding(m', sid) == Holding(m, sid) + a.accepted
      && (forall other :: other != sid ==> Holding(m', other) == Holding(m, other))
      && (Elements(symbols) * Active(m)) - {""} <= a.accepted
      && NoEmptyRow(m')
  {
    var requested := NonEmpty(symbols);
    var known := FilterIn(requested, Active(m), true);
    var unknown := FilterIn(requested, Active(m), false);
    var acceptedNew := if unknown == [] then [] else AcceptedBy(adapter(unknown), unknown);
    var m1 := Grown(m, sid, Elements(known));
    GrownActive(m, sid, Elements(known));
    GrownActive(m1, sid, Elements(acceptedNew));
    hide Active, Grown, Holding, AcceptedBy, SkippedBy, NoEmptyRow;
    assert Active(m1) == Active(m);
  }

  // Of several lists the first that is not empty is taken.
  predicate Chosen(lists: seq<seq<string>>, s: seq<string>) {
    if forall i :: 0 <= i < |lists| ==> lists[i] == [] then s == []
    else s != [] && exists i :: 0 <= i < |lists| && lists[i] == s && forall j :: 0 <= j < i ==> lists[j] == []
  }

  // The requested symbols that are not active, each as often as it was requested.
  predicate AskedFor(asked: seq<string>, symbols: seq<string>, active: set<string>) {
    && Elements(asked) == Elements(symbols) - active - {""}
    && forall x :: x in asked ==> multiset(asked)[x] == multiset(symbols)[x]
  }

  lemma {:induction false} FilterCounts(s: seq<string>, t: set<string>, x: string)
    requires x !in t && x != ""
    ensures multiset(FilterIn(NonEmpty(s), t, false))[x] == multiset(s)[x]
  {
    NonEmptyCounts(s, x);
    FilterInCounts(NonEmpty(s), t, x);
  }

  lemma {:induction false} NonEmptyCounts(s: seq<string>, x: string)
    requires x != ""
    ensures multiset(NonEmpty(s))[x] == multiset(s)[x]
  {
    if s != [] {
      NonEmptyCounts(s[..|s| - 1], x);
      assert s == s[..|s| - 1] + [s[|s| - 1]];
    }
  }

  lemma {:induction false} FilterInCounts(s: seq<string>, t: set<string>, x: string)
    requires x !in t
    ensures multiset(FilterIn(s, t, false))[x] == multiset(s)[x]
  {
    if s != [] {
      FilterInCounts(s[..|s| - 1], t, x);
      assert s == s[..|s| - 1] + [s[|s| - 1]];
    }
  }

  /** How the answer follows from the adapter's. Blank requests are dropped. If all others are active already, they
      are accepted and the adapter is not asked. Otherwise it is asked for those that are not, and it decides: a reply
      that is no dictionary accepts them all; one that is accepts the first non-empty of its three lists, and
      skips the first non-empty of its two, less what is accepted. */
  lemma SubscribeAnswers(m: Table, sid: string, symbols: seq<string>, adapter: seq<string> -> Reply)
    returns (asked: seq<string>)
    ensures AskedFor(asked, symbols, Active(m))
    ensures var a, wanted := Subscribe(m, sid, symbols, adapter).0, Elements(symbols) - {""};
      if wanted <= Active(m) then a.accepted == wanted && a.skipped == {}
      else match adapter(asked)
        case NotADict => a.accepted == wanted && a.skipped == {}
        case Reply(accepted, listed, subscribed, skipped, skippedSymbols) =>
          && (forall s :: Chosen([accepted, listed, subscribed], s) ==>
                a.accepted == wanted * Active(m) + (Elements(s) - {""}))
          && (forall s :: Chosen([skipped, skippedSymbols], s) ==> a.skipped == Elements(s) - {""} - a.accepted)
  {
    var known := FilterIn(NonEmpty(symbols), Active(m), true);
    asked := FilterIn(NonEmpty(symbols), Active(m), false);
    RequestedSplit(symbols, Active(m));
    AnswerParts(m, sid, symbols, adapter);
    hide Active, FilterIn, NonEmpty, Subscribe, AskedFor, Chosen, AcceptedBy, SkippedBy, Elements;
    if asked != [] {
      ReplyDecides(adapter(asked), asked);
    }
  }

  lemma RequestedSplit(symbols: seq<string>, active: set<string>)
    ensures var known, asked := FilterIn(NonEmpty(symbols), active, true), FilterIn(NonEmpty(symbols), active, false);
      var wanted := Elements(symbols) - {""};
      && Elements(known) == wanted * active && AskedFor(asked, symbols, active)
      && Elements(asked) == wanted - active && (asked == [] <==> wanted <= active)
  {
    hide FilterIn, NonEmpty;
    var known, asked := FilterIn(NonEmpty(symbols), active, true), FilterIn(NonEmpty(symbols), active, false);
    assert forall x :: x in known <==> x in NonEmpty(symbols) && x in active;
    assert forall x :: x in asked <==> x in NonEmpty(symbols) && x !in active;
    AskedOften(symbols, active);
    NothingIn(asked);
  }

  lemma AskedOften(symbols: seq<string>, active: set<string>)
    ensures var asked := FilterIn(NonEmpty(symbols), active, false);
      forall x :: x in asked ==> multiset(asked)[x] == multiset(symbols)[x]
  {
    hide FilterIn, NonEmpty;
    var asked := FilterIn(NonEmpty(symbols), active, false);
    forall x | x in asked ensures multiset(asked)[x] == multiset(symbols)[x] {
      assert x in NonEmpty(symbols) && x !in active;
      FilterCounts(symbols, active, x);
    }
  }

  lemma NothingIn(s: seq<string>)
    ensures s == [] <==> Elements(s) == {}
  {
    if s != [] { assert s[0] in Elements(s); }
  }

  // What the answer is made of.
  lemma AnswerParts(m: Table, sid: string, symbols: seq<string>, adapter: seq<string> -> Reply)
    ensures var a := Subscribe(m, sid, symbols, adapter).0;
      var known := FilterIn(NonEmpty(symbols), Active(m), true);
      var asked := FilterIn(NonEmpty(symbols), Active(m), false);
      && (asked == [] ==> a.accepted == Elements(known) && a.skipped == {})
      && (asked != [] ==>
            && a.accepted == Elements(known) + Elements(AcceptedBy(adapter(asked), asked))
            && a.skipped == Elements(SkippedBy(adapter(asked))) - a.accepted)
  {
    hide Active, FilterIn, NonEmpty, AcceptedBy, SkippedBy, Grown;
  }

  lemma ReplyDecides(r: Reply, asked: seq<string>)
    ensures r.NotADict? ==> Elements(AcceptedBy(r, asked)) == Elements(asked) && Elements(SkippedBy(r)) == {}
    ensures r.Reply? ==> ListsDecide(r, asked)
  {
    if r.Reply? { ChosenDecides(r, asked); }
  }

  ghost predicate ListsDecide(r: Reply, asked: seq<string>)
    requires r.Reply?
  {
    && (forall s :: Chosen([r.accepted, r.symbols, r.subscribed], s) ==>
          Elements(AcceptedBy(r, asked)) == Elements(s) - {""})
    && (forall s :: Chosen([r.skipped, r.skippedSymbols], s) ==> Elements(SkippedBy(r)) == Elements(s) - {""})
  }

  lemma ChosenDecides(r: Reply, asked: seq<string>)
    requires r.Reply?
    ensures ListsDecide(r, asked)
  {
    var three, two := [r.accepted, r.symbols, r.subscribed], [r.skipped, r.skippedSymbols];
    forall s | Chosen(three, s) ensures Elements(AcceptedBy(r, asked)) == Elements(s) - {""} {
      assert three[0] == r.accepted && three[1] == r.symbols && three[2] == r.subscribed;
      assert s == if r.accepted != [] then r.accepted else if r.symbols != [] then r.symbols else r.subscribed;
    }
    forall s | Chosen(two, s) ensures Elements(SkippedBy(r)) == Elements(s) - {""} {
      assert two[0] == r.skipped && two[1] == r.skippedSymbols;
      assert s == if r.skipped != [] then r.skipped else r.skippedSymbols;
    }
  }
}
