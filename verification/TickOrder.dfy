/**
 What becomes of the rows of one symbol when its flushes do overlap (gateway/storage/tick_writer.py): none is
 lost or repeated on its way to the file, and the order survives unless one flush overtakes another.
 */
module TickOrder {
  import opened Base
  import opened TickWriting

  // ---------------------------------------------------------------- flights in the order of their pops

  function Removed(q: seq<nat>, id: nat): (r: seq<nat>)
    ensures id !in r && forall k :: k in r ==> k in q
    ensures forall k :: k in q && k != id ==> k in r
  {
    if q == [] then [] else (if q[0] == id then [] else [q[0]]) + Removed(q[1..], id)
  }

  predicate Unique(q: seq<nat>) {
    forall i, j :: 0 <= i < j < |q| ==> q[i] != q[j]
  }

  // Every flush begun, latest pop last; those over have no flight any more.
  function Queue(files: Files, run: seq<Action>, day: Days): seq<nat> {
    if run == [] then []
    else
      var init, a := run[..|run| - 1], run[|run| - 1];
      if Starts(Exec(files, init, day), a) then Removed(Queue(files, init, day), a.id) + [a.id]
      else Queue(files, init, day)
  }

  predicate Starts(s: State, a: Action) {
    a.Pop? && a.id !in s.flights && a.id !in s.counting && Buffer(s.core, a.symbol) != []
  }

  // The rows flight id carries for the symbol.
  function Part(flights: map<nat, Flight>, id: nat, symbol: string): seq<Row> {
    if id in flights && flights[id].symbol == symbol then flights[id].rows else []
  }

  function Flying(flights: map<nat, Flight>, q: seq<nat>, symbol: string): seq<Row> {
    if q == [] then [] else Part(flights, q[0], symbol) + Flying(flights, q[1..], symbol)
  }

  // The pops before and after that of id.
  function Before(q: seq<nat>, id: nat): seq<nat> {
    if q == [] || q[0] == id then [] else [q[0]] + Before(q[1..], id)
  }

  function After(q: seq<nat>, id: nat): seq<nat> {
    if q == [] then [] else if q[0] == id then q[1..] else After(q[1..], id)
  }

  lemma {:induction false} SplitAt(q: seq<nat>, id: nat)
    requires id in q && Unique(q)
    ensures q == Before(q, id) + [id] + After(q, id)
    ensures id !in Before(q, id) && id !in After(q, id)
  {
    if q[0] != id {
      SplitAt(q[1..], id);
      assert q == [q[0]] + q[1..];
    }
  }

  lemma {:induction false} RemovedUnique(q: seq<nat>, id: nat)
    requires Unique(q)
    ensures Unique(Removed(q, id) + [id])
  {
    if q != [] {
      RemovedUnique(q[1..], id);
      var r := Removed(q[1..], id);
      assert q[0] !in q[1..];
      assert forall i, j :: 0 <= i < j < |r| ==> r[i] != r[j] by {
        forall i, j | 0 <= i < j < |r| ensures r[i] != r[j] {
          assert (r + [id])[i] == r[i] && (r + [id])[j] == r[j];
        }
      }
      if q[0] == id { assert Removed(q, id) == r; } else { assert Removed(q, id) == [q[0]] + r; }
    }
  }

  lemma {:induction false} FlyingConcat(flights: map<nat, Flight>, p: seq<nat>, q: seq<nat>, symbol: string)
    ensures Flying(flights, p + q, symbol) == Flying(flights, p, symbol) + Flying(flights, q, symbol)
  {
    if p == [] {
      assert p + q == q;
    } else {
      assert (p + q)[1..] == p[1..] + q;
      FlyingConcat(flights, p[1..], q, symbol);
    }
  }

  lemma {:induction false} FlyingSame(f: map<nat, Flight>, g: map<nat, Flight>, q: seq<nat>, symbol: string)
    requires forall id :: id in q ==> Part(f, id, symbol) == Part(g, id, symbol)
    ensures Flying(f, q, symbol) == Flying(g, q, symbol)
  {
    if q != [] { FlyingSame(f, g, q[1..], symbol); }
  }

  lemma {:induction false} FlyingRemoved(flights: map<nat, Flight>, q: seq<nat>, id: nat, symbol: string)
    requires Part(flights, id, symbol) == []
    ensures Flying(flights, Removed(q, id), symbol) == Flying(flights, q, symbol)
  {
    if q != [] {
      FlyingRemoved(flights, q[1..], id, symbol);
      var r := Removed(q[1..], id);
      if q[0] != id {
        assert ([q[0]] + r)[1..] == r;
      } else {
        assert Removed(q, id) == r && [] + Flying(flights, r, symbol) == Flying(flights, r, symbol);
      }
    }
  }

  lemma FlyingOne(flights: map<nat, Flight>, id: nat, symbol: string)
    ensures Flying(flights, [id], symbol) == Part(flights, id, symbol)
  {
    assert [id][1..] == [];
  }

  // Every flight is in the queue, once.
  lemma {:induction false} Queued(files: Files, run: seq<Action>, day: Days)
    ensures var s, q := Exec(files, run, day), Queue(files, run, day);
      Unique(q) && (forall id :: id in s.flights ==> id in q && s.flights[id].rows != [])
  {
    if run != [] {
      var init, a := run[..|run| - 1], run[|run| - 1];
      Queued(files, init, day);
      if Starts(Exec(files, init, day), a) { RemovedUnique(Queue(files, init, day), a.id); }
    }
  }

  // ---------------------------------------------------------------- one step

  // What of a symbol is in the file, under way and in the buffer.
  datatype Places = Places(committed: seq<Row>, flying: seq<Row>, buffered: seq<Row>)

  function PlacesOf(files: Files, run: seq<Action>, day: Days, symbol: string): Places {
    var s := Exec(files, run, day);
    Places(CommittedOf(s.batches, symbol), Flying(s.flights, Queue(files, run, day), symbol), Buffer(s.core, symbol))
  }

  // The end of flight id, which carries rows between those of the flights popped earlier and later.
  function Landed(p: Places, earlier: seq<Row>, rows: seq<Row>, later: seq<Row>, committed: bool): Places {
    if committed then Places(p.committed + rows, earlier + later, p.buffered)
    else Places(p.committed, earlier + later, rows + p.buffered)
  }

  predicate Ends(s: State, a: Action) {
    Commits(s, a) || (a.Fail? && a.id in s.flights)
  }

  // What earlier and later flights carry of the symbol.
  function Earlier(s: State, q: seq<nat>, id: nat, symbol: string): seq<Row> {
    Flying(s.flights, Before(q, id), symbol)
  }

  function Later(s: State, q: seq<nat>, id: nat, symbol: string): seq<Row> {
    Flying(s.flights, After(q, id), symbol)
  }

  lemma {:induction false} EndPlaces(files: Files, run: seq<Action>, day: Days, symbol: string)
    requires run != [] && Ends(Exec(files, run[..|run| - 1], day), run[|run| - 1])
    ensures var init, a := run[..|run| - 1], run[|run| - 1];
      var s, q := Exec(files, init, day), Queue(files, init, day);
      var p, rows := PlacesOf(files, init, day, symbol), Part(s.flights, a.id, symbol);
      var e, l := Earlier(s, q, a.id, symbol), Later(s, q, a.id, symbol);
      && p.flying == e + rows + l
      && PlacesOf(files, run, day, symbol) == Landed(p, e, rows, l, a.Commit?)
  {
    var init, a := run[..|run| - 1], run[|run| - 1];
    var s, q, r := Exec(files, init, day), Queue(files, init, day), Exec(files, run, day);
    var p, rows := PlacesOf(files, init, day, symbol), Part(s.flights, a.id, symbol);
    Queued(files, init, day);
    SplitAt(q, a.id);
    var b, c := Before(q, a.id), After(q, a.id);
    assert Queue(files, run, day) == q;
    EndMoves(s, a, day, symbol);
    hide Exec, Queue, Step, Before, After, CommittedOf, Buffer;
    SplitFlying(s.flights, b, a.id, c, symbol);
    SplitFlying(r.flights, b, a.id, c, symbol);
    FlyingSame(s.flights, r.flights, b, symbol);
    FlyingSame(s.flights, r.flights, c, symbol);
  }

  lemma SplitFlying(flights: map<nat, Flight>, b: seq<nat>, id: nat, c: seq<nat>, symbol: string)
    ensures Flying(flights, b + [id] + c, symbol)
            == Flying(flights, b, symbol) + Part(flights, id, symbol) + Flying(flights, c, symbol)
    ensures Part(flights, id, symbol) == [] ==>
              Flying(flights, b + [id] + c, symbol) == Flying(flights, b, symbol) + Flying(flights, c, symbol)
  {
    hide Flying, Part;
    FlyingConcat(flights, b + [id], c, symbol);
    FlyingConcat(flights, b, [id], symbol);
    FlyingOne(flights, id, symbol);
    var e := Flying(flights, b, symbol);
    assert e + [] == e;
  }

  lemma EndMoves(s: State, a: Action, day: Days, symbol: string)
    requires Ends(s, a)
    ensures var r, rows := Step(s, a, day), Part(s.flights, a.id, symbol);
      && r.log == s.log && r.flights == s.flights - {a.id}
      && CommittedOf(r.batches, symbol) == CommittedOf(s.batches, symbol) + (if a.Commit? then rows else [])
      && Buffer(r.core, symbol) == (if a.Commit? then [] else rows) + Buffer(s.core, symbol)
      && (a.Fail? ==> CommittedOf(r.batches, symbol) == CommittedOf(s.batches, symbol))
      && (a.Commit? ==> Buffer(r.core, symbol) == Buffer(s.core, symbol))
  {
    hide CommittedOf;
    if a.Commit? { CommitMoves(s, a.id, day, symbol); } else { FailMoves(s, a.id, day, symbol); }
    assert [] + Buffer(s.core, symbol) == Buffer(s.core, symbol);
    assert CommittedOf(s.batches, symbol) + [] == CommittedOf(s.batches, symbol);
  }

  // Any other step moves rows into the buffer, or the whole buffer into a flight behind all others.
  lemma {:induction false} OtherPlaces(files: Files, run: seq<Action>, day: Days, symbol: string)
    requires run != [] && !Ends(Exec(files, run[..|run| - 1], day), run[|run| - 1])
    ensures var init, a := run[..|run| - 1], run[|run| - 1];
      var p, r := PlacesOf(files, init, day, symbol), PlacesOf(files, run, day, symbol);
      && r.committed == p.committed
      && (if a.Write? && a.row.symbol == symbol then r == p.(buffered := p.buffered + [a.row])
          else if Starts(Exec(files, init, day), a) && a.symbol == symbol
          then r == p.(flying := p.flying + p.buffered, buffered := [])
          else r == p)
  {
    var init, a := run[..|run| - 1], run[|run| - 1];
    var s, q, r := Exec(files, init, day), Queue(files, init, day), Exec(files, run, day);
    OtherMoves(s, a, day, symbol);
    assert r == Step(s, a, day);
    if Starts(s, a) {
      assert Queue(files, run, day) == Removed(q, a.id) + [a.id];
      hide Exec, Queue, Step, CommittedOf, Buffer;
      FlyingConcat(r.flights, Removed(q, a.id), [a.id], symbol);
      FlyingOne(r.flights, a.id, symbol);
      FlyingSame(s.flights, r.flights, Removed(q, a.id), symbol);
      FlyingRemoved(s.flights, q, a.id, symbol);
    } else {
      assert Queue(files, run, day) == q;
      hide Exec, Queue, Step, CommittedOf, Buffer;
      FlyingSame(s.flights, r.flights, q, symbol);
    }
  }

  lemma OtherMoves(s: State, a: Action, day: Days, symbol: string)
    requires !Ends(s, a)
    ensures var r := Step(s, a, day);
      && CommittedOf(r.batches, symbol) == CommittedOf(s.batches, symbol)
      && (forall id :: !Starts(s, a) || id != a.id ==> Part(r.flights, id, symbol) == Part(s.flights, id, symbol))
      && (Starts(s, a) ==> Part(s.flights, a.id, symbol) == [])
      && (Starts(s, a) ==>
            Part(r.flights, a.id, symbol) == if a.symbol == symbol then Buffer(s.core, symbol) else [])
      && Buffer(r.core, symbol) ==
         if a.Write? && a.row.symbol == symbol then Buffer(s.core, symbol) + [a.row]
         else if Starts(s, a) && a.symbol == symbol then []
         else Buffer(s.core, symbol)
  {
    var r := Step(s, a, day);
    assert r.batches == s.batches;
  }

  // ---------------------------------------------------------------- no row is lost or repeated

  lemma {:induction false} LogGrows(files: Files, run: seq<Action>, day: Days, symbol: string)
    requires run != []
    ensures var s, r, a := Exec(files, run[..|run| - 1], day), Exec(files, run, day), run[|run| - 1];
      RowsOf(r.log, symbol) ==
      if a.Write? && a.row.symbol == symbol then RowsOf(s.log, symbol) + [a.row] else RowsOf(s.log, symbol)
  {
    var s, a := Exec(files, run[..|run| - 1], day), run[|run| - 1];
    LogStep(s, a, day);
    hide Step, RowsOf;
    if a.Write? { SnocRow(s.log, a.row, symbol); }
    assert RowsOf(s.log, symbol) + [] == RowsOf(s.log, symbol);
  }

  lemma LogStep(s: State, a: Action, day: Days)
    ensures Step(s, a, day).log == if a.Write? then s.log + [a.row] else s.log
  {
  }

  predicate SameRows(log: seq<Row>, p: Places) {
    multiset(log) == multiset(p.committed) + multiset(p.flying) + multiset(p.buffered)
  }

  lemma LandedSame(log: seq<Row>, p: Places, e: seq<Row>, rows: seq<Row>, l: seq<Row>, committed: bool)
    requires SameRows(log, p) && p.flying == e + rows + l
    ensures SameRows(log, Landed(p, e, rows, l, committed))
  {
    assert multiset(e + rows + l) == multiset(e) + multiset(rows) + multiset(l);
    assert multiset(e + l) == multiset(e) + multiset(l);
    assert multiset(p.committed + rows) == multiset(p.committed) + multiset(rows);
    assert multiset(rows + p.buffered) == multiset(rows) + multiset(p.buffered);
  }

  // What any other step does to the history and the places of a symbol.
  function Moved(p: Places, starts: bool, written: seq<Row>): Places {
    if starts then Places(p.committed, p.flying + p.buffered, []) else p.(buffered := p.buffered + written)
  }

  lemma MovedSame(log: seq<Row>, p: Places, starts: bool, written: seq<Row>)
    requires SameRows(log, p) && (starts ==> written == [])
    ensures SameRows(log + written, Moved(p, starts, written))
  {
    assert multiset(log + written) == multiset(log) + multiset(written);
    assert multiset(p.flying + p.buffered) == multiset(p.flying) + multiset(p.buffered);
    assert multiset(p.buffered + written) == multiset(p.buffered) + multiset(written);
  }

  // The row of the symbol that a step writes, if any.
  function Written(a: Action, symbol: string): seq<Row> {
    if a.Write? && a.row.symbol == symbol then [a.row] else []
  }

  // A step that ends no flight, on history and places at once.
  lemma {:induction false} OtherMoved(files: Files, run: seq<Action>, day: Days, symbol: string)
    requires run != [] && !Ends(Exec(files, run[..|run| - 1], day), run[|run| - 1])
    ensures var init, a := run[..|run| - 1], run[|run| - 1];
      var s, starts := Exec(files, init, day), Starts(Exec(files, init, day), a) && a.symbol == symbol;
      && (starts ==> Written(a, symbol) == [])
      && RowsOf(Exec(files, run, day).log, symbol) == RowsOf(s.log, symbol) + Written(a, symbol)
      && PlacesOf(files, run, day, symbol) == Moved(PlacesOf(files, init, day, symbol), starts, Written(a, symbol))
  {
    hide Exec, PlacesOf, RowsOf, Step, Queue, Buffer;
    LogGrows(files, run, day, symbol);
    OtherPlaces(files, run, day, symbol);
    var init := run[..|run| - 1];
    AddNothing(RowsOf(Exec(files, init, day).log, symbol));
    AddNothing(PlacesOf(files, init, day, symbol).buffered);
  }

  lemma AddNothing(rows: seq<Row>)
    ensures rows + [] == rows
  {
  }

  /** Whatever flushes overlap and fail, committed, in-flight and buffered rows of a symbol are together exactly
      its history, in some order: no row is lost or repeated on the way to a commit. */
  lemma {:induction false} RowsPermuted(files: Files, run: seq<Action>, day: Days, symbol: string)
    ensures SameRows(RowsOf(Exec(files, run, day).log, symbol), PlacesOf(files, run, day, symbol))
  {
    if run != [] {
      hide SameRows, Landed, Moved, Earlier, Later, PlacesOf, RowsOf, Step, Queue;
      var init, a := run[..|run| - 1], run[|run| - 1];
      var s, q, p := Exec(files, init, day), Queue(files, init, day), PlacesOf(files, init, day, symbol);
      var log := RowsOf(s.log, symbol);
      RowsPermuted(files, init, day, symbol);
      if Ends(s, a) {
        LogGrows(files, run, day, symbol);
        EndPlaces(files, run, day, symbol);
        var rows := Part(s.flights, a.id, symbol);
        LandedSame(log, p, Earlier(s, q, a.id, symbol), rows, Later(s, q, a.id, symbol), a.Commit?);
      } else {
        OtherMoved(files, run, day, symbol);
        MovedSame(log, p, Starts(s, a) && a.symbol == symbol, Written(a, symbol));
      }
    }
  }

  // ---------------------------------------------------------------- exactly when the order survives

  predicate Ordered(log: seq<Row>, p: Places) {
    log == p.committed + p.flying + p.buffered
  }

  // What the flight that ends passes by.
  function Passed(s: State, q: seq<nat>, a: Action, symbol: string): seq<Row>
    requires Ends(s, a)
  {
    if a.Commit? then Earlier(s, q, a.id, symbol) else Later(s, q, a.id, symbol)
  }

  // The flight that ends lands where its rows belong: they may be exchanged with what they overtake - the rows
  // popped earlier if they are committed, the rows popped later if they go back to the buffer.
  predicate OvertakesNothing(s: State, q: seq<nat>, a: Action, symbol: string) {
    Ends(s, a) ==>
      var rows := Part(s.flights, a.id, symbol);
      var passed := Passed(s, q, a, symbol);
      passed + rows == rows + passed
  }

  predicate NoOvertaking(files: Files, run: seq<Action>, day: Days, symbol: string) {
    run == [] ||
    var init, a := run[..|run| - 1], run[|run| - 1];
    && NoOvertaking(files, init, day, symbol)
    && OvertakesNothing(Exec(files, init, day), Queue(files, init, day), a, symbol)
  }

  // Committed rows, then in-flight rows in the order of their pops, then buffered rows are the history.
  predicate OrderedAfter(files: Files, run: seq<Action>, day: Days, symbol: string) {
    Ordered(RowsOf(Exec(files, run, day).log, symbol), PlacesOf(files, run, day, symbol))
  }

  predicate OrderedThroughout(files: Files, run: seq<Action>, day: Days, symbol: string) {
    OrderedAfter(files, run, day, symbol) && (run == [] || OrderedThroughout(files, run[..|run| - 1], day, symbol))
  }

  lemma Exchange(c: seq<Row>, e: seq<Row>, x: seq<Row>, l: seq<Row>, b: seq<Row>)
    ensures c + (e + x + l) + b == (c + x) + (e + l) + b <==> e + x == x + e
    ensures c + (e + x + l) + b == c + (e + l) + (x + b) <==> l + x == x + l
  {
    assert c + (e + x + l) + b == c + (e + x) + (l + b);
    assert (c + x) + (e + l) + b == c + (x + e) + (l + b);
    SameMiddle(c, e + x, x + e, l + b);
    assert c + (e + x + l) + b == (c + e) + (x + l) + b;
    assert c + (e + l) + (x + b) == (c + e) + (l + x) + b;
    SameMiddle(c + e, x + l, l + x, b);
  }

  lemma SameMiddle(a: seq<Row>, x: seq<Row>, y: seq<Row>, b: seq<Row>)
    requires |x| == |y|
    ensures a + x + b == a + y + b <==> x == y
  {
    assert (a + x + b)[|a|..|a| + |x|] == x && (a + y + b)[|a|..|a| + |y|] == y;
  }

  lemma LandedOrder(log: seq<Row>, p: Places, e: seq<Row>, rows: seq<Row>, l: seq<Row>, committed: bool)
    requires Ordered(log, p) && p.flying == e + rows + l
    ensures var passed := if committed then e else l;
      Ordered(log, Landed(p, e, rows, l, committed)) <==> passed + rows == rows + passed
  {
    Exchange(p.committed, e, rows, l, p.buffered);
  }

  lemma MovedOrder(log: seq<Row>, p: Places, starts: bool, written: seq<Row>)
    requires Ordered(log, p) && (starts ==> written == [])
    ensures Ordered(log + written, Moved(p, starts, written))
  {
    assert p.committed + p.flying + p.buffered == p.committed + (p.flying + p.buffered) + [];
  }

  lemma {:induction false} StepOrderIff(files: Files, run: seq<Action>, day: Days, symbol: string)
    requires run != [] && OrderedAfter(files, run[..|run| - 1], day, symbol)
    ensures var init, a := run[..|run| - 1], run[|run| - 1];
      OrderedAfter(files, run, day, symbol)
      <==> OvertakesNothing(Exec(files, init, day), Queue(files, init, day), a, symbol)
  {
    var init, a := run[..|run| - 1], run[|run| - 1];
    var s, q, p := Exec(files, init, day), Queue(files, init, day), PlacesOf(files, init, day, symbol);
    var log := RowsOf(s.log, symbol);
    if Ends(s, a) {
      LogGrows(files, run, day, symbol);
      EndPlaces(files, run, day, symbol);
      hide Exec, PlacesOf, Queue, Earlier, Later, Ordered, Landed, RowsOf;
      var rows := Part(s.flights, a.id, symbol);
      LandedOrder(log, p, Earlier(s, q, a.id, symbol), rows, Later(s, q, a.id, symbol), a.Commit?);
    } else {
      OtherMoved(files, run, day, symbol);
      hide Exec, PlacesOf, Queue, Ordered, Moved, RowsOf;
      MovedOrder(log, p, Starts(s, a) && a.symbol == symbol, Written(a, symbol));
    }
  }

  /** And their order is kept at every point of a run - committed rows, then in-flight rows in the order of
      their pops, then buffered rows are the history - if and only if no flush overtakes another: none commits
      before an earlier one of the symbol, and none is put back while a later one is under way, unless their
      rows cannot be told apart. */
  lemma {:induction false} OrderedIffNoOvertaking(files: Files, run: seq<Action>, day: Days, symbol: string)
    ensures OrderedThroughout(files, run, day, symbol) <==> NoOvertaking(files, run, day, symbol)
  {
    if run != [] {
      var init := run[..|run| - 1];
      OrderedIffNoOvertaking(files, init, day, symbol);
      hide Exec, PlacesOf, Queue, OvertakesNothing, OrderedAfter;
      if OrderedThroughout(files, init, day, symbol) { StepOrderIff(files, run, day, symbol); }
    }
  }

  /** When rows can be told apart, overtaking is what the word says: a flight of the symbol passes by others. */
  lemma OvertakingPlainly(s: State, q: seq<nat>, a: Action, symbol: string)
    requires Ends(s, a) && forall r :: r in Passed(s, q, a, symbol) ==> r !in Part(s.flights, a.id, symbol)
    ensures OvertakesNothing(s, q, a, symbol)
            <==> Passed(s, q, a, symbol) == [] || Part(s.flights, a.id, symbol) == []
  {
    var e, x := Passed(s, q, a, symbol), Part(s.flights, a.id, symbol);
    if e != [] && x != [] {
      assert (e + x)[0] == e[0] && (x + e)[0] == x[0];
      assert e[0] in e && x[0] in x;
    } else {
      assert e + x == x + e;
    }
  }
}
