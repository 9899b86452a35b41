/**
 The tick writer's methods (gateway/storage/tick_writer.py) as runs: called one after another they are
 interleavings without overlap, so what holds of those runs holds of the methods.
 */
module TickCalls {
  import opened Base
  import opened TickWriting

  // ---------------------------------------------------------------- what one flush does to the files

  /** A successful flush appends the buffered rows of the symbol, all of them and in order, to the file of their
      symbol and of the first row's day, and touches no other file; a failed one touches none. Either way the rows
      are in the file or back in the buffer, and no other symbol is concerned. */
  lemma FlushFiles(c: Core, symbol: string, ok: bool, day: Days, key: (string, string))
    ensures var rows, r := Buffer(c, symbol), Flushed(c, symbol, ok, day);
      && (rows != [] && ok && key == (symbol, day(rows[0].timestamp)) ==> FileOf(r, key) == FileOf(c, key) + rows)
      && (rows == [] || !ok || key != (symbol, day(rows[0].timestamp)) ==> FileOf(r, key) == FileOf(c, key))
      && Buffer(r, symbol) == (if ok then [] else rows)
      && r.flushed == c.flushed + (if ok then |rows| else 0)
      && r.errors == c.errors + (if rows != [] && !ok then 1 else 0)
      && forall other :: other != symbol ==> Buffer(r, other) == Buffer(c, other)
  {
    assert Buffer(c, symbol) + [] == Buffer(c, symbol);
  }

  /** A write keeps the row, last in the buffer of its symbol; and with it the buffer goes to the file as soon as it
      holds as many rows as the flush count, not before, and stays in the buffer if the file write fails. */
  lemma WriteKeeps(c: Core, row: Row, flushCount: int, ok: bool, day: Days)
    ensures var rows, r := Buffer(c, row.symbol) + [row], Wrote(c, row, flushCount, ok, day);
      var key := (row.symbol, day(rows[0].timestamp));
      && Buffer(r, row.symbol) == (if |rows| >= flushCount && ok then [] else rows)
      && FileOf(r, key) == (if |rows| >= flushCount && ok then FileOf(c, key) + rows else FileOf(c, key))
      && (forall other :: other != key ==> FileOf(r, other) == FileOf(c, other))
      && r.written == c.written + 1
      && forall other :: other != row.symbol ==> Buffer(r, other) == Buffer(c, other)
  {
    var w := Appended(c, row);
    FlushFiles(w, row.symbol, ok, day, (row.symbol, day((Buffer(c, row.symbol) + [row])[0].timestamp)));
    forall other ensures FileOf(Flushed(w, row.symbol, ok, day), other) ==
      if ok && other == (row.symbol, day(Buffer(w, row.symbol)[0].timestamp))
      then FileOf(w, other) + Buffer(w, row.symbol)
      else FileOf(w, other)
    {
      FlushFiles(w, row.symbol, ok, day, other);
    }
    hide Flushed;
  }

  // ---------------------------------------------------------------- calls as steps

  datatype Call =
    | WriteCall(row: Row, ok: bool)
    | FlushCall(symbol: string, ok: bool)

  // What one method call does to the writer.
  function Called(c: Core, call: Call, flushCount: int, day: Days): Core {
    match call
    case WriteCall(row, ok) => Wrote(c, row, flushCount, ok, day)
    case FlushCall(symbol, ok) => Flushed(c, symbol, ok, day)
  }

  function AllCalled(c: Core, calls: seq<Call>, flushCount: int, day: Days): Core {
    if calls == [] then c
    else Called(AllCalled(c, calls[..|calls| - 1], flushCount, day), calls[|calls| - 1], flushCount, day)
  }

  // A flush is one flight: its pop, the read, and then the write and the two halves of the count, or the failure.
  function FlushSteps(id: nat, symbol: string, ok: bool): seq<Action> {
    [Pop(id, symbol), ReadFile(id)] + if ok then [Commit(id), LoadTotal(id), StoreTotal(id)] else [Fail(id)]
  }

  // The steps of one call; whether it flushes is seen from the buffer.
  function StepsOf(c: Core, call: Call, id: nat, flushCount: int): seq<Action> {
    match call
    case WriteCall(row, ok) =>
      [Write(row)]
      + if |Buffer(c, row.symbol)| + 1 >= flushCount then FlushSteps(id, row.symbol, ok) else []
    case FlushCall(symbol, ok) => FlushSteps(id, symbol, ok)
  }

  function RunOf(c: Core, calls: seq<Call>, flushCount: int, day: Days): seq<Action> {
    if calls == [] then []
    else
      var init := calls[..|calls| - 1];
      RunOf(c, init, flushCount, day) + StepsOf(AllCalled(c, init, flushCount, day), calls[|calls| - 1], 0, flushCount)
  }

  function Stepped(s: State, acts: seq<Action>, day: Days): State {
    if acts == [] then s else Step(Stepped(s, acts[..|acts| - 1], day), acts[|acts| - 1], day)
  }

  // No flush is under way.
  predicate AtRest(s: State) {
    s.flights == map[] && s.counting == map[]
  }

  // Pop, read and then the rest, from a writer at rest, with rows to flush.
  lemma FlightLands(s: State, id: nat, symbol: string, day: Days)
    requires AtRest(s) && Buffer(s.core, symbol) != []
    ensures var rows := Buffer(s.core, symbol);
      var read := Step(Step(s, Pop(id, symbol), day), ReadFile(id), day);
      var failed := Step(read, Fail(id), day);
      var stored := Step(Step(Step(read, Commit(id), day), LoadTotal(id), day), StoreTotal(id), day);
      && failed.core == Flushed(s.core, symbol, false, day) && AtRest(failed) && failed.log == s.log
      && failed.batches == s.batches
      && stored.core == Flushed(s.core, symbol, true, day) && AtRest(stored) && stored.log == s.log
      && stored.batches == s.batches + [Batch(FileKey(symbol, rows, day), rows)]
  {
    var rows := Buffer(s.core, symbol);
    var key := FileKey(symbol, rows, day);
    var popped := Step(s, Pop(id, symbol), day);
    assert popped.core == Popped(s.core, symbol) && popped.flights == map[id := Flight(symbol, rows, None)];
    var read := Step(popped, ReadFile(id), day);
    assert read.core == popped.core && read.flights == map[id := Flight(symbol, rows, Some(FileOf(popped.core, key)))];
    var committed := Step(read, Commit(id), day);
    assert committed.core == Committed(popped.core, key, FileOf(popped.core, key), rows);
    assert committed.flights == map[] && committed.counting == map[id := Count(|rows|, None)];
    var loaded := Step(committed, LoadTotal(id), day);
    assert loaded.core == committed.core && loaded.counting == map[id := Count(|rows|, Some(committed.core.flushed))];
    var stored := Step(loaded, StoreTotal(id), day);
    assert stored.core == Counted(committed.core, |rows|) && stored.counting == map[];
    var failed := Step(read, Fail(id), day);
    assert failed.flights == map[];
  }

  // With nothing to flush the pop only drops an empty buffer, and the rest does not apply.
  lemma NothingLands(s: State, id: nat, symbol: string, ok: bool, day: Days)
    requires AtRest(s) && Buffer(s.core, symbol) == []
    ensures var popped := Step(s, Pop(id, symbol), day);
      && popped.core == Flushed(s.core, symbol, ok, day) && AtRest(popped) && popped.log == s.log
      && popped.batches == s.batches
      && Step(popped, ReadFile(id), day) == popped && Step(popped, Fail(id), day) == popped
      && Step(popped, Commit(id), day) == popped && Step(popped, LoadTotal(id), day) == popped
      && Step(popped, StoreTotal(id), day) == popped
  {
  }

  lemma SteppedOne(s: State, acts: seq<Action>, a: Action, day: Days)
    ensures Stepped(s, acts + [a], day) == Step(Stepped(s, acts, day), a, day)
  {
    assert (acts + [a])[..|acts|] == acts;
  }

  lemma {:induction false} SteppedConcat(s: State, a: seq<Action>, b: seq<Action>, day: Days)
    ensures Stepped(s, a + b, day) == Stepped(Stepped(s, a, day), b, day)
  {
    if b == [] {
      assert a + b == a;
    } else {
      assert (a + b)[..|a + b| - 1] == a + b[..|b| - 1];
      SteppedConcat(s, a, b[..|b| - 1], day);
    }
  }

  lemma StepFlush(s: State, id: nat, symbol: string, ok: bool, day: Days)
    ensures var read := Step(Step(s, Pop(id, symbol), day), ReadFile(id), day);
      Stepped(s, FlushSteps(id, symbol, ok), day) ==
      if ok then Step(Step(Step(read, Commit(id), day), LoadTotal(id), day), StoreTotal(id), day)
      else Step(read, Fail(id), day)
  {
    hide Step;
    assert Stepped(s, [], day) == s;
    SteppedOne(s, [], Pop(id, symbol), day);
    SteppedOne(s, [] + [Pop(id, symbol)], ReadFile(id), day);
    var two := [] + [Pop(id, symbol)] + [ReadFile(id)];
    if ok {
      SteppedOne(s, two, Commit(id), day);
      SteppedOne(s, two + [Commit(id)], LoadTotal(id), day);
      SteppedOne(s, two + [Commit(id)] + [LoadTotal(id)], StoreTotal(id), day);
      assert FlushSteps(id, symbol, ok) == two + [Commit(id)] + [LoadTotal(id)] + [StoreTotal(id)];
    } else {
      SteppedOne(s, two, Fail(id), day);
      assert FlushSteps(id, symbol, ok) == two + [Fail(id)];
    }
  }

  /** One flush is its steps: what FlushSymbol does to the writer is what the pop, the read, and the commit and
      count, or the failure, do when nothing comes between. */
  lemma FlushIsSteps(s: State, id: nat, symbol: string, ok: bool, day: Days)
    requires AtRest(s)
    ensures var r := Stepped(s, FlushSteps(id, symbol, ok), day);
      r.core == Flushed(s.core, symbol, ok, day) && AtRest(r) && r.log == s.log
  {
    StepFlush(s, id, symbol, ok, day);
    if Buffer(s.core, symbol) == [] { NothingLands(s, id, symbol, ok, day); } else { FlightLands(s, id, symbol, day); }
    hide Step, Flushed;
  }

  lemma CallIsSteps(s: State, call: Call, flushCount: int, day: Days)
    requires AtRest(s)
    ensures var r := Stepped(s, StepsOf(s.core, call, 0, flushCount), day);
      && r.core == Called(s.core, call, flushCount, day) && AtRest(r)
      && r.log == s.log + if call.WriteCall? then [call.row] else []
  {
    match call
    case FlushCall(symbol, ok) => FlushIsSteps(s, 0, symbol, ok, day); assert s.log + [] == s.log;
    case WriteCall(row, ok) =>
      var w := Step(s, Write(row), day);
      assert w.core == Appended(s.core, row) && AtRest(w) && w.log == s.log + [row];
      var rest := if |Buffer(s.core, row.symbol)| + 1 >= flushCount then FlushSteps(0, row.symbol, ok) else [];
      assert Stepped(s, [], day) == s && [] + [Write(row)] == [Write(row)];
      hide Step, Flushed, FlushSteps;
      SteppedOne(s, [], Write(row), day);
      SteppedConcat(s, [Write(row)], rest, day);
      if rest != [] { FlushIsSteps(w, 0, row.symbol, ok, day); }
  }

  lemma {:induction false} ExecIsStepped(files: Files, run: seq<Action>, day: Days)
    ensures Exec(files, run, day) == Stepped(Start(files), run, day)
  {
    if run != [] { ExecIsStepped(files, run[..|run| - 1], day); }
  }

  // ---------------------------------------------------------------- any sequence of calls

  // The rows that the calls write, in order.
  function WrittenBy(calls: seq<Call>): seq<Row> {
    if calls == [] then []
    else WrittenBy(calls[..|calls| - 1]) + if calls[|calls| - 1].WriteCall? then [calls[|calls| - 1].row] else []
  }

  lemma {:induction false} ExecConcat(files: Files, run: seq<Action>, acts: seq<Action>, day: Days)
    ensures Exec(files, run + acts, day) == Stepped(Exec(files, run, day), acts, day)
  {
    ExecIsStepped(files, run + acts, day);
    ExecIsStepped(files, run, day);
    SteppedConcat(Start(files), run, acts, day);
  }

  lemma {:induction false} CallsAreRun(files: Files, calls: seq<Call>, flushCount: int, day: Days)
    ensures var c := Start(files).core;
      var s := Exec(files, RunOf(c, calls, flushCount, day), day);
      s.core == AllCalled(c, calls, flushCount, day) && AtRest(s) && s.log == WrittenBy(calls)
  {
    if calls != [] {
      hide Step, Called, StepsOf;
      var c, init, last := Start(files).core, calls[..|calls| - 1], calls[|calls| - 1];
      CallsAreRun(files, init, flushCount, day);
      var run := RunOf(c, init, flushCount, day);
      var s := Exec(files, run, day);
      CallIsSteps(s, last, flushCount, day);
      ExecConcat(files, run, StepsOf(s.core, last, 0, flushCount), day);
    }
  }

  // The one pop of a call comes first, or after the write.
  lemma PopsOf(c: Core, call: Call, flushCount: int, i: nat)
    requires i < |StepsOf(c, call, 0, flushCount)| && StepsOf(c, call, 0, flushCount)[i].Pop?
    ensures i == 0 || (i == 1 && call.WriteCall? && StepsOf(c, call, 0, flushCount)[0] == Write(call.row))
  {
  }

  lemma {:induction false} MoreNoOverlap(files: Files, run: seq<Action>, acts: seq<Action>, day: Days)
    requires NoOverlap(files, run, day)
    requires forall i :: 0 <= i < |acts| && acts[i].Pop? ==> AtRest(Exec(files, run + acts[..i], day))
    ensures NoOverlap(files, run + acts, day)
  {
    if acts == [] {
      assert run + acts == run;
    } else {
      var init, last := acts[..|acts| - 1], acts[|acts| - 1];
      forall i | 0 <= i < |init| && init[i].Pop? ensures AtRest(Exec(files, run + init[..i], day)) {
        assert init[i] == acts[i] && init[..i] == acts[..i];
      }
      MoreNoOverlap(files, run, init, day);
      assert (run + acts)[..|run + acts| - 1] == run + init;
      assert last.Pop? ==> AtRest(Exec(files, run + acts[..|acts| - 1], day));
    }
  }

  lemma {:induction false} CallsDoNotOverlap(files: Files, calls: seq<Call>, flushCount: int, day: Days)
    ensures NoOverlap(files, RunOf(Start(files).core, calls, flushCount, day), day)
  {
    if calls != [] {
      var c, init, last := Start(files).core, calls[..|calls| - 1], calls[|calls| - 1];
      CallsDoNotOverlap(files, init, flushCount, day);
      CallsAreRun(files, init, flushCount, day);
      var run := RunOf(c, init, flushCount, day);
      var s := Exec(files, run, day);
      var acts := StepsOf(s.core, last, 0, flushCount);
      forall i | 0 <= i < |acts| && acts[i].Pop? ensures AtRest(Exec(files, run + acts[..i], day)) {
        PopsOf(s.core, last, flushCount, i);
        if i == 0 {
          assert run + acts[..0] == run;
        } else {
          assert run + acts[..1] == run + [Write(last.row)];
          assert (run + [Write(last.row)])[..|run|] == run;
        }
      }
      hide Exec, StepsOf, AtRest;
      MoreNoOverlap(files, run, acts, day);
    }
  }

  // A store right after its own load is never late.
  lemma {:induction false} MoreUnmoved(files: Files, run: seq<Action>, acts: seq<Action>, day: Days)
    requires StoresUnmoved(files, run, day)
    requires forall i :: 0 <= i < |acts| && acts[i].StoreTotal? ==> i > 0 && acts[i - 1] == LoadTotal(acts[i].id)
    ensures StoresUnmoved(files, run + acts, day)
  {
    if acts == [] {
      assert run + acts == run;
    } else {
      var init, last := acts[..|acts| - 1], acts[|acts| - 1];
      forall i | 0 <= i < |init| && init[i].StoreTotal? ensures i > 0 && init[i - 1] == LoadTotal(init[i].id) {
        assert init[i] == acts[i] && acts[i - 1] == init[i - 1];
      }
      MoreUnmoved(files, run, init, day);
      assert (run + acts)[..|run + acts| - 1] == run + init;
      if last.StoreTotal? {
        assert acts[|acts| - 1].StoreTotal?;
        assert (run + init)[|run + init| - 1] == LoadTotal(last.id);
        assert Unmoved(files, run + init, day, last.id);
      }
    }
  }

  // The one store of a call follows its load.
  lemma StoresOf(c: Core, call: Call, flushCount: int, i: nat)
    requires var acts := StepsOf(c, call, 0, flushCount); i < |acts| && acts[i].StoreTotal?
    ensures var acts := StepsOf(c, call, 0, flushCount); i > 0 && acts[i - 1] == LoadTotal(acts[i].id)
  {
    hide Buffer;
  }

  lemma {:induction false} CallsCountInTurn(files: Files, calls: seq<Call>, flushCount: int, day: Days)
    ensures StoresUnmoved(files, RunOf(Start(files).core, calls, flushCount, day), day)
  {
    if calls != [] {
      var c, init, last := Start(files).core, calls[..|calls| - 1], calls[|calls| - 1];
      CallsCountInTurn(files, init, flushCount, day);
      var acts := StepsOf(AllCalled(c, init, flushCount, day), last, 0, flushCount);
      forall i | 0 <= i < |acts| && acts[i].StoreTotal? ensures i > 0 && acts[i - 1] == LoadTotal(acts[i].id) {
        StoresOf(AllCalled(c, init, flushCount, day), last, flushCount, i);
      }
      hide Exec, StoresUnmoved, AllCalled, Buffer, StepsOf;
      MoreUnmoved(files, RunOf(c, init, flushCount, day), acts, day);
    }
  }

  /** Called one after another, in any sequence and with any writes failing, the methods lose, repeat and reorder
      nothing: each file holds what it held at first and then its batches in order; a symbol's batches and then its
      buffer are the rows written for it; and both totals count rows. */
  lemma CallsConserve(files: Files, calls: seq<Call>, flushCount: int, day: Days) returns (batches: seq<Batch>)
    ensures var c := AllCalled(Start(files).core, calls, flushCount, day);
      && (forall key :: FileOf(c, key) == RowsAt(files, key) + CommittedTo(batches, key))
      && (forall symbol :: RowsOf(WrittenBy(calls), symbol) == CommittedOf(batches, symbol) + Buffer(c, symbol))
      && c.written == |WrittenBy(calls)| && c.flushed == CommittedCount(batches)
  {
    var run := RunOf(Start(files).core, calls, flushCount, day);
    var s := Exec(files, run, day);
    CallsAreRun(files, calls, flushCount, day);
    CallsDoNotOverlap(files, calls, flushCount, day);
    CallsCountInTurn(files, calls, flushCount, day);
    TicksConserved(files, run, day);
    TotalWhenIdle(files, run, day);
    batches := s.batches;
    hide Exec, RunOf, AllCalled, NoOverlap, StoresUnmoved, RowsOf, CommittedOf, CommittedTo, CommittedCount;
    assert FilesOk(s, files);
    forall symbol ensures RowsOf(s.log, symbol) == CommittedOf(batches, symbol) + Buffer(s.core, symbol) {
      assert Conserved(s, symbol);
      RestConserved(s, symbol);
    }
  }

  lemma RestConserved(s: State, symbol: string)
    requires AtRest(s) && Conserved(s, symbol)
    ensures RowsOf(s.log, symbol) == CommittedOf(s.batches, symbol) + Buffer(s.core, symbol)
  {
    hide RowsOf, CommittedOf, Buffer;
    var rows :| InFlight(s, symbol, rows) &&
      RowsOf(s.log, symbol) == CommittedOf(s.batches, symbol) + rows + Buffer(s.core, symbol);
    assert rows == [];
    assert CommittedOf(s.batches, symbol) + [] == CommittedOf(s.batches, symbol);
  }

  function FlushCalls(symbols: seq<string>, ok: string -> bool): (calls: seq<Call>)
    ensures |calls| == |symbols|
  {
    if symbols == [] then []
    else
      FlushCalls(symbols[..|symbols| - 1], ok) + [FlushCall(symbols[|symbols| - 1], ok(symbols[|symbols| - 1]))]
  }

  // Flushing everything is one flush after another.
  lemma {:induction false} FlushAllIsCalls(c: Core, symbols: seq<string>, ok: string -> bool, flushCount: int,
                                           day: Days)
    ensures FlushedAll(c, symbols, ok, day) == AllCalled(c, FlushCalls(symbols, ok), flushCount, day)
  {
    if symbols != [] {
      var calls := FlushCalls(symbols, ok);
      assert calls[..|calls| - 1] == FlushCalls(symbols[..|symbols| - 1], ok);
      hide Flushed;
      FlushAllIsCalls(c, symbols[..|symbols| - 1], ok, flushCount, day);
    }
  }

  /** An instance: a row written to a symbol whose file already holds one joins it there. */
  lemma WriteJoinsFile(before: Row, row: Row, day: Days)
    requires before.symbol == row.symbol
    ensures var key := (row.symbol, day(row.timestamp));
      var c := Core(map[], map[key := [before]], 0, 0, 0);
      FileOf(AllCalled(c, [WriteCall(row, true)], 1, day), key) == [before, row]
  {
    var key := (row.symbol, day(row.timestamp));
    var c := Core(map[], map[key := [before]], 0, 0, 0);
    var w := Appended(c, row);
    assert [WriteCall(row, true)][..0] == [] && [] + [row] == [row] && [before] + [row] == [before, row];
    assert Buffer(w, row.symbol) == [row];
    FlushFiles(w, row.symbol, true, day, key);
  }
}
