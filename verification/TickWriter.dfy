/**
 TickWriter (gateway/storage/tick_writer.py): per-symbol buffers, flushed to one file per symbol and
 trading day. A flush pops the buffer, reads the file, and then either rewrites it or puts the rows back.
 */
module TickWriting {
  import opened Base

  datatype Row = Row(symbol: string, timestamp: real, data: int)

  type Days = real -> string

  // Files are named by symbol and trading day.
  datatype Core = Core(buffers: map<string, seq<Row>>, files: Files,
                       written: nat, flushed: nat, errors: nat)

  // buffers.get(symbol, [])
  function RowsIn(buffers: map<string, seq<Row>>, symbol: string): seq<Row> {
    if symbol in buffers then buffers[symbol] else []
  }

  function Buffer(c: Core, symbol: string): seq<Row> {
    RowsIn(c.buffers, symbol)
  }

  type Files = map<(string, string), seq<Row>>

  function RowsAt(files: Files, key: (string, string)): seq<Row> {
    if key in files then files[key] else []
  }

  function FileOf(c: Core, key: (string, string)): seq<Row> {
    RowsAt(c.files, key)
  }

  // All rows of one flush go to the file of the first row's trading day.
  function FileKey(symbol: string, rows: seq<Row>, day: Days): (string, string)
    requires rows != []
  {
    (symbol, day(rows[0].timestamp))
  }

  function Appended(c: Core, row: Row): Core {
    c.(buffers := c.buffers[row.symbol := Buffer(c, row.symbol) + [row]], written := c.written + 1)
  }

  function Popped(c: Core, symbol: string): Core {
    c.(buffers := c.buffers - {symbol})
  }

  // Write `existing` and then `rows` over the file.
  function Committed(c: Core, key: (string, string), existing: seq<Row>, rows: seq<Row>): Core {
    c.(files := c.files[key := existing + rows])
  }

  // self._total_flushed += len(rows)
  function Counted(c: Core, rows: nat): Core {
    c.(flushed := c.flushed + rows)
  }

  function PutBack(c: Core, symbol: string, rows: seq<Row>): Core {
    c.(buffers := c.buffers[symbol := rows + Buffer(c, symbol)], errors := c.errors + 1)
  }

  // One whole flush with nothing else going on; `ok` says whether the file write happens.
  function Flushed(c: Core, symbol: string, ok: bool, day: Days): Core {
    var rows := Buffer(c, symbol);
    var p := Popped(c, symbol);
    if rows == [] then p
    else if ok then var key := FileKey(symbol, rows, day); Counted(Committed(p, key, FileOf(p, key), rows), |rows|)
    else PutBack(p, symbol, rows)
  }

  // A write: the row joins the buffer, and the whole buffer is flushed once it has reached the flush count.
  function Wrote(c: Core, row: Row, flushCount: int, ok: bool, day: Days): Core {
    var w := Appended(c, row);
    if |Buffer(w, row.symbol)| >= flushCount then Flushed(w, row.symbol, ok, day) else w
  }

  function FlushedAll(c: Core, symbols: seq<string>, ok: string -> bool, day: Days): Core {
    if symbols == [] then c
    else
      var last := symbols[|symbols| - 1];
      Flushed(FlushedAll(c, symbols[..|symbols| - 1], ok, day), last, ok(last), day)
  }

  class TickWriter {
    const flushCount: int
    const day: Days
    var buffers: map<string, seq<Row>>
    var files: Files
    var totalWritten: nat
    var totalFlushed: nat
    var flushErrors: nat

    constructor (flushCount: int, day: Days, files: Files)
      ensures View() == Core(map[], files, 0, 0, 0) && this.flushCount == flushCount && this.day == day
    {
      this.flushCount, this.day := flushCount, day;
      buffers, this.files := map[], files;
      totalWritten, totalFlushed, flushErrors := 0, 0, 0;
    }

    function View(): Core
      reads this
    {
      Core(buffers, files, totalWritten, totalFlushed, flushErrors)
    }

    method Write(row: Row, writeOk: bool)
      modifies this
      ensures View() == Wrote(old(View()), row, flushCount, writeOk, day)
    {
      buffers := buffers[row.symbol := RowsIn(buffers, row.symbol) + [row]];
      totalWritten := totalWritten + 1;
      if |buffers[row.symbol]| >= flushCount {
        FlushSymbol(row.symbol, writeOk);
      }
    }

    method FlushSymbol(symbol: string, writeOk: bool)
      modifies this
      ensures View() == Flushed(old(View()), symbol, writeOk, day)
    {
      var rows := RowsIn(buffers, symbol);
      buffers := buffers - {symbol};
      if rows == [] { return; }
      if writeOk {
        var key := (symbol, day(rows[0].timestamp));
        var table := rows;
        if key in files { table := files[key] + table; }
        assert [] + rows == rows;
        files := files[key := table];
        totalFlushed := totalFlushed + |rows|;
      } else {
        flushErrors := flushErrors + 1;
        buffers := buffers[symbol := rows + RowsIn(buffers, symbol)];
      }
    }

    method FlushAll(symbols: seq<string>, writeOk: string -> bool)
      modifies this
      ensures View() == FlushedAll(old(View()), symbols, writeOk, day)
    {
      for i := 0 to |symbols|
        invariant View() == FlushedAll(old(View()), symbols[..i], writeOk, day)
      {
        assert symbols[..i + 1][..i] == symbols[..i];
        FlushSymbol(symbols[i], writeOk(symbols[i]));
      }
      assert symbols[..|symbols|] == symbols;
    }
  }

  // ---------------------------------------------------------------- interleaved writers and flushers

  // Rows popped and not yet committed or put back; `existing` is what the flush read from the file.
  datatype Flight = Flight(symbol: string, rows: seq<Row>, existing: Option<seq<Row>>)

  datatype Batch = Batch(key: (string, string), rows: seq<Row>)

  // A flush that has written its rows and has yet to add them to the total, which it does outside the lock:
  // it loads the total, then stores the sum.
  datatype Count = Count(rows: nat, loaded: Option<nat>)

  // log: every row ever written, in order; batches: every successful flush, in order.
  datatype State = State(core: Core, flights: map<nat, Flight>, counting: map<nat, Count>, log: seq<Row>,
                         batches: seq<Batch>)

  datatype Action =
    | Write(row: Row)
    | Pop(id: nat, symbol: string)
    | ReadFile(id: nat)
    | Commit(id: nat)
    | LoadTotal(id: nat)
    | StoreTotal(id: nat)
    | Fail(id: nat)

  function Key(f: Flight, day: Days): (string, string) {
    if f.rows == [] then (f.symbol, "") else FileKey(f.symbol, f.rows, day)
  }

  predicate Stores(s: State, a: Action) {
    a.StoreTotal? && a.id in s.counting && s.counting[a.id].loaded.Some?
  }

  // An action that does not apply is skipped.
  function Step(s: State, a: Action, day: Days): State {
    match a
    case Write(row) => s.(core := Appended(s.core, row), log := s.log + [row])
    case Pop(id, symbol) =>
      if id in s.flights || id in s.counting then s
      else if Buffer(s.core, symbol) == [] then s.(core := Popped(s.core, symbol))
      else s.(core := Popped(s.core, symbol), flights := s.flights[id := Flight(symbol, Buffer(s.core, symbol), None)])
    case ReadFile(id) =>
      if id !in s.flights then s
      else var f := s.flights[id]; s.(flights := s.flights[id := f.(existing := Some(FileOf(s.core, Key(f, day))))])
    case Commit(id) =>
      if id !in s.flights || s.flights[id].existing.None? then s
      else
        var f := s.flights[id];
        s.(core := Committed(s.core, Key(f, day), f.existing.value, f.rows), flights := s.flights - {id},
           counting := s.counting[id := Count(|f.rows|, None)], batches := s.batches + [Batch(Key(f, day), f.rows)])
    case LoadTotal(id) =>
      if id !in s.counting then s
      else s.(counting := s.counting[id := s.counting[id].(loaded := Some(s.core.flushed))])
    case StoreTotal(id) =>
      if !Stores(s, a) then s
      else
        var c := s.counting[id];
        s.(core := s.core.(flushed := c.loaded.value + c.rows), counting := s.counting - {id})
    case Fail(id) =>
      if id !in s.flights then s
      else
        var f := s.flights[id];
        s.(core := PutBack(s.core, f.symbol, f.rows), flights := s.flights - {id})
  }

  // `files` is what earlier processes left on disk.
  function Start(files: Files): State {
    State(Core(map[], files, 0, 0, 0), map[], map[], [], [])
  }

  function Exec(files: Files, run: seq<Action>, day: Days): State {
    if run == [] then Start(files) else Step(Exec(files, run[..|run| - 1], day), run[|run| - 1], day)
  }

  // No flush of a symbol starts while another flush of it is under way.
  predicate Separate(s: State, a: Action) {
    a.Pop? ==> forall id :: id in s.flights ==> s.flights[id].symbol != a.symbol
  }

  predicate NoOverlap(files: Files, run: seq<Action>, day: Days) {
    run == [] ||
    (NoOverlap(files, run[..|run| - 1], day) && Separate(Exec(files, run[..|run| - 1], day), run[|run| - 1]))
  }

  function RowsOf(log: seq<Row>, symbol: string): seq<Row> {
    if log == [] then []
    else RowsOf(log[..|log| - 1], symbol) + if log[|log| - 1].symbol == symbol then [log[|log| - 1]] else []
  }

  // Rows committed for a symbol, in commit order.
  function CommittedOf(bs: seq<Batch>, symbol: string): seq<Row> {
    if bs == [] then []
    else CommittedOf(bs[..|bs| - 1], symbol) + if bs[|bs| - 1].key.0 == symbol then bs[|bs| - 1].rows else []
  }

  function CommittedTo(bs: seq<Batch>, key: (string, string)): seq<Row> {
    if bs == [] then []
    else CommittedTo(bs[..|bs| - 1], key) + if bs[|bs| - 1].key == key then bs[|bs| - 1].rows else []
  }

  function CommittedCount(bs: seq<Batch>): nat {
    if bs == [] then 0 else CommittedCount(bs[..|bs| - 1]) + |bs[|bs| - 1].rows|
  }

  // The rows of a symbol that are between buffer and file.
  ghost predicate InFlight(s: State, symbol: string, rows: seq<Row>) {
    if rows == [] then forall id :: id in s.flights ==> s.flights[id].symbol != symbol
    else exists id :: id in s.flights && s.flights[id].symbol == symbol && s.flights[id].rows == rows
  }

  // Committed rows, then in-flight rows, then buffered rows are the symbol's history.
  ghost predicate Conserved(s: State, symbol: string) {
    exists rows :: InFlight(s, symbol, rows) &&
      RowsOf(s.log, symbol) == CommittedOf(s.batches, symbol) + rows + Buffer(s.core, symbol)
  }

  ghost predicate FlightsOk(s: State, day: Days) {
    && (forall i, j :: i in s.flights && j in s.flights && i != j ==> s.flights[i].symbol != s.flights[j].symbol)
    && (forall i :: i in s.flights ==>
          && s.flights[i].rows != []
          && (s.flights[i].existing.Some? ==> s.flights[i].existing.value == FileOf(s.core, Key(s.flights[i], day))))
  }

  ghost predicate FilesOk(s: State, files: Files) {
    forall key :: FileOf(s.core, key) == RowsAt(files, key) + CommittedTo(s.batches, key)
  }

  ghost predicate Good(s: State, files: Files, day: Days) {
    && FlightsOk(s, day) && FilesOk(s, files)
    && (forall symbol :: Conserved(s, symbol))
    && s.core.written == |s.log|
  }

  lemma SnocRow(log: seq<Row>, row: Row, symbol: string)
    ensures RowsOf(log + [row], symbol) == RowsOf(log, symbol) + if row.symbol == symbol then [row] else []
  {
    assert (log + [row])[..|log|] == log;
  }

  lemma SnocBatch(bs: seq<Batch>, b: Batch, symbol: string)
    ensures CommittedOf(bs + [b], symbol) == CommittedOf(bs, symbol) + if b.key.0 == symbol then b.rows else []
    ensures forall key :: CommittedTo(bs + [b], key) == CommittedTo(bs, key) + if b.key == key then b.rows else []
    ensures CommittedCount(bs + [b]) == CommittedCount(bs) + |b.rows|
  {
    assert (bs + [b])[..|bs|] == bs;
  }

  lemma {:induction false} WriteConserves(s: State, row: Row, day: Days, symbol: string)
    requires Conserved(s, symbol)
    ensures Conserved(Step(s, Write(row), day), symbol)
  {
    var r := Step(s, Write(row), day);
    var rows :| InFlight(s, symbol, rows) &&
      RowsOf(s.log, symbol) == CommittedOf(s.batches, symbol) + rows + Buffer(s.core, symbol);
    SnocRow(s.log, row, symbol);
    assert InFlight(r, symbol, rows);
    assert RowsOf(r.log, symbol) == CommittedOf(r.batches, symbol) + rows + Buffer(r.core, symbol);
  }

  lemma {:induction false} PopConserves(s: State, id: nat, sym: string, day: Days, symbol: string)
    requires Conserved(s, symbol) && Separate(s, Pop(id, sym)) && FlightsOk(s, day)
    ensures Conserved(Step(s, Pop(id, sym), day), symbol)
  {
    var r := Step(s, Pop(id, sym), day);
    var rows :| InFlight(s, symbol, rows) &&
      RowsOf(s.log, symbol) == CommittedOf(s.batches, symbol) + rows + Buffer(s.core, symbol);
    if id !in s.flights && id !in s.counting && symbol == sym && Buffer(s.core, sym) != [] {
      assert rows == [];
      assert r.flights[id].rows == Buffer(s.core, sym);
      assert InFlight(r, symbol, Buffer(s.core, sym));
    } else {
      if rows != [] {
        var k :| k in s.flights && s.flights[k].symbol == symbol && s.flights[k].rows == rows;
        assert k in r.flights && r.flights[k] == s.flights[k];
      }
      assert InFlight(r, symbol, rows);
      assert Buffer(r.core, symbol) == Buffer(s.core, symbol);
    }
  }

  lemma {:induction false} ReadConserves(s: State, id: nat, day: Days, symbol: string)
    requires Conserved(s, symbol)
    ensures Conserved(Step(s, ReadFile(id), day), symbol)
  {
    var r := Step(s, ReadFile(id), day);
    var rows :| InFlight(s, symbol, rows) &&
      RowsOf(s.log, symbol) == CommittedOf(s.batches, symbol) + rows + Buffer(s.core, symbol);
    if rows != [] {
      var k :| k in s.flights && s.flights[k].symbol == symbol && s.flights[k].rows == rows;
      assert k in r.flights && r.flights[k].rows == rows && r.flights[k].symbol == symbol;
    }
    assert InFlight(r, symbol, rows);
  }

  // A flight of another symbol stays in flight when flight id ends.
  lemma {:induction false} OtherFlight(s: State, r: State, id: nat, symbol: string, rows: seq<Row>)
    requires id in s.flights && r.flights == s.flights - {id} && s.flights[id].symbol != symbol
    requires InFlight(s, symbol, rows)
    ensures InFlight(r, symbol, rows)
  {
    if rows != [] {
      var k :| k in s.flights && s.flights[k].symbol == symbol && s.flights[k].rows == rows;
      assert k in r.flights && r.flights[k] == s.flights[k];
    }
  }

  // When its flight ends, a symbol has nothing left in flight.
  lemma {:induction false} OwnFlight(s: State, r: State, id: nat, rows: seq<Row>, day: Days)
    requires FlightsOk(s, day) && id in s.flights && r.flights == s.flights - {id}
    requires InFlight(s, s.flights[id].symbol, rows)
    ensures rows == s.flights[id].rows && InFlight(r, s.flights[id].symbol, [])
  {
  }

  lemma Regroup(history: seq<Row>, committed: seq<Row>, rows: seq<Row>, buffer: seq<Row>)
    requires history == committed + rows + buffer
    ensures history == (committed + rows) + [] + buffer
    ensures history == committed + [] + (rows + buffer)
  {
  }

  lemma ConservedBy(s: State, symbol: string, rows: seq<Row>)
    requires InFlight(s, symbol, rows)
    requires RowsOf(s.log, symbol) == CommittedOf(s.batches, symbol) + rows + Buffer(s.core, symbol)
    ensures Conserved(s, symbol)
  {
  }

  // Where a commit and a failed flush move the rows of a flight.
  lemma CommitMoves(s: State, id: nat, day: Days, symbol: string)
    requires id in s.flights && s.flights[id].existing.Some?
    ensures var r, f := Step(s, Commit(id), day), s.flights[id];
      && r.log == s.log && r.flights == s.flights - {id} && Buffer(r.core, symbol) == Buffer(s.core, symbol)
      && CommittedOf(r.batches, symbol) == if f.symbol == symbol then CommittedOf(s.batches, symbol) + f.rows
                                           else CommittedOf(s.batches, symbol)
  {
    var f := s.flights[id];
    SnocBatch(s.batches, Batch(Key(f, day), f.rows), symbol);
    hide CommittedOf;
  }

  lemma FailMoves(s: State, id: nat, day: Days, symbol: string)
    requires id in s.flights
    ensures var r, f := Step(s, Fail(id), day), s.flights[id];
      && r.log == s.log && r.batches == s.batches && r.flights == s.flights - {id}
      && Buffer(r.core, symbol) == if f.symbol == symbol then f.rows + Buffer(s.core, symbol)
                                    else Buffer(s.core, symbol)
  {
  }

  lemma {:induction false} CommitConserves(s: State, id: nat, day: Days, symbol: string)
    requires Conserved(s, symbol) && FlightsOk(s, day)
    requires id in s.flights && s.flights[id].existing.Some?
    ensures Conserved(Step(s, Commit(id), day), symbol)
  {
    hide InFlight, FlightsOk, Step, Key, RowsOf, CommittedOf, Buffer;
    var r, f := Step(s, Commit(id), day), s.flights[id];
    var rows :| InFlight(s, symbol, rows) &&
      RowsOf(s.log, symbol) == CommittedOf(s.batches, symbol) + rows + Buffer(s.core, symbol);
    CommitMoves(s, id, day, symbol);
    hide Conserved;
    if f.symbol == symbol {
      OwnFlight(s, r, id, rows, day);
      Regroup(RowsOf(s.log, symbol), CommittedOf(s.batches, symbol), rows, Buffer(s.core, symbol));
      ConservedBy(r, symbol, []);
    } else {
      OtherFlight(s, r, id, symbol, rows);
      ConservedBy(r, symbol, rows);
    }
  }

  lemma {:induction false} FailConserves(s: State, id: nat, day: Days, symbol: string)
    requires Conserved(s, symbol) && FlightsOk(s, day) && id in s.flights
    ensures Conserved(Step(s, Fail(id), day), symbol)
  {
    hide InFlight, FlightsOk, Step, RowsOf, CommittedOf, Buffer;
    var r, f := Step(s, Fail(id), day), s.flights[id];
    var rows :| InFlight(s, symbol, rows) &&
      RowsOf(s.log, symbol) == CommittedOf(s.batches, symbol) + rows + Buffer(s.core, symbol);
    FailMoves(s, id, day, symbol);
    hide Conserved;
    if f.symbol == symbol {
      OwnFlight(s, r, id, rows, day);
      Regroup(RowsOf(s.log, symbol), CommittedOf(s.batches, symbol), rows, Buffer(s.core, symbol));
      ConservedBy(r, symbol, []);
    } else {
      OtherFlight(s, r, id, symbol, rows);
      ConservedBy(r, symbol, rows);
    }
  }

  lemma {:induction false} CountConserves(s: State, a: Action, day: Days, symbol: string)
    requires Conserved(s, symbol) && (a.LoadTotal? || a.StoreTotal?)
    ensures Conserved(Step(s, a, day), symbol)
  {
    var r := Step(s, a, day);
    var rows :| InFlight(s, symbol, rows) &&
      RowsOf(s.log, symbol) == CommittedOf(s.batches, symbol) + rows + Buffer(s.core, symbol);
    assert InFlight(r, symbol, rows);
  }

  lemma {:induction false} CommitFiles(s: State, files: Files, id: nat, day: Days)
    requires FilesOk(s, files) && id in s.flights && s.flights[id].existing.Some?
    requires s.flights[id].existing.value == FileOf(s.core, Key(s.flights[id], day))
    ensures FilesOk(Step(s, Commit(id), day), files)
  {
    var f := s.flights[id];
    var r, k := Step(s, Commit(id), day), Key(f, day);
    assert r.core.files == s.core.files[k := f.existing.value + f.rows];
    assert r.batches == s.batches + [Batch(k, f.rows)];
    hide Key, Step, CommittedTo;
    forall key ensures FileOf(r.core, key) == RowsAt(files, key) + CommittedTo(r.batches, key) {
      var more := if key == k then f.rows else [];
      SnocTo(s.batches, Batch(k, f.rows), key);
      assert FileOf(s.core, key) == RowsAt(files, key) + CommittedTo(s.batches, key);
      FileGrows(FileOf(s.core, key), RowsAt(files, key), CommittedTo(s.batches, key), more);
    }
  }

  lemma SnocTo(bs: seq<Batch>, b: Batch, key: (string, string))
    ensures CommittedTo(bs + [b], key) == CommittedTo(bs, key) + if b.key == key then b.rows else []
  {
    assert (bs + [b])[..|bs|] == bs;
  }

  lemma FileGrows(file: seq<Row>, a: seq<Row>, b: seq<Row>, more: seq<Row>)
    requires file == a + b
    ensures file + more == a + (b + more) && (more == [] ==> file == a + (b + more))
  {
  }

  lemma {:induction false} CommitFlights(s: State, id: nat, day: Days)
    requires FlightsOk(s, day) && id in s.flights && s.flights[id].existing.Some?
    ensures FlightsOk(Step(s, Commit(id), day), day)
  {
    var f := s.flights[id];
    var r := Step(s, Commit(id), day);
    forall i | i in r.flights
      ensures FileOf(r.core, Key(r.flights[i], day)) == FileOf(s.core, Key(r.flights[i], day))
    {
      assert r.flights[i] == s.flights[i] && s.flights[i].symbol != f.symbol;
    }
  }

  lemma {:induction false} StepFlights(s: State, files: Files, a: Action, day: Days)
    requires FlightsOk(s, day) && FilesOk(s, files) && Separate(s, a)
    ensures FlightsOk(Step(s, a, day), day) && FilesOk(Step(s, a, day), files)
  {
    if a.Commit? {
      if a.id in s.flights && s.flights[a.id].existing.Some? {
        CommitFiles(s, files, a.id, day);
        CommitFlights(s, a.id, day);
      }
    } else {
      var r := Step(s, a, day);
      assert r.core.files == s.core.files && r.batches == s.batches;
      assert forall key :: FileOf(r.core, key) == FileOf(s.core, key);
    }
  }

  lemma {:induction false} StepGood(s: State, files: Files, a: Action, day: Days)
    requires Good(s, files, day) && Separate(s, a)
    ensures Good(Step(s, a, day), files, day)
  {
    StepFlights(s, files, a, day);
    forall symbol ensures Conserved(Step(s, a, day), symbol) {
      match a
      case Write(row) => WriteConserves(s, row, day, symbol);
      case Pop(id, sym) => PopConserves(s, id, sym, day, symbol);
      case ReadFile(id) => ReadConserves(s, id, day, symbol);
      case Commit(id) =>
        if id in s.flights && s.flights[id].existing.Some? { CommitConserves(s, id, day, symbol); }
      case Fail(id) => if id in s.flights { FailConserves(s, id, day, symbol); }
      case _ => CountConserves(s, a, day, symbol);
    }
  }

  /** Tick conservation and order: through any interleaving of writes and flushes, and any number of
      failed flushes, no row is lost, repeated or reordered as long as flushes of one symbol do not overlap;
      each file holds exactly its committed batches in order; and the written total counts the rows. */
  lemma {:induction false} TicksConserved(files: Files, run: seq<Action>, day: Days)
    requires NoOverlap(files, run, day)
    ensures Good(Exec(files, run, day), files, day)
  {
    if run == [] {
      forall symbol ensures Conserved(Start(files), symbol) {
        assert InFlight(Start(files), symbol, []);
      }
    } else {
      TicksConserved(files, run[..|run| - 1], day);
      StepGood(Exec(files, run[..|run| - 1], day), files, run[|run| - 1], day);
    }
  }

  // ---------------------------------------------------------------- exactly when the files hold everything

  // Whether the file of flush id is as the flush last read it: no other flush has committed to it since.
  predicate Undisturbed(files: Files, run: seq<Action>, day: Days, id: nat) {
    run == [] ||
    var init, a := run[..|run| - 1], run[|run| - 1];
    var s := Exec(files, init, day);
    if a.ReadFile? && a.id == id then true
    else if Commits(s, a) && id in s.flights && Key(s.flights[a.id], day) == Key(s.flights[id], day) then false
    else Undisturbed(files, init, day, id)
  }

  predicate Commits(s: State, a: Action) {
    a.Commit? && a.id in s.flights && s.flights[a.id].existing.Some?
  }

  // No flush writes back a file that another flush has changed since it read it.
  predicate CommitsUndisturbed(files: Files, run: seq<Action>, day: Days) {
    run == [] ||
    var init, a := run[..|run| - 1], run[|run| - 1];
    && CommitsUndisturbed(files, init, day)
    && (Commits(Exec(files, init, day), a) ==> Undisturbed(files, init, day, a.id))
  }

  // At every point of the run each file holds what it held at first and then every committed batch, in order.
  ghost predicate FilesOkThroughout(files: Files, run: seq<Action>, day: Days) {
    FilesOk(Exec(files, run, day), files) && (run == [] || FilesOkThroughout(files, run[..|run| - 1], day))
  }

  // What a flush read is a shorter or equal file, and equal exactly when nobody committed since.
  predicate ReadsTracked(files: Files, run: seq<Action>, day: Days) {
    var s := Exec(files, run, day);
    forall id :: id in s.flights ==>
      && s.flights[id].rows != []
      && (s.flights[id].existing.Some? ==>
            var read, file := s.flights[id].existing.value, FileOf(s.core, Key(s.flights[id], day));
            && (Undisturbed(files, run, day, id) ==> read == file)
            && (!Undisturbed(files, run, day, id) ==> |read| < |file|))
  }

  /** One commit: the files go on holding every committed batch exactly when the flush writes back the
      file as it now is. */
  lemma {:induction false} CommitFilesIff(s: State, files: Files, id: nat, day: Days)
    requires FilesOk(s, files) && Commits(s, Commit(id))
    ensures FilesOk(Step(s, Commit(id), day), files)
            <==> s.flights[id].existing.value == FileOf(s.core, Key(s.flights[id], day))
  {
    var f := s.flights[id];
    var r, k := Step(s, Commit(id), day), Key(f, day);
    if f.existing.value == FileOf(s.core, k) {
      CommitFiles(s, files, id, day);
    } else if FilesOk(r, files) {
      SnocBatch(s.batches, Batch(k, f.rows), f.symbol);
      hide Key;
      var a, b := RowsAt(files, k), CommittedTo(s.batches, k);
      assert (a + b) + f.rows == a + (b + f.rows);
      assert f.existing.value + f.rows == FileOf(s.core, k) + f.rows;
      SameFront(f.existing.value, FileOf(s.core, k), f.rows);
    }
  }

  lemma SameFront(a: seq<Row>, b: seq<Row>, c: seq<Row>)
    requires a + c == b + c
    ensures a == b
  {
    assert |a + c| == |a| + |c| && |b + c| == |b| + |c|;
    assert (a + c)[..|a|] == a && (b + c)[..|b|] == b;
  }

  lemma {:induction false} CommitTracked(files: Files, run: seq<Action>, day: Days)
    requires run != [] && ReadsTracked(files, run[..|run| - 1], day)
    requires FilesOk(Exec(files, run[..|run| - 1], day), files) && FilesOk(Exec(files, run, day), files)
    requires Commits(Exec(files, run[..|run| - 1], day), run[|run| - 1])
    ensures ReadsTracked(files, run, day)
  {
    var init, a := run[..|run| - 1], run[|run| - 1];
    var s, r := Exec(files, init, day), Exec(files, run, day);
    CommitFilesIff(s, files, a.id, day);
    hide FilesOk;
    var k := Key(s.flights[a.id], day);
    assert FileOf(r.core, k) == FileOf(s.core, k) + s.flights[a.id].rows;
    forall id | id in r.flights
      ensures r.flights[id] == s.flights[id]
      ensures Undisturbed(files, run, day, id) <==>
              Key(s.flights[id], day) != k && Undisturbed(files, init, day, id)
    {
    }
    hide Undisturbed, Key;
    assert forall key :: key != k ==> FileOf(r.core, key) == FileOf(s.core, key);
  }

  // What a step that commits nothing does to one flight.
  lemma FlightAfter(s: State, a: Action, day: Days, id: nat)
    requires !Commits(s, a) && id in Step(s, a, day).flights
    ensures var r := Step(s, a, day);
      && r.core.files == s.core.files
      && (if a.ReadFile? && a.id == id
          then id in s.flights &&
               r.flights[id] == s.flights[id].(existing := Some(FileOf(s.core, Key(s.flights[id], day))))
          else if id in s.flights then r.flights[id] == s.flights[id]
          else r.flights[id].existing.None? && r.flights[id].rows != [])
  {
  }

  lemma {:induction false} OtherStepTracked(files: Files, run: seq<Action>, day: Days)
    requires run != [] && ReadsTracked(files, run[..|run| - 1], day)
    requires !Commits(Exec(files, run[..|run| - 1], day), run[|run| - 1])
    ensures ReadsTracked(files, run, day)
  {
    var init, a := run[..|run| - 1], run[|run| - 1];
    var s, r := Exec(files, init, day), Exec(files, run, day);
    assert r == Step(s, a, day);
    assert forall id :: Undisturbed(files, run, day, id) <==>
      (a.ReadFile? && a.id == id) || Undisturbed(files, init, day, id);
    hide Undisturbed, Exec, Step, Key, Commits;
    forall id | id in r.flights
      ensures r.flights[id].rows != []
      ensures r.flights[id].existing.Some? ==>
        var read, file := r.flights[id].existing.value, FileOf(r.core, Key(r.flights[id], day));
        && (Undisturbed(files, run, day, id) ==> read == file)
        && (!Undisturbed(files, run, day, id) ==> |read| < |file|)
    {
      FlightAfter(s, a, day, id);
      if a.ReadFile? && a.id == id { SameKey(s.flights[id], r.flights[id], day); }
    }
  }

  // A file is named by the flight's rows alone.
  lemma SameKey(f: Flight, g: Flight, day: Days)
    requires f.symbol == g.symbol && f.rows == g.rows
    ensures Key(f, day) == Key(g, day)
  {
  }

  lemma {:induction false} RunTracked(files: Files, run: seq<Action>, day: Days)
    requires FilesOkThroughout(files, run, day)
    ensures ReadsTracked(files, run, day)
  {
    if run != [] {
      var init, a := run[..|run| - 1], run[|run| - 1];
      RunTracked(files, init, day);
      if Commits(Exec(files, init, day), a) {
        CommitTracked(files, run, day);
      } else {
        OtherStepTracked(files, run, day);
      }
    }
  }

  /** Whatever overlaps: at every point of a run the files hold every committed batch, whole and in order,
      if and only if no flush commits a file that another flush has committed to since it was read. */
  lemma {:induction false} FilesHoldIffUndisturbed(files: Files, run: seq<Action>, day: Days)
    ensures FilesOkThroughout(files, run, day) <==> CommitsUndisturbed(files, run, day)
  {
    if run != [] {
      hide FilesOk, Undisturbed, Step;
      var init, a := run[..|run| - 1], run[|run| - 1];
      var s := Exec(files, init, day);
      FilesHoldIffUndisturbed(files, init, day);
      if FilesOkThroughout(files, init, day) {
        RunTracked(files, init, day);
        if Commits(s, a) {
          CommitFilesIff(s, files, a.id, day);
        } else {
          QuietFiles(s, files, a, day);
        }
      }
    }
  }

  lemma QuietFiles(s: State, files: Files, a: Action, day: Days)
    requires FilesOk(s, files) && !Commits(s, a)
    ensures FilesOk(Step(s, a, day), files)
  {
    var r := Step(s, a, day);
    assert r.core.files == s.core.files && r.batches == s.batches;
    assert forall key :: FileOf(r.core, key) == FileOf(s.core, key);
  }

  // ---------------------------------------------------------------- the total of flushed rows

  ghost function Pick(m: map<nat, Count>): (k: nat)
    requires m != map[]
    ensures k in m
  {
    var k :| k in m;
    k
  }

  // Rows written to files and not yet added to the total.
  ghost function Uncounted(m: map<nat, Count>): nat {
    if m == map[] then 0 else m[Pick(m)].rows + Uncounted(m - {Pick(m)})
  }

  lemma {:induction false} UncountedWithout(m: map<nat, Count>, j: nat)
    requires j in m
    ensures Uncounted(m) == m[j].rows + Uncounted(m - {j})
  {
    var k := Pick(m);
    if k != j {
      UncountedWithout(m - {k}, j);
      UncountedWithout(m - {j}, k);
      assert m - {k} - {j} == m - {j} - {k};
    }
  }

  lemma UncountedPut(m: map<nat, Count>, j: nat, c: Count)
    ensures Uncounted(m[j := c]) == c.rows + Uncounted(m - {j})
  {
    UncountedWithout(m[j := c], j);
    assert m[j := c] - {j} == m - {j};
  }

  // The total, with what is still to be added, is the number of rows in all files' batches.
  ghost predicate TotalExact(s: State) {
    s.core.flushed + Uncounted(s.counting) == CommittedCount(s.batches)
  }

  ghost predicate TotalExactThroughout(files: Files, run: seq<Action>, day: Days) {
    TotalExact(Exec(files, run, day)) && (run == [] || TotalExactThroughout(files, run[..|run| - 1], day))
  }

  // Whether no other flush has stored the total since flush id last loaded it.
  predicate Unmoved(files: Files, run: seq<Action>, day: Days, id: nat) {
    run == [] ||
    var init, a := run[..|run| - 1], run[|run| - 1];
    (a.LoadTotal? && a.id == id) || (!Stores(Exec(files, init, day), a) && Unmoved(files, init, day, id))
  }

  // No flush stores a total that another one has changed since it loaded it.
  predicate StoresUnmoved(files: Files, run: seq<Action>, day: Days) {
    run == [] ||
    var init, a := run[..|run| - 1], run[|run| - 1];
    StoresUnmoved(files, init, day) && (Stores(Exec(files, init, day), a) ==> Unmoved(files, init, day, a.id))
  }

  // A loaded total is the present one if nobody has stored since, and a smaller one otherwise.
  predicate LoadsTracked(files: Files, run: seq<Action>, day: Days) {
    var s := Exec(files, run, day);
    && (forall id :: id in s.flights ==> s.flights[id].rows != [])
    && forall id :: id in s.counting ==>
         && s.counting[id].rows > 0
         && (s.counting[id].loaded.Some? ==>
               if Unmoved(files, run, day, id) then s.counting[id].loaded.value == s.core.flushed
               else s.counting[id].loaded.value < s.core.flushed)
  }

  lemma CommitTotal(s: State, id: nat, day: Days)
    requires TotalExact(s) && Commits(s, Commit(id)) && id !in s.counting
    ensures TotalExact(Step(s, Commit(id), day))
  {
    var r, f := Step(s, Commit(id), day), s.flights[id];
    assert r.counting == s.counting[id := Count(|f.rows|, None)] && r.core.flushed == s.core.flushed;
    assert r.batches == s.batches + [Batch(Key(f, day), f.rows)];
    hide Step, Key, Uncounted, CommittedCount;
    UncountedPut(s.counting, id, Count(|f.rows|, None));
    assert s.counting - {id} == s.counting;
    SnocBatch(s.batches, Batch(Key(f, day), f.rows), f.symbol);
  }

  lemma StoreTotalIff(s: State, id: nat, day: Days)
    requires TotalExact(s) && Stores(s, StoreTotal(id))
    ensures TotalExact(Step(s, StoreTotal(id), day)) <==> s.counting[id].loaded.value == s.core.flushed
  {
    UncountedWithout(s.counting, id);
    hide Uncounted, CommittedCount;
  }

  lemma LoadTotalKeeps(s: State, id: nat, day: Days)
    requires TotalExact(s)
    ensures TotalExact(Step(s, LoadTotal(id), day))
  {
    if id in s.counting {
      UncountedWithout(s.counting, id);
      UncountedPut(s.counting, id, s.counting[id].(loaded := Some(s.core.flushed)));
      hide Uncounted, CommittedCount;
    }
  }

  lemma QuietTotal(s: State, a: Action, day: Days)
    requires TotalExact(s) && !Commits(s, a) && !Stores(s, a) && !a.LoadTotal?
    ensures TotalExact(Step(s, a, day))
  {
    var r := Step(s, a, day);
    assert r.counting == s.counting && r.batches == s.batches && r.core.flushed == s.core.flushed;
    hide Step, Uncounted, CommittedCount;
  }

  // A store keeps the total exact exactly when it adds to the total as it now is; nothing else affects it.
  lemma StepTotalIff(s: State, a: Action, day: Days)
    requires TotalExact(s)
    requires forall id :: id in s.flights ==> id !in s.counting
    ensures TotalExact(Step(s, a, day)) <==> (Stores(s, a) ==> s.counting[a.id].loaded.value == s.core.flushed)
  {
    hide Step, TotalExact;
    if Commits(s, a) {
      CommitTotal(s, a.id, day);
    } else if Stores(s, a) {
      StoreTotalIff(s, a.id, day);
    } else if a.LoadTotal? {
      LoadTotalKeeps(s, a.id, day);
    } else {
      QuietTotal(s, a, day);
    }
  }

  lemma {:induction false} FlushesApart(files: Files, run: seq<Action>, day: Days)
    ensures forall id :: id in Exec(files, run, day).flights ==> id !in Exec(files, run, day).counting
  {
    if run != [] { FlushesApart(files, run[..|run| - 1], day); }
  }

  // What a step does to the total and to one flush that is counting.
  lemma CountAfter(s: State, a: Action, day: Days, id: nat)
    requires id in Step(s, a, day).counting
    ensures var r := Step(s, a, day);
      if a.LoadTotal? && a.id == id
      then id in s.counting && r.counting[id] == s.counting[id].(loaded := Some(s.core.flushed)) && !Stores(s, a)
           && r.core.flushed == s.core.flushed
      else if Commits(s, a) && a.id == id then r.counting[id] == Count(|s.flights[id].rows|, None)
      else
        && id in s.counting && r.counting[id] == s.counting[id]
        && (r.core.flushed == if Stores(s, a) then s.counting[a.id].loaded.value + s.counting[a.id].rows
                              else s.core.flushed)
  {
  }

  lemma {:induction false} RunLoadsTracked(files: Files, run: seq<Action>, day: Days)
    requires TotalExactThroughout(files, run, day)
    ensures LoadsTracked(files, run, day)
  {
    if run != [] {
      var init, a := run[..|run| - 1], run[|run| - 1];
      var s, r := Exec(files, init, day), Exec(files, run, day);
      RunLoadsTracked(files, init, day);
      FlushesApart(files, init, day);
      StepTotalIff(s, a, day);
      FlightRows(s, a, day);
      assert forall id :: Unmoved(files, run, day, id) <==>
        ((a.LoadTotal? && a.id == id) || (!Stores(s, a) && Unmoved(files, init, day, id)));
      assert r == Step(s, a, day);
      hide Step, Exec, Unmoved, TotalExact;
      forall id | id in r.counting
        ensures r.counting[id].rows > 0
        ensures r.counting[id].loaded.Some? ==>
          if Unmoved(files, run, day, id) then r.counting[id].loaded.value == r.core.flushed
          else r.counting[id].loaded.value < r.core.flushed
      {
        CountAfter(s, a, day, id);
      }
    }
  }

  lemma FlightRows(s: State, a: Action, day: Days)
    requires forall id :: id in s.flights ==> s.flights[id].rows != []
    ensures forall id :: id in Step(s, a, day).flights ==> Step(s, a, day).flights[id].rows != []
  {
  }

  /** The total of flushed rows, which no lock protects: at every point of a run it is exact - up to the flushes
      that have not added their rows yet - if and only if no flush stores a total that another one has
      changed since it loaded it. */
  lemma {:induction false} TotalExactIffUnmoved(files: Files, run: seq<Action>, day: Days)
    ensures TotalExactThroughout(files, run, day) <==> StoresUnmoved(files, run, day)
  {
    if run != [] {
      hide Step, Unmoved, TotalExact;
      var init, a := run[..|run| - 1], run[|run| - 1];
      var s := Exec(files, init, day);
      TotalExactIffUnmoved(files, init, day);
      if TotalExactThroughout(files, init, day) {
        RunLoadsTracked(files, init, day);
        FlushesApart(files, init, day);
        StepTotalIff(s, a, day);
      }
    } else {
      assert Uncounted(map[]) == 0;
    }
  }

  // When no flush is under way the total is the number of rows committed.
  lemma TotalWhenIdle(files: Files, run: seq<Action>, day: Days)
    requires StoresUnmoved(files, run, day) && Exec(files, run, day).counting == map[]
    ensures Exec(files, run, day).core.flushed == CommittedCount(Exec(files, run, day).batches)
  {
    TotalExactIffUnmoved(files, run, day);
  }

  /** Two flushes that both load the total before either stores it: the rows of the first are never counted. */
  lemma InterleavedCountLost(s: State, i: nat, j: nat, day: Days)
    requires i != j && i in s.counting && j in s.counting
    ensures var r := Step(Step(Step(Step(s, LoadTotal(i), day), LoadTotal(j), day),
              StoreTotal(i), day), StoreTotal(j), day);
      r.core.flushed == s.core.flushed + s.counting[j].rows && r.counting == s.counting - {i, j}
  {
  }

  // ---------------------------------------------------------------- overlapping flushes

  lemma ExecSnoc(run: seq<Action>, a: Action, day: Days)
    ensures Exec(map[], run + [a], day) == Step(Exec(map[], run, day), a, day)
  {
    assert (run + [a])[..|run|] == run;
  }

  // Both rows are popped, by flushes 1 and 2, before either reads the file.
  function BothPopped(x: Row, y: Row): State {
    State(Core(map[], map[], 2, 0, 0),
          map[1 := Flight(x.symbol, [x], None), 2 := Flight(x.symbol, [y], None)], map[], [x, y], [])
  }

  lemma WriteAndPop(s: State, day: Days, row: Row, id: nat)
    requires id !in s.flights && id !in s.counting && s.core.buffers == map[]
    ensures var r := Step(Step(s, Write(row), day), Pop(id, row.symbol), day);
      && r.core == s.core.(written := s.core.written + 1) && r.log == s.log + [row] && r.batches == s.batches
      && r.flights == s.flights[id := Flight(row.symbol, [row], None)] && r.counting == s.counting
  {
    assert [] + [row] == [row];
    var w := Step(s, Write(row), day);
    assert w.core.buffers == map[row.symbol := [row]];
  }

  lemma PopBoth(day: Days, x: Row, y: Row) returns (run: seq<Action>)
    requires x.symbol == y.symbol
    ensures Exec(map[], run, day) == BothPopped(x, y)
  {
    var r0, r1, r2, r3 := [], [Write(x)], [Write(x)] + [Pop(1, x.symbol)], [Write(x)] + [Pop(1, x.symbol)] + [Write(y)];
    assert [] + [Write(x)] == r1;
    WriteAndPop(Start(map[]), day, x, 1);
    var s := Step(Step(Start(map[]), Write(x), day), Pop(1, x.symbol), day);
    WriteAndPop(s, day, y, 2);
    assert [] + [x] == [x] && [x] + [y] == [x, y];
    hide Step;
    ExecSnoc(r0, Write(x), day);
    ExecSnoc(r1, Pop(1, x.symbol), day);
    ExecSnoc(r2, Write(y), day);
    ExecSnoc(r3, Pop(2, x.symbol), day);
    run := r3 + [Pop(2, x.symbol)];
  }

  lemma WriteBoth(s: State, day: Days, x: Row, y: Row)
    requires x.symbol == y.symbol && day(x.timestamp) == day(y.timestamp) && s == BothPopped(x, y)
    ensures var s1 := Step(Step(s, ReadFile(1), day), ReadFile(2), day);
      var r := Step(Step(s1, Commit(1), day), Commit(2), day);
      && r.log == [x, y] && r.flights == map[] && r.core.buffers == map[]
      && r.core.files == map[(x.symbol, day(x.timestamp)) := [y]]
  {
    assert [] + [x] == [x] && [] + [y] == [y];
    var s1 := Step(Step(s, ReadFile(1), day), ReadFile(2), day);
    assert s1.flights == map[1 := Flight(x.symbol, [x], Some([])), 2 := Flight(x.symbol, [y], Some([]))];
    var s2 := Step(s1, Commit(1), day);
    assert s2.flights == map[2 := Flight(x.symbol, [y], Some([]))];
  }

  /** Nothing stops two flushes of one symbol from overlapping, and then rows are lost: both read the file,
      and the second write replaces the first. */
  lemma OverlapLosesRows(day: Days, x: Row, y: Row) returns (run: seq<Action>)
    requires x.symbol == y.symbol && day(x.timestamp) == day(y.timestamp)
    ensures var s := Exec(map[], run, day);
      && s.log == [x, y] && s.flights == map[] && s.core.buffers == map[]
      && s.core.files == map[(x.symbol, day(x.timestamp)) := [y]]
  {
    run := PopBoth(day, x, y);
    var s := Exec(map[], run, day);
    WriteBoth(s, day, x, y);
    hide Step, BothPopped;
    ExecSnoc(run, ReadFile(1), day);
    ExecSnoc(run + [ReadFile(1)], ReadFile(2), day);
    ExecSnoc(run + [ReadFile(1)] + [ReadFile(2)], Commit(1), day);
    ExecSnoc(run + [ReadFile(1)] + [ReadFile(2)] + [Commit(1)], Commit(2), day);
    run := run + [ReadFile(1)] + [ReadFile(2)] + [Commit(1)] + [Commit(2)];
  }
}
