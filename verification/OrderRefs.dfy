/**
 OrderRefAllocator (gateway/order_ref_allocator.py): a counter that survives crashes in a small JSON
 file, replaced atomically. Which file operations fail, and when the process dies, is up to the run.
 */
module OrderRefs {
  import opened Base

  const STATE_KEY := "last_order_ref"

  // A JSON value under a key: a number, a falsy value, or something else with what int() makes of it.
  datatype Json = Num(n: int) | Falsy | Else(asInt: Option<int>)

  // What the state file holds. Reading ValueErrorText raises a plain ValueError, as text that is not valid
  // UTF-8 does, or an integer with too many digits; the inner handler of the persist step does not catch it.
  // Whatever else is not an object is caught and overwritten.
  datatype File = Missing | ValueErrorText | NotObject | Object(fields: map<string, Json>)

  // The saved counter a load finds, if it finds one.
  function Saved(f: File): Option<int> {
    if !f.Object? then None
    else if STATE_KEY !in f.fields then Some(0)
    else match f.fields[STATE_KEY]
      case Num(n) => Some(n)
      case Falsy => Some(0)
      case Else(asInt) => asInt
  }

  function Loaded(initial: int, f: File, readFails: bool): int {
    if !readFails && Saved(f).Some? && Saved(f).value > initial then Saved(f).value else initial
  }

  // The new contents a persist wants to put in place; None when it gives up.
  function Target(f: File, value: int, readFails: bool): Option<File> {
    match f
    case Object(fields) => Some(Object((if readFails then map[] else fields)[STATE_KEY := Num(value)]))
    case ValueErrorText => if readFails then Some(Object(map[STATE_KEY := Num(value)])) else None
    case _ => Some(Object(map[STATE_KEY := Num(value)]))
  }

  // How the file operations of one persist turn out.
  datatype Io = Io(readFails: bool, writeFails: bool, replaceFails: bool)

  function Persisted(f: File, value: int, io: Io): File {
    var t := Target(f, value, io.readFails);
    if t.Some? && !io.writeFails && !io.replaceFails then t.value else f
  }

  class OrderRefAllocator {
    var value: int
    var file: File

    constructor (initial: int, file: File, readFails: bool)
      ensures value == Loaded(initial, file, readFails) && this.file == file
    {
      this.file := file;
      value := initial;
      if !readFails && Saved(file).Some? && Saved(file).value > initial {
        value := Saved(file).value;
      }
    }

    method Persist(io: Io)
      modifies this`file
      ensures file == Persisted(old(file), value, io)
    {
      var existing: map<string, Json> := map[];
      if file.ValueErrorText? && !io.readFails { return; }
      if file.Object? && !io.readFails { existing := file.fields; }
      existing := existing[STATE_KEY := Num(value)];
      if io.writeFails || io.replaceFails { return; }
      file := Object(existing);
    }

    method Next(io: Io) returns (ref: int)
      modifies this
      ensures ref == value == old(value) + 1
      ensures file == Persisted(old(file), value, io)
    {
      value := value + 1;
      ref := value;
      Persist(io);
    }

    method AlignWithMax(max: int, io: Io)
      modifies this
      ensures value == if max > old(value) then max else old(value)
      ensures file == Persisted(old(file), value, io)
    {
      if max > value { value := max; }
      Persist(io);
    }
  }

  // A persist that gets through is read back by the next load, and disturbs no other key.
  lemma PersistRoundTrip(f: File, value: int, io: Io, initial: int)
    requires !io.writeFails && !io.replaceFails && (f.ValueErrorText? ==> io.readFails)
    ensures Saved(Persisted(f, value, io)) == Some(value)
    ensures Loaded(initial, Persisted(f, value, io), false) == if value > initial then value else initial
    ensures f.Object? && !io.readFails ==>
      forall k :: k in f.fields && k != STATE_KEY ==>
        k in Persisted(f, value, io).fields && Persisted(f, value, io).fields[k] == f.fields[k]
  {
  }

  /** What a load makes of the file: the larger of the initial value and the saved one, where a missing or falsy one
      counts as zero; and the initial value if the file is missing, cannot be read, is no object, or holds no number. */
  lemma LoadTakes(initial: int, f: File, n: int)
    ensures Loaded(initial, f, true) == initial && Loaded(initial, f, false) >= initial
    ensures !f.Object? ==> Loaded(initial, f, false) == initial
    ensures f.Object? ==>
      && (STATE_KEY !in f.fields || f.fields[STATE_KEY] == Falsy ==>
            Loaded(initial, f, false) == if initial < 0 then 0 else initial)
      && (STATE_KEY in f.fields && (f.fields[STATE_KEY] == Num(n) || f.fields[STATE_KEY] == Else(Some(n))) ==>
            Loaded(initial, f, false) == if initial < n then n else initial)
      && (STATE_KEY in f.fields && f.fields[STATE_KEY] == Else(None) ==> Loaded(initial, f, false) == initial)
  {
  }

  /** What a persist that is not stopped leaves: the saved value and every other key that could be read, and nothing
      else; one that fails to write or to replace, or meets the ValueError, leaves the file as it was. */
  lemma PersistLeaves(f: File, value: int, io: Io, key: string)
    ensures io.writeFails || io.replaceFails || (f.ValueErrorText? && !io.readFails) ==> Persisted(f, value, io) == f
    ensures !io.writeFails && !io.replaceFails && !(f.ValueErrorText? && !io.readFails) ==>
      var r := Persisted(f, value, io);
      && r.Object? && STATE_KEY in r.fields && r.fields[STATE_KEY] == Num(value)
      && (key != STATE_KEY ==> (key in r.fields <==> f.Object? && !io.readFails && key in f.fields))
      && (key != STATE_KEY && key in r.fields ==> r.fields[key] == f.fields[key])
  {
  }

  // ---------------------------------------------------------------- runs with crashes

  datatype Phase =
    | Ready
    | Writing(isNext: bool)
    | Replacing(isNext: bool, target: File)
    | Finishing(isNext: bool, ok: bool)

  datatype Process = Down | Up(value: int, phase: Phase)

  // issued: every ref returned to a caller over the whole run, across restarts. durable: the file is
  // known to hold at least the last of them. recovered: so is this process's counter.
  datatype World = World(file: File, process: Process, issued: seq<int>, durable: bool, recovered: bool)

  datatype Action =
    | Boot(initial: int, readFails: bool)
    | BeginNext
    | BeginAlign(max: int)
    | WriteTemp(readFails: bool, fails: bool)
    | ReplaceFile(fails: bool)
    | Finish
    | Crash

  predicate AtLeastIssued(v: int, issued: seq<int>) {
    issued == [] || v >= issued[|issued| - 1]
  }

  // An action that does not apply is skipped. A persist gets through once its replace does; from then
  // on the file is as good as the counter it was given. A next that returns without having been
  // persisted leaves the file behind.
  function Step(w: World, a: Action): World {
    match (a, w.process)
    case (Boot(initial, readFails), Down) =>
      w.(process := Up(Loaded(initial, w.file, readFails), Ready),
         recovered := w.issued == [] || (w.durable && !readFails))
    case (BeginNext, Up(v, Ready)) => w.(process := Up(v + 1, Writing(true)))
    case (BeginAlign(max), Up(v, Ready)) =>
      w.(process := Up(if max > v then max else v, Writing(false)),
         recovered := w.recovered || AtLeastIssued(max, w.issued))
    case (WriteTemp(readFails, fails), Up(v, Writing(isNext))) =>
      var t := Target(w.file, v, readFails);
      w.(process := Up(v, if t.Some? && !fails then Replacing(isNext, t.value) else Finishing(isNext, false)))
    case (ReplaceFile(fails), Up(v, Replacing(isNext, target))) =>
      if fails then w.(process := Up(v, Finishing(isNext, false)))
      else w.(file := target, process := Up(v, Finishing(isNext, true)), durable := w.recovered)
    case (Finish, Up(v, Finishing(isNext, ok))) =>
      if isNext then w.(process := Up(v, Ready), issued := w.issued + [v], durable := w.durable && ok)
      else w.(process := Up(v, Ready))
    case (Crash, Up(_, _)) => w.(process := Down)
    case _ => w
  }

  function Exec(f: File, run: seq<Action>): World {
    if run == [] then World(f, Down, [], true, false)
    else Step(Exec(f, run[..|run| - 1]), run[|run| - 1])
  }

  predicate Increasing(s: seq<int>) {
    forall i, j :: 0 <= i < j < |s| ==> s[i] < s[j]
  }

  predicate AsksNext(w: World, a: Action) {
    a.BeginNext? && w.process.Up?
  }

  // No ref is asked for before the process is recovered: booted from a file known to hold the last
  // issued ref, or aligned with at least that ref.
  predicate Careful(f: File, run: seq<Action>) {
    run == [] ||
    (Careful(f, run[..|run| - 1]) &&
     (AsksNext(Exec(f, run[..|run| - 1]), run[|run| - 1]) ==> Exec(f, run[..|run| - 1]).recovered))
  }

  predicate Covers(f: File, issued: seq<int>) {
    issued == [] || (Saved(f).Some? && Saved(f).value >= issued[|issued| - 1])
  }

  // While a next is in progress the counter is past every issued ref.
  predicate Ahead(w: World) {
    w.process.Up? && w.recovered && (w.issued == [] || w.process.value > w.issued[|w.issued| - 1])
  }

  predicate Sound(w: World) {
    && Increasing(w.issued)
    && (w.durable ==> Covers(w.file, w.issued))
    && (w.process.Up? ==>
          && (w.recovered ==> AtLeastIssued(w.process.value, w.issued))
          && match w.process.phase
             case Ready => true
             case Writing(isNext) => isNext ==> Ahead(w)
             case Replacing(isNext, t) => (isNext ==> Ahead(w)) && Saved(t) == Some(w.process.value)
             case Finishing(isNext, ok) =>
               (isNext ==> Ahead(w)) && (ok ==> Saved(w.file) == Some(w.process.value)))
  }

  lemma {:induction false} StepSound(w: World, a: Action)
    requires Sound(w) && (AsksNext(w, a) ==> w.recovered)
    ensures Sound(Step(w, a))
  {
    if a.WriteTemp? && w.process.Up? && w.process.phase.Writing? {
      var t := Target(w.file, w.process.value, a.readFails);
      assert t.Some? ==> Saved(t.value) == Some(w.process.value);
    }
  }

  /** Refs are never repeated: with crashes at any step, any number of restarts and any persists failing,
      the refs returned over the whole run strictly increase, provided every process is recovered before
      its first next. */
  lemma {:induction false} RefsIncrease(f: File, run: seq<Action>)
    requires Careful(f, run)
    ensures Increasing(Exec(f, run).issued) && Sound(Exec(f, run))
  {
    if run != [] {
      RefsIncrease(f, run[..|run| - 1]);
      StepSound(Exec(f, run[..|run| - 1]), run[|run| - 1]);
    }
  }

  predicate AllSucceed(run: seq<Action>) {
    forall i :: 0 <= i < |run| ==>
      match run[i]
      case Boot(_, readFails) => !readFails
      case WriteTemp(_, fails) => !fails
      case ReplaceFile(fails) => !fails
      case _ => true
  }

  // With every operation succeeding the file and every process stay trustworthy.
  predicate Trusted(w: World) {
    && w.durable && !w.file.ValueErrorText?
    && (w.process.Up? ==> w.recovered)
    && (w.process.Up? && w.process.phase.Finishing? ==> w.process.phase.ok)
    && (w.process.Up? && w.process.phase.Replacing? ==> !w.process.phase.target.ValueErrorText?)
  }

  lemma {:induction false} SuccessIsCareful(f: File, run: seq<Action>)
    requires AllSucceed(run) && !f.ValueErrorText?
    ensures Trusted(Exec(f, run))
  {
    if run != [] { SuccessIsCareful(f, run[..|run| - 1]); }
  }

  /** If every persist that is not cut short by a crash succeeds, and every load can read the file, the
      refs returned over the whole run strictly increase with no alignment at all. */
  lemma {:induction false} RefsIncreaseWithoutFailures(f: File, run: seq<Action>)
    requires AllSucceed(run) && !f.ValueErrorText?
    ensures Increasing(Exec(f, run).issued) && Sound(Exec(f, run))
  {
    if run != [] {
      var init, a := run[..|run| - 1], run[|run| - 1];
      RefsIncreaseWithoutFailures(f, init);
      SuccessIsCareful(f, init);
      StepSound(Exec(f, init), a);
    }
  }

  // Since it was started, the process has been aligned with at least the last ref issued by then. One that
  // was started before any ref was issued needs no aligning.
  predicate AlignedSinceBoot(f: File, run: seq<Action>) {
    run != [] &&
    var init, a := run[..|run| - 1], run[|run| - 1];
    var w := Exec(f, init);
    if a.Boot? && w.process.Down? then w.issued == []
    else AlignedSinceBoot(f, init)
         || (a.BeginAlign? && w.process.Up? && w.process.phase.Ready? && AtLeastIssued(a.max, w.issued))
  }

  // Every process is aligned before it is asked for a ref.
  predicate AlignsFirst(f: File, run: seq<Action>) {
    run == [] ||
    (AlignsFirst(f, run[..|run| - 1]) &&
     (AsksNext(Exec(f, run[..|run| - 1]), run[|run| - 1]) ==> AlignedSinceBoot(f, run[..|run| - 1])))
  }

  lemma {:induction false} AlignedIsCareful(f: File, run: seq<Action>)
    requires AlignsFirst(f, run)
    ensures Careful(f, run)
    ensures AlignedSinceBoot(f, run) ==> Exec(f, run).recovered
  {
    if run != [] {
      AlignedIsCareful(f, run[..|run| - 1]);
    }
  }

  /** Aligning is always enough: if every process, before its first next, is aligned with at least the last
      ref issued so far, the refs returned over the whole run strictly increase - whatever loads and persists
      fail, whatever the file holds, and wherever processes crash. */
  lemma AlignRecovers(f: File, run: seq<Action>)
    requires AlignsFirst(f, run)
    ensures Increasing(Exec(f, run).issued)
  {
    AlignedIsCareful(f, run);
    RefsIncrease(f, run);
  }

  // After a restart nothing but the saved counter is known, if the file could be read: the next ref is
  // fresh exactly when the larger of it and the initial value reaches the last ref issued.
  lemma RestartFreshIff(w: World, initial: int, readFails: bool)
    requires w.process.Down? && w.issued != [] && Increasing(w.issued)
    ensures var up := Step(w, Boot(initial, readFails));
      var next := Step(up, BeginNext).process.value;
      Increasing(w.issued + [next])
      <==> (initial >= w.issued[|w.issued| - 1]
            || (!readFails && Saved(w.file).Some? && Saved(w.file).value >= w.issued[|w.issued| - 1]))
  {
    var next := Step(Step(w, Boot(initial, readFails)), BeginNext).process.value;
    var all := w.issued + [next];
    assert all[|w.issued|] == next && all[|w.issued| - 1] == w.issued[|w.issued| - 1];
    forall i | 0 <= i < |w.issued| ensures all[i] == w.issued[i] { }
    if next > w.issued[|w.issued| - 1] {
      forall i, j | 0 <= i < j < |all| ensures all[i] < all[j] { }
    }
  }

  lemma ExecSnoc(f: File, run: seq<Action>, a: Action)
    ensures Exec(f, run + [a]) == Step(Exec(f, run), a)
  {
    assert (run + [a])[..|run|] == run;
  }

  // What one process does that is started afresh, gives out one ref and crashes.
  function OneLife(fails: bool): seq<Action> {
    [Boot(0, false), BeginNext, WriteTemp(false, fails), Finish, Crash]
  }

  // Its persist gets nowhere: the write fails, or reading the file raises ValueError.
  lemma LifeStep(w: World, fails: bool)
    requires w.process.Down? && (w.file.ValueErrorText? || (w.file.Missing? && fails))
    ensures var r := Step(Step(Step(Step(Step(w, Boot(0, false)), BeginNext), WriteTemp(false, fails)), Finish), Crash);
      r.file == w.file && r.process == Down && r.issued == w.issued + [1]
  {
  }

  lemma LifeRuns(f: File, run: seq<Action>, fails: bool)
    requires var w := Exec(f, run); w.process.Down? && (w.file.ValueErrorText? || (w.file.Missing? && fails))
    ensures var w, r := Exec(f, run), Exec(f, run + OneLife(fails));
      r.file == w.file && r.process == Down && r.issued == w.issued + [1]
  {
    LifeStep(Exec(f, run), fails);
    hide Step, Exec;
    var r1 := run + [Boot(0, false)];
    var r2 := r1 + [BeginNext];
    var r3 := r2 + [WriteTemp(false, fails)];
    var r4 := r3 + [Finish];
    ExecSnoc(f, run, Boot(0, false));
    ExecSnoc(f, r1, BeginNext);
    ExecSnoc(f, r2, WriteTemp(false, fails));
    ExecSnoc(f, r3, Finish);
    ExecSnoc(f, r4, Crash);
    assert run + OneLife(fails) == r4 + [Crash];
  }

  // Two such processes give out the same ref.
  lemma TwoLives(f: File, fails: bool)
    requires f.ValueErrorText? || (f.Missing? && fails)
    ensures Exec(f, OneLife(fails) + OneLife(fails)).issued == [1, 1]
  {
    LifeRuns(f, [], fails);
    assert [] + OneLife(fails) == OneLife(fails);
    hide Step;
    LifeRuns(f, OneLife(fails), fails);
  }

  /** A failed persist followed by a crash and a plain restart repeats a ref. */
  lemma LostPersistRepeats() returns (run: seq<Action>)
    ensures Exec(Missing, run).issued == [1, 1]
  {
    TwoLives(Missing, true);
    run := OneLife(true) + OneLife(true);
  }

  /** A state file whose reading raises ValueError is never replaced: although every operation succeeds, a restarted
      process starts again from its initial value, and refs repeat. */
  lemma ValueErrorFileRepeats(f: File) returns (run: seq<Action>)
    requires f.ValueErrorText?
    ensures AllSucceed(run) && Exec(f, run).issued == [1, 1]
  {
    TwoLives(f, false);
    run := OneLife(false) + OneLife(false);
  }

  /** Exactly the other files are safe: refs strictly increase in every run without failures, whatever its
      crashes and restarts, if and only if reading the first file does not raise ValueError. */
  lemma RefsIncreaseIffNoValueError(f: File)
    ensures (forall run :: AllSucceed(run) ==> Increasing(Exec(f, run).issued)) <==> !f.ValueErrorText?
  {
    if f.ValueErrorText? {
      var run := ValueErrorFileRepeats(f);
      var issued := Exec(f, run).issued;
      assert issued[0] == issued[1];
    } else {
      forall run | AllSucceed(run) ensures Increasing(Exec(f, run).issued) {
        RefsIncreaseWithoutFailures(f, run);
      }
    }
  }
}
