/**
 The readiness and idle watchdogs (feeds/my_websocket_app.py): each samples the shared fields, looks at
 the clock, and acts only if a second look under the lock still shows what it sampled.

 Any number of watchdog passes may be in flight; samples never expire.
 */
module Watchdogs {
  import opened Base
  import opened WebSocketApp

  // What happened, in the order the locked regions ran.
  datatype Event =
    | DidOpen(generation: nat, ws: Sock, at: real)
    | DidReady(at: real)
    | DidMessage(at: real)
    | DidFail
    | DidClose
    | DidForget
    | DidStop
    | DidTimeOut(sample: ReadinessSample, checked: real)
    | DidIdleClose(seen: IdleSample, checked: real)

  // opening: the socket whose on_open has counted its generation but not yet taken the lock.
  // due and quiet: samples whose clock check, at the given reading, said to go on.
  datatype World = World(app: App, opening: Option<Sock>, samples: set<ReadinessSample>, idleSamples: set<IdleSample>,
                         due: set<(ReadinessSample, real)>, quiet: set<(IdleSample, real)>, log: seq<Event>)

  datatype Timeouts = Timeouts(readiness: real, idle: real)

  datatype Action =
    | Create(ws: Sock)
    | Drop
    | StopsRunning
    | OpenBegins(ws: Sock)
    | OpenLocks(now: real)
    | Fails
    | Ready(now: real)
    | Message(now: real)
    | CloseLocks
    | CloseForgets
    | BatchBegins
    | SendTracked
    | SendUntracked
    | BatchEnds
    | AckArrives
    | SampleReadiness
    | CheckReadiness(sample: ReadinessSample, now: real)
    | ClaimTimeout(sample: ReadinessSample, checked: real)
    | SampleIdle
    | CheckIdle(seen: IdleSample, now: real)
    | ClaimIdle(seen: IdleSample, checked: real)

  function Note(w: World, app: App, e: Event): World {
    w.(app := app, log := w.log + [e])
  }

  // An action that cannot happen is skipped. on_open calls do not overlap: one worker runs them.
  function Step(w: World, a: Action, t: Timeouts): World {
    match a
    case Create(ws) => w.(app := w.app.(ws := Some(ws)))
    case Drop => w.(app := w.app.(ws := None))
    case StopsRunning => Note(w, w.app.(running := false), DidStop)
    case OpenBegins(ws) =>
      if w.opening.Some? then w
      else w.(app := w.app.(generation := w.app.generation + 1), opening := Some(ws))
    case OpenLocks(now) =>
      if w.opening.None? then w
      else Note(w, Opened(w.app, w.opening.value, now, t.readiness),
                DidOpen(w.app.generation, w.opening.value, now)).(opening := None)
    case Fails => Note(w, SetupFailed(w.app), DidFail)
    case Ready(now) => Note(w, MarkReady(w.app, now), DidReady(now))
    case Message(now) => Note(w, w.app.(lastMessage := Some(now)), DidMessage(now))
    case CloseLocks => Note(w, Closed(w.app), DidClose)
    case CloseForgets => Note(w, w.app.(lastMessage := None), DidForget)
    case BatchBegins => w.(app := BeginBatch(w.app))
    case SendTracked => w.(app := TrackSend(w.app))
    case SendUntracked => w.(app := UntrackSend(w.app))
    case BatchEnds => w.(app := EndBatch(w.app))
    case AckArrives => w.(app := Acknowledged(w.app))
    case SampleReadiness =>
      if w.app.awaiting && w.app.deadline.Some? && w.app.readinessWs.Some?
      then w.(samples := w.samples +
        {ReadinessSample(w.app.deadline.value, w.app.readinessWs.value, w.app.readinessGeneration)})
      else w
    case CheckReadiness(s, now) =>
      if s in w.samples && now > s.deadline then w.(due := w.due + {(s, now)}) else w
    case ClaimTimeout(s, checked) =>
      if (s, checked) in w.due && ReadinessHolds(w.app, s)
      then Note(w, TimedOut(w.app), DidTimeOut(s, checked)) else w
    case SampleIdle =>
      if (w.app.running || w.app.awaiting) && w.app.lastMessage.Some? && w.app.ws.Some?
      then w.(idleSamples := w.idleSamples + {IdleSample(w.app.lastMessage.value, w.app.ws.value, w.app.generation)})
      else w
    case CheckIdle(s, now) =>
      if s in w.idleSamples && now - s.last > t.idle then w.(quiet := w.quiet + {(s, now)}) else w
    case ClaimIdle(s, checked) =>
      if (s, checked) in w.quiet && IdleHolds(w.app, s)
      then Note(w, IdleClosed(w.app), DidIdleClose(s, checked)) else w
  }

  function Start(): World {
    World(Initial(), None, {}, {}, {}, {}, [])
  }

  function Exec(run: seq<Action>, t: Timeouts): World {
    if run == [] then Start() else Step(Exec(run[..|run| - 1], t), run[|run| - 1], t)
  }

  // ---------------------------------------------------------------- readiness timeouts

  // Events after which no deadline is set.
  predicate Settles(e: Event) {
    e.DidReady? || e.DidFail? || e.DidClose? || e.DidTimeOut? || e.DidIdleClose? || e.DidOpen?
  }

  predicate QuietBetween(log: seq<Event>, i: nat, j: nat) {
    forall k :: i < k < j && k < |log| ==> !Settles(log[k])
  }

  // The on_open at index i set the deadline d that holds just before index j.
  predicate SetAt(log: seq<Event>, i: nat, j: nat, d: real, generation: nat, ws: Sock, t: Timeouts) {
    && i < j <= |log|
    && log[i].DidOpen? && log[i].generation == generation && log[i].ws == ws && d == log[i].at + t.readiness
    && QuietBetween(log, i, j)
  }

  // Everything a timeout at index j should have behind it.
  ghost predicate Justified(log: seq<Event>, j: nat, t: Timeouts)
    requires j < |log| && log[j].DidTimeOut?
  {
    var s := log[j].sample;
    log[j].checked > s.deadline && exists i: nat :: SetAt(log, i, j, s.deadline, s.generation, s.ws, t)
  }

  predicate GenerationsRise(log: seq<Event>) {
    forall i, j :: 0 <= i < j < |log| && log[i].DidOpen? && log[j].DidOpen? ==> log[i].generation < log[j].generation
  }

  predicate Before(log: seq<Event>, bound: nat) {
    forall i :: 0 <= i < |log| && log[i].DidOpen? ==> log[i].generation < bound
  }

  ghost predicate ReadinessSound(w: World, t: Timeouts) {
    && (forall p :: p in w.due ==> p.1 > p.0.deadline)
    && GenerationsRise(w.log)
    && Before(w.log, if w.opening.Some? then w.app.generation else w.app.generation + 1)
    && (w.app.deadline.Some? ==> w.app.readinessWs.Some? && exists i: nat ::
          SetAt(w.log, i, |w.log|, w.app.deadline.value, w.app.readinessGeneration, w.app.readinessWs.value, t))
    && (forall j :: 0 <= j < |w.log| && w.log[j].DidTimeOut? ==> Justified(w.log, j, t))
  }

  lemma SetAtLonger(log: seq<Event>, i: nat, e: Event, d: real, generation: nat, ws: Sock, t: Timeouts)
    requires SetAt(log, i, |log|, d, generation, ws, t) && !Settles(e)
    ensures SetAt(log + [e], i, |log| + 1, d, generation, ws, t)
  {
    var r := log + [e];
    forall k | i < k < |log| + 1 ensures !Settles(r[k]) {
      if k < |log| { assert r[k] == log[k]; }
    }
  }

  lemma JustifiedStill(log: seq<Event>, j: nat, e: Event, t: Timeouts)
    requires j < |log| && log[j].DidTimeOut? && Justified(log, j, t)
    ensures Justified(log + [e], j, t)
  {
    var s, r := log[j].sample, log + [e];
    var i: nat :| SetAt(log, i, j, s.deadline, s.generation, s.ws, t);
    assert r[i] == log[i] && r[j] == log[j];
    forall k | i < k < j ensures !Settles(r[k]) { assert r[k] == log[k]; }
    assert SetAt(r, i, j, s.deadline, s.generation, s.ws, t);
  }

  // Noting an event keeps what is past; the deadline must be the newest on_open's, or be gone.
  lemma {:induction false} NoteSound(w: World, app: App, e: Event, t: Timeouts)
    requires ReadinessSound(w, t)
    requires app.generation == w.app.generation && !e.DidOpen?
    requires if Settles(e) then app.deadline.None?
             else (app.deadline, app.readinessWs, app.readinessGeneration)
                  == (w.app.deadline, w.app.readinessWs, w.app.readinessGeneration)
    requires e.DidTimeOut? ==>
      e.checked > e.sample.deadline && w.app.deadline == Some(e.sample.deadline)
      && w.app.readinessGeneration == e.sample.generation && w.app.readinessWs == Some(e.sample.ws)
    ensures ReadinessSound(Note(w, app, e), t)
  {
    var r := Note(w, app, e);
    assert forall k :: 0 <= k < |w.log| ==> r.log[k] == w.log[k];
    forall j | 0 <= j < |r.log| && r.log[j].DidTimeOut? ensures Justified(r.log, j, t) {
      if j < |w.log| {
        JustifiedStill(w.log, j, e, t);
      } else {
        TimeoutJustified(w, e, t);
      }
    }
    if r.app.deadline.Some? {
      var i: nat :| SetAt(w.log, i, |w.log|, w.app.deadline.value, w.app.readinessGeneration,
                       w.app.readinessWs.value, t);
      SetAtLonger(w.log, i, e, w.app.deadline.value, w.app.readinessGeneration, w.app.readinessWs.value, t);
    }
  }

  lemma {:induction false} TimeoutJustified(w: World, e: Event, t: Timeouts)
    requires ReadinessSound(w, t) && e.DidTimeOut?
    requires e.checked > e.sample.deadline && w.app.deadline == Some(e.sample.deadline)
             && w.app.readinessGeneration == e.sample.generation && w.app.readinessWs == Some(e.sample.ws)
    ensures Justified(w.log + [e], |w.log|, t)
  {
    var s, r, n := e.sample, w.log + [e], |w.log|;
    var i: nat :| SetAt(w.log, i, n, s.deadline, s.generation, s.ws, t);
    assert r[i] == w.log[i];
    forall k | i < k < n ensures !Settles(r[k]) { assert r[k] == w.log[k]; }
    assert SetAt(r, i, n, s.deadline, s.generation, s.ws, t);
  }

  lemma {:induction false} OpenSound(w: World, now: real, t: Timeouts)
    requires ReadinessSound(w, t) && w.opening.Some?
    ensures ReadinessSound(Step(w, OpenLocks(now), t), t)
  {
    var r := Step(w, OpenLocks(now), t);
    var e := r.log[|w.log|];
    assert forall k :: 0 <= k < |w.log| ==> r.log[k] == w.log[k];
    forall j | 0 <= j < |r.log| && r.log[j].DidTimeOut? ensures Justified(r.log, j, t) {
      JustifiedStill(w.log, j, e, t);
    }
    if r.app.deadline.Some? {
      assert SetAt(r.log, |w.log|, |r.log|, r.app.deadline.value, r.app.readinessGeneration,
                   r.app.readinessWs.value, t);
    }
  }

  lemma {:induction false} StepReadinessSound(w: World, a: Action, t: Timeouts)
    requires ReadinessSound(w, t)
    ensures ReadinessSound(Step(w, a, t), t)
  {
    hide ReadinessSound;
    match a
    case OpenLocks(now) => if w.opening.Some? { OpenSound(w, now, t); }
    case Fails => NoteSound(w, SetupFailed(w.app), DidFail, t);
    case Ready(now) => NoteSound(w, MarkReady(w.app, now), DidReady(now), t);
    case Message(now) => NoteSound(w, w.app.(lastMessage := Some(now)), DidMessage(now), t);
    case CloseLocks => NoteSound(w, Closed(w.app), DidClose, t);
    case StopsRunning => NoteSound(w, w.app.(running := false), DidStop, t);
    case CloseForgets => NoteSound(w, w.app.(lastMessage := None), DidForget, t);
    case ClaimTimeout(s, checked) =>
      if (s, checked) in w.due && ReadinessHolds(w.app, s) {
        DueExpired(w, s, checked, t);
        NoteSound(w, TimedOut(w.app), DidTimeOut(s, checked), t);
      }
    case ClaimIdle(s, checked) =>
      if (s, checked) in w.quiet && IdleHolds(w.app, s) {
        NoteSound(w, IdleClosed(w.app), DidIdleClose(s, checked), t);
      }
    case _ => QuietStep(w, a, t);
  }

  lemma DueExpired(w: World, s: ReadinessSample, checked: real, t: Timeouts)
    requires ReadinessSound(w, t) && (s, checked) in w.due
    ensures checked > s.deadline
  {
    assert (s, checked).1 > (s, checked).0.deadline;
  }

  // Steps that log nothing leave generation, deadline and socket of the readiness check alone, or count
  // a new generation.
  lemma {:induction false} QuietStep(w: World, a: Action, t: Timeouts)
    requires ReadinessSound(w, t) && Step(w, a, t).log == w.log && !a.ClaimTimeout? && !a.ClaimIdle? && !a.OpenLocks?
    requires !a.Fails? && !a.Ready? && !a.Message? && !a.CloseLocks? && !a.CloseForgets? && !a.StopsRunning?
    ensures ReadinessSound(Step(w, a, t), t)
  {
    var r := Step(w, a, t);
    assert r.app.deadline == w.app.deadline && r.app.readinessWs == w.app.readinessWs
           && r.app.readinessGeneration == w.app.readinessGeneration;
    assert forall p :: p in r.due ==> p.1 > p.0.deadline;
    assert (if r.opening.Some? then r.app.generation else r.app.generation + 1)
           == if w.opening.Some? then w.app.generation else w.app.generation + 1;
    hide Step, SetAt, Justified, GenerationsRise, Before;
  }

  lemma {:induction false} RunReadinessSound(run: seq<Action>, t: Timeouts)
    ensures ReadinessSound(Exec(run, t), t)
  {
    if run != [] {
      RunReadinessSound(run[..|run| - 1], t);
      StepReadinessSound(Exec(run[..|run| - 1], t), run[|run| - 1], t);
    }
  }

  /** In every interleaving a readiness timeout names the socket and generation of the on_open that set the
      deadline it found expired, and nothing - readiness, failure, close, another timeout, a new on_open -
      happened to that connection in between. */
  lemma TimeoutHitsItsOwnSocket(run: seq<Action>, t: Timeouts, j: nat)
    requires j < |Exec(run, t).log| && Exec(run, t).log[j].DidTimeOut?
    ensures var log := Exec(run, t).log;
      var s := log[j].sample;
      && log[j].checked > s.deadline
      && exists i: nat :: SetAt(log, i, j, s.deadline, s.generation, s.ws, t)
  {
    RunReadinessSound(run, t);
    assert Justified(Exec(run, t).log, j, t);
  }

  /** At most one readiness timeout fires per generation. */
  lemma {:induction false} OneTimeoutPerGeneration(run: seq<Action>, t: Timeouts, j: nat, k: nat)
    requires j < k < |Exec(run, t).log|
    requires Exec(run, t).log[j].DidTimeOut? && Exec(run, t).log[k].DidTimeOut?
    ensures Exec(run, t).log[j].sample.generation != Exec(run, t).log[k].sample.generation
  {
    RunReadinessSound(run, t);
    hide Exec, ReadinessSound;
    TimeoutHitsItsOwnSocket(run, t, j);
    TimeoutHitsItsOwnSocket(run, t, k);
    var log := Exec(run, t).log;
    assert GenerationsRise(log) by { RunGenerations(run, t); }
    var p, q := log[j].sample, log[k].sample;
    var i: nat :| SetAt(log, i, j, p.deadline, p.generation, p.ws, t);
    var m: nat :| SetAt(log, m, k, q.deadline, q.generation, q.ws, t);
    SameOpen(log, i, j, m, k, p, q, t);
  }

  lemma RunGenerations(run: seq<Action>, t: Timeouts)
    ensures GenerationsRise(Exec(run, t).log)
  {
    RunReadinessSound(run, t);
  }

  lemma SameOpen(log: seq<Event>, i: nat, j: nat, m: nat, k: nat, p: ReadinessSample, q: ReadinessSample, t: Timeouts)
    requires GenerationsRise(log) && j < k < |log| && log[j].DidTimeOut?
    requires SetAt(log, i, j, p.deadline, p.generation, p.ws, t) && SetAt(log, m, k, q.deadline, q.generation, q.ws, t)
    ensures p.generation < q.generation
  {
    // The timeout at j settles, so the on_open behind k came after it, and so after i.
    assert Settles(log[j]);
    assert j <= m;
    assert m != j;
  }

  // ---------------------------------------------------------------- idle closes

  predicate Resets(e: Event) {
    e.DidOpen? || e.DidClose? || e.DidReady?
  }

  ghost predicate ResetSince(log: seq<Event>, i: nat) {
    exists k :: i < k < |log| && Resets(log[k])
  }

  // When the connection last showed life, as far as the idle watchdog is told.
  function LastActivity(log: seq<Event>): Option<real> {
    if log == [] then None
    else match log[|log| - 1]
      case DidOpen(_, _, at) => Some(at)
      case DidReady(at) => Some(at)
      case DidMessage(at) => Some(at)
      case DidForget => None
      case _ => LastActivity(log[..|log| - 1])
  }

  ghost predicate IdleJustified(log: seq<Event>, j: nat, t: Timeouts)
    requires j < |log| && log[j].DidIdleClose?
  {
    && LastActivity(log[..j]) == Some(log[j].seen.last)
    && log[j].checked - log[j].seen.last > t.idle
    && forall i :: 0 <= i < j && log[i].DidIdleClose? ==> exists k :: i < k < j && Resets(log[k])
  }

  ghost predicate IdleSound(w: World, t: Timeouts) {
    && (forall p :: p in w.quiet ==> p.1 - p.0.last > t.idle)
    && w.app.lastMessage == LastActivity(w.log)
    && (!w.app.idleClose ==> forall i :: 0 <= i < |w.log| && w.log[i].DidIdleClose? ==> ResetSince(w.log, i))
    && (forall j :: 0 <= j < |w.log| && w.log[j].DidIdleClose? ==> IdleJustified(w.log, j, t))
  }

  lemma IdleJustifiedStill(log: seq<Event>, j: nat, e: Event, t: Timeouts)
    requires j < |log| && log[j].DidIdleClose? && IdleJustified(log, j, t)
    ensures IdleJustified(log + [e], j, t)
  {
    var r := log + [e];
    assert r[..j] == log[..j] && r[j] == log[j];
    forall i | 0 <= i < j && r[i].DidIdleClose? ensures exists k :: i < k < j && Resets(r[k]) {
      assert log[i] == r[i];
      var k :| i < k < j && Resets(log[k]);
      assert r[k] == log[k];
    }
  }

  lemma {:induction false} NoteIdle(w: World, app: App, e: Event, t: Timeouts)
    requires IdleSound(w, t)
    requires app.lastMessage == LastActivity(w.log + [e])
    requires app.idleClose == if Resets(e) then false else if e.DidIdleClose? then true else w.app.idleClose
    requires e.DidIdleClose? ==>
      !w.app.idleClose && w.app.lastMessage == Some(e.seen.last) && e.checked - e.seen.last > t.idle
    ensures IdleSound(Note(w, app, e), t)
  {
    var r, n := Note(w, app, e), |w.log|;
    assert r.log[..n] == w.log && r.log[n] == e;
    forall j | 0 <= j < |r.log| && r.log[j].DidIdleClose? ensures IdleJustified(r.log, j, t) {
      if j < n {
        assert r.log[j] == w.log[j];
        IdleJustifiedStill(w.log, j, e, t);
      } else {
        forall i | 0 <= i < n && r.log[i].DidIdleClose? ensures exists k :: i < k < n && Resets(r.log[k]) {
          assert r.log[i] == w.log[i] && ResetSince(w.log, i);
          var k :| i < k < n && Resets(w.log[k]);
          assert r.log[k] == w.log[k];
        }
      }
    }
    if !r.app.idleClose {
      forall i | 0 <= i < |r.log| && r.log[i].DidIdleClose? ensures ResetSince(r.log, i) {
        assert r.log[i] == w.log[i];
        if Resets(e) {
          assert r.log[n] == e;
        } else {
          var k :| i < k < n && Resets(w.log[k]);
          assert r.log[k] == w.log[k];
        }
      }
    }
  }

  lemma {:induction false} StepIdleSound(w: World, a: Action, t: Timeouts)
    requires IdleSound(w, t)
    ensures IdleSound(Step(w, a, t), t)
  {
    var r := Step(w, a, t);
    if r.log != w.log {
      var e := r.log[|w.log|];
      assert r.log == w.log + [e] && r.log[..|w.log|] == w.log;
      NoteIdle(w, r.app, e, t);
    }
  }

  lemma {:induction false} RunIdleSound(run: seq<Action>, t: Timeouts)
    ensures IdleSound(Exec(run, t), t)
  {
    if run != [] {
      RunIdleSound(run[..|run| - 1], t);
      StepIdleSound(Exec(run[..|run| - 1], t), run[|run| - 1], t);
    }
  }

  /** An idle close always rests on the connection's latest activity, found older than the timeout; and any
      two idle closes have an on_open, an on_close or a readiness between them. */
  lemma IdleClosesSeparated(run: seq<Action>, t: Timeouts, j: nat)
    requires j < |Exec(run, t).log| && Exec(run, t).log[j].DidIdleClose?
    ensures var log := Exec(run, t).log;
      && LastActivity(log[..j]) == Some(log[j].seen.last)
      && log[j].checked - log[j].seen.last > t.idle
      && forall i :: 0 <= i < j && log[i].DidIdleClose? ==> exists k :: i < k < j && Resets(log[k])
  {
    RunIdleSound(run, t);
    assert IdleJustified(Exec(run, t).log, j, t);
  }

  // ---------------------------------------------------------------- the watchdogs do act

  // The connection opened at index i has not become ready, failed, closed or timed out since, nor has another
  // been opened.
  predicate Unsettled(log: seq<Event>, i: nat) {
    i < |log| && log[i].DidOpen? && forall k :: i < k < |log| ==> !Settles(log[k])
  }

  // Its deadline stands, if there are deadlines at all.
  ghost predicate DeadlineStands(w: World, t: Timeouts) {
    && (t.readiness > 0.0 ==> forall i: nat :: Unsettled(w.log, i) ==>
          && w.app.awaiting && w.app.deadline == Some(w.log[i].at + t.readiness)
          && w.app.readinessWs == Some(w.log[i].ws) && w.app.readinessGeneration == w.log[i].generation)
    && (t.readiness <= 0.0 ==> w.app.deadline.None?)
  }

  lemma UnsettledBefore(log: seq<Event>, e: Event, i: nat)
    requires Unsettled(log + [e], i) && i < |log|
    ensures Unsettled(log, i) && !Settles(e)
  {
    var r := log + [e];
    assert r[|log|] == e;
    forall k | i < k < |log| ensures !Settles(log[k]) { assert r[k] == log[k]; }
  }

  lemma {:induction false} StepStands(w: World, a: Action, t: Timeouts)
    requires DeadlineStands(w, t)
    ensures DeadlineStands(Step(w, a, t), t)
  {
    var r := Step(w, a, t);
    if r.log != w.log {
      var e := r.log[|w.log|];
      assert r.log == w.log + [e];
      forall i: nat | Unsettled(r.log, i) && i < |w.log| ensures Unsettled(w.log, i) && !Settles(e) {
        UnsettledBefore(w.log, e, i);
      }
    }
  }

  lemma {:induction false} RunStands(run: seq<Action>, t: Timeouts)
    ensures DeadlineStands(Exec(run, t), t)
  {
    if run != [] {
      RunStands(run[..|run| - 1], t);
      StepStands(Exec(run[..|run| - 1], t), run[|run| - 1], t);
    }
  }

  /** A connection that has not settled, and is still the current socket, is timed out by the next pass of the
      watchdog that looks at the clock later than its on_open plus the timeout. */
  lemma UnreadyTimesOut(run: seq<Action>, t: Timeouts, i: nat, now: real)
    requires Unsettled(Exec(run, t).log, i) && t.readiness > 0.0 && now > Exec(run, t).log[i].at + t.readiness
    requires Exec(run, t).app.ws == Some(Exec(run, t).log[i].ws)
    ensures var w := Exec(run, t);
      var s := ReadinessSample(w.log[i].at + t.readiness, w.log[i].ws, w.log[i].generation);
      Step(Step(Step(w, SampleReadiness, t), CheckReadiness(s, now), t), ClaimTimeout(s, now), t).log
      == w.log + [DidTimeOut(s, now)]
  {
    RunStands(run, t);
    hide Exec;
    var w := Exec(run, t);
    var s := ReadinessSample(w.log[i].at + t.readiness, w.log[i].ws, w.log[i].generation);
    assert s in Step(w, SampleReadiness, t).samples;
  }

  /** With the timeout at zero nothing is ever timed out. */
  lemma {:induction false} ZeroNeverTimesOut(run: seq<Action>, t: Timeouts, j: nat)
    requires t.readiness <= 0.0 && j < |Exec(run, t).log|
    ensures !Exec(run, t).log[j].DidTimeOut?
  {
    var init, a := run[..|run| - 1], run[|run| - 1];
    RunStands(init, t);
    if j < |Exec(init, t).log| {
      ZeroNeverTimesOut(init, t, j);
      assert Exec(run, t).log[j] == Exec(init, t).log[j];
    }
  }

  // The latch is only up after an idle close that nothing has reset.
  ghost predicate LatchedByClose(w: World) {
    w.app.idleClose ==> exists i: nat :: i < |w.log| && w.log[i].DidIdleClose? && !ResetSince(w.log, i)
  }

  lemma StillLatched(log: seq<Event>, e: Event, i: nat)
    requires i < |log| && !ResetSince(log, i) && !Resets(e)
    ensures !ResetSince(log + [e], i)
  {
    var r := log + [e];
    forall k | i < k < |r| ensures !Resets(r[k]) {
      if k < |log| { assert r[k] == log[k]; }
    }
  }

  lemma {:induction false} StepLatched(w: World, a: Action, t: Timeouts)
    requires LatchedByClose(w)
    ensures LatchedByClose(Step(w, a, t))
  {
    var r := Step(w, a, t);
    if r.log != w.log {
      var e, n := r.log[|w.log|], |w.log|;
      assert r.log == w.log + [e];
      if e.DidIdleClose? {
        assert r.log[n] == e && !ResetSince(r.log, n);
      } else if r.app.idleClose {
        var i: nat :| i < n && w.log[i].DidIdleClose? && !ResetSince(w.log, i);
        assert r.log[i] == w.log[i];
        StillLatched(w.log, e, i);
      }
    }
  }

  lemma {:induction false} RunLatched(run: seq<Action>, t: Timeouts)
    ensures LatchedByClose(Exec(run, t))
  {
    if run != [] {
      RunLatched(run[..|run| - 1], t);
      StepLatched(Exec(run[..|run| - 1], t), run[|run| - 1], t);
    }
  }

  // Whether the connection is running, and whether an on_open still awaits readiness, as the events tell.
  predicate Runs(log: seq<Event>) {
    log != [] &&
    match log[|log| - 1]
    case DidReady(_) => true
    case DidStop => false
    case DidTimeOut(_, _) => false
    case DidIdleClose(_, _) => false
    case _ => Runs(log[..|log| - 1])
  }

  predicate Awaits(log: seq<Event>) {
    log != [] &&
    var e := log[|log| - 1];
    e.DidOpen? || (!Settles(e) && Awaits(log[..|log| - 1]))
  }

  // One more event.
  lemma ToldMore(log: seq<Event>, e: Event)
    ensures Runs(log + [e]) <==>
            e.DidReady? || (Runs(log) && !e.DidStop? && !e.DidTimeOut? && !e.DidIdleClose?)
    ensures Awaits(log + [e]) <==> e.DidOpen? || (!Settles(e) && Awaits(log))
  {
    assert (log + [e])[..|log|] == log;
  }

  lemma {:induction false} StepRunning(w: World, a: Action, t: Timeouts)
    requires (w.app.running <==> Runs(w.log)) && (Awaits(w.log) ==> w.app.awaiting)
    ensures var r := Step(w, a, t); (r.app.running <==> Runs(r.log)) && (Awaits(r.log) ==> r.app.awaiting)
  {
    var r := Step(w, a, t);
    hide Runs, Awaits;
    if r.log != w.log { ToldMore(w.log, r.log[|w.log|]); }
  }

  // The connection runs from readiness until it is stopped, times out or is closed as idle; and it awaits readiness
  // from on_open until it settles.
  lemma {:induction false} RunningAsTold(run: seq<Action>, t: Timeouts)
    ensures var w := Exec(run, t);
      (w.app.running <==> Runs(w.log)) && (Awaits(w.log) ==> w.app.awaiting)
  {
    if run != [] {
      RunningAsTold(run[..|run| - 1], t);
      StepRunning(Exec(run[..|run| - 1], t), run[|run| - 1], t);
    }
  }

  /** A connection that runs or awaits readiness, and has shown no life for longer than the idle timeout, is closed
      by the next pass that looks, unless an idle close is still to be answered by an on_open, on_close or
      readiness. */
  lemma QuietIsClosed(run: seq<Action>, t: Timeouts, last: real, ws: Sock, now: real)
    requires var w := Exec(run, t);
      && LastActivity(w.log) == Some(last) && w.app.ws == Some(ws) && (Runs(w.log) || Awaits(w.log))
      && now - last > t.idle
      && forall i: nat :: i < |w.log| && w.log[i].DidIdleClose? ==> ResetSince(w.log, i)
    ensures var w := Exec(run, t);
      var s := IdleSample(last, ws, w.app.generation);
      Step(Step(Step(w, SampleIdle, t), CheckIdle(s, now), t), ClaimIdle(s, now), t).log
      == w.log + [DidIdleClose(s, now)]
  {
    RunIdleSound(run, t);
    RunLatched(run, t);
    RunningAsTold(run, t);
    hide Exec;
    var w := Exec(run, t);
    assert IdleSample(last, ws, w.app.generation) in Step(w, SampleIdle, t).idleSamples;
  }
}
