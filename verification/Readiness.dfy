/**
 Subscription acknowledgements racing with sends (feeds/my_websocket_app.py): when the readiness of a
 batch is decided, and by whom.
 */
module Readiness {
  import opened Base
  import opened WebSocketApp

  // Where the thread that sends a batch is. Ended remembers the count of outstanding acknowledgements
  // when the batch ended.
  datatype Sender = Idle | InBatch | Aborted | Ended(outstanding: nat)

  datatype Source = FromEnd | FromAck

  // subs: each subscription sent in the batch, by any thread, and whether it has been acknowledged.
  // flying: each send under way, of this batch or an older one, and whether it was counted.
  // cut: the connection was closed while the batch was being sent. debt: how often the count went down for
  // something other than the acknowledgement, or the failed send, of a waiting subscription of the batch, less
  // how often one of these found it at zero already. hushed: a failed send took the count to zero after the
  // batch had ended. decisions: who found the batch ready.
  datatype State = State(app: App, subs: map<nat, bool>, flying: map<nat, bool>, cut: bool, debt: int, hushed: bool,
                         sender: Sender, decisions: seq<Source>)

  datatype Action =
    | Begin
    | Send(id: nat)
    | SendReturns(id: nat)
    | SendRaises(id: nat)
    | Abort
    | End
    | Ack(id: nat)
    | StrayAck
    | Close

  function Waiting(subs: map<nat, bool>): set<nat> {
    set id | id in subs && !subs[id]
  }

  function Start(): State {
    State(Initial(), map[], map[], false, 0, false, Idle, [])
  }

  // What counting one down takes off.
  function Taken(s: State): int {
    if s.app.pending > 0 then 1 else 0
  }

  // The debt after a waiting subscription of the batch is acknowledged, or its send raises.
  function Settling(s: State): int {
    if s.cut then s.debt else s.debt + Taken(s) - 1
  }

  // A send that was counted is under way.
  predicate Counted(s: State, id: nat) {
    id in s.flying && s.flying[id]
  }

  // One batch is sent at a time; other threads may subscribe meanwhile, and at any other time. An action that
  // cannot happen is skipped. A send raises whenever it likes: after its acknowledgement, after the end of its
  // batch, during a later one. A stray acknowledgement is one that no subscription of the batch waits for: of an
  // earlier batch, of a subscription sent outside any batch, or a repeated one. It may come at any moment, and so
  // may on_close.
  function Step(s: State, a: Action): State {
    match a
    case Begin =>
      if s.sender.InBatch? then s else State(BeginBatch(s.app), map[], s.flying, false, 0, false, InBatch, [])
    case Send(id) =>
      if id in s.subs || id in s.flying then s
      else s.(app := TrackSend(s.app), flying := s.flying[id := s.app.tracking],
              subs := if s.app.tracking || s.sender.InBatch? then s.subs[id := false] else s.subs)
    case SendReturns(id) => s.(flying := s.flying - {id})
    case SendRaises(id) =>
      if id !in s.flying then s
      else s.(app := if Counted(s, id) then UntrackSend(s.app) else s.app,
              flying := s.flying - {id}, subs := s.subs - {id}, debt := RaisedDebt(s, id),
              hushed := s.hushed || RaisesToZero(s, id))
    case Abort =>
      if s.sender.InBatch? then s.(app := SetupFailed(s.app), sender := Aborted) else s
    case End =>
      if !s.sender.InBatch? then s
      else s.(app := EndBatch(s.app), sender := Ended(Max0(s.app.pending)),
              decisions := s.decisions + if s.app.pending == 0 then [FromEnd] else [])
    case Ack(id) =>
      if id !in Waiting(s.subs) then s
      else s.(app := Acknowledged(s.app), subs := s.subs[id := true], debt := Settling(s),
              decisions := s.decisions + if AckIsReady(s.app) then [FromAck] else [])
    case StrayAck =>
      s.(app := Acknowledged(s.app), debt := s.debt + Taken(s),
         decisions := s.decisions + if AckIsReady(s.app) then [FromAck] else [])
    case Close =>
      if s.sender.InBatch? then s.(app := Closed(s.app), cut := true, debt := 0)
      else State(Closed(s.app), map[], s.flying, false, 0, false, Idle, [])
  }

  // The debt after the send of id raises: a counted send that nothing of the batch waits for is a stranger.
  function RaisedDebt(s: State, id: nat): int {
    if id in Waiting(s.subs) then Settling(s) else if Counted(s, id) then s.debt + Taken(s) else s.debt
  }

  // The batch has ended and only this send's count is left.
  predicate RaisesToZero(s: State, id: nat) {
    s.sender.Ended? && Counted(s, id) && s.app.pending == 1
  }

  function Exec(run: seq<Action>): State {
    if run == [] then Start() else Step(Exec(run[..|run| - 1]), run[|run| - 1])
  }

  // Sent and acknowledged, with the sender done.
  predicate Complete(s: State) {
    s.sender.Ended? && Waiting(s.subs) == {}
  }

  // Nothing is counted as outstanding any more, with the sender done: all that still waits was taken off
  // the count by a close or by others.
  predicate Settled(s: State) {
    s.sender.Ended? && (s.cut || |Waiting(s.subs)| == s.debt)
  }

  // Who has decided so far.
  function Decided(s: State): seq<Source> {
    if !Settled(s) || s.hushed then [] else if s.sender.outstanding == 0 then [FromEnd] else [FromAck]
  }

  predicate Sound(s: State) {
    && s.app.pending == (if s.cut then 0 else |Waiting(s.subs)| - s.debt)
    && 0 <= s.debt && s.app.pending >= 0
    && (s.cut ==> s.debt == 0)
    && (s.sender.InBatch? || s.sender.Aborted? ==> s.app.tracking == !s.cut)
    && (s.sender.Ended? || s.sender.Idle? ==> !s.app.tracking)
    && (s.sender.Idle? ==> s.subs == map[] && !s.cut)
    && (!s.cut ==> forall id :: id in s.flying && id in s.subs ==> s.flying[id])
    && s.decisions == Decided(s)
    && (s.sender.Ended? && s.sender.outstanding == 0 ==> Settled(s))
    && (s.hushed ==> Settled(s) && s.sender.outstanding > 0)
  }

  lemma WaitingSent(subs: map<nat, bool>, id: nat)
    requires id !in subs
    ensures |Waiting(subs[id := false])| == |Waiting(subs)| + 1
  {
    assert Waiting(subs[id := false]) == Waiting(subs) + {id};
  }

  lemma WaitingDropped(subs: map<nat, bool>, id: nat)
    ensures |Waiting(subs - {id})| == |Waiting(subs)| - (if id in Waiting(subs) then 1 else 0)
  {
    assert Waiting(subs - {id}) == Waiting(subs) - {id};
  }

  lemma WaitingAcked(subs: map<nat, bool>, id: nat)
    requires id in Waiting(subs)
    ensures |Waiting(subs[id := true])| == |Waiting(subs)| - 1
  {
    assert Waiting(subs[id := true]) == Waiting(subs) - {id};
  }

  lemma {:induction false} SendSound(s: State, a: Action)
    requires Sound(s) && (a.Send? || a.SendReturns?)
    ensures Sound(Step(s, a))
  {
    if a.Send? && a.id !in s.subs { WaitingSent(s.subs, a.id); }
  }

  lemma {:induction false} RaiseSound(s: State, id: nat)
    requires Sound(s)
    ensures Sound(Step(s, SendRaises(id)))
  {
    WaitingDropped(s.subs, id);
    if id in Waiting(s.subs) { assert |Waiting(s.subs)| > 0; }
  }

  lemma {:induction false} AckSound(s: State, a: Action)
    requires Sound(s) && (a.Ack? || a.StrayAck?)
    ensures Sound(Step(s, a))
  {
    if a.Ack? && a.id in Waiting(s.subs) { WaitingAcked(s.subs, a.id); }
  }

  lemma {:induction false} StepSound(s: State, a: Action)
    requires Sound(s)
    ensures Sound(Step(s, a))
  {
    if a.Send? || a.SendReturns? {
      SendSound(s, a);
    } else if a.SendRaises? {
      RaiseSound(s, a.id);
    } else if a.Ack? || a.StrayAck? {
      AckSound(s, a);
    } else {
      assert Waiting(map[]) == {};
    }
  }

  // Whether the count of the batch begun last was taken to zero, after its end, by a send that raised.
  predicate RaisedToZero(run: seq<Action>) {
    run != [] &&
    var init, a := run[..|run| - 1], run[|run| - 1];
    match a
    case Begin => Exec(init).sender.InBatch? && RaisedToZero(init)
    case Close => Exec(init).sender.InBatch? && RaisedToZero(init)
    case SendRaises(id) => RaisedToZero(init) || RaisesToZero(Exec(init), id)
    case _ => RaisedToZero(init)
  }

  lemma {:induction false} HushedMeansRaised(run: seq<Action>)
    ensures Exec(run).hushed <==> RaisedToZero(run)
  {
    if run != [] { HushedMeansRaised(run[..|run| - 1]); }
  }

  /** Under every interleaving of sends by any threads, failed sends, closes and acknowledgements of whatever
      origin, readiness is decided at most once per batch: when the sender is done and the count is zero, unless
      it was a failed send that took it to zero after the end - then never. The count is what is sent and
      waiting, less the debt, and never negative. The decision is end's if the count was zero by then, and
      otherwise an acknowledgement's. */
  lemma {:induction false} DecidedExactlyOnce(run: seq<Action>)
    ensures var s := Exec(run);
      && Sound(s) && |s.decisions| == (if Settled(s) && !RaisedToZero(run) then 1 else 0)
      && (s.decisions != [] ==> (s.decisions == [FromEnd] <==> s.sender.outstanding == 0))
      && (!s.cut ==> s.app.pending == |Waiting(s.subs)| - s.debt && 0 <= s.debt <= |Waiting(s.subs)|)
  {
    HushedMeansRaised(run);
    if run != [] {
      DecidedExactlyOnce(run[..|run| - 1]);
      StepSound(Exec(run[..|run| - 1]), run[|run| - 1]);
    }
  }

  /** A batch whose count is at zero stays undecided exactly when a failed send took it there after the end. */
  lemma UndecidedIffRaised(run: seq<Action>)
    requires Settled(Exec(run))
    ensures Exec(run).decisions == [] <==> RaisedToZero(run)
  {
    DecidedExactlyOnce(run);
  }

  /** Only the step that settles the batch decides: End, or an acknowledgement, but not a failed send. */
  lemma {:induction false} CompletionDecides(run: seq<Action>, a: Action)
    requires !a.Begin? && !a.Close?
    ensures var s, r := Exec(run), Step(Exec(run), a);
      r.decisions == s.decisions +
        if Settled(r) && !Settled(s) && !a.SendRaises? then [if a.End? then FromEnd else FromAck] else []
  {
    DecidedExactlyOnce(run);
    StepSound(Exec(run), a);
    if a.SendRaises? { WaitingDropped(Exec(run).subs, a.id); }
  }

  // Only acknowledgements of the batch's own subscriptions, each once, are counted, and no counted send raises
  // but one of the batch, before its acknowledgement.
  predicate OwnAcksOnly(run: seq<Action>) {
    run == [] ||
    var init, a := run[..|run| - 1], run[|run| - 1];
    var s := Exec(init);
    && OwnAcksOnly(init)
    && (a.StrayAck? ==> s.app.pending == 0)
    && (a.SendRaises? && Counted(s, a.id) ==> a.id in Waiting(s.subs))
  }

  lemma {:induction false} OwnAcksLeaveNoDebt(run: seq<Action>)
    requires OwnAcksOnly(run)
    ensures Exec(run).debt == 0
  {
    if run != [] {
      var init, a := run[..|run| - 1], run[|run| - 1];
      var s := Exec(init);
      OwnAcksLeaveNoDebt(init);
      DecidedExactlyOnce(init);
      if (a.SendRaises? || a.Ack?) && a.id in Waiting(s.subs) { assert |Waiting(s.subs)| > 0; }
    }
  }

  /** With each subscription acknowledged once and no other acknowledgement counted, pending is sent minus
      acknowledged in a batch that no close cut, and readiness is decided exactly when the batch is complete,
      never while one is outstanding - unless a failed send completed it after its end. The decision is end's if
      all acknowledgements came first, and otherwise the last one's. */
  lemma {:induction false} DecidedWhenComplete(run: seq<Action>)
    requires OwnAcksOnly(run)
    ensures var s := Exec(run);
      !s.cut ==>
        && s.app.pending == |Waiting(s.subs)|
        && |s.decisions| == (if Complete(s) && !RaisedToZero(run) then 1 else 0)
        && (s.decisions != [] ==> (s.decisions == [FromEnd] <==> s.sender.outstanding == 0))
  {
    DecidedExactlyOnce(run);
    OwnAcksLeaveNoDebt(run);
    var s := Exec(run);
    assert |Waiting(s.subs)| == 0 <==> Waiting(s.subs) == {};
  }

  // Whether the connection was closed during the batch that was begun last.
  predicate ClosedDuringBatch(run: seq<Action>) {
    run != [] &&
    var init, a := run[..|run| - 1], run[|run| - 1];
    match a
    case Begin => Exec(init).sender.InBatch? && ClosedDuringBatch(init)
    case Close => Exec(init).sender.InBatch?
    case _ => ClosedDuringBatch(init)
  }

  lemma {:induction false} CutMeansClosed(run: seq<Action>)
    ensures Exec(run).cut <==> ClosedDuringBatch(run)
  {
    if run != [] { CutMeansClosed(run[..|run| - 1]); }
  }

  /** When the end of a batch reports ready: exactly when a close came during the batch, or the debt makes up
      for everything that still waits. With no debt and no close that is when everything sent is acknowledged. */
  lemma {:induction false} EndDecidesIff(run: seq<Action>)
    requires Exec(run).sender.InBatch?
    ensures var s := Exec(run);
      && (Step(s, End).decisions == [FromEnd] <==> ClosedDuringBatch(run) || s.debt == |Waiting(s.subs)|)
      && (Step(s, End).decisions == [] <==> !ClosedDuringBatch(run) && s.debt < |Waiting(s.subs)|)
      && (OwnAcksOnly(run) ==> (s.debt == |Waiting(s.subs)| <==> Waiting(s.subs) == {}))
  {
    DecidedExactlyOnce(run);
    CutMeansClosed(run);
    if OwnAcksOnly(run) {
      OwnAcksLeaveNoDebt(run);
      assert |Waiting(Exec(run).subs)| == 0 <==> Waiting(Exec(run).subs) == {};
    }
  }

  // ---------------------------------------------------------------- instances

  lemma ExecSnoc(run: seq<Action>, a: Action)
    ensures Exec(run + [a]) == Step(Exec(run), a)
  {
    assert (run + [a])[..|run|] == run;
  }

  // The end of the batch reports ready although id has not been acknowledged.
  predicate EndsTooEarly(s: State, id: nat) {
    s.sender.InBatch? && Waiting(s.subs) == {id} && Step(s, End).decisions == [FromEnd]
  }

  // A batch with one subscription sent and counted, and perhaps an older counted send still under way.
  predicate OneWaits(s: State, id: nat) {
    s.sender.InBatch? && s.subs == map[id := false] && s.app.pending == 1 && s.app.tracking && s.decisions == []
  }

  lemma SentWaits(s: State, id: nat)
    requires !s.sender.InBatch? && id !in s.flying
    ensures var r := Step(Step(s, Begin), Send(id)); OneWaits(r, id) && r.flying == s.flying[id := true]
  {
  }

  lemma OneWaitsHidden(s: State, id: nat)
    requires OneWaits(s, id)
    ensures EndsTooEarly(Step(s, Close), id) && EndsTooEarly(Step(s, StrayAck), id)
    ensures forall old_ :: old_ != id && Counted(s, old_) ==> EndsTooEarly(Step(s, SendRaises(old_)), id)
  {
    assert Waiting(map[id := false]) == {id};
    assert forall k: nat :: k != id ==> map[id := false] - {k} == map[id := false];
  }

  /** Each cause by itself: a close in the middle of the batch, the acknowledgement of something else, or the
      failure of a send counted in an earlier batch. */
  lemma UnacknowledgedHidden(id: nat, older: nat)
    requires id != older
    ensures EndsTooEarly(Exec([] + [Begin] + [Send(id)] + [Close]), id)
    ensures EndsTooEarly(Exec([] + [Begin] + [Send(id)] + [StrayAck]), id)
    ensures var first := [] + [Begin] + [Send(older)] + [End] + [Close];
      EndsTooEarly(Exec(first + [Begin] + [Send(id)] + [SendRaises(older)]), id)
  {
    SentWaits(Start(), id);
    SentWaits(Start(), older);
    var s := Step(Step(Start(), Begin), Send(older));
    var closed := Step(Step(s, End), Close);
    assert closed.sender.Idle? && closed.flying == map[older := true];
    SentWaits(closed, id);
    OneWaitsHidden(Step(Step(Start(), Begin), Send(id)), id);
    OneWaitsHidden(Step(Step(closed, Begin), Send(id)), id);
    hide Step, EndsTooEarly, OneWaits, Waiting;
    var one := [] + [Begin] + [Send(id)];
    ExecSnoc([], Begin);
    ExecSnoc([] + [Begin], Send(id));
    ExecSnoc(one, Close);
    ExecSnoc(one, StrayAck);
    var two := [] + [Begin] + [Send(older)];
    ExecSnoc([] + [Begin], Send(older));
    ExecSnoc(two, End);
    ExecSnoc(two + [End], Close);
    ExecSnoc(two + [End] + [Close], Begin);
    ExecSnoc(two + [End] + [Close] + [Begin], Send(id));
    ExecSnoc(two + [End] + [Close] + [Begin] + [Send(id)], SendRaises(older));
  }

  // Two subscriptions of the batch are sent and wait.
  predicate TwoWait(s: State, id: nat, other: nat) {
    && s.sender.InBatch? && s.app.pending == 2 && s.decisions == [] && Counted(s, other)
    && s.subs == map[id := false, other := false]
  }

  // The batch has ended and one of them is acknowledged.
  predicate OneLeft(s: State, id: nat, other: nat) {
    && s.sender.Ended? && s.app.pending == 1 && s.decisions == [] && Counted(s, other)
    && s.subs == map[id := true, other := false]
  }

  lemma BothSent(id: nat, other: nat)
    requires id != other
    ensures TwoWait(Step(Step(Step(Start(), Begin), Send(id)), Send(other)), id, other)
  {
    SentWaits(Start(), id);
  }

  lemma OneAcked(s: State, id: nat, other: nat)
    requires id != other && TwoWait(s, id, other)
    ensures OneLeft(Step(Step(s, End), Ack(id)), id, other)
  {
  }

  lemma LastRaises(s: State, id: nat, other: nat)
    requires id != other && OneLeft(s, id, other)
    ensures var r := Step(s, SendRaises(other)); Complete(r) && r.decisions == [] && r.app.pending == 0
  {
    assert s.subs - {other} == map[id := true];
  }

  /** A complete batch that is never decided: the one send not acknowledged by the end of the batch raises after
      the acknowledgement of the other. */
  lemma FailedSendHushes(id: nat, other: nat)
    requires id != other
    ensures var s := Exec([] + [Begin] + [Send(id)] + [Send(other)] + [End] + [Ack(id)] + [SendRaises(other)]);
      Complete(s) && s.decisions == [] && s.app.pending == 0
  {
    hide Step, Complete, TwoWait, OneLeft;
    var s := Step(Step(Step(Start(), Begin), Send(id)), Send(other));
    BothSent(id, other);
    OneAcked(s, id, other);
    LastRaises(Step(Step(s, End), Ack(id)), id, other);
    var run := [] + [Begin] + [Send(id)];
    ExecSnoc([], Begin);
    ExecSnoc([] + [Begin], Send(id));
    ExecSnoc(run, Send(other));
    ExecSnoc(run + [Send(other)], End);
    ExecSnoc(run + [Send(other)] + [End], Ack(id));
    ExecSnoc(run + [Send(other)] + [End] + [Ack(id)], SendRaises(other));
  }
}
