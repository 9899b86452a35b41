/**
 MyWebsocketApp (feeds/my_websocket_app.py): the flags, counters and deadlines shared by the socket
 callbacks, the subscribing thread and the two watchdogs. Each function here is one region under
 _subscription_lock, or one assignment outside it; the class runs them on its fields.
 */
module WebSocketApp {
  import opened Base

  type Sock = nat

  datatype App = App(
    ws: Option<Sock>, generation: nat, lastMessage: Option<real>,
    awaiting: bool, running: bool,
    tracking: bool, pending: int, sendCount: int,
    idleClose: bool,
    deadline: Option<real>, readinessGeneration: nat, readinessWs: Option<Sock>)

  function Initial(): App {
    App(None, 0, None, false, false, false, 0, 0, false, None, 0, None)
  }

  function Max0(n: int): int {
    if n < 0 then 0 else n
  }

  function BeginBatch(a: App): App {
    a.(awaiting := true, tracking := true, pending := 0, sendCount := 0)
  }

  // subscribe, before the send
  function TrackSend(a: App): App {
    if a.tracking then a.(pending := a.pending + 1, sendCount := a.sendCount + 1) else a
  }

  // subscribe, after a failed send that was tracked
  function UntrackSend(a: App): App {
    a.(pending := Max0(a.pending - 1), sendCount := Max0(a.sendCount - 1))
  }

  function EndBatch(a: App): App {
    a.(tracking := false)
  }

  function Acknowledged(a: App): App {
    if a.pending <= 0 then a else a.(pending := a.pending - 1)
  }

  // Whether this acknowledgement is the one that makes the connection ready.
  predicate AckIsReady(a: App) {
    a.pending > 0 && a.pending - 1 == 0 && !a.tracking
  }

  function MarkReady(a: App, now: real): App {
    a.(awaiting := false, idleClose := false, deadline := None, lastMessage := Some(now), running := true)
  }

  // on_open, under the lock
  function Opened(a: App, ws: Sock, now: real, readinessTimeout: real): App {
    a.(lastMessage := Some(now), awaiting := true, idleClose := false,
       readinessGeneration := a.generation, readinessWs := Some(ws),
       deadline := if readinessTimeout > 0.0 then Some(now + readinessTimeout) else None)
  }

  // on_open or on_message after the callback raised, under the lock
  function SetupFailed(a: App): App {
    a.(awaiting := false, deadline := None)
  }

  // on_close, under the lock
  function Closed(a: App): App {
    a.(awaiting := false, tracking := false, pending := 0, sendCount := 0, idleClose := false, deadline := None)
  }

  // What the readiness watchdog copies under the lock.
  datatype ReadinessSample = ReadinessSample(deadline: real, ws: Sock, generation: nat)

  // Its second look under the lock, once the sampled deadline has passed.
  predicate ReadinessHolds(a: App, s: ReadinessSample) {
    a.awaiting && a.deadline == Some(s.deadline) && a.readinessGeneration == s.generation
    && a.readinessWs == Some(s.ws) && a.ws == Some(s.ws)
  }

  function TimedOut(a: App): App {
    a.(awaiting := false, running := false, deadline := None)
  }

  datatype IdleSample = IdleSample(last: real, ws: Sock, generation: nat)

  predicate IdleHolds(a: App, s: IdleSample) {
    !a.idleClose && a.ws == Some(s.ws) && a.generation == s.generation && a.lastMessage == Some(s.last)
  }

  function IdleClosed(a: App): App {
    a.(idleClose := true, running := false, awaiting := false, deadline := None)
  }

  class MyWebsocketApp {
    const readinessTimeout: real
    const idleTimeout: real
    var ws: Option<Sock>
    var connectionGeneration: nat
    var lastMessageAt: Option<real>
    var awaitingReady: bool
    var runningFlag: bool
    var trackingSubscriptionBatch: bool
    var pendingSubscriptionAcks: int
    var subscriptionBatchSendCount: int
    var idleCloseRequested: bool
    var readinessDeadline: Option<real>
    var readinessGeneration: nat
    var readinessWs: Option<Sock>

    constructor (readinessTimeout: real, idleTimeout: real)
      ensures View() == Initial()
    {
      this.readinessTimeout, this.idleTimeout := readinessTimeout, idleTimeout;
      ws, connectionGeneration, lastMessageAt := None, 0, None;
      awaitingReady, runningFlag, trackingSubscriptionBatch := false, false, false;
      pendingSubscriptionAcks, subscriptionBatchSendCount, idleCloseRequested := 0, 0, false;
      readinessDeadline, readinessGeneration, readinessWs := None, 0, None;
    }

    function View(): App
      reads this
    {
      App(ws, connectionGeneration, lastMessageAt, awaitingReady, runningFlag, trackingSubscriptionBatch,
          pendingSubscriptionAcks, subscriptionBatchSendCount, idleCloseRequested,
          readinessDeadline, readinessGeneration, readinessWs)
    }

    method BeginSubscriptionBatch()
      modifies this
      ensures View() == BeginBatch(old(View()))
    {
      awaitingReady := true;
      trackingSubscriptionBatch := true;
      pendingSubscriptionAcks := 0;
      subscriptionBatchSendCount := 0;
    }

    // The two locked regions of subscribe around a send that succeeds or raises, with no acknowledgement
    // in between.
    method Subscribe(sendFails: bool)
      modifies this
      ensures View() == if sendFails && old(trackingSubscriptionBatch) then UntrackSend(TrackSend(old(View())))
                        else TrackSend(old(View()))
    {
      var tracked := false;
      if trackingSubscriptionBatch {
        pendingSubscriptionAcks := pendingSubscriptionAcks + 1;
        subscriptionBatchSendCount := subscriptionBatchSendCount + 1;
        tracked := true;
      }
      if sendFails && tracked {
        pendingSubscriptionAcks := Max0(pendingSubscriptionAcks - 1);
        subscriptionBatchSendCount := Max0(subscriptionBatchSendCount - 1);
      }
    }

    method EndSubscriptionBatch() returns (ready: bool)
      modifies this
      ensures View() == EndBatch(old(View())) && ready == (old(pendingSubscriptionAcks) == 0)
    {
      trackingSubscriptionBatch := false;
      ready := pendingSubscriptionAcks == 0;
    }

    method SubscriptionAcknowledged(now: real)
      modifies this
      ensures View() == var a := Acknowledged(old(View())); if AckIsReady(old(View())) then MarkReady(a, now) else a
    {
      if pendingSubscriptionAcks <= 0 { return; }
      pendingSubscriptionAcks := pendingSubscriptionAcks - 1;
      if pendingSubscriptionAcks == 0 && !trackingSubscriptionBatch {
        SetReady(now);
      }
    }

    method SetReady(now: real)
      modifies this
      ensures View() == MarkReady(old(View()), now)
    {
      awaitingReady := false;
      idleCloseRequested := false;
      readinessDeadline := None;
      lastMessageAt := Some(now);
      runningFlag := true;
    }

    // on_open up to open_rsp
    method OnOpen(socket: Sock, now: real)
      modifies this
      ensures View() == Opened(old(View()).(generation := old(connectionGeneration) + 1), socket, now, readinessTimeout)
    {
      connectionGeneration := connectionGeneration + 1;
      lastMessageAt := Some(now);
      awaitingReady := true;
      idleCloseRequested := false;
      readinessGeneration := connectionGeneration;
      readinessWs := Some(socket);
      readinessDeadline := if readinessTimeout > 0.0 then Some(now + readinessTimeout) else None;
    }

    method OnClose()
      modifies this
      ensures View() == Closed(old(View()).(running := false)).(lastMessage := None)
    {
      runningFlag := false;
      awaitingReady := false;
      trackingSubscriptionBatch := false;
      pendingSubscriptionAcks := 0;
      subscriptionBatchSendCount := 0;
      idleCloseRequested := false;
      readinessDeadline := None;
      lastMessageAt := None;
    }

    // The readiness watchdog's second look; true means that it goes on to close the sampled socket.
    method ClaimReadinessTimeout(s: ReadinessSample) returns (claimed: bool)
      modifies this
      ensures claimed == ReadinessHolds(old(View()), s)
      ensures View() == if claimed then TimedOut(old(View())) else old(View())
    {
      if !awaitingReady || readinessDeadline != Some(s.deadline) || readinessGeneration != s.generation
         || readinessWs != Some(s.ws) || ws != Some(s.ws) {
        return false;
      }
      awaitingReady := false;
      runningFlag := false;
      readinessDeadline := None;
      return true;
    }

    // The idle watchdog's second look.
    method ClaimIdleClose(s: IdleSample) returns (claimed: bool)
      modifies this
      ensures claimed == IdleHolds(old(View()), s)
      ensures View() == if claimed then IdleClosed(old(View())) else old(View())
    {
      if idleCloseRequested || ws != Some(s.ws) || connectionGeneration != s.generation
         || lastMessageAt != Some(s.last) {
        return false;
      }
      idleCloseRequested := true;
      runningFlag := false;
      awaitingReady := false;
      readinessDeadline := None;
      return true;
    }
  }
}
