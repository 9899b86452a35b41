/**
 AsyncConnectionPool (connection_pool.py): a semaphore permit first, then the lock, then either an
 idle connection or a new one from the factory, awaited while the lock is held.
 */
module AsyncPool {
  import opened Base

  type Conn = nat

  // The pool's own fields: free semaphore permits, idle connections (oldest first), connections out.
  datatype Core = Core(permits: nat, idle: seq<Conn>, inUse: set<Conn>)

  function Reused(c: Core): Core
    requires c.idle != []
  {
    c.(idle := c.idle[1..], inUse := c.inUse + {c.idle[0]})
  }

  function Released(c: Core, conn: Conn): Core {
    if conn !in c.inUse then c
    else Core(c.permits + 1, c.idle + [conn], c.inUse - {conn})
  }

  // One method per stretch of code that runs without giving up control.
  class AsyncConnectionPool {
    var permits: nat
    var idle: seq<Conn>
    var inUse: set<Conn>

    constructor (maxSize: nat)
      ensures View() == Core(maxSize, [], {})
    {
      permits, idle, inUse := maxSize, [], {};
    }

    function View(): Core
      reads this
    {
      Core(permits, idle, inUse)
    }

    method TakePermit()
      requires permits > 0
      modifies this
      ensures View() == old(View()).(permits := old(permits) - 1)
    {
      permits := permits - 1;
    }

    // With the lock held: an idle connection, or None when the factory must be called.
    method TakeIdle() returns (conn: Option<Conn>)
      modifies this
      ensures conn == if old(idle) == [] then None else Some(old(idle)[0])
      ensures View() == if old(idle) == [] then old(View()) else Reused(old(View()))
    {
      if idle == [] { return None; }
      conn := Some(idle[0]);
      idle := idle[1..];
      inUse := inUse + {conn.value};
    }

    method AddNew(conn: Conn)
      modifies this
      ensures View() == old(View()).(inUse := old(inUse) + {conn})
    {
      inUse := inUse + {conn};
    }

    method Release(conn: Conn)
      modifies this
      ensures View() == Released(old(View()), conn)
    {
      if conn !in inUse { return; }
      inUse := inUse - {conn};
      idle := idle + [conn];
      permits := permits + 1;
    }
  }

  // ---------------------------------------------------------------- interleaved tasks

  // permitted: calls of acquire that hold a permit and wait for the lock; creating: the call that
  // holds the lock and awaits the factory; held: what each finished acquire was given and has not
  // released. created, factoryCalls and lost (permits that never come back) are history.
  datatype State = State(core: Core, permitted: set<nat>, creating: Option<nat>, held: map<nat, Conn>,
                         created: set<Conn>, factoryCalls: nat, lost: nat)

  datatype Action =
    | TakePermit(call: nat)
    | Reuse(call: nat)
    | StartFactory(call: nat)
    | FinishFactory(conn: Conn)
    | FactoryRaises
    | Cancelled(call: nat)
    | Release(call: nat, conn: Conn)

  function Start(maxSize: nat): State {
    State(Core(maxSize, [], {}), {}, None, map[], {}, 0, 0)
  }

  predicate Enabled(s: State, a: Action) {
    match a
    case TakePermit(t) => s.core.permits > 0 && t !in s.permitted && s.creating != Some(t) && t !in s.held
    case Reuse(t) => s.creating.None? && t in s.permitted && s.core.idle != []
    case StartFactory(t) => s.creating.None? && t in s.permitted && s.core.idle == []
    case FinishFactory(c) => s.creating.Some? && c !in s.created
    case FactoryRaises => s.creating.Some?
    case Cancelled(t) => t in s.permitted
    case Release(_, _) => s.creating.None?
  }

  function Apply(s: State, a: Action): State
    requires Enabled(s, a)
  {
    match a
    case TakePermit(t) =>
      s.(core := s.core.(permits := s.core.permits - 1), permitted := s.permitted + {t})
    case Reuse(t) =>
      s.(core := Reused(s.core), permitted := s.permitted - {t}, held := s.held[t := s.core.idle[0]])
    case StartFactory(t) =>
      s.(permitted := s.permitted - {t}, creating := Some(t), factoryCalls := s.factoryCalls + 1)
    case FinishFactory(c) =>
      s.(core := s.core.(inUse := s.core.inUse + {c}), creating := None, created := s.created + {c},
         held := s.held[s.creating.value := c])
    case FactoryRaises => s.(creating := None, lost := s.lost + 1)
    case Cancelled(t) => s.(permitted := s.permitted - {t}, lost := s.lost + 1)
    case Release(t, c) =>
      s.(core := Released(s.core, c), held := if t in s.held && s.held[t] == c then s.held - {t} else s.held)
  }

  // An action that cannot happen is skipped, so every sequence of actions is a run.
  function Step(s: State, a: Action): State {
    if Enabled(s, a) then Apply(s, a) else s
  }

  function Exec(maxSize: nat, run: seq<Action>): State {
    if run == [] then Start(maxSize) else Step(Exec(maxSize, run[..|run| - 1]), run[|run| - 1])
  }

  function Waiting(s: State): nat {
    |s.permitted| + if s.creating.Some? then 1 else 0
  }

  predicate NoRepeats(q: seq<Conn>) {
    forall i, j :: 0 <= i < j < |q| ==> q[i] != q[j]
  }

  ghost predicate Conserved(s: State, maxSize: nat) {
    && s.core.permits + Waiting(s) + |s.core.inUse| + s.lost == maxSize
    && (forall c :: c in s.created <==> c in s.core.inUse || c in s.core.idle)
    && (forall c :: c in s.core.idle ==> c !in s.core.inUse)
    && NoRepeats(s.core.idle)
    && (s.creating.Some? ==> s.core.idle == [])
    && s.factoryCalls <= |s.created| + s.lost + (if s.creating.Some? then 1 else 0)
    && s.factoryCalls <= maxSize
  }

  lemma {:induction false} ApplyConserves(s: State, maxSize: nat, a: Action)
    requires Conserved(s, maxSize) && Enabled(s, a)
    ensures Conserved(Apply(s, a), maxSize)
  {
    match a
    case TakePermit(t) =>
    case Reuse(t) => ReuseConserves(s, maxSize, t);
    case StartFactory(t) =>
      assert s.created == s.core.inUse;
      assert |s.permitted - {t}| == |s.permitted| - 1;
    case FinishFactory(c) => assert c !in s.core.inUse;
    case FactoryRaises =>
    case Cancelled(t) => assert |s.permitted - {t}| == |s.permitted| - 1;
    case Release(t, c) => ReleaseConserves(s, maxSize, t, c);
  }

  lemma {:induction false} ReleaseConserves(s: State, maxSize: nat, t: nat, c: Conn)
    requires Conserved(s, maxSize) && Enabled(s, Release(t, c))
    ensures Conserved(Apply(s, Release(t, c)), maxSize)
  {
    if c in s.core.inUse {
      assert |s.core.inUse - {c}| == |s.core.inUse| - 1;
    }
  }

  lemma {:induction false} ReuseConserves(s: State, maxSize: nat, t: nat)
    requires Conserved(s, maxSize) && Enabled(s, Reuse(t))
    ensures Conserved(Apply(s, Reuse(t)), maxSize)
  {
    var q := s.core.idle;
    assert q[0] in q && q == [q[0]] + q[1..];
    assert |s.permitted - {t}| == |s.permitted| - 1;
    assert |s.core.inUse + {q[0]}| == |s.core.inUse| + 1;
  }

  /** Capacity over the pool's whole life, whatever the interleaving and whoever releases what: free
      permits, calls holding a permit but no connection, connections out and permits lost to a raising
      factory or a cancelled wait always add up to maxSize; and the factory is called at most maxSize
      times, ever. Without losses nothing leaks. */
  lemma {:induction false} PoolCapacity(maxSize: nat, run: seq<Action>)
    ensures var s := Exec(maxSize, run);
      && s.core.permits + Waiting(s) + |s.core.inUse| + s.lost == maxSize
      && s.factoryCalls <= maxSize
      && Conserved(s, maxSize)
  {
    if run != [] {
      PoolCapacity(maxSize, run[..|run| - 1]);
      var s, a := Exec(maxSize, run[..|run| - 1]), run[|run| - 1];
      if Enabled(s, a) { ApplyConserves(s, maxSize, a); }
    }
  }

  /** A release changes the pool exactly when its connection is out: unknown connections and immediate
      double releases change nothing. */
  lemma ReleaseEffective(s: State, maxSize: nat, c: Conn)
    requires Conserved(s, maxSize)
    ensures Released(s.core, c) == s.core <==> c !in s.core.inUse
    ensures Released(Released(s.core, c), c) == Released(s.core, c)
  {
    if c in s.core.inUse { assert Released(s.core, c).permits == s.core.permits + 1; }
  }

  // ---------------------------------------------------------------- the order of reuse

  // The connection a step gives back, and the one it hands out again, if any.
  function GivenBack(s: State, a: Action): seq<Conn> {
    if a.Release? && Enabled(s, a) && a.conn in s.core.inUse then [a.conn] else []
  }

  function HandedOut(s: State, a: Action): seq<Conn> {
    if a.Reuse? && Enabled(s, a) then [Step(s, a).held[a.call]] else []
  }

  // The connections given back, and those handed out again, in order.
  function Returned(maxSize: nat, run: seq<Action>): seq<Conn> {
    if run == [] then []
    else Returned(maxSize, run[..|run| - 1]) + GivenBack(Exec(maxSize, run[..|run| - 1]), run[|run| - 1])
  }

  function HandedAgain(maxSize: nat, run: seq<Action>): seq<Conn> {
    if run == [] then []
    else HandedAgain(maxSize, run[..|run| - 1]) + HandedOut(Exec(maxSize, run[..|run| - 1]), run[|run| - 1])
  }

  /** Connections are reused in the order in which they were given back, and none is passed over: those handed out
      again, and then the idle ones, are those given back. */
  lemma {:induction false} ReuseInOrder(maxSize: nat, run: seq<Action>)
    ensures Returned(maxSize, run) == HandedAgain(maxSize, run) + Exec(maxSize, run).core.idle
  {
    if run != [] {
      hide Step, Enabled, GivenBack, HandedOut;
      var init := run[..|run| - 1];
      var s, a := Exec(maxSize, init), run[|run| - 1];
      ReuseInOrder(maxSize, init);
      IdleAfter(s, a);
      QueueMoves(HandedAgain(maxSize, init), s.core.idle, GivenBack(s, a), HandedOut(s, a), Step(s, a).core.idle);
    }
  }

  // A step takes connections from the front of the idle queue and adds them at its end.
  lemma IdleAfter(s: State, a: Action)
    ensures s.core.idle + GivenBack(s, a) == HandedOut(s, a) + Step(s, a).core.idle
  {
  }

  lemma QueueMoves(handed: seq<Conn>, q: seq<Conn>, back: seq<Conn>, out: seq<Conn>, q': seq<Conn>)
    requires q + back == out + q'
    ensures (handed + q) + back == (handed + out) + q'
  {
    assert (handed + q) + back == handed + (q + back);
    assert (handed + out) + q' == handed + (out + q');
  }

  /** So the factory is called only when every connection given back has been handed out again. */
  lemma FactoryWhenAllOut(maxSize: nat, run: seq<Action>, call: nat)
    requires Enabled(Exec(maxSize, run), StartFactory(call))
    ensures Returned(maxSize, run) == HandedAgain(maxSize, run)
  {
    ReuseInOrder(maxSize, run);
  }

  // ---------------------------------------------------------------- exclusive use

  // A release that happens returns what its caller holds, or something the pool does not have out.
  predicate Owned(s: State, a: Action) {
    a.Release? && Enabled(s, a) ==> (a.call in s.held && s.held[a.call] == a.conn) || a.conn !in s.core.inUse
  }

  predicate Disciplined(maxSize: nat, run: seq<Action>)
  {
    run == [] ||
    (Disciplined(maxSize, run[..|run| - 1]) && Owned(Exec(maxSize, run[..|run| - 1]), run[|run| - 1]))
  }

  predicate Exclusive(s: State) {
    && (forall t, u :: t in s.held && u in s.held && t != u ==> s.held[t] != s.held[u])
    && (forall t :: t in s.held ==> s.held[t] in s.core.inUse)
    && (forall c :: c in s.core.inUse ==> c in s.held.Values)
    && (forall t :: t in s.held ==> t !in s.permitted && s.creating != Some(t))
    && (s.creating.Some? ==> s.creating.value !in s.permitted)
  }

  lemma {:induction false} GiveExclusive(s: State, t: nat, c: Conn, r: State)
    requires Exclusive(s) && t !in s.held && c !in s.core.inUse
    requires r.held == s.held[t := c] && r.core.inUse == s.core.inUse + {c}
    requires r.creating.None? && t !in r.permitted && r.permitted <= s.permitted
    ensures Exclusive(r)
  {
    forall x | x in r.core.inUse ensures x in r.held.Values {
      if x == c {
        assert r.held[t] == c;
      } else {
        var u :| u in s.held && s.held[u] == x;
        assert r.held[u] == x;
      }
    }
  }

  lemma {:induction false} ReleaseExclusive(s: State, t: nat, c: Conn)
    requires Exclusive(s) && Enabled(s, Release(t, c)) && Owned(s, Release(t, c))
    ensures Exclusive(Apply(s, Release(t, c)))
  {
    var r := Apply(s, Release(t, c));
    if c in s.core.inUse {
      forall x | x in r.core.inUse ensures x in r.held.Values {
        var u :| u in s.held && s.held[u] == x;
        assert r.held[u] == x;
      }
    }
  }

  lemma {:induction false} ApplyExclusive(s: State, maxSize: nat, a: Action)
    requires Conserved(s, maxSize) && Exclusive(s) && Enabled(s, a) && Owned(s, a)
    ensures Exclusive(Apply(s, a))
  {
    match a
    case Reuse(t) =>
      assert s.core.idle[0] in s.core.idle;
      GiveExclusive(s, t, s.core.idle[0], Apply(s, a));
    case FinishFactory(c) => GiveExclusive(s, s.creating.value, c, Apply(s, a));
    case Release(t, c) => ReleaseExclusive(s, t, c);
    case _ =>
  }

  // A step keeps exclusive use exactly when it is not the release of a connection somebody else holds.
  lemma {:induction false} StepExclusiveIff(s: State, maxSize: nat, a: Action)
    requires Conserved(s, maxSize) && Exclusive(s)
    ensures Exclusive(Step(s, a)) <==> Owned(s, a)
  {
    if Enabled(s, a) {
      if Owned(s, a) {
        ApplyExclusive(s, maxSize, a);
      } else {
        // The connection goes back to the pool, and its holder keeps it too.
        var u :| u in s.held && s.held[u] == a.conn;
        assert u in Step(s, a).held && a.conn !in Step(s, a).core.inUse;
      }
    }
  }

  // Exclusive use at every point of the run.
  predicate ExclusiveThroughout(maxSize: nat, run: seq<Action>) {
    Exclusive(Exec(maxSize, run)) && (run == [] || ExclusiveThroughout(maxSize, run[..|run| - 1]))
  }

  /** Connections are in exclusive use throughout a run if and only if every release in it returns what
      its caller holds, or something that is not out. */
  lemma {:induction false} ExclusiveIffOwned(maxSize: nat, run: seq<Action>)
    ensures ExclusiveThroughout(maxSize, run) <==> Disciplined(maxSize, run)
  {
    if run != [] {
      var init := run[..|run| - 1];
      ExclusiveIffOwned(maxSize, init);
      PoolCapacity(maxSize, init);
      if ExclusiveThroughout(maxSize, init) { StepExclusiveIff(Exec(maxSize, init), maxSize, run[|run| - 1]); }
    }
  }

  lemma ExecSnoc(maxSize: nat, run: seq<Action>, a: Action)
    ensures Exec(maxSize, run + [a]) == Step(Exec(maxSize, run), a)
  {
    assert (run + [a])[..|run|] == run;
  }

  /** A late second release, after the connection went to another caller, takes it from under them:
      here callers 2 and 3 end up holding connection 7. */
  lemma StaleReleaseShares() returns (run: seq<Action>)
    ensures Exec(2, run).held == map[2 := 7, 3 := 7]
  {
    var acts := [TakePermit(1), StartFactory(1), FinishFactory(7), Release(1, 7),
                 TakePermit(2), Reuse(2), Release(1, 7), TakePermit(3), Reuse(3)];
    run := [];
    var s := Start(2);
    for i := 0 to 9
      invariant Exec(2, run) == s && s == Witness(i)
    {
      ExecSnoc(2, run, acts[i]);
      run := run + [acts[i]];
      s := Step(s, acts[i]);
    }
  }

  // The states of the run above.
  function Witness(i: nat): State {
    var out := State(Core(1, [], {7}), {}, None, map[1 := 7], {7}, 1, 0);
    match i
    case 0 => Start(2)
    case 1 => State(Core(1, [], {}), {1}, None, map[], {}, 0, 0)
    case 2 => State(Core(1, [], {}), {}, Some(1), map[], {}, 1, 0)
    case 3 => out
    case 4 => out.(core := Core(2, [7], {}), held := map[])
    case 5 => out.(core := Core(1, [7], {}), held := map[], permitted := {2})
    case 6 => out.(held := map[2 := 7])
    case 7 => out.(core := Core(2, [7], {}), held := map[2 := 7])
    case 8 => out.(core := Core(1, [7], {}), held := map[2 := 7], permitted := {3})
    case _ => out.(held := map[2 := 7, 3 := 7])
  }
}
