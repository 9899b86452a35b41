/**
 What the identity map promises over whole runs: aliases keep resolving, and events reach the right order.
 */
module OrderTheorems {
  import opened Base
  import opened OrderIdentity
  import opened OrderRouting

  // ---------------------------------------------------------------- who was ever given which id

  // clients and venues: every (id, entry) pair ever recorded; used: every request id ever registered.
  datatype Ledger = Ledger(book: Book, clients: set<(string, nat)>, venues: set<(string, nat)>, used: set<string>)

  function ClientGiven(b: Book, op: Op): set<(string, nat)> {
    match op
    case Register(_, _, c, _, _) => if Truthy(c) then {(c.value, |b.entries|)} else {}
    case SetClient(req, id) => if req in b.byRequest then {(id, b.byRequest[req])} else {}
    case _ => {}
  }

  function VenueGiven(b: Book, op: Op): set<(string, nat)> {
    match op
    case Register(_, _, _, v, _) => if Truthy(v) then {(v.value, |b.entries|)} else {}
    case SetVenue(req, id) => if req in b.byRequest then {(id, b.byRequest[req])} else {}
    case SetVenueByClient(c, id) => if c in b.byClient then {(id, b.byClient[c])} else {}
    case _ => {}
  }

  function Noted(l: Ledger, op: Op): (r: Ledger)
    requires WellFormed(l.book)
    ensures WellFormed(r.book)
  {
    Ledger(Apply(l.book, op), l.clients + ClientGiven(l.book, op), l.venues + VenueGiven(l.book, op),
           l.used + if op.Register? then {op.requestId} else {})
  }

  function Keep(ops: seq<Op>): (l: Ledger)
    ensures WellFormed(l.book)
  {
    if ops == [] then Ledger(EMPTY_BOOK, {}, {}, {}) else Noted(Keep(ops[..|ops| - 1]), ops[|ops| - 1])
  }

  // No request id is registered twice.
  predicate FreshRequests(ops: seq<Op>) {
    ops == [] ||
    var op := ops[|ops| - 1];
    FreshRequests(ops[..|ops| - 1]) && (op.Register? ==> op.requestId !in Keep(ops[..|ops| - 1]).used)
  }

  // No id is ever given to two entries.
  predicate OneOwner(given: set<(string, nat)>) {
    forall p, q :: p in given && q in given && p.0 == q.0 ==> p.1 == q.1
  }

  predicate Exclusive(l: Ledger) {
    OneOwner(l.clients) && OneOwner(l.venues)
  }

  predicate Live(b: Book, n: nat) {
    n < |b.entries| && b.entries[n].requestId in b.byRequest && b.byRequest[b.entries[n].requestId] == n
  }

  // Every pair given to a live entry is in the index.
  predicate Resolves(b: Book, index: map<string, nat>, given: set<(string, nat)>) {
    forall p :: p in given && Live(b, p.1) ==> p.0 in index && index[p.0] == p.1
  }

  // Every index entry was given.
  predicate Given(index: map<string, nat>, given: set<(string, nat)>) {
    forall k :: k in index ==> (k, index[k]) in given
  }

  predicate Tidy(l: Ledger) {
    && WellFormed(l.book)
    && (forall r :: r in l.book.byRequest ==> l.book.entries[l.book.byRequest[r]].requestId == r)
    && (forall n :: 0 <= n < |l.book.entries| ==> l.book.entries[n].requestId in l.used)
    && (forall p :: p in l.clients ==> p.1 < |l.book.entries|) && (forall p :: p in l.venues ==> p.1 < |l.book.entries|)
  }

  // The ids an entry shows now were given to it.
  predicate CurrentGiven(es: seq<Entry>, clients: set<(string, nat)>, venues: set<(string, nat)>) {
    && (forall n :: 0 <= n < |es| ==> Truthy(es[n].client) ==> (es[n].client.value, n) in clients)
    && (forall n :: 0 <= n < |es| ==> Truthy(es[n].venue) ==> (es[n].venue.value, n) in venues)
  }

  predicate Sound(l: Ledger) {
    && Tidy(l) && CurrentGiven(l.book.entries, l.clients, l.venues)
    && Given(l.book.byClient, l.clients) && Given(l.book.byVenue, l.venues)
    && Resolves(l.book, l.book.byClient, l.clients) && Resolves(l.book, l.book.byVenue, l.venues)
  }

  lemma {:induction false} IndexedResolves(b: Book, r: Book, index: map<string, nat>, given: set<(string, nat)>,
                                           id: string, n: nat)
    requires Resolves(b, index, given) && OneOwner(given + {(id, n)})
    requires forall m :: Live(r, m) && m != n ==> Live(b, m)
    requires Live(b, n) || forall p :: p in given ==> p.1 != n || !Live(r, n)
    ensures Resolves(r, index[id := n], given + {(id, n)})
  {
    forall p | p in given + {(id, n)} && Live(r, p.1) ensures p.0 in index[id := n] && index[id := n][p.0] == p.1 {
      if p.0 == id {
        assert (id, n) in given + {(id, n)};
      }
    }
  }

  lemma {:induction false} UnindexedResolves(b: Book, r: Book, index: map<string, nat>, given: set<(string, nat)>,
                                             id: Option<string>, n: nat)
    requires Resolves(b, index, given) && OneOwner(given)
    requires forall m :: Live(r, m) ==> Live(b, m) && m != n
    requires Truthy(id) ==> (id.value, n) in given
    ensures Resolves(r, Unindexed(index, id), given)
  {
  }

  lemma {:induction false} RegisterSound(l: Ledger, op: Op)
    requires Sound(l) && op.Register? && op.requestId !in l.used && Exclusive(Noted(l, op))
    ensures Sound(Noted(l, op))
  {
    var b, r, n := l.book, Noted(l, op), |l.book.entries|;
    assert forall m :: 0 <= m < n ==> r.book.entries[m] == b.entries[m];
    forall m | Live(r.book, m) && m != n ensures Live(b, m) { }
    if Truthy(op.client) { IndexedResolves(b, r.book, b.byClient, l.clients, op.client.value, n); }
    if Truthy(op.venue) { IndexedResolves(b, r.book, b.byVenue, l.venues, op.venue.value, n); }
  }

  // Giving id to entry n, of which all other live entries know nothing.
  lemma {:induction false} PutResolves(b: Book, r: Book, index: map<string, nat>, given: set<(string, nat)>,
                                       id: string, n: nat)
    requires Resolves(b, index, given) && OneOwner(given + {(id, n)})
    requires forall m: nat :: Live(r, m) <==> Live(b, m)
    ensures Resolves(r, index[id := n], given + {(id, n)})
    ensures Resolves(r, index, given)
  {
    forall p | p in given + {(id, n)} && Live(r, p.1) ensures p.0 in index[id := n] && index[id := n][p.0] == p.1 {
      SameOwner(given + {(id, n)}, p);
      assert (id, n) in given + {(id, n)};
    }
  }

  lemma {:induction false} SetClientSound(l: Ledger, op: Op)
    requires Sound(l) && op.SetClient? && Exclusive(Noted(l, op))
    ensures Sound(Noted(l, op))
  {
    var r := Noted(l, op);
    if op.requestId in l.book.byRequest {
      PutSound(l, op.id, l.book.byRequest[op.requestId], true);
    } else {
      assert r.clients == l.clients && r.venues == l.venues && r.used == l.used;
    }
  }

  // SetVenue and SetVenueByClient differ only in how they find the entry.
  lemma {:induction false} SetVenueSound(l: Ledger, op: Op)
    requires Sound(l) && (op.SetVenue? || op.SetVenueByClient?) && Exclusive(Noted(l, op))
    ensures Sound(Noted(l, op))
  {
    var r := Noted(l, op);
    if op.SetVenue? && op.requestId in l.book.byRequest {
      PutSound(l, op.id, l.book.byRequest[op.requestId], false);
    } else if op.SetVenueByClient? && op.byClientId in l.book.byClient {
      PutSound(l, op.id, l.book.byClient[op.byClientId], false);
    } else {
      assert r.clients == l.clients && r.venues == l.venues && r.used == l.used;
    }
  }

  // Entry n takes client id or venue id `id`.
  function Put(l: Ledger, id: string, n: nat, client: bool): Ledger
    requires n < |l.book.entries|
  {
    var b, e := l.book, l.book.entries[n];
    if client
    then Ledger(b.(entries := b.entries[n := e.(client := Some(id))], byClient := b.byClient[id := n]),
                l.clients + {(id, n)}, l.venues + {}, l.used + {})
    else Ledger(b.(entries := b.entries[n := e.(venue := Some(id))], byVenue := b.byVenue[id := n]),
                l.clients + {}, l.venues + {(id, n)}, l.used + {})
  }

  lemma {:induction false} PutTidy(l: Ledger, id: string, n: nat, client: bool)
    requires Tidy(l) && n < |l.book.entries|
    ensures Tidy(Put(l, id, n, client))
    ensures forall m: nat :: Live(Put(l, id, n, client).book, m) <==> Live(l.book, m)
  {
    var r := Put(l, id, n, client);
    assert forall m :: 0 <= m < |l.book.entries| ==> r.book.entries[m].requestId == l.book.entries[m].requestId;
    assert r.used == l.used;
  }

  lemma {:induction false} PutCurrent(l: Ledger, id: string, n: nat, client: bool)
    requires CurrentGiven(l.book.entries, l.clients, l.venues) && n < |l.book.entries|
    ensures var r := Put(l, id, n, client); CurrentGiven(r.book.entries, r.clients, r.venues)
  {
    var es, fs := l.book.entries, Put(l, id, n, client).book.entries;
    assert forall m :: 0 <= m < |es| && m != n ==> fs[m] == es[m];
  }

  lemma {:induction false} PutSound(l: Ledger, id: string, n: nat, client: bool)
    requires Sound(l) && n < |l.book.entries| && Exclusive(Put(l, id, n, client))
    ensures Sound(Put(l, id, n, client))
  {
    var b, r := l.book, Put(l, id, n, client);
    PutTidy(l, id, n, client);
    PutCurrent(l, id, n, client);
    if client {
      assert r.venues == l.venues;
      PutResolves(b, r.book, b.byClient, l.clients, id, n);
      assert Resolves(r.book, b.byVenue, l.venues) by { SameLive(b, r.book, b.byVenue, l.venues); }
      hide Tidy, CurrentGiven, Resolves, Live;
    } else {
      assert r.clients == l.clients;
      PutResolves(b, r.book, b.byVenue, l.venues, id, n);
      assert Resolves(r.book, b.byClient, l.clients) by { SameLive(b, r.book, b.byClient, l.clients); }
      hide Tidy, CurrentGiven, Resolves, Live;
    }
  }

  lemma SameLive(b: Book, r: Book, index: map<string, nat>, given: set<(string, nat)>)
    requires Resolves(b, index, given) && forall m: nat :: Live(r, m) <==> Live(b, m)
    ensures Resolves(r, index, given)
  {
  }

  lemma SameOwner(given: set<(string, nat)>, p: (string, nat))
    requires OneOwner(given) && p in given
    ensures forall q :: q in given && q.0 == p.0 ==> q.1 == p.1
  {
  }

  lemma {:induction false} RemoveSound(l: Ledger, op: Op)
    requires Sound(l) && op.Remove? && Exclusive(l)
    ensures Sound(Noted(l, op))
  {
    var b, r := l.book, Noted(l, op);
    if op.requestId in b.byRequest {
      var n := b.byRequest[op.requestId];
      forall m: nat | Live(r.book, m) ensures Live(b, m) && m != n { }
      UnindexedResolves(b, r.book, b.byClient, l.clients, b.entries[n].client, n);
      UnindexedResolves(b, r.book, b.byVenue, l.venues, b.entries[n].venue, n);
    }
  }

  lemma {:induction false} StatusSound(l: Ledger, op: Op)
    requires Sound(l) && op.UpdateStatus?
    ensures Sound(Noted(l, op))
  {
    var b, r := l.book, Noted(l, op);
    assert forall m :: 0 <= m < |b.entries| ==>
      (r.book.entries[m].requestId, r.book.entries[m].client, r.book.entries[m].venue)
      == (b.entries[m].requestId, b.entries[m].client, b.entries[m].venue);
    forall m: nat ensures Live(r.book, m) <==> Live(b, m) { }
  }

  lemma {:induction false} KeepSound(ops: seq<Op>)
    requires FreshRequests(ops) && Exclusive(Keep(ops))
    ensures Sound(Keep(ops))
  {
    if ops != [] {
      var l, op := Keep(ops[..|ops| - 1]), ops[|ops| - 1];
      assert l.clients <= Keep(ops).clients && l.venues <= Keep(ops).venues;
      KeepSound(ops[..|ops| - 1]);
      match op
      case Register(_, _, _, _, _) => RegisterSound(l, op);
      case UpdateStatus(_, _) => StatusSound(l, op);
      case Remove(_) => RemoveSound(l, op);
      case SetClient(_, _) => SetClientSound(l, op);
      case _ => SetVenueSound(l, op);
    }
  }

  /** When request ids are fresh and no id is given to two orders, every id ever given to a live order -
      superseded aliases included - still resolves to it, whatever other orders have been removed; and an id
      never given to anyone resolves to nothing. */
  lemma {:induction false} AliasesResolve(ops: seq<Op>, id: string, n: nat)
    requires FreshRequests(ops) && Exclusive(Keep(ops)) && Live(Keep(ops).book, n)
    ensures var l := Keep(ops);
      && ((id, n) in l.clients ==> id in l.book.byClient && l.book.byClient[id] == n)
      && ((id, n) in l.venues ==> id in l.book.byVenue && l.book.byVenue[id] == n)
      && (id in l.book.byClient ==> (id, l.book.byClient[id]) in l.clients)
      && (id in l.book.byVenue ==> (id, l.book.byVenue[id]) in l.venues)
  {
    KeepSound(ops);
    var l := Keep(ops);
    assert (id, n) in l.clients ==> (id, n).0 in l.book.byClient;
    assert (id, n) in l.venues ==> (id, n).0 in l.book.byVenue;
  }

  // After order n is gone, an id it was given is found exactly if it was not the current one, and then
  // it still leads to n.
  predicate ForgetsOnly(index: map<string, nat>, current: Option<string>, id: string, n: nat) {
    && (id in index <==> !(Truthy(current) && current.value == id))
    && (id in index ==> index[id] == n)
  }

  /** What removing an order forgets: of all ids ever given to it, exactly its current client id and its
      current venue id. Every superseded one still leads to the removed order. */
  lemma {:induction false} RemovalForgetsIff(ops: seq<Op>, req: string, id: string)
    requires FreshRequests(ops) && Exclusive(Keep(ops)) && req in Keep(ops).book.byRequest
    ensures var l := Keep(ops);
      var n, b := l.book.byRequest[req], Apply(l.book, Remove(req));
      && !Live(b, n)
      && ((id, n) in l.clients ==> ForgetsOnly(b.byClient, l.book.entries[n].client, id, n))
      && ((id, n) in l.venues ==> ForgetsOnly(b.byVenue, l.book.entries[n].venue, id, n))
  {
    KeepSound(ops);
    var l := Keep(ops);
    var n, b := l.book.byRequest[req], Apply(l.book, Remove(req));
    var e := l.book.entries[n];
    assert Live(l.book, n) && !Live(b, n);
    assert b.byClient == Unindexed(l.book.byClient, e.client) && b.byVenue == Unindexed(l.book.byVenue, e.venue);
    hide Keep, FreshRequests, Exclusive, Sound, Live, Apply, Unindexed, ForgetsOnly;
    AliasesResolve(ops, id, n);
    if (id, n) in l.clients { UnindexedForgets(l.book.byClient, e.client, id, n); }
    if (id, n) in l.venues { UnindexedForgets(l.book.byVenue, e.venue, id, n); }
  }

  lemma UnindexedForgets(index: map<string, nat>, current: Option<string>, id: string, n: nat)
    requires id in index && index[id] == n
    ensures ForgetsOnly(Unindexed(index, current), current, id, n)
  {
  }

  /** Removal forgets only the current ids: a superseded client id still leads to the removed order. */
  lemma StaleAliasSurvives(req: string, strategy: string, first: string, second: string)
    requires first != "" && second != "" && first != second
    ensures var ops := [Register(req, strategy, Some(first), None, None), SetClient(req, second), Remove(req)];
      var b := Keep(ops).book;
      !Live(b, 0) && second !in b.byClient && first in b.byClient && b.byClient[first] == 0
  {
    var op0, op1, op2 := Register(req, strategy, Some(first), None, None), SetClient(req, second), Remove(req);
    var ops := [op0, op1, op2];
    assert ops[..2] == [op0, op1] && [op0, op1][..1] == [op0] && [op0][..0] == [];
    var e0 := Entry(req, strategy, Some(first), None, None, "pending");
    var b0 := Book([e0], map[req := 0], map[first := 0], map[]);
    var b1 := Book([e0.(client := Some(second))], map[req := 0], map[first := 0, second := 0], map[]);
    assert Apply(EMPTY_BOOK, op0) == b0;
    assert Apply(b0, op1) == b1;
    assert Apply(b1, op2) == Book(b1.entries, map[], map[first := 0], map[]);
    hide Apply;
    assert Keep([op0]).book == b0 && Keep([op0, op1]).book == b1;
  }

  // ---------------------------------------------------------------- events

  lemma {:induction false} FirstKnownIs(m: map<string, nat>, ids: seq<string>, n: nat)
    requires forall i :: 0 <= i < |ids| && ids[i] in m ==> m[ids[i]] == n
    ensures FirstKnown(m, ids) == if exists i :: 0 <= i < |ids| && ids[i] in m then Some(n) else None
  {
    if ids != [] {
      FirstKnownIs(m, ids[1..], n);
      if i :| 0 <= i < |ids| && ids[i] in m {
        if i > 0 { assert ids[1..][i - 1] in m; }
      }
      if j :| 0 <= j < |ids[1..]| && ids[1..][j] in m { assert ids[j + 1] in m; }
    }
  }

  // Each id is n's, or unknown.
  predicate OwnOrUnknown(ids: seq<string>, index: map<string, nat>, given: set<(string, nat)>, n: nat) {
    forall i :: 0 <= i < |ids| ==> (ids[i], n) in given || ids[i] !in index
  }

  predicate SomeOwn(ids: seq<string>, given: set<(string, nat)>, n: nat) {
    exists i :: 0 <= i < |ids| && (ids[i], n) in given
  }

  function OwnRequest(b: Book, n: nat): set<(string, nat)>
    requires n < |b.entries|
  {
    {(b.entries[n].requestId, n)}
  }

  // The event carries at least one id of order n, and otherwise only ids of n or unknown ones.
  predicate Concerns(l: Ledger, event: Row, n: nat)
    requires n < |l.book.entries|
  {
    var r, c, v := IdsUnder(event, REQUEST_KEYS), IdsUnder(event, CLIENT_KEYS), IdsUnder(event, VENUE_KEYS);
    && OwnOrUnknown(r, l.book.byRequest, OwnRequest(l.book, n), n)
    && OwnOrUnknown(c, l.book.byClient, l.clients, n)
    && OwnOrUnknown(v, l.book.byVenue, l.venues, n)
    && (SomeOwn(r, OwnRequest(l.book, n), n) || SomeOwn(c, l.clients, n) || SomeOwn(v, l.venues, n))
  }

  lemma {:induction false} FirstOwn(index: map<string, nat>, given: set<(string, nat)>, ids: seq<string>, n: nat)
    requires forall id :: (id, n) in given ==> id in index && index[id] == n
    requires OwnOrUnknown(ids, index, given, n)
    ensures FirstKnown(index, ids).Some? ==> FirstKnown(index, ids) == Some(n)
    ensures SomeOwn(ids, given, n) ==> FirstKnown(index, ids) == Some(n)
  {
    FirstKnownIs(index, ids, n);
    if SomeOwn(ids, given, n) {
      var i :| 0 <= i < |ids| && (ids[i], n) in given;
      assert ids[i] in index;
    }
  }

  // Whatever is set by default, keys already there keep their values.
  predicate Extends(r: Row, event: Row) {
    forall k :: k in event ==> k in r && r[k] == event[k]
  }

  // A key missing from the event is filled in with s.
  predicate FilledWith(r: Row, event: Row, key: string, s: string) {
    key !in event ==> key in r && r[key] == Text(s)
  }

  predicate Filled(r: Row, event: Row, key: string, value: Option<string>) {
    Truthy(value) ==> FilledWith(r, event, key, value.value)
  }

  lemma DefaultStep(row: Row, key: string, s: string, value: Option<string>)
    ensures Extends(SetDefault(row, key, s), row) && Extends(SetDefaultIf(row, key, value), row)
    ensures SetDefault(row, key, s).Keys == row.Keys + {key} && SetDefaultIf(row, key, value).Keys <= row.Keys + {key}
    ensures FilledWith(SetDefault(row, key, s), row, key, s)
    ensures Filled(SetDefaultIf(row, key, value), row, key, value)
  {
  }

  // Later defaults keep what earlier ones filled in.
  lemma FilledStill(event: Row, row: Row, r: Row, key: string, s: string, value: Option<string>)
    requires Extends(r, row) && Extends(row, event)
    ensures Extends(r, event)
    ensures FilledWith(row, event, key, s) ==> FilledWith(r, event, key, s)
    ensures Filled(row, event, key, value) ==> Filled(r, event, key, value)
  {
  }

  lemma {:induction false} IdsFilled(event: Row, e: Entry) returns (r: Row)
    ensures r == SetDefaultIf(SetDefaultIf(SetDefault(SetDefault(event, "strategy_id", e.strategyId),
                   "request_id", e.requestId), "client_order_id", e.client), "venue_order_id", e.venue)
    ensures Extends(r, event)
            && r.Keys <= event.Keys + {"strategy_id", "request_id", "client_order_id", "venue_order_id"}
    ensures FilledWith(r, event, "strategy_id", e.strategyId) && FilledWith(r, event, "request_id", e.requestId)
    ensures Filled(r, event, "client_order_id", e.client) && Filled(r, event, "venue_order_id", e.venue)
  {
    var r1 := SetDefault(event, "strategy_id", e.strategyId);
    var r2 := SetDefault(r1, "request_id", e.requestId);
    var r3 := SetDefaultIf(r2, "client_order_id", e.client);
    r := SetDefaultIf(r3, "venue_order_id", e.venue);
    DefaultStep(event, "strategy_id", e.strategyId, None);
    DefaultStep(r1, "request_id", e.requestId, None);
    DefaultStep(r2, "client_order_id", "", e.client);
    DefaultStep(r3, "venue_order_id", "", e.venue);
    assert FilledWith(r2, event, "request_id", e.requestId);
    assert Filled(r3, event, "client_order_id", e.client) && Filled(r, event, "venue_order_id", e.venue);
    hide SetDefault, SetDefaultIf, Extends, FilledWith, Filled;
    FilledStill(event, r1, r2, "strategy_id", e.strategyId, None);
    FilledStill(event, r2, r3, "strategy_id", e.strategyId, None);
    FilledStill(event, r2, r3, "request_id", e.requestId, None);
    FilledStill(event, r3, r, "strategy_id", e.strategyId, None);
    FilledStill(event, r3, r, "request_id", e.requestId, None);
    FilledStill(event, r3, r, "client_order_id", "", e.client);
  }

  /** No carried key is overwritten, and each missing one is filled in from the entry when it has a value. */
  lemma {:induction false} DefaultsKeep(event: Row, e: Entry)
    ensures var r := WithDefaults(event, e);
      && Extends(r, event)
      && FilledWith(r, event, "strategy_id", e.strategyId) && FilledWith(r, event, "request_id", e.requestId)
      && Filled(r, event, "client_order_id", e.client) && Filled(r, event, "venue_order_id", e.venue)
      && Filled(r, event, "symbol", e.symbol) && Filled(r, event, "data_name", e.symbol)
  {
    var r4 := IdsFilled(event, e);
    var r5 := SetDefaultIf(r4, "symbol", e.symbol);
    var r := SetDefaultIf(r5, "data_name", e.symbol);
    DefaultStep(r4, "symbol", "", e.symbol);
    DefaultStep(r5, "data_name", "", e.symbol);
    assert Filled(r5, event, "symbol", e.symbol) && Filled(r, event, "data_name", e.symbol);
    assert r == WithDefaults(event, e);
    hide SetDefault, SetDefaultIf, Extends, FilledWith, Filled, WithDefaults;
    FilledStill(event, r4, r5, "strategy_id", e.strategyId, e.symbol);
    FilledStill(event, r4, r5, "request_id", e.requestId, None);
    FilledStill(event, r4, r5, "client_order_id", "", e.client);
    FilledStill(event, r4, r5, "venue_order_id", "", e.venue);
    FilledStill(event, r5, r, "strategy_id", e.strategyId, None);
    FilledStill(event, r5, r, "request_id", e.requestId, None);
    FilledStill(event, r5, r, "client_order_id", "", e.client);
    FilledStill(event, r5, r, "venue_order_id", "", e.venue);
    FilledStill(event, r5, r, "symbol", "", e.symbol);
  }

  /** An event that carries ids of one live order, and otherwise only unknown ids, is enriched from that
      order's entry - by request id, by any client id it ever had, or by any venue id - and no key it carries
      is overwritten. */
  lemma {:induction false} EventReachesItsOrder(ops: seq<Op>, event: Row, n: nat)
    requires FreshRequests(ops) && Exclusive(Keep(ops)) && Live(Keep(ops).book, n)
    requires Concerns(Keep(ops), event, n)
    ensures var l := Keep(ops);
      && EntryForEvent(l.book, event) == Some(n)
      && Enrich(l.book, event).0 == WithDefaults(event, l.book.entries[n])
      && Extends(Enrich(l.book, event).0, event)
  {
    hide Sound, WithDefaults, IdsUnder, Keep, Concerns, EntryForEvent, EventOps, ApplyAll, Extends, Filled,
      FreshRequests, Exclusive;
    KeepSound(ops);
    var l := Keep(ops);
    DefaultsKeep(event, l.book.entries[n]);
    EntryIsOwn(l, event, n);
  }

  lemma {:induction false} EntryIsOwn(l: Ledger, event: Row, n: nat)
    requires Sound(l) && Live(l.book, n) && Concerns(l, event, n)
    ensures EntryForEvent(l.book, event) == Some(n)
  {
    OwnIndexed(l, n);
    hide Sound, IdsUnder, FirstKnown, OwnOrUnknown, SomeOwn, Live, OwnRequest;
    FirstOwn(l.book.byRequest, OwnRequest(l.book, n), IdsUnder(event, REQUEST_KEYS), n);
    FirstOwn(l.book.byClient, l.clients, IdsUnder(event, CLIENT_KEYS), n);
    FirstOwn(l.book.byVenue, l.venues, IdsUnder(event, VENUE_KEYS), n);
  }

  lemma OwnIndexed(l: Ledger, n: nat)
    requires Sound(l) && Live(l.book, n)
    ensures forall id :: (id, n) in OwnRequest(l.book, n) ==> id in l.book.byRequest && l.book.byRequest[id] == n
    ensures forall id :: (id, n) in l.clients ==> id in l.book.byClient && l.book.byClient[id] == n
    ensures forall id :: (id, n) in l.venues ==> id in l.book.byVenue && l.book.byVenue[id] == n
  {
    forall id | (id, n) in l.clients ensures id in l.book.byClient && l.book.byClient[id] == n {
      assert (id, n).0 in l.book.byClient;
    }
    forall id | (id, n) in l.venues ensures id in l.book.byVenue && l.book.byVenue[id] == n {
      assert (id, n).0 in l.book.byVenue;
    }
  }

  lemma {:induction false} KeepIsApply(ops: seq<Op>, more: seq<Op>)
    ensures Keep(ops + more).book == ApplyAll(Keep(ops).book, more)
  {
    if more == [] {
      assert ops + more == ops;
    } else {
      assert (ops + more)[..|ops + more| - 1] == ops + more[..|more| - 1];
      KeepIsApply(ops, more[..|more| - 1]);
    }
  }

  // The operations that an event teaches the map.
  function Taught(b: Book, event: Row): seq<Op> {
    var n := EntryForEvent(b, event);
    if n.None? || n.value >= |b.entries| then []
    else EventOps(WithDefaults(event, b.entries[n.value]), b.entries[n.value])
  }

  lemma {:induction false} NothingRegistered(ops: seq<Op>, more: seq<Op>)
    requires FreshRequests(ops) && forall op :: op in more ==> !op.Register?
    ensures FreshRequests(ops + more)
  {
    if more == [] {
      assert ops + more == ops;
    } else {
      assert (ops + more)[..|ops + more| - 1] == ops + more[..|more| - 1];
      NothingRegistered(ops, more[..|more| - 1]);
    }
  }

  /** What an event teaches the map is a run of the map's own operations, none of them a registration: the
      longer run registers nothing twice if the run before did not, and what holds of runs holds of it. */
  lemma {:induction false} EventsAreRuns(ops: seq<Op>, event: Row)
    ensures var more := Taught(Keep(ops).book, event);
      && Enrich(Keep(ops).book, event).1 == Keep(ops + more).book
      && (forall op :: op in more ==> !op.Register?)
      && (FreshRequests(ops) ==> FreshRequests(ops + more))
  {
    hide Keep, FreshRequests, EntryForEvent, NestedOrderText, StatusOf, WithDefaults;
    var more := Taught(Keep(ops).book, event);
    KeepIsApply(ops, more);
    if FreshRequests(ops) { NothingRegistered(ops, more); }
  }

  // ---------------------------------------------------------------- placing an order

  // Setting an id or the status of the order with request id req.
  predicate Sets(op: Op, req: string) {
    (op.SetClient? || op.SetVenue? || op.UpdateStatus?) && op.requestId == req
  }

  // Entry n is the live order with request id req.
  predicate IsOrder(b: Book, req: string, n: nat) {
    req in b.byRequest && b.byRequest[req] == n && Live(b, n)
  }

  predicate WasGiven(l: Ledger, op: Op, n: nat) {
    (op.SetClient? ==> (op.id, n) in l.clients) && (op.SetVenue? ==> (op.id, n) in l.venues)
  }

  lemma SetKeepsLive(l: Ledger, op: Op, req: string, n: nat)
    requires WellFormed(l.book) && IsOrder(l.book, req, n) && Sets(op, req)
    ensures IsOrder(Noted(l, op).book, req, n) && WasGiven(Noted(l, op), op, n)
    ensures l.clients <= Noted(l, op).clients && l.venues <= Noted(l, op).venues
  {
  }

  lemma GivenStill(l: Ledger, r: Ledger, op: Op, n: nat)
    requires WasGiven(l, op, n) && l.clients <= r.clients && l.venues <= r.venues
    ensures WasGiven(r, op, n)
  {
  }

  lemma {:induction false} SetsKeepLive(ops: seq<Op>, more: seq<Op>, req: string, n: nat)
    requires forall i :: 0 <= i < |more| ==> Sets(more[i], req)
    requires IsOrder(Keep(ops).book, req, n)
    ensures IsOrder(Keep(ops + more).book, req, n)
    ensures forall i :: 0 <= i < |more| ==> WasGiven(Keep(ops + more), more[i], n)
  {
    hide Noted, IsOrder, Sets, WasGiven;
    if more == [] {
      assert ops + more == ops;
    } else {
      var init, op := more[..|more| - 1], more[|more| - 1];
      assert (ops + more)[..|ops + more| - 1] == ops + init;
      SetsKeepLive(ops, init, req, n);
      var l := Keep(ops + init);
      assert Keep(ops + more) == Noted(l, op);
      hide Keep;
      SetKeepsLive(l, op, req, n);
      forall i | 0 <= i < |more| ensures WasGiven(Keep(ops + more), more[i], n) {
        if i < |init| {
          assert more[i] == init[i];
          GivenStill(l, Noted(l, op), init[i], n);
        }
      }
    }
  }

  // What is given to entry n under an id that may be missing.
  function GivenTo(id: Option<string>, n: nat): set<(string, nat)> {
    if Truthy(id) then {(id.value, n)} else {}
  }

  // Of the ids set, clients are all c and venues are all v.
  predicate SetsOnly(op: Op, req: string, c: Option<string>, v: Option<string>) {
    && Sets(op, req)
    && (op.SetClient? ==> Truthy(c) && op.id == c.value)
    && (op.SetVenue? ==> Truthy(v) && op.id == v.value)
  }

  lemma SetGives(l: Ledger, op: Op, req: string, n: nat, c: Option<string>, v: Option<string>)
    requires WellFormed(l.book) && IsOrder(l.book, req, n) && SetsOnly(op, req, c, v)
    ensures Noted(l, op).clients <= l.clients + GivenTo(c, n)
    ensures Noted(l, op).venues <= l.venues + GivenTo(v, n)
  {
  }

  lemma {:induction false} SetsGive(ops: seq<Op>, more: seq<Op>, req: string, n: nat, c: Option<string>,
                                    v: Option<string>)
    requires forall op :: op in more ==> SetsOnly(op, req, c, v)
    requires IsOrder(Keep(ops).book, req, n)
    ensures Keep(ops + more).clients <= Keep(ops).clients + GivenTo(c, n)
    ensures Keep(ops + more).venues <= Keep(ops).venues + GivenTo(v, n)
  {
    if more == [] {
      assert ops + more == ops;
    } else {
      var init, op := more[..|more| - 1], more[|more| - 1];
      assert (ops + more)[..|ops + more| - 1] == ops + init;
      assert forall i :: 0 <= i < |init| ==> init[i] in more;
      forall i | 0 <= i < |init| ensures Sets(init[i], req) { assert SetsOnly(init[i], req, c, v); }
      hide Noted, IsOrder, Sets, SetsOnly, GivenTo, WasGiven;
      SetsGive(ops, init, req, n, c, v);
      SetsKeepLive(ops, init, req, n);
      SetGives(Keep(ops + init), op, req, n, c, v);
    }
  }

  // An event's ids, given to nobody but n.
  predicate NobodyElse(given: set<(string, nat)>, id: Option<string>, n: nat) {
    Truthy(id) ==> forall p :: p in given && p.0 == id.value ==> p.1 == n
  }

  predicate LeadsTo(index: map<string, nat>, id: Option<string>, n: nat) {
    Truthy(id) ==> id.value in index && index[id.value] == n
  }

  lemma StaysExclusive(l: Ledger, r: Ledger, n: nat, c: Option<string>, v: Option<string>)
    requires Exclusive(l) && NobodyElse(l.clients, c, n) && NobodyElse(l.venues, v, n)
    requires r.clients <= l.clients + GivenTo(c, n) && r.venues <= l.venues + GivenTo(v, n)
    ensures Exclusive(r)
  {
  }

  /** Events keep routing right: after an event that concerns a live order and carries no id of anybody
      else, the map is a run of the same kind, the order is still live, and the client and venue id under
      which the enriched event goes on both lead to it - those the event has just taught the map included. */
  lemma {:induction false} LearnedIdsResolve(ops: seq<Op>, event: Row, n: nat)
    requires FreshRequests(ops) && Exclusive(Keep(ops)) && Live(Keep(ops).book, n)
    requires Concerns(Keep(ops), event, n)
    requires var l := Keep(ops);
      var enriched := WithDefaults(event, l.book.entries[n]);
      && NobodyElse(l.clients, NestedOrderText(enriched, CLIENT_KEYS), n)
      && NobodyElse(l.venues, NestedOrderText(enriched, VENUE_KEYS), n)
    ensures var b := Keep(ops).book;
      var (enriched, r) := Enrich(b, event);
      var all := ops + Taught(b, event);
      && FreshRequests(all) && Exclusive(Keep(all)) && r == Keep(all).book && Live(r, n)
      && LeadsTo(r.byClient, NestedOrderText(enriched, CLIENT_KEYS), n)
      && LeadsTo(r.byVenue, NestedOrderText(enriched, VENUE_KEYS), n)
  {
    var l := Keep(ops);
    var e := l.book.entries[n];
    hide Keep, FreshRequests, Exclusive, Sound, Concerns, EntryForEvent, NestedOrderText,
      StatusOf, WithDefaults, Extends,
      NobodyElse, Live, IsOrder, Sets;
    EventReachesItsOrder(ops, event, n);
    EventsAreRuns(ops, event);
    var enriched := WithDefaults(event, e);
    var c, v, more := NestedOrderText(enriched, CLIENT_KEYS),
      NestedOrderText(enriched, VENUE_KEYS), Taught(l.book, event);
    LiveIsOrder(l.book, n);
    TaughtSets(l.book, event, n);
    SetsGive(ops, more, e.requestId, n, c, v);
    SetsKeepLive(ops, more, e.requestId, n);
    StaysExclusive(l, Keep(ops + more), n, c, v);
    IsOrderLive(Keep(ops + more).book, e.requestId, n);
    IdsLead(ops, more, e, n, c, v);
  }

  lemma LiveIsOrder(b: Book, n: nat)
    requires Live(b, n)
    ensures IsOrder(b, b.entries[n].requestId, n)
  {
  }

  // The operations an event teaches set the ids it carries, unless they are the entry's already.
  lemma TaughtSets(b: Book, event: Row, n: nat)
    requires n < |b.entries| && EntryForEvent(b, event) == Some(n)
    ensures var e := b.entries[n];
      var enriched := WithDefaults(event, e);
      var c, v, more := NestedOrderText(enriched, CLIENT_KEYS), NestedOrderText(enriched, VENUE_KEYS), Taught(b, event);
      && (forall op :: op in more ==> SetsOnly(op, e.requestId, c, v))
      && (forall i :: 0 <= i < |more| ==> Sets(more[i], e.requestId))
      && (Truthy(c) ==> c == e.client || SetClient(e.requestId, c.value) in more)
      && (Truthy(v) ==> v == e.venue || SetVenue(e.requestId, v.value) in more)
  {
    hide EntryForEvent, NestedOrderText, StatusOf, WithDefaults;
    var e := b.entries[n];
    var enriched := WithDefaults(event, e);
    var c, v := NestedOrderText(enriched, CLIENT_KEYS), NestedOrderText(enriched, VENUE_KEYS);
    var cs, vs := ClientOp(c, e), VenueOp(v, e);
    if Truthy(c) && c != e.client { assert SetClient(e.requestId, c.value) == cs[0]; }
    if Truthy(v) && v != e.venue { assert SetVenue(e.requestId, v.value) == vs[0]; }
  }

  // An id that is the entry's already, or that one of the operations sets, leads to the entry.
  lemma {:induction false} IdsLead(ops: seq<Op>, more: seq<Op>, e: Entry, n: nat, c: Option<string>, v: Option<string>)
    requires FreshRequests(ops) && Exclusive(Keep(ops)) && Live(Keep(ops).book, n) && e == Keep(ops).book.entries[n]
    requires FreshRequests(ops + more) && Exclusive(Keep(ops + more)) && Live(Keep(ops + more).book, n)
    requires forall i :: 0 <= i < |more| ==> WasGiven(Keep(ops + more), more[i], n)
    requires Truthy(c) ==> c == e.client || SetClient(e.requestId, c.value) in more
    requires Truthy(v) ==> v == e.venue || SetVenue(e.requestId, v.value) in more
    ensures LeadsTo(Keep(ops + more).book.byClient, c, n) && LeadsTo(Keep(ops + more).book.byVenue, v, n)
  {
    GivenGrows(ops, more);
    KeepSound(ops);
    hide Keep, FreshRequests, Exclusive, Live, Tidy, Resolves, Given, IsOrder, Sets;
    if Truthy(c) { AliasesResolve(ops + more, c.value, n); }
    if Truthy(v) { AliasesResolve(ops + more, v.value, n); }
  }

  lemma {:induction false} GivenGrows(ops: seq<Op>, more: seq<Op>)
    ensures Keep(ops).clients <= Keep(ops + more).clients && Keep(ops).venues <= Keep(ops + more).venues
  {
    if more == [] {
      assert ops + more == ops;
    } else {
      assert (ops + more)[..|ops + more| - 1] == ops + more[..|more| - 1];
      GivenGrows(ops, more[..|more| - 1]);
    }
  }

  lemma RegisteredIsOrder(ops: seq<Op>, op: Op)
    requires op.Register?
    ensures IsOrder(Keep(ops + [op]).book, op.requestId, |Keep(ops).book.entries|)
    ensures GivenTo(op.client, |Keep(ops).book.entries|) <= Keep(ops + [op]).clients
  {
    assert (ops + [op])[..|ops|] == ops;
  }

  /** After place_order, every id it recorded - the payload's, the allocated order ref, the client and venue ids
      in the adapter's answer - resolves to the order just registered. */
  lemma {:induction false} PlacedOrderResolves(ops: seq<Op>, req: string, strategy: string, symbol: Option<string>,
                                               payload: Row, orderRef: Option<string>, results: seq<Row>)
    requires var all := ops + PlaceOps(req, strategy, symbol, payload, orderRef, results);
      FreshRequests(all) && Exclusive(Keep(all))
    ensures var n := |Keep(ops).book.entries|;
      var b := Keep(ops + PlaceOps(req, strategy, symbol, payload, orderRef, results)).book;
      var rows := results + [PayloadSent(payload, orderRef)];
      && Live(b, n) && b.byRequest[b.entries[n].requestId] == n
      && LeadsTo(b.byClient, OrderText(payload, PAYLOAD_CLIENT_KEYS), n)
      && (orderRef.Some? ==> orderRef.value in b.byClient && b.byClient[orderRef.value] == n)
      && (var c := FirstText(rows, RESULT_CLIENT_KEYS);
          Truthy(c) ==> c.value in b.byClient && b.byClient[c.value] == n)
      && (var v := FirstText(rows, VENUE_KEYS);
          Truthy(v) ==> v.value in b.byVenue && b.byVenue[v.value] == n)
  {
    hide Keep, PlaceOps, FirstText, PayloadSent, FreshRequests, Exclusive, Sets, Truthy, WasGiven;
    var place := PlaceOps(req, strategy, symbol, payload, orderRef, results);
    var n, all, more := |Keep(ops).book.entries|, ops + place, place[1..];
    PlaceShape(req, strategy, symbol, payload, orderRef, results);
    RegisteredIsOrder(ops, place[0]);
    assert ops + [place[0]] + more == all;
    SetsKeepLive(ops + [place[0]], more, req, n);
    hide IsOrder;
    IsOrderLive(Keep(all).book, req, n);
    forall op | op in more ensures Found(Keep(all).book, op, n) {
      GivenIsFound(all, op, n);
    }
    GivenGrows(ops + [place[0]], more);
    GivenLeads(all, OrderText(payload, PAYLOAD_CLIENT_KEYS), n);
  }

  lemma GivenLeads(ops: seq<Op>, id: Option<string>, n: nat)
    requires FreshRequests(ops) && Exclusive(Keep(ops)) && Live(Keep(ops).book, n)
    requires GivenTo(id, n) <= Keep(ops).clients
    ensures LeadsTo(Keep(ops).book.byClient, id, n)
  {
    hide Keep, FreshRequests, Exclusive, Live;
    if Truthy(id) {
      assert (id.value, n) in GivenTo(id, n);
      AliasesResolve(ops, id.value, n);
    }
  }

  lemma IsOrderLive(b: Book, req: string, n: nat)
    requires IsOrder(b, req, n)
    ensures Live(b, n)
  {
  }

  // The id that op sets leads to entry n.
  predicate Found(b: Book, op: Op, n: nat) {
    && (op.SetClient? ==> op.id in b.byClient && b.byClient[op.id] == n)
    && (op.SetVenue? ==> op.id in b.byVenue && b.byVenue[op.id] == n)
  }

  lemma GivenIsFound(ops: seq<Op>, op: Op, n: nat)
    requires FreshRequests(ops) && Exclusive(Keep(ops)) && Live(Keep(ops).book, n) && WasGiven(Keep(ops), op, n)
    ensures Found(Keep(ops).book, op, n)
  {
    hide Keep, FreshRequests, Exclusive, Live;
    if op.SetClient? || op.SetVenue? { AliasesResolve(ops, op.id, n); }
  }

  // After the registration, place_order only sets ids of the order registered.
  lemma PlaceShape(req: string, strategy: string, symbol: Option<string>, payload: Row, orderRef: Option<string>,
                   results: seq<Row>)
    ensures var place := PlaceOps(req, strategy, symbol, payload, orderRef, results);
      var rows := results + [PayloadSent(payload, orderRef)];
      var c, v := FirstText(rows, RESULT_CLIENT_KEYS), FirstText(rows, VENUE_KEYS);
      var more := place[1..];
      && place == [place[0]] + more && place[0].Register? && place[0].requestId == req
      && place[0].client == OrderText(payload, PAYLOAD_CLIENT_KEYS)
      && (forall i :: 0 <= i < |more| ==> Sets(more[i], req))
      && (orderRef.Some? ==> SetClient(req, orderRef.value) in more)
      && (Truthy(c) ==> SetClient(req, c.value) in more)
      && (Truthy(v) ==> SetVenue(req, v.value) in more)
  {
    hide FirstText, PayloadSent, OrderText, NestedOrderText;
    var place := PlaceOps(req, strategy, symbol, payload, orderRef, results);
    var rows := results + [PayloadSent(payload, orderRef)];
    var c, v := FirstText(rows, RESULT_CLIENT_KEYS), FirstText(rows, VENUE_KEYS);
    var more := place[1..];
    if orderRef.Some? { assert more[0] == SetClient(req, orderRef.value); }
    if Truthy(c) { assert more[if orderRef.Some? then 1 else 0] == SetClient(req, c.value); }
    if Truthy(v) { assert more[|more| - 1] == SetVenue(req, v.value); }
  }
}
