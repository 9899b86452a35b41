/**
 How ids are read from order and event dictionaries, and what reading them leads to (gateway/runtime_remote.py),
 in terms of the dictionaries themselves.
 */
module OrderReading {
  import opened Base
  import opened OrderIdentity
  import opened OrderRouting
  import opened OrderTheorems

  // ---------------------------------------------------------------- text under a key

  predicate AllSpace(s: string) {
    forall i :: 0 <= i < |s| ==> IsSpace(s[i])
  }

  /** Stripping takes white space off both ends and nothing else, and leaves none there. */
  lemma {:induction false} StripIs(s: string) returns (a: string, b: string)
    ensures s == a + Strip(s) + b && AllSpace(a) && AllSpace(b)
    ensures Strip(s) != "" ==> !IsSpace(Strip(s)[0]) && !IsSpace(Strip(s)[|Strip(s)| - 1])
    decreases |s|
  {
    hide IsSpace;
    if s != "" && IsSpace(s[0]) {
      a, b := StripIs(s[1..]);
      a := [s[0]] + a;
    } else if s != "" && IsSpace(s[|s| - 1]) {
      a, b := StripIs(s[..|s| - 1]);
      b := b + [s[|s| - 1]];
    } else {
      a, b := "", "";
    }
  }

  // A value other than None and "" under the key.
  predicate Present(row: Row, key: string) {
    key in row && row[key] != Null && row[key] != Text("")
  }

  // Key i is the first with a value, and id is its text, stripped.
  predicate TextUnder(row: Row, keys: seq<string>, i: nat, id: string) {
    && i < |keys| && Present(row, keys[i]) && id == Strip(StrOf(row[keys[i]]))
    && forall j :: 0 <= j < i ==> !Present(row, keys[j])
  }

  lemma {:induction false} OrderTextIff(row: Row, keys: seq<string>, id: string)
    ensures OrderText(row, keys) == Some(id) <==> exists i: nat :: TextUnder(row, keys, i, id)
  {
    hide Strip;
    if keys != [] {
      OrderTextIff(row, keys[1..], id);
      if Present(row, keys[0]) {
        assert OrderText(row, keys) == Some(id) <==> TextUnder(row, keys, 0, id);
      } else {
        if i: nat :| TextUnder(row, keys, i, id) { assert TextUnder(row, keys[1..], i - 1, id); }
        if i: nat :| TextUnder(row, keys[1..], i, id) {
          forall j | 0 <= j < i + 1 ensures !Present(row, keys[j]) {
            if j > 0 { assert keys[j] == keys[1..][j - 1]; }
          }
          assert TextUnder(row, keys, i + 1, id);
        }
      }
    }
  }

  predicate HasDetails(row: Row) {
    "details" in row && row["details"].Nested?
  }

  /** An id is read from the dictionary itself, under the first key with a value; and if that gives nothing but
      white space, or there is none, from its details in the same way. */
  lemma NestedTextIff(row: Row, keys: seq<string>, id: string)
    requires id != ""
    ensures NestedOrderText(row, keys) == Some(id) <==>
            || (exists i: nat :: TextUnder(row, keys, i, id))
            || ((forall i: nat, t :: TextUnder(row, keys, i, t) ==> t == "") && HasDetails(row)
                && exists i: nat :: TextUnder(row["details"].fields, keys, i, id))
  {
    OrderTextIff(row, keys, id);
    if HasDetails(row) { OrderTextIff(row["details"].fields, keys, id); }
    var direct := OrderText(row, keys);
    if direct.Some? { OrderTextIff(row, keys, direct.value); }
    forall i: nat, t | TextUnder(row, keys, i, t) ensures direct == Some(t) { OrderTextIff(row, keys, t); }
    hide OrderText, TextUnder;
  }

  // ---------------------------------------------------------------- one key carries an id

  // A text under the key that is id but for white space around it.
  predicate HoldsText(row: Row, key: string, id: string) {
    key in row && row[key].Text? && Strip(row[key].text) == id
  }

  // Nothing under the key, or None, or white space.
  predicate Unusable(row: Row, key: string) {
    key !in row || row[key] == Null || Strip(StrOf(row[key])) == ""
  }

  // The id is under the key in the event itself, or, when the event has nothing usable there, in its details.
  predicate Carries(event: Row, key: string, id: string) {
    id != "" &&
    (HoldsText(event, key, id)
     || (Unusable(event, key) && HasDetails(event) && HoldsText(event["details"].fields, key, id)))
  }

  // The key is neither in the event nor in its details.
  predicate Lacks(event: Row, key: string) {
    key !in event && (HasDetails(event) ==> key !in event["details"].fields)
  }

  predicate NoRepeats(keys: seq<string>) {
    forall i, j :: 0 <= i < j < |keys| ==> keys[i] != keys[j]
  }

  // Of these keys the event has at most the one named.
  predicate OnlyKey(event: Row, keys: seq<string>, key: string) {
    forall i :: 0 <= i < |keys| && keys[i] != key ==> Lacks(event, keys[i])
  }

  lemma EmptyStrips()
    ensures Strip("") == ""
  {
  }

  lemma {:induction false} OnlyText(row: Row, keys: seq<string>, key: string)
    requires forall i :: 0 <= i < |keys| && keys[i] != key ==> keys[i] !in row
    ensures key !in keys || !Present(row, key) ==> OrderText(row, keys) == None
    ensures key in keys && Present(row, key) ==> OrderText(row, keys) == Some(Strip(StrOf(row[key])))
  {
    hide Strip;
    if keys != [] { OnlyText(row, keys[1..], key); }
  }

  lemma CarriedIsRead(event: Row, keys: seq<string>, key: string, id: string)
    requires key in keys && Carries(event, key, id) && OnlyKey(event, keys, key)
    ensures NestedOrderText(event, keys) == Some(id)
  {
    EmptyStrips();
    OnlyText(event, keys, key);
    if HasDetails(event) { OnlyText(event["details"].fields, keys, key); }
    hide OrderText, Strip;
  }

  lemma LackedIsNotRead(event: Row, keys: seq<string>)
    requires forall i :: 0 <= i < |keys| ==> Lacks(event, keys[i])
    ensures NestedOrderText(event, keys) == None
  {
    EmptyStrips();
    var key := if keys == [] then "" else keys[0];
    OnlyText(event, keys, key);
    if HasDetails(event) { OnlyText(event["details"].fields, keys, key); }
    hide OrderText, Strip;
  }

  lemma {:induction false} OneIdUnder(event: Row, keys: seq<string>, key: string, id: string)
    requires NoRepeats(keys) && OnlyKey(event, keys, key)
    requires key in keys ==> Carries(event, key, id)
    ensures IdsUnder(event, keys) == if key in keys then [id] else []
  {
    hide Carries, Lacks, NestedOrderText;
    if keys != [] {
      var rest := keys[1..];
      forall i | 0 <= i < |rest| && rest[i] != key ensures Lacks(event, rest[i]) { assert rest[i] == keys[i + 1]; }
      OneIdUnder(event, rest, key, id);
      if keys[0] == key {
        assert key !in rest;
        CarriedIsRead(event, [key], key, id);
        CarriesSome(event, key, id);
      } else {
        LackedIsNotRead(event, [keys[0]]);
      }
    }
  }

  lemma CarriesSome(event: Row, key: string, id: string)
    requires Carries(event, key, id)
    ensures id != ""
  {
  }

  // ---------------------------------------------------------------- an event with one id

  // Of all keys an event is looked up by, it has only this one, and the id is under it.
  predicate OnlyId(event: Row, key: string, id: string) {
    && Carries(event, key, id)
    && OnlyKey(event, REQUEST_KEYS, key) && OnlyKey(event, CLIENT_KEYS, key) && OnlyKey(event, VENUE_KEYS, key)
  }

  // The id was given to entry n in the sense of the key.
  predicate IdOf(l: Ledger, n: nat, key: string, id: string)
    requires n < |l.book.entries|
  {
    || (key in REQUEST_KEYS && id == l.book.entries[n].requestId)
    || (key in CLIENT_KEYS && (id, n) in l.clients)
    || (key in VENUE_KEYS && (id, n) in l.venues)
  }

  lemma KeysApart(key: string)
    ensures NoRepeats(REQUEST_KEYS) && NoRepeats(CLIENT_KEYS) && NoRepeats(VENUE_KEYS)
    ensures key in REQUEST_KEYS ==> key !in CLIENT_KEYS && key !in VENUE_KEYS
    ensures key in CLIENT_KEYS ==> key !in VENUE_KEYS
  {
  }

  lemma OnlyIdConcerns(l: Ledger, event: Row, n: nat, key: string, id: string)
    requires n < |l.book.entries| && OnlyId(event, key, id) && IdOf(l, n, key, id)
    ensures Concerns(l, event, n)
  {
    KeysApart(key);
    OneIdUnder(event, REQUEST_KEYS, key, id);
    OneIdUnder(event, CLIENT_KEYS, key, id);
    OneIdUnder(event, VENUE_KEYS, key, id);
    hide IdsUnder, Carries, OnlyKey;
    assert [id][0] == id;
  }

  /** An event that carries one id of a live order, under any of the listed keys, in the event itself or only in its
      details, and none of the other listed keys, reaches that order: every default is filled in from its entry and
      no carried key is overwritten. */
  lemma OneIdReaches(ops: seq<Op>, event: Row, n: nat, key: string, id: string)
    requires FreshRequests(ops) && Exclusive(Keep(ops)) && Live(Keep(ops).book, n)
    requires OnlyId(event, key, id) && IdOf(Keep(ops), n, key, id)
    ensures var b := Keep(ops).book;
      var e, r := b.entries[n], Enrich(b, event).0;
      && EntryForEvent(b, event) == Some(n)
      && Extends(r, event)
      && FilledWith(r, event, "strategy_id", e.strategyId) && FilledWith(r, event, "request_id", e.requestId)
      && Filled(r, event, "client_order_id", e.client) && Filled(r, event, "venue_order_id", e.venue)
      && Filled(r, event, "symbol", e.symbol) && Filled(r, event, "data_name", e.symbol)
  {
    OnlyIdConcerns(Keep(ops), event, n, key, id);
    hide Keep, FreshRequests, Exclusive, Concerns, OnlyId, IdOf, EntryForEvent, WithDefaults, Extends, FilledWith,
      Filled;
    EventReachesItsOrder(ops, event, n);
    DefaultsKeep(event, Keep(ops).book.entries[n]);
  }

  /** A request id that leads to an order wins over client and venue ids; and a client id over venue ids when no
      request id leads anywhere. */
  lemma FirstKindWins(b: Book, event: Row, key: string, id: string)
    requires Carries(event, key, id)
    ensures key in REQUEST_KEYS && OnlyKey(event, REQUEST_KEYS, key) && id in b.byRequest ==>
              EntryForEvent(b, event) == Some(b.byRequest[id])
    ensures key in CLIENT_KEYS && OnlyKey(event, CLIENT_KEYS, key) && id in b.byClient
            && (forall i :: 0 <= i < |REQUEST_KEYS| ==> Lacks(event, REQUEST_KEYS[i])) ==>
              EntryForEvent(b, event) == Some(b.byClient[id])
  {
    KeysApart(key);
    assert [id][0] == id;
    if key in REQUEST_KEYS && OnlyKey(event, REQUEST_KEYS, key) { OneIdUnder(event, REQUEST_KEYS, key, id); }
    if key in CLIENT_KEYS && OnlyKey(event, CLIENT_KEYS, key)
       && (forall i :: 0 <= i < |REQUEST_KEYS| ==> Lacks(event, REQUEST_KEYS[i])) {
      OneIdUnder(event, CLIENT_KEYS, key, id);
      OneIdUnder(event, REQUEST_KEYS, key, id);
    }
    hide IdsUnder, Carries, OnlyKey, Lacks;
  }

  // ---------------------------------------------------------------- the status an event brings

  lemma UpdateSets(l: Ledger, req: string, status: string, n: nat)
    requires WellFormed(l.book) && IsOrder(l.book, req, n)
    ensures n < |Noted(l, UpdateStatus(req, status)).book.entries|
    ensures Noted(l, UpdateStatus(req, status)).book.entries[n].status == status
  {
  }

  lemma {:induction false} LastUpdateSets(ops: seq<Op>, more: seq<Op>, req: string, n: nat)
    requires more != [] && more[|more| - 1].UpdateStatus? && forall i :: 0 <= i < |more| ==> Sets(more[i], req)
    requires IsOrder(Keep(ops).book, req, n)
    ensures n < |Keep(ops + more).book.entries|
    ensures Keep(ops + more).book.entries[n].status == more[|more| - 1].status
  {
    var init, last := more[..|more| - 1], more[|more| - 1];
    assert (ops + more)[..|ops + more| - 1] == ops + init;
    assert Sets(last, req) && last == UpdateStatus(req, last.status);
    assert Keep(ops + more) == Noted(Keep(ops + init), last);
    hide Keep, Noted, IsOrder, Sets;
    SetsKeepLive(ops, init, req, n);
    UpdateSets(Keep(ops + init), req, last.status, n);
  }

  /** An event that concerns a live order and carries a status text records it, stripped, on that order. */
  lemma StatusRecorded(ops: seq<Op>, event: Row, n: nat, status: string)
    requires FreshRequests(ops) && Exclusive(Keep(ops)) && Live(Keep(ops).book, n) && Concerns(Keep(ops), event, n)
    requires status != "" && HoldsText(event, "status", status)
    ensures n < |Enrich(Keep(ops).book, event).1.entries|
    ensures Enrich(Keep(ops).book, event).1.entries[n].status == status
  {
    var b := Keep(ops).book;
    var e, more := b.entries[n], Taught(b, event);
    LiveIsOrder(b, n);
    EnrichedStatus(event, e, status);
    hide *;
    EventReachesItsOrder(ops, event, n);
    EventsAreRuns(ops, event);
    TaughtEndsWithStatus(b, event, n);
    LastUpdateSets(ops, more, e.requestId, n);
  }

  lemma EnrichedStatus(event: Row, e: Entry, status: string)
    requires status != "" && HoldsText(event, "status", status)
    ensures StatusOf(WithDefaults(event, e)) == status
  {
    EmptyStrips();
    DefaultsKeep(event, e);
    hide WithDefaults, Strip, FilledWith, Filled;
  }

  // What an event with a status teaches: sets on its order, and the status last.
  lemma TaughtEndsWithStatus(b: Book, event: Row, n: nat)
    requires n < |b.entries| && EntryForEvent(b, event) == Some(n)
    requires StatusOf(WithDefaults(event, b.entries[n])) != ""
    ensures var e, more := b.entries[n], Taught(b, event);
      && more != [] && more[|more| - 1] == UpdateStatus(e.requestId, StatusOf(WithDefaults(event, e)))
      && forall i :: 0 <= i < |more| ==> Sets(more[i], e.requestId)
  {
    TaughtSets(b, event, n);
    LastIsUpdate(WithDefaults(event, b.entries[n]), b.entries[n]);
    hide EntryForEvent, WithDefaults, EventOps, Sets, SetsOnly;
  }

  lemma LastIsUpdate(event: Row, e: Entry)
    requires StatusOf(event) != ""
    ensures var ops := EventOps(event, e);
      ops != [] && ops[|ops| - 1] == UpdateStatus(e.requestId, StatusOf(event))
  {
    hide StatusOf, NestedOrderText, ClientOp, VenueOp;
  }

  // ---------------------------------------------------------------- the order's own record

  // What has been told about the order with this request id, op by op: a record of its own, with no other order,
  // index or shared object in it.
  function Told(ops: seq<Op>, req: string): Entry {
    if ops == [] then Entry(req, "", None, None, None, "")
    else
      var init, op := ops[..|ops| - 1], ops[|ops| - 1];
      var b := Keep(init).book;
      match op
      case Register(r, strategy, client, venue, symbol) =>
        if r == req then Entry(req, strategy, client, venue, symbol, "pending") else Told(init, req)
      case SetClient(r, id) => if r == req then Told(init, req).(client := Some(id)) else Told(init, req)
      case SetVenue(r, id) => if r == req then Told(init, req).(venue := Some(id)) else Told(init, req)
      case UpdateStatus(r, status) => if r == req then Told(init, req).(status := status) else Told(init, req)
      case SetVenueByClient(c, id) =>
        if c in b.byClient && req in b.byRequest && b.byClient[c] == b.byRequest[req]
        then Told(init, req).(venue := Some(id)) else Told(init, req)
      case Remove(_) => Told(init, req)
  }

  /** The map keeps every live order's record as if it kept no other: strategy and symbol as registered, and the
      client id, venue id and status last set for it, whatever has happened to other orders in between. */
  lemma {:induction false} EntryAsTold(ops: seq<Op>, req: string)
    requires FreshRequests(ops) && Exclusive(Keep(ops)) && req in Keep(ops).book.byRequest
    ensures var b := Keep(ops).book; b.entries[b.byRequest[req]] == Told(ops, req)
  {
    var init, op := ops[..|ops| - 1], ops[|ops| - 1];
    var l, b := Keep(init), Keep(init).book;
    assert l.clients <= Keep(ops).clients && l.venues <= Keep(ops).venues;
    KeepSound(init);
    if !(op.Register? && op.requestId == req) {
      assert req in b.byRequest;
      EntryAsTold(init, req);
      OneOpTold(l, op, req);
    }
  }

  // One operation on the map, seen from the entry of one live order.
  lemma OneOpTold(l: Ledger, op: Op, req: string)
    requires Tidy(l) && req in l.book.byRequest && req in Apply(l.book, op).byRequest
    requires op.Register? ==> op.requestId != req
    ensures var b, r := l.book, Apply(l.book, op);
      var n := b.byRequest[req];
      && r.byRequest[req] == n
      && r.entries[n] ==
         match op
         case SetClient(q, id) => if q == req then b.entries[n].(client := Some(id)) else b.entries[n]
         case SetVenue(q, id) => if q == req then b.entries[n].(venue := Some(id)) else b.entries[n]
         case UpdateStatus(q, status) => if q == req then b.entries[n].(status := status) else b.entries[n]
         case SetVenueByClient(c, id) =>
           if c in b.byClient && b.byClient[c] == n then b.entries[n].(venue := Some(id)) else b.entries[n]
         case _ => b.entries[n]
  {
    assert l.book.entries[l.book.byRequest[req]].requestId == req;
  }

  // ---------------------------------------------------------------- placing an order

  /** What the adapter is sent: the payload with nothing changed but its client order id, which is the allocated ref
      if there is one; without one, the payload's own if it has any, else the text under order_ref or bt_order_ref. */
  lemma SentClientId(payload: Row, orderRef: Option<string>, id: string, key: string)
    ensures var sent := PayloadSent(payload, orderRef);
      && (forall k :: k != "client_order_id" ==> (k in sent <==> k in payload) && (k in sent ==> sent[k] == payload[k]))
      && (orderRef.Some? ==> HasText(sent, "client_order_id", orderRef.value))
      && (orderRef.None? && Yes(payload, "client_order_id") ==> sent == payload)
      && ((orderRef.None? && (key == "order_ref" || key == "bt_order_ref") && id != "" && HoldsText(payload, key, id)
           && OnlyKeyHere(payload, PAYLOAD_CLIENT_KEYS, key)) ==> HasText(sent, "client_order_id", id))
  {
    EmptyStrips();
    if key == "order_ref" || key == "bt_order_ref" {
      assert key == PAYLOAD_CLIENT_KEYS[1] || key == PAYLOAD_CLIENT_KEYS[2];
      assert PAYLOAD_CLIENT_KEYS[0] == "client_order_id";
      if OnlyKeyHere(payload, PAYLOAD_CLIENT_KEYS, key) { OnlyText(payload, PAYLOAD_CLIENT_KEYS, key); }
    }
    hide OrderText, Strip;
  }

  function Latest(first: Option<string>, other: Option<string>): Option<string> {
    if Truthy(first) then first else other
  }

  lemma ToldMore(ops: seq<Op>, op: Op, req: string)
    requires (op.Register? || op.SetClient? || op.SetVenue?) && op.requestId == req
    ensures op.Register? ==>
              Told(ops + [op], req) == Entry(req, op.strategyId, op.client, op.venue, op.symbol, "pending")
    ensures op.SetClient? ==> Told(ops + [op], req) == Told(ops, req).(client := Some(op.id))
    ensures op.SetVenue? ==> Told(ops + [op], req) == Told(ops, req).(venue := Some(op.id))
  {
    assert (ops + [op])[..|ops|] == ops;
  }

  /** The record place_order leaves: the strategy and symbol of the command, pending, under the client id of the
      answer, else the allocated ref, else the payload's own; and the venue id of the answer, if it has one. */
  lemma PlacedRecord(ops: seq<Op>, req: string, strategy: string, symbol: Option<string>, payload: Row,
                     orderRef: Option<string>, results: seq<Row>)
    requires var all := ops + PlaceOps(req, strategy, symbol, payload, orderRef, results);
      FreshRequests(all) && Exclusive(Keep(all))
    ensures var n, rows := |Keep(ops).book.entries|, results + [PayloadSent(payload, orderRef)];
      var b := Keep(ops + PlaceOps(req, strategy, symbol, payload, orderRef, results)).book;
      var c, v := FirstText(rows, RESULT_CLIENT_KEYS), FirstText(rows, VENUE_KEYS);
      && req in b.byRequest && b.byRequest[req] == n && n < |b.entries|
      && b.entries[n] == Entry(req, strategy,
           Latest(c, if orderRef.Some? then orderRef else OrderText(payload, PAYLOAD_CLIENT_KEYS)),
           if Truthy(v) then v else None, symbol, "pending")
  {
    hide *;
    PlacedIsOrder(ops, req, strategy, symbol, payload, orderRef, results);
    EntryAsTold(ops + PlaceOps(req, strategy, symbol, payload, orderRef, results), req);
    PlacedAs(ops, req, strategy, symbol, payload, orderRef, results);
  }

  lemma PlacedIsOrder(ops: seq<Op>, req: string, strategy: string, symbol: Option<string>, payload: Row,
                      orderRef: Option<string>, results: seq<Row>)
    ensures var n := |Keep(ops).book.entries|;
      var b := Keep(ops + PlaceOps(req, strategy, symbol, payload, orderRef, results)).book;
      req in b.byRequest && b.byRequest[req] == n && n < |b.entries|
  {
    var place, n := PlaceOps(req, strategy, symbol, payload, orderRef, results), |Keep(ops).book.entries|;
    PlaceShape(req, strategy, symbol, payload, orderRef, results);
    hide Keep, PlaceOps, IsOrder, Sets;
    RegisteredIsOrder(ops, place[0]);
    assert ops + [place[0]] + place[1..] == ops + place;
    SetsKeepLive(ops + [place[0]], place[1..], req, n);
    OrderIsIndexed(Keep(ops + place).book, req, n);
  }

  lemma PlacedAs(ops: seq<Op>, req: string, strategy: string, symbol: Option<string>, payload: Row,
                 orderRef: Option<string>, results: seq<Row>)
    ensures var rows := results + [PayloadSent(payload, orderRef)];
      var c, v := FirstText(rows, RESULT_CLIENT_KEYS), FirstText(rows, VENUE_KEYS);
      Told(ops + PlaceOps(req, strategy, symbol, payload, orderRef, results), req) ==
      Entry(req, strategy,
            Latest(c, if orderRef.Some? then orderRef else OrderText(payload, PAYLOAD_CLIENT_KEYS)),
            if Truthy(v) then v else None, symbol, "pending")
  {
    hide FirstText, PayloadSent, OrderText, Told, Latest, Truthy;
    var rows := results + [PayloadSent(payload, orderRef)];
    var c, v := FirstText(rows, RESULT_CLIENT_KEYS), FirstText(rows, VENUE_KEYS);
    var own := OrderText(payload, PAYLOAD_CLIENT_KEYS);
    PlacedTold(ops, req, strategy, symbol, own, orderRef, c, v);
  }

  // place_order's operations, given the ids found.
  function PlacedOps(req: string, strategy: string, symbol: Option<string>, own: Option<string>,
                     orderRef: Option<string>, c: Option<string>, v: Option<string>): seq<Op> {
    [Op.Register(req, strategy, own, None, symbol)] + RefOps(req, orderRef)
    + ((if Truthy(c) then [SetClient(req, c.value)] else []) + if Truthy(v) then [SetVenue(req, v.value)] else [])
  }

  lemma PlacedTold(ops: seq<Op>, req: string, strategy: string, symbol: Option<string>, own: Option<string>,
                   orderRef: Option<string>, c: Option<string>, v: Option<string>)
    ensures Told(ops + PlacedOps(req, strategy, symbol, own, orderRef, c, v), req) ==
            Entry(req, strategy, Latest(c, if orderRef.Some? then orderRef else own), if Truthy(v) then v else None,
                  symbol, "pending")
  {
    hide Told;
    var register := Op.Register(req, strategy, own, None, symbol);
    var clientOps := if Truthy(c) then [SetClient(req, c.value)] else [];
    var venueOps := if Truthy(v) then [SetVenue(req, v.value)] else [];
    var one := ops + [register];
    var two := one + RefOps(req, orderRef);
    var three := two + clientOps;
    assert ops + PlacedOps(req, strategy, symbol, own, orderRef, c, v) == three + venueOps;
    ToldMore(ops, register, req);
    ToldMaybe(one, RefOps(req, orderRef), req);
    ToldMaybe(two, clientOps, req);
    ToldMaybe(three, venueOps, req);
  }

  // At most one id set.
  lemma ToldMaybe(ops: seq<Op>, more: seq<Op>, req: string)
    requires |more| <= 1 && (more != [] ==> (more[0].SetClient? || more[0].SetVenue?) && more[0].requestId == req)
    ensures Told(ops + more, req) ==
            if more == [] then Told(ops, req)
            else if more[0].SetClient? then Told(ops, req).(client := Some(more[0].id))
            else Told(ops, req).(venue := Some(more[0].id))
  {
    if more == [] {
      assert ops + more == ops;
    } else {
      assert more == [more[0]];
      ToldMore(ops, more[0], req);
    }
  }

  lemma OrderIsIndexed(b: Book, req: string, n: nat)
    requires IsOrder(b, req, n)
    ensures req in b.byRequest && b.byRequest[req] == n && n < |b.entries|
  {
  }

  predicate HasText(row: Row, key: string, s: string) {
    key in row && row[key] == Text(s)
  }

  predicate OnlyKeyHere(row: Row, keys: seq<string>, key: string) {
    forall i :: 0 <= i < |keys| && keys[i] != key ==> keys[i] !in row
  }

  lemma {:induction false} FirstCarried(before: seq<Row>, row: Row, after: seq<Row>, keys: seq<string>,
                                        key: string, id: string)
    requires key in keys && Carries(row, key, id) && OnlyKey(row, keys, key)
    requires forall r, i :: r in before && 0 <= i < |keys| ==> Lacks(r, keys[i])
    ensures FirstText(before + [row] + after, keys) == Some(id)
  {
    hide Carries, Lacks, NestedOrderText;
    var rows := before + [row] + after;
    if before == [] {
      assert rows[0] == row;
      CarriedIsRead(row, keys, key, id);
      CarriesSome(row, key, id);
    } else {
      assert rows[0] == before[0] && rows[1..] == before[1..] + [row] + after;
      assert before[0] in before && forall r :: r in before[1..] ==> r in before;
      LackedIsNotRead(before[0], keys);
      FirstCarried(before[1..], row, after, keys, key, id);
    }
  }

  /** The ids in an adapter's answer are recorded: if the first of its dictionaries that has any of the listed client
      keys carries an id under one of them alone, in itself or only in its details, that id leads to the new order;
      and the same for venue keys. */
  lemma AnswerRecorded(ops: seq<Op>, req: string, strategy: string, symbol: Option<string>, payload: Row,
                       orderRef: Option<string>, before: seq<Row>, answer: Row, after: seq<Row>, key: string,
                       id: string)
    requires var all := ops + PlaceOps(req, strategy, symbol, payload, orderRef, before + [answer] + after);
      FreshRequests(all) && Exclusive(Keep(all))
    requires Carries(answer, key, id)
    ensures var n := |Keep(ops).book.entries|;
      var b := Keep(ops + PlaceOps(req, strategy, symbol, payload, orderRef, before + [answer] + after)).book;
      && (key in RESULT_CLIENT_KEYS && OnlyKey(answer, RESULT_CLIENT_KEYS, key)
          && (forall r, i :: r in before && 0 <= i < |RESULT_CLIENT_KEYS| ==> Lacks(r, RESULT_CLIENT_KEYS[i]))
          ==> id in b.byClient && b.byClient[id] == n)
      && (key in VENUE_KEYS && OnlyKey(answer, VENUE_KEYS, key)
          && (forall r, i :: r in before && 0 <= i < |VENUE_KEYS| ==> Lacks(r, VENUE_KEYS[i]))
          ==> id in b.byVenue && b.byVenue[id] == n)
  {
    var results := before + [answer] + after;
    CarriesSome(answer, key, id);
    hide Keep, PlaceOps, FreshRequests, Exclusive, PayloadSent, FirstText, Carries, Lacks, OnlyKey;
    PlacedOrderResolves(ops, req, strategy, symbol, payload, orderRef, results);
    var sent := PayloadSent(payload, orderRef);
    assert results + [sent] == before + [answer] + (after + [sent]);
    if key in RESULT_CLIENT_KEYS && OnlyKey(answer, RESULT_CLIENT_KEYS, key)
       && (forall r, i :: r in before && 0 <= i < |RESULT_CLIENT_KEYS| ==> Lacks(r, RESULT_CLIENT_KEYS[i])) {
      FirstCarried(before, answer, after + [sent], RESULT_CLIENT_KEYS, key, id);
    }
    if key in VENUE_KEYS && OnlyKey(answer, VENUE_KEYS, key)
       && (forall r, i :: r in before && 0 <= i < |VENUE_KEYS| ==> Lacks(r, VENUE_KEYS[i])) {
      FirstCarried(before, answer, after + [sent], VENUE_KEYS, key, id);
    }
  }

  // ---------------------------------------------------------------- an instance

  // A fill report with the venue id only in its details.
  function Fill(venueId: string, repr: string): Row {
    map["status" := Text("filled"), "details" := Nested(map["OrderSysID" := Text(venueId)], repr)]
  }

  lemma FillCarries(venueId: string, repr: string)
    requires venueId != "" && Strip(venueId) == venueId
    ensures OnlyId(Fill(venueId, repr), "OrderSysID", venueId) && "OrderSysID" in VENUE_KEYS
    ensures HoldsText(Fill(venueId, repr), "status", "filled")
  {
    assert VENUE_KEYS[4] == "OrderSysID";
    assert Strip("filled") == "filled";
    hide Strip;
    var event := Fill(venueId, repr);
    assert event.Keys == {"status", "details"} && event["details"].fields.Keys == {"OrderSysID"};
    assert "OrderSysID" !in event;
    hide Fill;
    assert "status" !in REQUEST_KEYS && "status" !in CLIENT_KEYS && "status" !in VENUE_KEYS;
    assert "details" !in REQUEST_KEYS && "details" !in CLIENT_KEYS && "details" !in VENUE_KEYS;
  }

  /** It reaches the order with that venue id and records its status. */
  lemma FillInDetails(ops: seq<Op>, n: nat, venueId: string, repr: string)
    requires FreshRequests(ops) && Exclusive(Keep(ops)) && Live(Keep(ops).book, n) && (venueId, n) in Keep(ops).venues
    requires venueId != "" && Strip(venueId) == venueId
    ensures var event := Fill(venueId, repr);
      var (enriched, b) := Enrich(Keep(ops).book, event);
      && n < |b.entries| && b.entries[n].status == "filled"
      && FilledWith(enriched, event, "request_id", Keep(ops).book.entries[n].requestId)
  {
    var event := Fill(venueId, repr);
    FillCarries(venueId, repr);
    assert IdOf(Keep(ops), n, "OrderSysID", venueId);
    assert n < |Keep(ops).book.entries|;
    hide Fill, Keep, FreshRequests, Exclusive, Concerns, Strip, Enrich, FilledWith, Live, OnlyId, IdOf;
    OnlyIdConcerns(Keep(ops), event, n, "OrderSysID", venueId);
    OneIdReaches(ops, event, n, "OrderSysID", venueId);
    StatusRecorded(ops, event, n, "filled");
  }
}
