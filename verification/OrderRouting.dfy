/**
 Routing of orders and events through the identity map (gateway/runtime_remote.py).
 */
module OrderRouting {
  import opened Base
  import opened OrderIdentity

  // ---------------------------------------------------------------- order and event dictionaries

  // A value in an order or event dictionary. repr is its str(), truthy its truth value.
  datatype Field =
    | Null
    | Text(text: string)
    | Nested(fields: map<string, Field>, repr: string)
    | Plain(repr: string, truthy: bool)

  type Row = map<string, Field>

  predicate IsSpace(c: char) {
    var n := c as int;
    9 <= n <= 13 || 28 <= n <= 32 || n == 133 || n == 160
  }

  // str.strip()
  function Strip(s: string): string {
    if s != "" && IsSpace(s[0]) then Strip(s[1..])
    else if s != "" && IsSpace(s[|s| - 1]) then Strip(s[..|s| - 1])
    else s
  }

  function StrOf(f: Field): string {
    match f
    case Null => "None"
    case Text(t) => t
    case Nested(_, r) => r
    case Plain(r, _) => r
  }

  // The first key with a value other than None and "", stripped.
  function OrderText(row: Row, keys: seq<string>): Option<string> {
    if keys == [] then None
    else if keys[0] in row && row[keys[0]] != Null && row[keys[0]] != Text("") then Some(Strip(StrOf(row[keys[0]])))
    else OrderText(row, keys[1..])
  }

  function NestedOrderText(row: Row, keys: seq<string>): Option<string> {
    var direct := OrderText(row, keys);
    if Truthy(direct) then direct
    else if "details" in row && row["details"].Nested? then OrderText(row["details"].fields, keys)
    else None
  }

  const REQUEST_KEYS := ["request_id", "command_request_id"]
  const CLIENT_KEYS := ["client_order_id", "order_ref", "bt_order_ref", "ctp_order_ref",
                      "clOrdId", "clientOrderId", "OrderRef"]
  const VENUE_KEYS := ["venue_order_id", "external_order_id", "order_id", "ordId",
                     "OrderSysID", "orderSysId", "ticket", "id"]
  const PAYLOAD_CLIENT_KEYS := ["client_order_id", "order_ref", "bt_order_ref"]
  const RESULT_CLIENT_KEYS := ["client_order_id", "order_ref", "bt_order_ref", "clOrdId", "clientOrderId", "OrderRef"]

  // ---------------------------------------------------------------- events

  // The ids an event would be looked up by, one per key, in order.
  function IdsUnder(row: Row, keys: seq<string>): seq<string> {
    if keys == [] then []
    else
      var v := NestedOrderText(row, [keys[0]]);
      (if Truthy(v) then [v.value] else []) + IdsUnder(row, keys[1..])
  }

  function FirstKnown<T>(m: map<string, T>, ids: seq<string>): Option<T> {
    if ids == [] then None else if ids[0] in m then Some(m[ids[0]]) else FirstKnown(m, ids[1..])
  }

  function EntryForEvent(b: Book, event: Row): Option<nat> {
    var r := FirstKnown(b.byRequest, IdsUnder(event, REQUEST_KEYS));
    if r.Some? then r
    else
      var c := FirstKnown(b.byClient, IdsUnder(event, CLIENT_KEYS));
      if c.Some? then c else FirstKnown(b.byVenue, IdsUnder(event, VENUE_KEYS))
  }

  function SetDefault(row: Row, key: string, value: string): Row {
    if key in row then row else row[key := Text(value)]
  }

  function SetDefaultIf(row: Row, key: string, value: Option<string>): Row {
    if Truthy(value) then SetDefault(row, key, value.value) else row
  }

  function WithDefaults(event: Row, e: Entry): Row {
    var r := SetDefault(SetDefault(event, "strategy_id", e.strategyId), "request_id", e.requestId);
    var r := SetDefaultIf(SetDefaultIf(r, "client_order_id", e.client), "venue_order_id", e.venue);
    SetDefaultIf(SetDefaultIf(r, "symbol", e.symbol), "data_name", e.symbol)
  }

  // Whether a value is there and true.
  predicate Yes(row: Row, key: string) {
    key in row &&
    match row[key]
    case Null => false
    case Text(t) => t != ""
    case Nested(fields, _) => fields != map[]
    case Plain(_, truthy) => truthy
  }

  function StatusOf(event: Row): string {
    if Yes(event, "status") then Strip(StrOf(event["status"])) else ""
  }

  function ClientOp(id: Option<string>, e: Entry): (ops: seq<Op>)
    ensures |ops| <= 1
  {
    if Truthy(id) && id != e.client then [SetClient(e.requestId, id.value)] else []
  }

  function VenueOp(id: Option<string>, e: Entry): (ops: seq<Op>)
    ensures |ops| <= 1
  {
    if Truthy(id) && id != e.venue then [SetVenue(e.requestId, id.value)] else []
  }

  // What an event teaches the identity map about its entry e.
  function EventOps(event: Row, e: Entry): seq<Op> {
    var status := StatusOf(event);
    ClientOp(NestedOrderText(event, CLIENT_KEYS), e) + VenueOp(NestedOrderText(event, VENUE_KEYS), e)
    + if status != "" then [UpdateStatus(e.requestId, status)] else []
  }

  function Enrich(b: Book, payload: Row): (Row, Book)
    requires WellFormed(b)
  {
    var n := EntryForEvent(b, payload);
    if n.None? || n.value >= |b.entries| then (payload, b)
    else
      var e := b.entries[n.value];
      var event := WithDefaults(payload, e);
      (event, ApplyAll(b, EventOps(event, e)))
  }

  lemma {:induction false} FirstKnownRefs(m: map<string, OrderEntry>, ids: seq<string>)
    ensures FirstKnown(m, ids).None? <==> FirstKnown(Refs(m), ids).None?
    ensures FirstKnown(m, ids).Some? ==> FirstKnown(Refs(m), ids) == Some(FirstKnown(m, ids).value.serial)
    ensures FirstKnown(m, ids).Some? ==> exists k :: k in m && m[k] == FirstKnown(m, ids).value
  {
    if ids != [] && ids[0] !in m { FirstKnownRefs(m, ids[1..]); }
  }

  method EntryOf(orders: OrderIdentityMap, event: Row) returns (entry: OrderEntry?)
    requires orders.Valid()
    ensures entry == null <==> EntryForEvent(orders.View(), event).None?
    ensures entry != null ==> orders.Holds(entry) && EntryForEvent(orders.View(), event) == Some(entry.serial)
  {
    entry := null;
    var found := FirstKnown(orders.byRequest, IdsUnder(event, REQUEST_KEYS));
    FirstKnownRefs(orders.byRequest, IdsUnder(event, REQUEST_KEYS));
    if found.None? {
      found := FirstKnown(orders.byClient, IdsUnder(event, CLIENT_KEYS));
      FirstKnownRefs(orders.byClient, IdsUnder(event, CLIENT_KEYS));
    }
    if found.None? {
      found := FirstKnown(orders.byVenue, IdsUnder(event, VENUE_KEYS));
      FirstKnownRefs(orders.byVenue, IdsUnder(event, VENUE_KEYS));
    }
    if found.Some? { entry := found.value; }
  }

  method EnrichEventPayload(orders: OrderIdentityMap, payload: Row) returns (event: Row)
    requires orders.Valid()
    modifies orders, orders.arena
    ensures orders.Valid()
    ensures (event, orders.View()) == Enrich(old(orders.View()), payload)
  {
    var entry := EntryOf(orders, payload);
    if entry == null { return payload; }
    ghost var b := orders.View();
    ghost var e := entry.View();
    assert b.entries[entry.serial] == e;
    hide EntryForEvent, NestedOrderText, OrderText, StatusOf, Strip;
    event := payload;
    event := SetDefault(event, "strategy_id", entry.strategyId);
    event := SetDefault(event, "request_id", entry.requestId);
    if Truthy(entry.client) { event := SetDefault(event, "client_order_id", entry.client.value); }
    if Truthy(entry.venue) { event := SetDefault(event, "venue_order_id", entry.venue.value); }
    if Truthy(entry.symbol) {
      event := SetDefault(event, "symbol", entry.symbol.value);
      event := SetDefault(event, "data_name", entry.symbol.value);
    }
    assert event == WithDefaults(payload, e);
    Learn(orders, entry, event);
  }

  method LearnClient(orders: OrderIdentityMap, entry: OrderEntry, id: Option<string>)
    requires orders.Valid() && orders.Holds(entry)
    modifies orders`byClient, orders.arena
    ensures orders.Valid() && entry.venue == old(entry.venue)
    ensures orders.View() == ApplyOpt(old(orders.View()), ClientOp(id, old(entry.View())))
  {
    hide Apply, Refs, ViewAll;
    if Truthy(id) && id != entry.client {
      orders.SetClientOrderId(entry.requestId, id.value);
      assert orders.arena[entry.serial] == entry;
    }
  }

  method LearnVenue(orders: OrderIdentityMap, entry: OrderEntry, id: Option<string>)
    requires orders.Valid() && orders.Holds(entry)
    modifies orders`byVenue, orders.arena
    ensures orders.Valid()
    ensures orders.View() == ApplyOpt(old(orders.View()), VenueOp(id, old(entry.View())))
  {
    hide Apply, Refs, ViewAll;
    if Truthy(id) && id != entry.venue { orders.SetVenueOrderId(entry.requestId, id.value); }
  }

  // _record_event_order_ids
  method LearnIds(orders: OrderIdentityMap, entry: OrderEntry, client: Option<string>, venue: Option<string>)
    requires orders.Valid() && orders.Holds(entry)
    modifies orders`byClient, orders`byVenue, orders.arena
    ensures orders.Valid()
    ensures orders.View() ==
            ApplyOpt(ApplyOpt(old(orders.View()), ClientOp(client, old(entry.View()))),
                     VenueOp(venue, old(entry.View())))
  {
    hide Apply, ApplyOpt, ClientOp, OrderIdentityMap.View, OrderIdentityMap.Entries;
    LearnClient(orders, entry, client);
    assert VenueOp(venue, entry.View()) == VenueOp(venue, old(entry.View()));
    hide VenueOp, OrderEntry.View;
    LearnVenue(orders, entry, venue);
  }

  // The ids, then the status.
  method Learn(orders: OrderIdentityMap, entry: OrderEntry, event: Row)
    requires orders.Valid() && orders.Holds(entry)
    modifies orders, orders.arena
    ensures orders.Valid()
    ensures orders.View() == ApplyAll(old(orders.View()), EventOps(event, old(entry.View())))
  {
    ghost var b, e := orders.View(), entry.View();
    var client := NestedOrderText(event, CLIENT_KEYS);
    var venue := NestedOrderText(event, VENUE_KEYS);
    var status := StatusOf(event);
    ghost var statusOp := if status != "" then [UpdateStatus(e.requestId, status)] else [];
    ApplyThree(b, ClientOp(client, e), VenueOp(venue, e), statusOp);
    hide NestedOrderText, StatusOf, Apply, ApplyAll, ClientOp, VenueOp, OrderIdentityMap.View, OrderIdentityMap.Entries;
    LearnIds(orders, entry, client, venue);
    if status != "" { orders.SetStatus(entry.requestId, status); }
  }

  function ApplyOpt(b: Book, ops: seq<Op>): (r: Book)
    requires WellFormed(b) && |ops| <= 1
    ensures WellFormed(r)
  {
    if ops == [] then b else Apply(b, ops[0])
  }

  lemma ApplyThree(b: Book, x: seq<Op>, y: seq<Op>, z: seq<Op>)
    requires WellFormed(b) && |x| <= 1 && |y| <= 1 && |z| <= 1
    ensures ApplyAll(b, x + y + z) == ApplyOpt(ApplyOpt(ApplyOpt(b, x), y), z)
  {
    ApplyOne(b, [], x);
    ApplyOne(b, x, y);
    ApplyOne(b, x + y, z);
    assert [] + x == x;
  }

  lemma ApplyOne(b: Book, ops: seq<Op>, x: seq<Op>)
    requires WellFormed(b) && |x| <= 1
    ensures ApplyAll(b, ops + x) == ApplyOpt(ApplyAll(b, ops), x)
  {
    if x == [] { assert ops + x == ops; } else { ApplySnoc(b, ops, x[0]); assert x == [x[0]]; }
  }

  lemma ApplySnoc(b: Book, ops: seq<Op>, op: Op)
    requires WellFormed(b)
    ensures ApplyAll(b, ops + [op]) == Apply(ApplyAll(b, ops), op)
  {
    assert (ops + [op])[..|ops|] == ops;
  }

  lemma {:induction false} ApplyInTurn(b: Book, ops: seq<Op>, more: seq<Op>)
    requires WellFormed(b)
    ensures ApplyAll(b, ops + more) == ApplyAll(ApplyAll(b, ops), more)
  {
    if more == [] {
      assert ops + more == ops;
    } else {
      assert (ops + more)[..|ops + more| - 1] == ops + more[..|more| - 1];
      ApplyInTurn(b, ops, more[..|more| - 1]);
    }
  }

  // ---------------------------------------------------------------- placing an order

  // The first row with a usable id under one of the keys.
  function FirstText(rows: seq<Row>, keys: seq<string>): Option<string> {
    if rows == [] then None
    else if Truthy(NestedOrderText(rows[0], keys)) then NestedOrderText(rows[0], keys)
    else FirstText(rows[1..], keys)
  }

  // An allocated order ref replaces the payload's client order id.
  function PayloadSent(payload: Row, orderRef: Option<string>): Row {
    var client := OrderText(payload, PAYLOAD_CLIENT_KEYS);
    if orderRef.Some? then payload["client_order_id" := Text(orderRef.value)]
    else if Truthy(client) && !Yes(payload, "client_order_id") then payload["client_order_id" := Text(client.value)]
    else payload
  }

  // The ids in the adapter's answer and the payload, as operations on the order with request id req.
  function ResultOps(req: string, rows: seq<Row>): seq<Op> {
    var client := FirstText(rows, RESULT_CLIENT_KEYS);
    var venue := FirstText(rows, VENUE_KEYS);
    (if Truthy(client) then [SetClient(req, client.value)] else [])
    + if Truthy(venue) then [SetVenue(req, venue.value)] else []
  }

  function RefOps(req: string, orderRef: Option<string>): (ops: seq<Op>)
    ensures |ops| <= 1
  {
    if orderRef.Some? then [SetClient(req, orderRef.value)] else []
  }

  // The map operations of one place_order command; `results` are the dictionaries the adapter returned.
  function PlaceOps(req: string, strategy: string, symbol: Option<string>, payload: Row, orderRef: Option<string>,
                    results: seq<Row>): (ops: seq<Op>)
    ensures ops != []
  {
    [Register(req, strategy, OrderText(payload, PAYLOAD_CLIENT_KEYS), None, symbol)]
    + RefOps(req, orderRef)
    + ResultOps(req, results + [PayloadSent(payload, orderRef)])
  }

  lemma ApplyPlace(b: Book, register: Op, refOps: seq<Op>, resultOps: seq<Op>)
    requires WellFormed(b) && |refOps| <= 1
    ensures ApplyAll(b, [register] + refOps + resultOps)
            == ApplyAll(ApplyOpt(Apply(b, register), refOps), resultOps)
  {
    ApplySnoc(b, [], register);
    assert [] + [register] == [register];
    ApplyOne(b, [register], refOps);
    ApplyInTurn(b, [register] + refOps, resultOps);
  }

  lemma ApplyTwo(b: Book, x: seq<Op>, y: seq<Op>)
    requires WellFormed(b) && |x| <= 1 && |y| <= 1
    ensures ApplyAll(b, x + y) == ApplyOpt(ApplyOpt(b, x), y)
  {
    ApplyOne(b, [], x);
    ApplyOne(b, x, y);
    assert [] + x == x;
  }

  // _record_order_result_ids; rows are the dictionaries of the answer, then the payload.
  method RecordOrderResultIds(orders: OrderIdentityMap, req: string, rows: seq<Row>)
    requires orders.Valid()
    modifies orders`byClient, orders`byVenue, orders.arena
    ensures orders.Valid()
    ensures orders.View() == ApplyAll(old(orders.View()), ResultOps(req, rows))
  {
    hide FirstText, Apply, Refs, ViewAll;
    ghost var b := orders.View();
    var client := FirstText(rows, RESULT_CLIENT_KEYS);
    ghost var clientOps := if Truthy(client) then [SetClient(req, client.value)] else [];
    if Truthy(client) { orders.SetClientOrderId(req, client.value); }
    assert orders.View() == ApplyOpt(b, clientOps);
    var venue := FirstText(rows, VENUE_KEYS);
    ghost var venueOps := if Truthy(venue) then [SetVenue(req, venue.value)] else [];
    ApplyTwo(b, clientOps, venueOps);
    if Truthy(venue) { orders.SetVenueOrderId(req, venue.value); }
  }

  // The place_order command. orderRef is what the allocator gave, if there is one; the adapter is sent
  // `sent` and answers `results`.
  method PlaceOrder(orders: OrderIdentityMap, req: string, strategy: string, symbol: Option<string>, payload: Row,
                    orderRef: Option<string>, results: seq<Row>) returns (sent: Row)
    requires orders.Valid()
    modifies orders, orders.arena
    ensures orders.Valid() && sent == PayloadSent(payload, orderRef)
    ensures orders.View() == ApplyAll(old(orders.View()), PlaceOps(req, strategy, symbol, payload, orderRef, results))
  {
    hide ApplyAll, Apply, ApplyOpt, ResultOps, OrderIdentityMap.View, OrderIdentityMap.Entries, OrderIdentityMap.Valid;
    ghost var b := orders.View();
    ghost var entry;
    sent, entry := RegisterPlaced(orders, req, strategy, symbol, payload, orderRef);
    RecordOrderResultIds(orders, req, results + [sent]);
    ApplyPlace(b, Op.Register(req, strategy, OrderText(payload, PAYLOAD_CLIENT_KEYS), None, symbol),
               RefOps(req, orderRef), ResultOps(req, results + [sent]));
  }

  // place_order up to the call of the adapter.
  method RegisterPlaced(orders: OrderIdentityMap, req: string, strategy: string, symbol: Option<string>, payload: Row,
                        orderRef: Option<string>) returns (sent: Row, ghost entry: OrderEntry)
    requires orders.Valid()
    modifies orders, orders.arena
    ensures orders.Valid() && sent == PayloadSent(payload, orderRef)
    ensures fresh(entry) && orders.arena == old(orders.arena) + [entry]
    ensures var register := Op.Register(req, strategy, OrderText(payload, PAYLOAD_CLIENT_KEYS), None, symbol);
      orders.View() == ApplyOpt(Apply(old(orders.View()), register), RefOps(req, orderRef))
  {
    hide OrderText, Apply, Yes, OrderIdentityMap.View, OrderIdentityMap.Entries, OrderIdentityMap.Valid;
    sent := payload;
    var client := OrderText(payload, PAYLOAD_CLIENT_KEYS);
    if Truthy(client) && !Yes(payload, "client_order_id") {
      sent := sent["client_order_id" := Text(client.value)];
    }
    entry := orders.RegisterOrder(req, strategy, client, None, symbol);
    if orderRef.Some? {
      orders.SetClientOrderId(req, orderRef.value);
      sent := sent["client_order_id" := Text(orderRef.value)];
    }
  }
}
