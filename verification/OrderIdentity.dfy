/**
 OrderIdentityMap (gateway/order_identity_map.py): order entries found by request id, client order id or
 venue order id. The three dictionaries share mutable entries.
 */
module OrderIdentity {
  import opened Base

  datatype Entry = Entry(requestId: string, strategyId: string, client: Option<string>, venue: Option<string>,
                         symbol: Option<string>, status: string)

  // Entries in order of registration, and the three dictionaries as references into them. Removed
  // entries stay: stale references still reach them.
  datatype Book = Book(entries: seq<Entry>, byRequest: map<string, nat>, byClient: map<string, nat>,
                       byVenue: map<string, nat>)

  predicate Truthy(o: Option<string>) {
    o.Some? && o.value != ""
  }

  predicate WellFormed(b: Book) {
    && (forall k :: k in b.byRequest ==> b.byRequest[k] < |b.entries|)
    && (forall k :: k in b.byClient ==> b.byClient[k] < |b.entries|)
    && (forall k :: k in b.byVenue ==> b.byVenue[k] < |b.entries|)
  }

  datatype Op =
    | Register(requestId: string, strategyId: string, client: Option<string>, venue: Option<string>,
               symbol: Option<string>)
    | SetClient(requestId: string, id: string)
    | SetVenue(requestId: string, id: string)
    | SetVenueByClient(byClientId: string, id: string)
    | UpdateStatus(requestId: string, status: string)
    | Remove(requestId: string)

  function Indexed<T>(m: map<string, T>, id: Option<string>, t: T): map<string, T> {
    if Truthy(id) then m[id.value := t] else m
  }

  function Unindexed<T>(m: map<string, T>, id: Option<string>): map<string, T> {
    if Truthy(id) then m - {id.value} else m
  }

  function Apply(b: Book, op: Op): (r: Book)
    requires WellFormed(b)
    ensures WellFormed(r)
  {
    match op
    case Register(req, strategy, client, venue, symbol) =>
      var n := |b.entries|;
      Book(b.entries + [Entry(req, strategy, client, venue, symbol, "pending")],
           b.byRequest[req := n], Indexed(b.byClient, client, n), Indexed(b.byVenue, venue, n))
    case SetClient(req, id) =>
      if req !in b.byRequest then b
      else
        var n := b.byRequest[req];
        b.(entries := b.entries[n := b.entries[n].(client := Some(id))], byClient := b.byClient[id := n])
    case SetVenue(req, id) =>
      if req !in b.byRequest then b
      else
        var n := b.byRequest[req];
        b.(entries := b.entries[n := b.entries[n].(venue := Some(id))], byVenue := b.byVenue[id := n])
    case SetVenueByClient(c, id) =>
      if c !in b.byClient then b
      else
        var n := b.byClient[c];
        b.(entries := b.entries[n := b.entries[n].(venue := Some(id))], byVenue := b.byVenue[id := n])
    case UpdateStatus(req, status) =>
      if req !in b.byRequest then b
      else var n := b.byRequest[req]; b.(entries := b.entries[n := b.entries[n].(status := status)])
    case Remove(req) =>
      if req !in b.byRequest then b
      else
        var e := b.entries[b.byRequest[req]];
        Book(b.entries, b.byRequest - {req}, Unindexed(b.byClient, e.client), Unindexed(b.byVenue, e.venue))
  }

  function ApplyAll(b: Book, ops: seq<Op>): (r: Book)
    requires WellFormed(b)
    ensures WellFormed(r)
  {
    if ops == [] then b else Apply(ApplyAll(b, ops[..|ops| - 1]), ops[|ops| - 1])
  }

  const EMPTY_BOOK := Book([], map[], map[], map[])

  // ---------------------------------------------------------------- the classes

  class OrderEntry {
    ghost const serial: nat
    const requestId: string
    const strategyId: string
    var client: Option<string>
    var venue: Option<string>
    const symbol: Option<string>
    var status: string

    constructor (ghost serial: nat, requestId: string, strategyId: string, client: Option<string>,
                 venue: Option<string>, symbol: Option<string>)
      ensures this.serial == serial && View() == Entry(requestId, strategyId, client, venue, symbol, "pending")
    {
      this.serial := serial;
      this.requestId, this.strategyId, this.client, this.venue, this.symbol
        := requestId, strategyId, client, venue, symbol;
      status := "pending";
    }

    function View(): Entry
      reads this
    {
      Entry(requestId, strategyId, client, venue, symbol, status)
    }
  }

  // A dictionary of entries as a dictionary of their serial numbers.
  ghost function Refs(m: map<string, OrderEntry>): map<string, nat> {
    map k | k in m :: m[k].serial
  }

  lemma RefsPut(m: map<string, OrderEntry>, k: string, e: OrderEntry)
    ensures Refs(m[k := e]) == Refs(m)[k := e.serial] && Refs(m - {k}) == Refs(m) - {k}
  {
  }

  lemma RefsIndexed(m: map<string, OrderEntry>, id: Option<string>, e: OrderEntry)
    ensures Refs(Indexed(m, id, e)) == Indexed(Refs(m), id, e.serial)
    ensures Refs(Unindexed(m, id)) == Unindexed(Refs(m), id)
  {
    if Truthy(id) { RefsPut(m, id.value, e); }
  }

  lemma RefsKeys(m: map<string, OrderEntry>, k: string)
    ensures Refs(m).Keys == m.Keys && (k in m ==> Refs(m)[k] == m[k].serial)
  {
  }

  ghost function ViewAll(es: seq<OrderEntry>): (r: seq<Entry>)
    reads es
    ensures |r| == |es|
  {
    seq(|es|, (i: nat) requires i < |es| reads es => es[i].View())
  }

  class OrderIdentityMap {
    ghost var arena: seq<OrderEntry>
    var byRequest: map<string, OrderEntry>
    var byClient: map<string, OrderEntry>
    var byVenue: map<string, OrderEntry>

    ghost predicate Holds(e: OrderEntry)
      reads this`arena
    {
      e.serial < |arena| && arena[e.serial] == e
    }

    ghost predicate AllHeld(m: map<string, OrderEntry>)
      reads this`arena
    {
      forall k :: k in m ==> Holds(m[k])
    }

    ghost predicate Valid()
      reads this
    {
      && (forall i :: 0 <= i < |arena| ==> arena[i].serial == i)
      && AllHeld(byRequest) && AllHeld(byClient) && AllHeld(byVenue)
    }

    ghost function Entries(): (es: seq<Entry>)
      reads this`arena, arena
      ensures |es| == |arena|
    {
      ViewAll(arena)
    }

    ghost function View(): (b: Book)
      requires Valid()
      reads this, arena
      ensures WellFormed(b)
    {
      Book(Entries(), Refs(byRequest), Refs(byClient), Refs(byVenue))
    }

    constructor ()
      ensures Valid() && arena == [] && View() == EMPTY_BOOK
    {
      arena := [];
      byRequest, byClient, byVenue := map[], map[], map[];
    }

    method RegisterOrder(requestId: string, strategyId: string, client: Option<string>, venue: Option<string>,
                         symbol: Option<string>) returns (entry: OrderEntry)
      requires Valid()
      modifies this
      ensures Valid() && fresh(entry) && arena == old(arena) + [entry]
      ensures View() == Apply(old(View()), Op.Register(requestId, strategyId, client, venue, symbol))
    {
      entry := new OrderEntry(|arena|, requestId, strategyId, client, venue, symbol);
      assert Entries() == old(Entries());
      hide Refs, Entries, AllHeld;
      Adopt(entry);
      IndexEntry(entry, requestId, client, venue);
    }

    method IndexEntry(entry: OrderEntry, requestId: string, client: Option<string>, venue: Option<string>)
      requires Valid() && Holds(entry)
      modifies this`byRequest, this`byClient, this`byVenue
      ensures Valid()
      ensures Refs(byRequest) == Refs(old(byRequest))[requestId := entry.serial]
      ensures Refs(byClient) == Indexed(Refs(old(byClient)), client, entry.serial)
      ensures Refs(byVenue) == Indexed(Refs(old(byVenue)), venue, entry.serial)
    {
      RefsPut(byRequest, requestId, entry);
      RefsIndexed(byClient, client, entry);
      RefsIndexed(byVenue, venue, entry);
      HeldIndexed(byRequest, Some(requestId), requestId, entry);
      HeldIndexed(byClient, client, "", entry);
      HeldIndexed(byVenue, venue, "", entry);
      hide Refs, AllHeld, Indexed;
      byRequest := byRequest[requestId := entry];
      byClient := Indexed(byClient, client, entry);
      byVenue := Indexed(byVenue, venue, entry);
    }

    lemma HeldIndexed(m: map<string, OrderEntry>, id: Option<string>, k: string, e: OrderEntry)
      requires AllHeld(m) && Holds(e)
      ensures AllHeld(Indexed(m, id, e)) && AllHeld(m[k := e])
    {
    }

    lemma HeldUnindexed(m: map<string, OrderEntry>, id: Option<string>, k: string)
      requires AllHeld(m)
      ensures AllHeld(Unindexed(m, id)) && AllHeld(m - {k})
    {
    }

    ghost method Adopt(entry: OrderEntry)
      requires Valid() && entry.serial == |arena| && entry !in arena
      modifies this`arena
      ensures Valid() && arena == old(arena) + [entry]
      ensures Entries() == old(Entries()) + [entry.View()]
    {
      arena := arena + [entry];
    }

    // Assign to the fields of one entry.
    method Put(entry: OrderEntry, client: Option<string>, venue: Option<string>, status: string)
      requires Valid() && Holds(entry)
      modifies entry
      ensures Entries() == old(Entries())[entry.serial :=
                old(entry.View()).(client := client, venue := venue, status := status)]
      ensures entry.client == client && entry.venue == venue && entry.status == status
    {
      entry.client, entry.venue, entry.status := client, venue, status;
    }

    method SetClientOrderId(requestId: string, id: string)
      requires Valid()
      modifies this`byClient, arena
      ensures Valid()
      ensures View() == Apply(old(View()), SetClient(requestId, id))
      ensures forall i :: 0 <= i < |arena| ==> arena[i].venue == old(arena[i].venue)
    {
      if requestId !in byRequest { return; }
      var entry := byRequest[requestId];
      RefsKeys(byRequest, requestId);
      RefsPut(byClient, id, entry);
      hide Refs, Entries;
      Put(entry, Some(id), entry.venue, entry.status);
      byClient := byClient[id := entry];
    }

    method SetVenueOrderId(requestId: string, id: string)
      requires Valid()
      modifies this`byVenue, arena
      ensures Valid()
      ensures View() == Apply(old(View()), SetVenue(requestId, id))
    {
      if requestId !in byRequest { return; }
      var entry := byRequest[requestId];
      RefsKeys(byRequest, requestId);
      RefsPut(byVenue, id, entry);
      hide Refs, Entries;
      Put(entry, entry.client, Some(id), entry.status);
      byVenue := byVenue[id := entry];
    }

    method SetVenueOrderIdByClient(clientId: string, id: string)
      requires Valid()
      modifies this`byVenue, arena
      ensures Valid()
      ensures View() == Apply(old(View()), SetVenueByClient(clientId, id))
    {
      if clientId !in byClient { return; }
      var entry := byClient[clientId];
      RefsKeys(byClient, clientId);
      RefsPut(byVenue, id, entry);
      hide Refs, Entries;
      Put(entry, entry.client, Some(id), entry.status);
      byVenue := byVenue[id := entry];
    }

    method SetStatus(requestId: string, status: string)
      requires Valid()
      modifies arena
      ensures Valid()
      ensures View() == Apply(old(View()), UpdateStatus(requestId, status))
    {
      if requestId !in byRequest { return; }
      var entry := byRequest[requestId];
      RefsKeys(byRequest, requestId);
      hide Refs, Entries;
      Put(entry, entry.client, entry.venue, status);
    }

    method RemoveOrder(requestId: string)
      requires Valid()
      modifies this`byRequest, this`byClient, this`byVenue
      ensures Valid()
      ensures View() == Apply(old(View()), Remove(requestId))
    {
      if requestId !in byRequest { return; }
      var entry := byRequest[requestId];
      ghost var e := Entries()[entry.serial];
      assert e == entry.View();
      RefsKeys(byRequest, requestId);
      hide Refs, Entries;
      UnindexEntry(entry, requestId);
    }

    method UnindexEntry(entry: OrderEntry, requestId: string)
      requires Valid()
      modifies this`byRequest, this`byClient, this`byVenue
      ensures Valid()
      ensures Refs(byRequest) == Refs(old(byRequest)) - {requestId}
      ensures Refs(byClient) == Unindexed(Refs(old(byClient)), entry.client)
      ensures Refs(byVenue) == Unindexed(Refs(old(byVenue)), entry.venue)
    {
      RefsPut(byRequest, requestId, entry);
      RefsIndexed(byClient, entry.client, entry);
      RefsIndexed(byVenue, entry.venue, entry);
      HeldUnindexed(byRequest, None, requestId);
      HeldUnindexed(byClient, entry.client, "");
      HeldUnindexed(byVenue, entry.venue, "");
      hide Refs, AllHeld, Unindexed;
      byRequest := byRequest - {requestId};
      byClient := Unindexed(byClient, entry.client);
      byVenue := Unindexed(byVenue, entry.venue);
    }
  }
}
