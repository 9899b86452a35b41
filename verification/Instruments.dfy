/**
 InstrumentManager (instrument_manager.py): a primary table by internal name and two indexes, by venue
 and symbol and by underlying.
 */
module Instruments {
  import opened Base

  // An absent underlying and an empty one are treated alike; `listed` is is_listed at the time of asking.
  datatype Instrument = Instrument(internal: string, venue: string, venueSymbol: string, assetType: string,
                                   underlying: string, listed: bool, details: int)

  datatype Index = Index(instruments: map<string, Instrument>,
                         byVenue: map<string, map<string, Instrument>>,
                         byUnderlying: map<string, seq<Instrument>>)

  function Others(s: seq<Instrument>, internal: string): seq<Instrument> {
    if s == [] then []
    else Others(s[..|s| - 1], internal) + if s[|s| - 1].internal != internal then [s[|s| - 1]] else []
  }

  function DropVenue(v: map<string, map<string, Instrument>>, i: Instrument): map<string, map<string, Instrument>> {
    if i.venue !in v then v
    else
      var rest := v[i.venue] - {i.venueSymbol};
      if rest == map[] then v - {i.venue} else v[i.venue := rest]
  }

  function DropUnderlying(u: map<string, seq<Instrument>>, i: Instrument): map<string, seq<Instrument>> {
    if i.underlying == "" || i.underlying !in u then u
    else
      var rest := Others(u[i.underlying], i.internal);
      if rest == [] then u - {i.underlying} else u[i.underlying := rest]
  }

  function Dropped(s: Index, i: Instrument): Index {
    Index(s.instruments, DropVenue(s.byVenue, i), DropUnderlying(s.byUnderlying, i))
  }

  function Added(s: Index, i: Instrument): Index {
    Index(s.instruments[i.internal := i],
          s.byVenue[i.venue := (if i.venue in s.byVenue then s.byVenue[i.venue] else map[])[i.venueSymbol := i]],
          if i.underlying == "" then s.byUnderlying
          else s.byUnderlying[i.underlying := (if i.underlying in s.byUnderlying
                then s.byUnderlying[i.underlying] else []) + [i]])
  }

  function Registered(s: Index, i: Instrument): Index {
    Added(if i.internal in s.instruments then Dropped(s, s.instruments[i.internal]) else s, i)
  }

  function GetByVenue(s: Index, venue: string, symbol: string): Option<Instrument> {
    if venue in s.byVenue && symbol in s.byVenue[venue] then Some(s.byVenue[venue][symbol]) else None
  }

  function ToInternal(s: Index, venue: string, symbol: string): Option<string> {
    match GetByVenue(s, venue, symbol)
    case Some(i) => Some(i.internal)
    case None => None
  }

  function ToVenueSymbol(s: Index, internal: string): Option<string> {
    if internal in s.instruments then Some(s.instruments[internal].venueSymbol) else None
  }

  // An empty filter does not filter. The result is the set of the returned list.
  function Find(s: Index, venue: string, underlying: string, assetType: string, activeOnly: bool): set<Instrument> {
    set i | i in s.instruments.Values
            && (venue == "" || i.venue == venue)
            && (underlying == "" || i.underlying == underlying)
            && (assetType == "" || i.assetType == assetType)
            && (activeOnly ==> i.listed)
  }

  class InstrumentManager {
    var instruments: map<string, Instrument>
    var byVenue: map<string, map<string, Instrument>>
    var byUnderlying: map<string, seq<Instrument>>

    constructor ()
      ensures View() == Index(map[], map[], map[])
    {
      instruments, byVenue, byUnderlying := map[], map[], map[];
    }

    function View(): Index
      reads this
    {
      Index(instruments, byVenue, byUnderlying)
    }

    method Register(i: Instrument)
      modifies this
      ensures View() == Registered(old(View()), i)
    {
      if i.internal in instruments { Forget(instruments[i.internal]); }
      Insert(i);
    }

    method Insert(i: Instrument)
      modifies this
      ensures View() == Added(old(View()), i)
    {
      instruments := instruments[i.internal := i];
      var atVenue := if i.venue in byVenue then byVenue[i.venue] else map[];
      byVenue := byVenue[i.venue := atVenue[i.venueSymbol := i]];
      if i.underlying != "" {
        var atUnderlying := if i.underlying in byUnderlying then byUnderlying[i.underlying] else [];
        byUnderlying := byUnderlying[i.underlying := atUnderlying + [i]];
      }
    }

    // Take a previous registration out of the two indexes.
    method Forget(previous: Instrument)
      modifies this`byVenue, this`byUnderlying
      ensures View() == Dropped(old(View()), previous)
    {
      if previous.venue in byVenue {
        var rest := byVenue[previous.venue] - {previous.venueSymbol};
        byVenue := byVenue[previous.venue := rest];
        if rest == map[] { byVenue := byVenue - {previous.venue}; }
      }
      if previous.underlying != "" && previous.underlying in byUnderlying {
        var all := byUnderlying[previous.underlying];
        var filtered := [];
        for k := 0 to |all|
          invariant filtered == Others(all[..k], previous.internal)
        {
          assert all[..k + 1][..k] == all[..k];
          if all[k].internal != previous.internal { filtered := filtered + [all[k]]; }
        }
        assert all[..|all|] == all;
        if filtered != [] {
          byUnderlying := byUnderlying[previous.underlying := filtered];
        } else {
          byUnderlying := byUnderlying - {previous.underlying};
        }
      }
    }

    method Clear()
      modifies this
      ensures View() == Index(map[], map[], map[])
    {
      instruments, byVenue, byUnderlying := map[], map[], map[];
    }
  }

  // ---------------------------------------------------------------- the indexes agree with the table

  predicate Live(s: Index, i: Instrument) {
    i.internal in s.instruments && s.instruments[i.internal] == i
  }

  predicate TableOk(s: Index) {
    forall k :: k in s.instruments ==> s.instruments[k].internal == k
  }

  // Every venue entry is a live instrument with that venue and symbol.
  predicate VenueSound(s: Index) {
    forall v, y :: v in s.byVenue && y in s.byVenue[v] ==>
      var i := s.byVenue[v][y]; i.venue == v && i.venueSymbol == y && Live(s, i)
  }

  predicate NoRepeats(l: seq<Instrument>) {
    forall i, j :: 0 <= i < j < |l| ==> l[i].internal != l[j].internal
  }

  // l holds exactly the live instruments with underlying u, each once.
  ghost predicate ListsUnderlying(s: Index, u: string, l: seq<Instrument>) {
    && NoRepeats(l)
    && forall i: Instrument :: i in l <==> Live(s, i) && i.underlying == u
  }

  function ListOf(s: Index, u: string): seq<Instrument> {
    if u in s.byUnderlying then s.byUnderlying[u] else []
  }

  ghost predicate UnderlyingExact(s: Index) {
    && (forall u :: u != "" ==> ListsUnderlying(s, u, ListOf(s, u)))
    && "" !in s.byUnderlying
  }

  ghost predicate Agrees(s: Index) {
    TableOk(s) && VenueSound(s) && UnderlyingExact(s)
  }

  lemma {:induction false} OthersExact(l: seq<Instrument>, internal: string)
    requires NoRepeats(l)
    ensures NoRepeats(Others(l, internal))
    ensures forall i: Instrument :: i in Others(l, internal) <==> i in l && i.internal != internal
  {
    if l != [] {
      var init, last := l[..|l| - 1], l[|l| - 1];
      OthersExact(init, internal);
      assert l == init + [last];
      var r := Others(init, internal);
      forall k | 0 <= k < |r| ensures r[k].internal != last.internal {
        assert r[k] in init;
      }
    }
  }

  // s with instrument `internal` out of its table.
  function Without(s: Index, internal: string): Index {
    s.(instruments := s.instruments - {internal})
  }

  lemma {:induction false} DropAgrees(s: Index, i: Instrument)
    requires Agrees(s) && Live(s, i)
    ensures Agrees(Without(Dropped(s, i), i.internal))
    ensures GetByVenue(Dropped(s, i), i.venue, i.venueSymbol).None?
  {
    var r := Without(Dropped(s, i), i.internal);
    DropVenueSound(s, i);
    forall u | u != "" ensures ListsUnderlying(r, u, ListOf(r, u)) {
      assert ListsUnderlying(s, u, ListOf(s, u));
      OthersExact(ListOf(s, u), i.internal);
      if u == i.underlying {
        assert i in ListOf(s, u);
        assert ListOf(r, u) == Others(ListOf(s, u), i.internal);
      } else {
        assert ListOf(r, u) == ListOf(s, u);
      }
    }
  }

  lemma {:induction false} DropVenueSound(s: Index, i: Instrument)
    requires TableOk(s) && VenueSound(s) && Live(s, i)
    ensures VenueSound(Without(Dropped(s, i), i.internal))
    ensures GetByVenue(Dropped(s, i), i.venue, i.venueSymbol).None?
  {
    var r := Without(Dropped(s, i), i.internal);
    forall v, y | v in r.byVenue && y in r.byVenue[v]
      ensures var j := r.byVenue[v][y]; j.venue == v && j.venueSymbol == y && Live(r, j)
    {
      assert v in s.byVenue && y in s.byVenue[v] && r.byVenue[v][y] == s.byVenue[v][y];
      var j := s.byVenue[v][y];
      assert j.internal == i.internal ==> j == i;
    }
  }

  lemma {:induction false} AddAgrees(s: Index, i: Instrument)
    requires Agrees(s) && i.internal !in s.instruments
    ensures Agrees(Added(s, i))
  {
    var r := Added(s, i);
    assert forall j: Instrument :: Live(r, j) <==> j == i || Live(s, j);
    forall u | u != "" ensures ListsUnderlying(r, u, ListOf(r, u)) {
      assert ListsUnderlying(s, u, ListOf(s, u));
      if u == i.underlying {
        var l := ListOf(s, u);
        assert ListOf(r, u) == l + [i];
        forall k | 0 <= k < |l| ensures l[k].internal != i.internal { assert l[k] in l; }
      }
    }
  }

  lemma {:induction false} RegisterAgrees(s: Index, i: Instrument)
    requires Agrees(s)
    ensures Agrees(Registered(s, i))
  {
    if i.internal in s.instruments {
      var p := s.instruments[i.internal];
      DropAgrees(s, p);
      AddAgrees(Without(Dropped(s, p), i.internal), i);
      assert Added(Without(Dropped(s, p), i.internal), i) == Registered(s, i);
    } else {
      AddAgrees(s, i);
    }
  }

  function RegisterAll(run: seq<Instrument>): Index {
    if run == [] then Index(map[], map[], map[])
    else Registered(RegisterAll(run[..|run| - 1]), run[|run| - 1])
  }

  /** After any sequence of registrations and re-registrations, each underlying list holds exactly the live
      instruments with that underlying, without repeats, and every venue entry is a live instrument with
      that venue and symbol. */
  lemma {:induction false} IndexesAgree(run: seq<Instrument>)
    ensures Agrees(RegisterAll(run))
  {
    if run != [] {
      IndexesAgree(run[..|run| - 1]);
      RegisterAgrees(RegisterAll(run[..|run| - 1]), run[|run| - 1]);
    }
  }

  /** The underlying index returns what a scan of the whole table finds. */
  lemma IndexMatchesScan(s: Index, u: string)
    requires Agrees(s) && u != ""
    ensures forall i: Instrument :: i in ListOf(s, u) <==> i in Find(s, "", u, "", false)
  {
    assert ListsUnderlying(s, u, ListOf(s, u));
    forall i: Instrument ensures i in s.instruments.Values <==> Live(s, i) {
      if i in s.instruments.Values {
        var k :| k in s.instruments && s.instruments[k] == i;
      }
    }
  }

  // i was registered, and its internal name not again since.
  ghost predicate Latest(run: seq<Instrument>, i: Instrument) {
    exists k :: 0 <= k < |run| && run[k] == i && forall j :: k < j < |run| ==> run[j].internal != i.internal
  }

  lemma LatestMore(init: seq<Instrument>, last: Instrument, i: Instrument)
    ensures Latest(init + [last], i) <==> i == last || (Latest(init, i) && last.internal != i.internal)
  {
    var run := init + [last];
    if i == last { assert run[|init|] == i; }
    if Latest(init, i) && last.internal != i.internal {
      var k :| 0 <= k < |init| && init[k] == i && forall j :: k < j < |init| ==> init[j].internal != i.internal;
      assert run[k] == i;
      forall j | k < j < |run| ensures run[j].internal != i.internal { if j < |init| { assert run[j] == init[j]; } }
    }
    if Latest(run, i) && i != last {
      var k :| 0 <= k < |run| && run[k] == i && forall j :: k < j < |run| ==> run[j].internal != i.internal;
      assert init[k] == i && run[|init|] == last;
      forall j | k < j < |init| ensures init[j].internal != i.internal { assert run[j] == init[j]; }
    }
  }

  lemma TableAfter(s: Index, i: Instrument)
    ensures Registered(s, i).instruments == s.instruments[i.internal := i]
  {
  }

  /** The live instruments are the latest registrations of each internal name, and nothing else is live. */
  lemma {:induction false} LiveIffLatest(run: seq<Instrument>, i: Instrument)
    ensures Live(RegisterAll(run), i) <==> Latest(run, i)
  {
    if run != [] {
      var init, last := run[..|run| - 1], run[|run| - 1];
      LiveIffLatest(init, i);
      LatestMore(init, last, i);
      TableAfter(RegisterAll(init), last);
      assert run == init + [last];
      hide Registered, Latest;
    }
  }

  /** A scan returns the live instruments, each filter that is given keeping those that match it, by itself and
      together with the others; delisted ones are left out if asked. */
  lemma FindFilters(s: Index, venue: string, underlying: string, assetType: string, activeOnly: bool, i: Instrument)
    requires TableOk(s)
    ensures i in Find(s, "", "", "", false) <==> Live(s, i)
    ensures venue != "" ==> (i in Find(s, venue, "", "", false) <==> Live(s, i) && i.venue == venue)
    ensures underlying != "" ==> (i in Find(s, "", underlying, "", false) <==> Live(s, i) && i.underlying == underlying)
    ensures assetType != "" ==> (i in Find(s, "", "", assetType, false) <==> Live(s, i) && i.assetType == assetType)
    ensures i in Find(s, "", "", "", true) <==> Live(s, i) && i.listed
    ensures Find(s, venue, underlying, assetType, activeOnly) ==
            Find(s, venue, "", "", false) * Find(s, "", underlying, "", false) * Find(s, "", "", assetType, false)
            * Find(s, "", "", "", activeOnly)
  {
    if i in s.instruments.Values {
      var k :| k in s.instruments && s.instruments[k] == i;
    }
  }

  // ---------------------------------------------------------------- when venue lookups are complete

  predicate UniquePairs(s: Index) {
    forall a, b :: a in s.instruments && b in s.instruments && a != b ==>
      s.instruments[a].venue != s.instruments[b].venue || s.instruments[a].venueSymbol != s.instruments[b].venueSymbol
  }

  predicate VenueComplete(s: Index) {
    forall k :: k in s.instruments ==>
      GetByVenue(s, s.instruments[k].venue, s.instruments[k].venueSymbol) == Some(s.instruments[k])
  }

  lemma CompleteIsUnique(s: Index)
    requires TableOk(s) && VenueComplete(s)
    ensures UniquePairs(s)
  {
    forall a, b | a in s.instruments && b in s.instruments && a != b
      ensures s.instruments[a].venue != s.instruments[b].venue
              || s.instruments[a].venueSymbol != s.instruments[b].venueSymbol
    {
      assert s.instruments[a].internal == a && s.instruments[b].internal == b;
    }
  }

  lemma LookupAfterDrop(s: Index, p: Instrument, v: string, y: string)
    requires v != p.venue || y != p.venueSymbol
    ensures GetByVenue(Dropped(s, p), v, y) == GetByVenue(s, v, y)
  {
    if v == p.venue && v in s.byVenue {
      var rest := s.byVenue[v] - {p.venueSymbol};
      assert y in s.byVenue[v] <==> y in rest;
      assert y in rest ==> rest != map[];
    }
  }

  lemma LookupAfterAdd(s: Index, i: Instrument, v: string, y: string)
    ensures GetByVenue(Added(s, i), v, y) == if v == i.venue && y == i.venueSymbol then Some(i) else GetByVenue(s, v, y)
  {
  }

  lemma {:induction false} RegisterComplete(s: Index, i: Instrument)
    requires TableOk(s) && VenueComplete(s) && UniquePairs(Registered(s, i))
    ensures VenueComplete(Registered(s, i))
  {
    CompleteIsUnique(s);
    var r := Registered(s, i);
    var d := if i.internal in s.instruments then Dropped(s, s.instruments[i.internal]) else s;
    forall k | k in r.instruments
      ensures GetByVenue(r, r.instruments[k].venue, r.instruments[k].venueSymbol) == Some(r.instruments[k])
    {
      var j := r.instruments[k];
      LookupAfterAdd(d, i, j.venue, j.venueSymbol);
      if k != i.internal {
        assert j == s.instruments[k];
        if i.internal in s.instruments { LookupAfterDrop(s, s.instruments[i.internal], j.venue, j.venueSymbol); }
        assert r.instruments[i.internal] == i;
      }
    }
  }

  /** Venue lookups find every live instrument after each registration of a run if and only if no two live
      instruments ever share a venue and symbol during that run. */
  lemma {:induction false} CompleteIffAlwaysUnique(run: seq<Instrument>)
    ensures (forall n :: 0 <= n <= |run| ==> VenueComplete(RegisterAll(run[..n])))
            <==> (forall n :: 0 <= n <= |run| ==> UniquePairs(RegisterAll(run[..n])))
  {
    forall n | 0 <= n <= |run| ensures TableOk(RegisterAll(run[..n])) { IndexesAgree(run[..n]); }
    if forall n :: 0 <= n <= |run| ==> VenueComplete(RegisterAll(run[..n])) {
      forall n | 0 <= n <= |run| ensures UniquePairs(RegisterAll(run[..n])) {
        CompleteIsUnique(RegisterAll(run[..n]));
      }
    }
    if forall n :: 0 <= n <= |run| ==> UniquePairs(RegisterAll(run[..n])) {
      forall n | 0 <= n <= |run| ensures VenueComplete(RegisterAll(run[..n])) {
        UniqueSoComplete(run, n);
      }
    }
  }

  lemma {:induction false} UniqueSoComplete(run: seq<Instrument>, n: nat)
    requires n <= |run| && forall k :: 0 <= k <= |run| ==> UniquePairs(RegisterAll(run[..k]))
    ensures VenueComplete(RegisterAll(run[..n]))
  {
    if n > 0 {
      UniqueSoComplete(run, n - 1);
      IndexesAgree(run[..n - 1]);
      assert run[..n][..n - 1] == run[..n - 1];
      RegisterComplete(RegisterAll(run[..n - 1]), run[n - 1]);
    }
  }

  /** The two translations undo each other: what to_internal returns always translates back, and when
      lookups are complete every live instrument's symbol leads back to it. */
  lemma TranslationsInverse(s: Index, venue: string, symbol: string, internal: string)
    requires Agrees(s)
    ensures ToInternal(s, venue, symbol) == Some(internal) ==>
      ToVenueSymbol(s, internal) == Some(symbol) && s.instruments[internal].venue == venue
    ensures VenueComplete(s) && internal in s.instruments ==>
      ToInternal(s, s.instruments[internal].venue, ToVenueSymbol(s, internal).value) == Some(internal)
  {
  }

  lemma RegisteredTwo(a: Instrument, b: Instrument)
    requires a.internal != b.internal
    ensures RegisterAll([a, b]).instruments == map[a.internal := a, b.internal := b]
  {
    assert [a, b][..1] == [a] && [a][..0] == [];
    var none := Index(map[], map[], map[]);
    assert RegisterAll([a]) == Registered(none, a);
    assert RegisterAll([a, b]) == Registered(Registered(none, a), b);
  }

  lemma RegisteredThird(a: Instrument, b: Instrument, c: Instrument)
    ensures RegisterAll([a, b, c]) == Registered(RegisterAll([a, b]), c)
  {
    assert [a, b, c][..2] == [a, b];
  }

  // Re-registering a elsewhere clears the venue entry of its old pair, whoever holds it.
  lemma MoveClears(s: Index, a: Instrument, a': Instrument)
    requires Agrees(s) && Live(s, a) && a'.internal == a.internal
    requires (a.venue, a.venueSymbol) != (a'.venue, a'.venueSymbol)
    ensures GetByVenue(Registered(s, a'), a.venue, a.venueSymbol).None?
    ensures Registered(s, a').instruments == s.instruments[a.internal := a']
  {
    DropAgrees(s, a);
    LookupAfterAdd(Dropped(s, a), a', a.venue, a.venueSymbol);
  }

  lemma TwoLive(s: Index, a: Instrument, b: Instrument)
    requires a.internal != b.internal && (a.venue, a.venueSymbol) != (b.venue, b.venueSymbol)
    requires s.instruments == map[a.internal := a, b.internal := b]
    ensures UniquePairs(s) && Live(s, b)
  {
  }

  /** A collision that is long over still hides an instrument: once a has moved elsewhere, live pairs are
      unique again, yet b cannot be found. */
  lemma PastCollisionHides(a: Instrument, b: Instrument, a': Instrument)
    requires a.internal == a'.internal != b.internal
    requires (a.venue, a.venueSymbol) == (b.venue, b.venueSymbol) != (a'.venue, a'.venueSymbol)
    ensures var s := RegisterAll([a, b, a']);
      UniquePairs(s) && Live(s, b) && GetByVenue(s, b.venue, b.venueSymbol).None?
  {
    hide RegisterAll, Agrees, Registered, GetByVenue, UniquePairs;
    var s2 := RegisterAll([a, b]);
    RegisteredTwo(a, b);
    IndexesAgree([a, b]);
    RegisteredThird(a, b, a');
    MoveClears(s2, a, a');
    var s := Registered(s2, a');
    assert s.instruments == map[a'.internal := a', b.internal := b];
    TwoLive(s, a', b);
  }
}
