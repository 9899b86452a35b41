/**
 What SimpleCache promises over whole traces: inclusion between capacities, and agreement with
 the plain timed map it stands in for.
 */
module CacheTheorems {
  import opened Base
  import opened Cache

  // ---------------------------------------------------------------- inclusion between capacities

  function Minus<V>(c: seq<Entry<V>>, missing: Option<string>): seq<Entry<V>> {
    if missing.Some? then Without(c, missing.value) else c
  }

  // small is large with at most one entry removed, in the same order.
  ghost predicate AllButOne<V>(large: seq<Entry<V>>, small: seq<Entry<V>>) {
    Distinct(large) && exists m: Option<string> :: small == Minus(large, m)
  }

  lemma {:induction false} LookupMinus<V>(c: seq<Entry<V>>, m: Option<string>, key: string)
    ensures Lookup(Minus(c, m), key) == if m == Some(key) then None else Lookup(c, key)
  {
    if m.Some? {
      if m.value == key {
        var r := Lookup(Without(c, key), key);
        if r.Some? { WithoutMember(c, key, r.value); }
      } else {
        LookupOther(c, key, m.value);
      }
    }
  }

  lemma {:induction false} WithoutMinus<V>(c: seq<Entry<V>>, m: Option<string>, key: string)
    ensures Without(Minus(c, m), key) == Minus(Without(c, key), m)
  {
    if m.Some? { WithoutCommutes(c, m.value, key); }
  }

  lemma {:induction false} MinusAppend<V>(c: seq<Entry<V>>, m: Option<string>, e: Entry<V>)
    requires m != Some(e.key)
    ensures Minus(c + [e], m) == Minus(c, m) + [e]
  {
    if m.Some? { WithoutConcat(c, [e], m.value); }
  }

  lemma {:induction false} WithoutTwice<V>(c: seq<Entry<V>>, key: string)
    ensures Without(Without(c, key), key) == Without(c, key)
  {
    if c != [] { WithoutTwice(c[1..], key); }
  }

  lemma {:induction false} MinusLength<V>(c: seq<Entry<V>>, m: Option<string>)
    requires Distinct(c)
    ensures |Minus(c, m)| == |c| - (if m.Some? && Lookup(c, m.value).Some? then 1 else 0)
  {
    if m.Some? {
      if Lookup(c, m.value).Some? { WithoutShrinks(c, m.value); } else { WithoutAbsent(c, m.value); }
    }
  }

  // Storing one entry in both caches: each evicts its own oldest entry when it overflows.
  lemma {:induction false} StoreInclusion<V>(n: nat, large: seq<Entry<V>>, m: Option<string>,
                                             e: Entry<V>) returns (m': Option<string>)
    requires n >= 1 && Distinct(large) && Lookup(large, e.key).None?
    requires m != Some(e.key)
    requires |large| <= n + 1 && |Minus(large, m)| <= n
    ensures var big := large + [e];
      var small := Minus(large, m) + [e];
      && Distinct(big) && small == Minus(big, m)
      && (if |small| > n then small[1..] else small) == Minus(if |big| > n + 1 then big[1..] else big, m')
  {
    var big, small := large + [e], Minus(large, m) + [e];
    MinusAppend(large, m, e);
    MinusLength(large, m);
    assert Distinct(big);
    m' := m;
    if |big| > n + 1 {
      if big[0].key == m.value {
        // The larger cache evicts the one entry the smaller lacks; the smaller evicts the next.
        WithoutAbsent(large[1..], m.value);
        assert small == big[1..];
        WithoutAbsent(big[2..], big[1].key);
        assert big[1..][1..] == big[2..];
        m' := Some(big[1].key);
      }
    } else if |small| > n {
      // Only the smaller cache overflows: it now lacks its oldest entry.
      if m.Some? { WithoutAbsent(large, m.value); }
      WithoutAbsent(big[1..], big[0].key);
      m' := Some(big[0].key);
    }
  }

  function Sized(ttl: real, n: int): Config {
    Config(ttl, Some(n))
  }

  lemma {:induction false} GetInclusion<V>(ttl: real, n: nat, large: seq<Entry<V>>, m: Option<string>, key: string,
                                           now: real)
    ensures Step(Sized(ttl, n), Minus(large, m), Get(key, now))
            == Minus(Step(Sized(ttl, n + 1), large, Get(key, now)), m)
  {
    LookupMinus(large, m, key);
    WithoutMinus(large, m, key);
    if m == Some(key) {
      WithoutTwice(large, key);
      if Hits(large, key, now) {
        WithoutConcat(Without(large, key), [Lookup(large, key).value], key);
      }
    } else if Hits(large, key, now) {
      MinusAppend(Without(large, key), m, Lookup(large, key).value);
    }
  }

  lemma {:induction false} SetInclusion<V>(ttl: real, n: nat, large: seq<Entry<V>>, m: Option<string>,
                                           op: Op<V>) returns (m': Option<string>)
    requires n >= 1 && Distinct(large) && |large| <= n + 1 && |Minus(large, m)| <= n && op.Set?
    ensures Step(Sized(ttl, n), Minus(large, m), op) == Minus(Step(Sized(ttl, n + 1), large, op), m')
  {
    hide Distinct;
    var rest := Without(large, op.key);
    WithoutDistinct(large, op.key);
    LookupMinus(large, Some(op.key), op.key);
    WithoutMinus(large, m, op.key);
    WithoutShorter(large, op.key);
    WithoutShorter(Minus(large, m), op.key);
    if m == Some(op.key) { WithoutTwice(large, op.key); }
    m' := StoreInclusion(n, rest, if m == Some(op.key) then None else m, Stored(Sized(ttl, n), op));
  }

  lemma {:induction false} StepInclusion<V>(ttl: real, n: nat, large: seq<Entry<V>>, m: Option<string>,
                                            op: Op<V>) returns (m': Option<string>)
    requires n >= 1 && Distinct(large) && |large| <= n + 1 && |Minus(large, m)| <= n
    ensures Step(Sized(ttl, n), Minus(large, m), op) == Minus(Step(Sized(ttl, n + 1), large, op), m')
  {
    m' := m;
    match op
    case Get(key, now) => GetInclusion(ttl, n, large, m, key, now);
    case Set(_, _, _, _) => m' := SetInclusion(ttl, n, large, m, op);
    case Delete(key) => WithoutMinus(large, m, key);
    case Clear =>
    case Cleanup(now) => if m.Some? { UnexpiredWithout(large, m.value, now); }
  }

  /** Inclusion: on every common trace, the cache of capacity n is the cache of capacity n + 1 with at
      most one entry removed, in the same order. */
  lemma {:induction false} Inclusion<V>(ttl: real, n: nat, ops: seq<Op<V>>)
    requires n >= 1
    ensures AllButOne(Run(Sized(ttl, n + 1), ops), Run(Sized(ttl, n), ops))
  {
    RunInvariant(Sized(ttl, n + 1), ops);
    if ops == [] {
      assert Run(Sized(ttl, n), ops) == Minus(Run(Sized(ttl, n + 1), ops), None);
    } else {
      var init, op := ops[..|ops| - 1], ops[|ops| - 1];
      Inclusion(ttl, n, init);
      RunInvariant(Sized(ttl, n + 1), init);
      RunInvariant(Sized(ttl, n), init);
      var large := Run(Sized(ttl, n + 1), init);
      var m :| Run(Sized(ttl, n), init) == Minus(large, m);
      var m' := StepInclusion(ttl, n, large, m, op);
    }
  }

  /** A larger capacity never turns a hit into a miss, nor changes the value returned. */
  lemma {:induction false} LargerCacheHitsToo<V>(ttl: real, n: nat, k: nat, ops: seq<Op<V>>, key: string, now: real)
    requires 1 <= n <= k
    requires Hits(Run(Sized(ttl, n), ops), key, now)
    ensures Hits(Run(Sized(ttl, k), ops), key, now)
    ensures Answer(Run(Sized(ttl, k), ops), key, now) == Answer(Run(Sized(ttl, n), ops), key, now)
    decreases k - n
  {
    if n < k {
      Inclusion(ttl, n, ops);
      var large := Run(Sized(ttl, n + 1), ops);
      var m :| Run(Sized(ttl, n), ops) == Minus(large, m);
      LookupMinus(large, m, key);
      LargerCacheHitsToo(ttl, n + 1, k, ops, key, now);
    }
  }

  // ---------------------------------------------------------------- the plain timed map

  // What the trace last stored under key, if it was not deleted or cleared since.
  function LastStored<V>(cfg: Config, ops: seq<Op<V>>, key: string): Option<Entry<V>> {
    if ops == [] then None
    else
      var op := ops[|ops| - 1];
      if op.Set? && op.key == key then Some(Stored(cfg, op))
      else if op.Clear? || (op.Delete? && op.key == key) then None
      else LastStored(cfg, ops[..|ops| - 1], key)
  }

  lemma {:induction false} StepLookup<V>(cfg: Config, c: seq<Entry<V>>, op: Op<V>, key: string)
    ensures Lookup(Step(cfg, c, op), key).Some? ==>
      if op.Set? && op.key == key then Lookup(Step(cfg, c, op), key).value == Stored(cfg, op)
      else Lookup(Step(cfg, c, op), key).value in c && !op.Clear? && !(op.Delete? && op.key == key)
  {
    var r := Lookup(Step(cfg, c, op), key);
    if r.Some? {
      match op
      case Get(k, now) => WithoutMember(c, k, r.value);
      case Set(k, _, _, _) => WithoutMember(c, k, r.value);
      case Delete(k) => WithoutMember(c, k, r.value);
      case Clear =>
      case Cleanup(now) => UnexpiredMember(c, now, r.value);
    }
  }

  lemma {:induction false} LookupMember<V>(c: seq<Entry<V>>, e: Entry<V>)
    requires Distinct(c) && e in c
    ensures Lookup(c, e.key) == Some(e)
  {
    if c[0] != e {
      var i :| 1 <= i < |c| && c[i] == e;
      assert c[1..][i - 1] == e;
      LookupMember(c[1..], e);
    }
  }

  /** Soundness: a hit returns what was last stored under that key, not deleted or cleared since, and
      unexpired - for any capacity and any clock. */
  lemma {:induction false} HitIsLastStored<V>(cfg: Config, ops: seq<Op<V>>, key: string)
    ensures Lookup(Run(cfg, ops), key).Some? ==> Lookup(Run(cfg, ops), key) == LastStored(cfg, ops, key)
  {
    if ops != [] && Lookup(Run(cfg, ops), key).Some? {
      var init, op := ops[..|ops| - 1], ops[|ops| - 1];
      var c := Run(cfg, init);
      StepLookup(cfg, c, op, key);
      if !(op.Set? && op.key == key) {
        RunInvariant(cfg, init);
        LookupMember(c, Lookup(Run(cfg, ops), key).value);
        HitIsLastStored(cfg, init, key);
      }
    }
  }

  // ---------------------------------------------------------------- survival

  // Entry e is in c, and every entry younger than it has a key in `touched`.
  ghost predicate Kept<V>(c: seq<Entry<V>>, e: Entry<V>, touched: set<string>) {
    exists i :: 0 <= i < |c| && c[i] == e && Among(c[i + 1..], touched)
  }

  predicate Among<V>(c: seq<Entry<V>>, touched: set<string>) {
    forall j :: 0 <= j < |c| ==> c[j].key in touched
  }

  // The key a step makes youngest: one that is set, or hit.
  function Touched<V>(c: seq<Entry<V>>, op: Op<V>): set<string> {
    match op
    case Set(k, _, _, _) => {k}
    case Get(k, now) => if Hits(c, k, now) then {k} else {}
    case _ => {}
  }

  // Keys other than `key` set or hit by the operations from index `from` on.
  function OthersTouched<V>(cfg: Config, ops: seq<Op<V>>, from: nat, key: string): set<string>
    decreases |ops|
  {
    if |ops| <= from then {}
    else
      var init := ops[..|ops| - 1];
      OthersTouched(cfg, init, from, key) + (Touched(Run(cfg, init), ops[|ops| - 1]) - {key})
  }

  // Operations that may take the entry away: none of these, and no clock reading past its expiry.
  predicate Spares<V>(op: Op<V>, e: Entry<V>) {
    match op
    case Get(_, now) => now <= e.expiry
    case Set(k, _, _, _) => k != e.key
    case Delete(k) => k != e.key
    case Clear => false
    case Cleanup(now) => now <= e.expiry
  }

  lemma {:induction false} AmongFiltered<V>(b: seq<Entry<V>>, touched: set<string>, key: string, now: real)
    requires Among(b, touched)
    ensures Among(Without(b, key), touched) && Among(Unexpired(b, now), touched)
  {
    if b != [] {
      assert b[0].key in touched && Among(b[1..], touched);
      AmongFiltered(b[1..], touched, key, now);
    }
  }

  lemma {:induction false} AmongIsShort<V>(b: seq<Entry<V>>, touched: set<string>)
    requires Distinct(b) && Among(b, touched)
    ensures |b| <= |touched|
  {
    if b != [] {
      assert b[0].key in touched;
      forall j | 0 <= j < |b[1..]| ensures b[1..][j].key in touched - {b[0].key} {
        assert b[1..][j] == b[j + 1];
      }
      AmongIsShort(b[1..], touched - {b[0].key});
    }
  }

  lemma KeptHere<V>(a: seq<Entry<V>>, e: Entry<V>, b: seq<Entry<V>>, touched: set<string>)
    requires Among(b, touched)
    ensures Kept(a + [e] + b, e, touched)
  {
    var c := a + [e] + b;
    assert c[|a|] == e && c[|a| + 1..] == b;
  }

  lemma {:induction false} FilterAround<V>(a: seq<Entry<V>>, e: Entry<V>, b: seq<Entry<V>>, key: string, now: real)
    requires now <= e.expiry
    ensures key != e.key ==> Without(a + [e] + b, key) == Without(a, key) + [e] + Without(b, key)
    ensures Unexpired(a + [e] + b, now) == Unexpired(a, now) + [e] + Unexpired(b, now)
  {
    WithoutConcat(a + [e], b, key);
    WithoutConcat(a, [e], key);
    UnexpiredConcat(a + [e], b, now);
    UnexpiredConcat(a, [e], now);
    assert Unexpired([e], now) == [e];
  }

  // Evicting from the old end spares e while fewer than maxSize entries are younger.
  lemma {:induction false} EvictKeeps<V>(cfg: Config, a: seq<Entry<V>>, e: Entry<V>, b: seq<Entry<V>>,
                                         touched: set<string>)
    requires Distinct(b) && Among(b, touched)
    requires Bounded(cfg) ==> |touched| < cfg.maxSize.value
    ensures Kept(Evict(cfg, a + [e] + b), e, touched)
  {
    AmongIsShort(b, touched);
    var c := a + [e] + b;
    KeptHere(a, e, b, touched);
    if Bounded(cfg) && |c| > cfg.maxSize.value {
      var drop := |c| - cfg.maxSize.value;
      assert c[drop..] == a[drop..] + [e] + b;
      KeptHere(a[drop..], e, b, touched);
    }
  }

  lemma {:induction false} GetKeeps<V>(cfg: Config, a: seq<Entry<V>>, e: Entry<V>, b: seq<Entry<V>>, key: string,
                                       now: real, t: set<string>)
    requires Distinct(a + [e] + b) && now <= e.expiry && Among(b, t)
    requires Touched(a + [e] + b, Get(key, now)) - {e.key} <= t
    ensures Kept(Step(cfg, a + [e] + b, Get(key, now)), e, t)
  {
    var c := a + [e] + b;
    assert c[|a|] == e;
    LookupMember(c, e);
    if key == e.key {
      var d := Without(c, key);
      KeptHere(d, e, [], t);
      assert d + [e] + [] == d + [e];
    } else {
      FilterAround(a, e, b, key, now);
      AmongFiltered(b, t, key, now);
      var a', b' := Without(a, key), Without(b, key);
      KeptHere(a', e, b', t);
      if Hits(c, key, now) {
        var x := Lookup(c, key).value;
        KeptHere(a', e, b' + [x], t);
        assert a' + [e] + (b' + [x]) == Without(c, key) + [x];
      }
    }
  }

  lemma {:induction false} SetKeeps<V>(cfg: Config, a: seq<Entry<V>>, e: Entry<V>, b: seq<Entry<V>>, op: Op<V>,
                                       t: set<string>)
    requires Distinct(a + [e] + b) && op.Set? && op.key != e.key && Among(b, t) && op.key in t
    requires Bounded(cfg) ==> |t| < cfg.maxSize.value
    ensures Kept(Step(cfg, a + [e] + b, op), e, t)
  {
    var c, key, x := a + [e] + b, op.key, Stored(cfg, op);
    hide Without, Unexpired, Evict, Kept, Stored;
    FilterAround(a, e, b, key, e.expiry);
    AmongFiltered(b, t, key, e.expiry);
    forall i, j | 0 <= i < j < |b| ensures b[i].key != b[j].key {
      assert b[i] == c[|a| + 1 + i] && b[j] == c[|a| + 1 + j];
    }
    AppendDistinct(b, key, Some(x));
    var a', b' := Without(a, key), Without(b, key);
    EvictKeeps(cfg, a', e, b' + [x], t);
    assert a' + [e] + (b' + [x]) == Without(c, key) + [x];
  }

  lemma {:induction false} StepKeeps<V>(cfg: Config, c: seq<Entry<V>>, e: Entry<V>, op: Op<V>, touched: set<string>)
    requires Distinct(c) && Kept(c, e, touched) && Spares(op, e)
    requires var t := touched + (Touched(c, op) - {e.key}); Bounded(cfg) ==> |t| < cfg.maxSize.value
    ensures Kept(Step(cfg, c, op), e, touched + (Touched(c, op) - {e.key}))
  {
    var i :| 0 <= i < |c| && c[i] == e && Among(c[i + 1..], touched);
    var a, b := c[..i], c[i + 1..];
    var t := touched + (Touched(c, op) - {e.key});
    assert c == a + [e] + b && Among(b, t);
    hide Kept, Distinct, Touched;
    match op
    case Get(key, now) => GetKeeps(cfg, a, e, b, key, now, t);
    case Set(key, _, _, _) =>
      assert Touched(c, op) == {key} by { TouchedBySet(c, op); }
      SetKeeps(cfg, a, e, b, op, t);
    case Delete(key) =>
      FilterAround(a, e, b, key, e.expiry);
      AmongFiltered(b, t, key, e.expiry);
      KeptHere(Without(a, key), e, Without(b, key), t);
    case Clear =>
    case Cleanup(now) =>
      FilterAround(a, e, b, "", now);
      AmongFiltered(b, t, "", now);
      KeptHere(Unexpired(a, now), e, Unexpired(b, now), t);
  }

  lemma TouchedBySet<V>(c: seq<Entry<V>>, op: Op<V>)
    requires op.Set?
    ensures Touched(c, op) == {op.key}
  {
  }

  // Operation i stores or hits e.key, leaving e the youngest entry.
  ghost predicate TouchedAt<V>(cfg: Config, ops: seq<Op<V>>, i: nat, e: Entry<V>)
    requires i < |ops|
  {
    match ops[i]
    case Set(k, _, _, _) => Stored(cfg, ops[i]) == e
    case Get(k, now) => Hits(Run(cfg, ops[..i]), k, now) && Lookup(Run(cfg, ops[..i]), k) == Some(e)
    case _ => false
  }

  lemma {:induction false} TouchMakesYoungest<V>(cfg: Config, ops: seq<Op<V>>, i: nat, e: Entry<V>)
    requires i < |ops| && TouchedAt(cfg, ops, i, e)
    ensures Kept(Run(cfg, ops[..i + 1]), e, {})
  {
    var c := Run(cfg, ops[..i]);
    assert ops[..i + 1][..i] == ops[..i];
    var d := Without(c, e.key);
    assert d + [e] + [] == d + [e];
    KeptHere(d, e, [], {});
    if ops[i].Set? { EvictKeeps(cfg, d, e, [], {}); }
  }

  /** Survival: an entry set or hit at step i, then neither replaced, deleted, cleared nor expired, is
      still in the cache while fewer than maxSize distinct other keys have been set or hit since. */
  lemma {:induction false} Survives<V>(cfg: Config, ops: seq<Op<V>>, i: nat, e: Entry<V>)
    requires i < |ops| && TouchedAt(cfg, ops, i, e)
    requires forall j :: i < j < |ops| ==> Spares(ops[j], e)
    requires Bounded(cfg) ==> |OthersTouched(cfg, ops, i + 1, e.key)| < cfg.maxSize.value
    ensures Kept(Run(cfg, ops), e, OthersTouched(cfg, ops, i + 1, e.key))
    ensures Lookup(Run(cfg, ops), e.key) == Some(e)
    decreases |ops|
  {
    RunInvariant(cfg, ops);
    if |ops| == i + 1 {
      assert ops[..i + 1] == ops;
      TouchMakesYoungest(cfg, ops, i, e);
    } else {
      var init, op := ops[..|ops| - 1], ops[|ops| - 1];
      assert init[..i] == ops[..i];
      var before := OthersTouched(cfg, init, i + 1, e.key);
      SubsetSize(before, OthersTouched(cfg, ops, i + 1, e.key));
      Survives(cfg, init, i, e);
      RunInvariant(cfg, init);
      StepKeeps(cfg, Run(cfg, init), e, op, before);
    }
    var k :| 0 <= k < |Run(cfg, ops)| && Run(cfg, ops)[k] == e;
    LookupMember(Run(cfg, ops), e);
  }

  lemma {:induction false} SubsetSize(a: set<string>, b: set<string>)
    requires a <= b
    ensures |a| <= |b|
  {
    if a != {} {
      var x :| x in a;
      SubsetSize(a - {x}, b - {x});
    }
  }

  // ---------------------------------------------------------------- exact answers

  function KeysSet<V>(ops: seq<Op<V>>): set<string> {
    if ops == [] then {}
    else
      var op := ops[|ops| - 1];
      KeysSet(ops[..|ops| - 1]) + if op.Set? then {op.key} else {}
  }

  predicate Fits<V>(cfg: Config, ops: seq<Op<V>>) {
    Bounded(cfg) ==> |KeysSet(ops)| <= cfg.maxSize.value
  }

  predicate ReadBy<V>(ops: seq<Op<V>>, now: real) {
    forall i :: 0 <= i < |ops| ==>
      (ops[i].Get? ==> ops[i].now <= now) && (ops[i].Cleanup? ==> ops[i].now <= now)
  }

  lemma {:induction false} OnlySetKeys<V>(cfg: Config, ops: seq<Op<V>>)
    ensures Among(Run(cfg, ops), KeysSet(ops))
  {
    var c := Run(cfg, ops);
    forall j | 0 <= j < |c| ensures c[j].key in KeysSet(ops) {
      RunInvariant(cfg, ops);
      LookupMember(c, c[j]);
      HitIsLastStored(cfg, ops, c[j].key);
      LastStoredIsSet(cfg, ops, c[j].key);
    }
  }

  lemma {:induction false} LastStoredIsSet<V>(cfg: Config, ops: seq<Op<V>>, key: string)
    ensures LastStored(cfg, ops, key).Some? ==> key in KeysSet(ops) && LastStored(cfg, ops, key).value.key == key
  {
    if ops != [] { LastStoredIsSet(cfg, ops[..|ops| - 1], key); }
  }

  lemma {:induction false} StepMember<V>(cfg: Config, c: seq<Entry<V>>, op: Op<V>, e: Entry<V>)
    requires Distinct(c) && e in c && Spares(op, e)
    requires op.Set? ==> Evict(cfg, Without(c, op.key) + [Stored(cfg, op)]) == Without(c, op.key) + [Stored(cfg, op)]
    ensures e in Step(cfg, c, op)
  {
    LookupMember(c, e);
    match op
    case Get(key, now) => WithoutMember(c, key, e);
    case Set(key, _, _, _) => WithoutMember(c, key, e);
    case Delete(key) => WithoutMember(c, key, e);
    case Clear =>
    case Cleanup(now) => UnexpiredMember(c, now, e);
  }

  lemma {:induction false} RunFits<V>(cfg: Config, ops: seq<Op<V>>, op: Op<V>)
    requires op.Set? && Fits(cfg, ops + [op])
    ensures var full := Without(Run(cfg, ops), op.key) + [Stored(cfg, op)]; Evict(cfg, full) == full
  {
    var full := Without(Run(cfg, ops), op.key) + [Stored(cfg, op)];
    assert (ops + [op])[..|ops|] == ops;
    RunInvariant(cfg, ops);
    OnlySetKeys(cfg, ops);
    AppendDistinct(Run(cfg, ops), op.key, Some(Stored(cfg, op)));
    AmongFiltered(Run(cfg, ops), KeysSet(ops), op.key, 0.0);
    AmongIsShort(full, KeysSet(ops + [op]));
  }

  lemma {:induction false} PlainMapKeeps<V>(cfg: Config, ops: seq<Op<V>>, key: string, now: real)
    requires Fits(cfg, ops) && ReadBy(ops, now)
    requires LastStored(cfg, ops, key).Some? && now <= LastStored(cfg, ops, key).value.expiry
    ensures LastStored(cfg, ops, key).value in Run(cfg, ops)
  {
    var init, op := ops[..|ops| - 1], ops[|ops| - 1];
    assert init + [op] == ops;
    SubsetSize(KeysSet(init), KeysSet(ops));
    if op.Set? { RunFits(cfg, init, op); }
    if !(op.Set? && op.key == key) {
      assert forall i :: 0 <= i < |init| ==> init[i] == ops[i];
      LastStoredIsSet(cfg, init, key);
      PlainMapKeeps(cfg, init, key, now);
      RunInvariant(cfg, init);
      assert op == ops[|ops| - 1];
      StepMember(cfg, Run(cfg, init), op, LastStored(cfg, ops, key).value);
    }
  }

  /** While the trace sets no more distinct keys than fit, or the cache is unbounded, the cache answers
      exactly as the plain timed map does. */
  lemma {:induction false} AnswersAsPlainMap<V>(cfg: Config, ops: seq<Op<V>>, key: string, now: real)
    requires Fits(cfg, ops) && ReadBy(ops, now)
    ensures Answer(Run(cfg, ops), key, now) ==
            var last := LastStored(cfg, ops, key);
            if last.Some? && now <= last.value.expiry then Some(last.value.value) else None
  {
    HitIsLastStored(cfg, ops, key);
    var last := LastStored(cfg, ops, key);
    if last.Some? && now <= last.value.expiry {
      PlainMapKeeps(cfg, ops, key, now);
      RunInvariant(cfg, ops);
      LastStoredIsSet(cfg, ops, key);
      LookupMember(Run(cfg, ops), last.value);
    }
  }

  // ---------------------------------------------------------------- hits, read off the trace alone

  // Operation i set key, and nothing since has set, deleted or cleared it.
  predicate SetLast<V>(ops: seq<Op<V>>, key: string, i: nat) {
    && i < |ops| && ops[i].Set? && ops[i].key == key
    && forall j :: i < j < |ops| ==>
         !ops[j].Clear? && (ops[j].Set? || ops[j].Delete? ==> ops[j].key != key)
  }

  // A reading no later than the time of the set plus its own ttl, or plus the default when it gave none.
  predicate InTime<V>(cfg: Config, op: Op<V>, now: real)
    requires op.Set?
  {
    match op.ttl
    case Some(ttl) => now <= op.now + ttl
    case None => now <= op.now + cfg.defaultTtl
  }

  lemma {:induction false} LastStoredIff<V>(cfg: Config, ops: seq<Op<V>>, key: string, e: Entry<V>)
    ensures LastStored(cfg, ops, key) == Some(e) <==> exists i: nat :: SetLast(ops, key, i) && Stored(cfg, ops[i]) == e
  {
    if ops != [] {
      var init, last := ops[..|ops| - 1], ops[|ops| - 1];
      LastStoredIff(cfg, init, key, e);
      forall i: nat | i < |init|
        ensures SetLast(ops, key, i) <==>
                SetLast(init, key, i) && !last.Clear? && (last.Set? || last.Delete? ==> last.key != key)
      {
        assert init[i] == ops[i];
        if SetLast(ops, key, i) {
          forall j | i < j < |init| ensures init[j] == ops[j] { }
        }
        if SetLast(init, key, i) && !last.Clear? && (last.Set? || last.Delete? ==> last.key != key) {
          forall j | i < j < |ops|
            ensures !ops[j].Clear? && (ops[j].Set? || ops[j].Delete? ==> ops[j].key != key)
          {
            if j < |init| { assert ops[j] == init[j]; }
          }
        }
      }
      if last.Set? && last.key == key {
        assert SetLast(ops, key, |init|);
        forall i: nat | SetLast(ops, key, i) ensures i == |init| { }
      } else {
        forall i: nat | SetLast(ops, key, i) ensures i < |init| { }
      }
    }
  }

  /** While the keys set fit, a get answers v if and only if the last operation on its key among set, delete and
      clear is a set of v whose time to live - its own, or else the default - is not over. */
  lemma {:induction false} HitIffSetLast<V(!new)>(cfg: Config, ops: seq<Op<V>>, key: string, now: real, v: V)
    requires Fits(cfg, ops) && ReadBy(ops, now)
    ensures Answer(Run(cfg, ops), key, now) == Some(v)
            <==> exists i: nat :: SetLast(ops, key, i) && ops[i].value == v && InTime(cfg, ops[i], now)
  {
    AnswersAsPlainMap(cfg, ops, key, now);
    var last := LastStored(cfg, ops, key);
    if last.Some? {
      LastStoredIff(cfg, ops, key, last.value);
      var i: nat :| SetLast(ops, key, i) && Stored(cfg, ops[i]) == last.value;
      forall j: nat | SetLast(ops, key, j) ensures j == i { }
    } else {
      forall i: nat | SetLast(ops, key, i) ensures false {
        LastStoredIff(cfg, ops, key, Stored(cfg, ops[i]));
      }
    }
  }

  /** Whatever the capacity, a get that answers v finds the last set of the key, still in time; and such a set is
      found as long as fewer than max_size other keys have been set or hit since and no clock reading of the trace
      was past its time. */
  lemma {:induction false} SetSurvives<V(!new)>(cfg: Config, ops: seq<Op<V>>, key: string, now: real, i: nat)
    requires SetLast(ops, key, i)
    ensures forall v :: Answer(Run(cfg, ops), key, now) == Some(v) ==> ops[i].value == v && InTime(cfg, ops[i], now)
    ensures InTime(cfg, ops[i], now)
            && (forall j :: i < j < |ops| && (ops[j].Get? || ops[j].Cleanup?) ==> InTime(cfg, ops[i], ops[j].now))
            && (Bounded(cfg) ==> |OthersTouched(cfg, ops, i + 1, key)| < cfg.maxSize.value)
            ==> Answer(Run(cfg, ops), key, now) == Some(ops[i].value)
  {
    var e := Stored(cfg, ops[i]);
    LastStoredIff(cfg, ops, key, e);
    HitIsLastStored(cfg, ops, key);
    if InTime(cfg, ops[i], now)
       && (forall j :: i < j < |ops| && (ops[j].Get? || ops[j].Cleanup?) ==> InTime(cfg, ops[i], ops[j].now))
       && (Bounded(cfg) ==> |OthersTouched(cfg, ops, i + 1, key)| < cfg.maxSize.value)
    {
      forall j | i < j < |ops| ensures Spares(ops[j], e) { }
      hide OthersTouched, Run;
      Survives(cfg, ops, i, e);
    }
  }
}
