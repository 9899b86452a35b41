/**
 SimpleCache (cache.py): a map with expiry times and least-recently-used eviction.

 The ordered dictionary is a sequence of entries, oldest first; clock readings are parameters.
 */
module Cache {
  import opened Base

  datatype Entry<V> = Entry(key: string, value: V, expiry: real)

  datatype Config = Config(defaultTtl: real, maxSize: Option<int>)

  datatype Op<V> =
    | Get(key: string, now: real)
    | Set(key: string, value: V, ttl: Option<real>, now: real)
    | Delete(key: string)
    | Clear
    | Cleanup(now: real)

  // ---------------------------------------------------------------- operations

  function Without<V>(c: seq<Entry<V>>, key: string): seq<Entry<V>> {
    if c == [] then []
    else if c[0].key == key then Without(c[1..], key)
    else [c[0]] + Without(c[1..], key)
  }

  function Unexpired<V>(c: seq<Entry<V>>, now: real): seq<Entry<V>> {
    if c == [] then []
    else if now > c[0].expiry then Unexpired(c[1..], now)
    else [c[0]] + Unexpired(c[1..], now)
  }

  function Lookup<V>(c: seq<Entry<V>>, key: string): (r: Option<Entry<V>>)
    ensures r.Some? ==> r.value in c && r.value.key == key
    ensures r.None? ==> forall i :: 0 <= i < |c| ==> c[i].key != key
  {
    if c == [] then None
    else if c[0].key == key then Some(c[0])
    else Lookup(c[1..], key)
  }

  predicate Bounded(cfg: Config) {
    cfg.maxSize.Some? && cfg.maxSize.value > 0
  }

  function Evict<V>(cfg: Config, c: seq<Entry<V>>): seq<Entry<V>> {
    if Bounded(cfg) && |c| > cfg.maxSize.value then c[|c| - cfg.maxSize.value..] else c
  }

  function Stored<V>(cfg: Config, op: Op<V>): Entry<V>
    requires op.Set?
  {
    Entry(op.key, op.value, op.now + OrElse(op.ttl, cfg.defaultTtl))
  }

  // Whether a get finds a live entry.
  predicate Hits<V>(c: seq<Entry<V>>, key: string, now: real) {
    Lookup(c, key).Some? && now <= Lookup(c, key).value.expiry
  }

  function Answer<V>(c: seq<Entry<V>>, key: string, now: real): Option<V> {
    if Hits(c, key, now) then Some(Lookup(c, key).value.value) else None
  }

  function Step<V>(cfg: Config, c: seq<Entry<V>>, op: Op<V>): seq<Entry<V>> {
    match op
    case Get(key, now) =>
      if Hits(c, key, now) then Without(c, key) + [Lookup(c, key).value] else
      if Lookup(c, key).Some? then Without(c, key) else c
    case Set(key, _, _, _) => Evict(cfg, Without(c, key) + [Stored(cfg, op)])
    case Delete(key) => Without(c, key)
    case Clear => []
    case Cleanup(now) => Unexpired(c, now)
  }

  function Run<V>(cfg: Config, ops: seq<Op<V>>): seq<Entry<V>> {
    if ops == [] then [] else Step(cfg, Run(cfg, ops[..|ops| - 1]), ops[|ops| - 1])
  }

  // ---------------------------------------------------------------- the class

  class SimpleCache<V> {
    const cfg: Config
    var entries: seq<Entry<V>>
    var hits: nat
    var misses: nat

    constructor (defaultTtl: real, maxSize: Option<int>)
      ensures cfg == Config(defaultTtl, maxSize) && entries == [] && hits == misses == 0
    {
      cfg := Config(defaultTtl, maxSize);
      entries, hits, misses := [], 0, 0;
    }

    // dict.pop(key, None)
    method Pop(key: string)
      modifies this`entries
      ensures entries == Without(old(entries), key)
    {
      var kept := [];
      for i := 0 to |entries|
        invariant entries == old(entries)
        invariant kept + Without(entries[i..], key) == Without(entries, key)
      {
        if entries[i].key != key { kept := kept + [entries[i]]; }
        assert entries[i..][1..] == entries[i + 1..];
      }
      entries := kept;
    }

    method GetOrMiss(key: string, now: real) returns (value: Option<V>)
      modifies this
      ensures value == Answer(old(entries), key, now)
      ensures entries == Step(cfg, old(entries), Get(key, now))
      ensures hits == old(hits) + (if value.Some? then 1 else 0)
      ensures misses == old(misses) + (if value.None? then 1 else 0)
    {
      var cached := Lookup(entries, key);
      if cached.None? {
        misses := misses + 1;
        return None;
      }
      if now > cached.value.expiry {
        Pop(key);
        misses := misses + 1;
        return None;
      }
      hits := hits + 1;
      Pop(key);
      entries := entries + [cached.value];
      return Some(cached.value.value);
    }

    method Store(key: string, value: V, ttl: Option<real>, now: real)
      modifies this`entries
      ensures entries == Step(cfg, old(entries), Set(key, value, ttl, now))
    {
      var expiry := now + OrElse(ttl, cfg.defaultTtl);
      Pop(key);
      entries := entries + [Entry(key, value, expiry)];
      ghost var full := entries;
      if cfg.maxSize.Some? && cfg.maxSize.value > 0 {
        while |entries| > cfg.maxSize.value
          invariant |entries| <= |full| && entries == full[|full| - |entries|..]
          invariant |full| >= cfg.maxSize.value ==> |entries| >= cfg.maxSize.value
          invariant |full| < cfg.maxSize.value ==> entries == full
        {
          entries := entries[1..];
        }
      }
    }

    method Remove(key: string)
      modifies this`entries
      ensures entries == Step(cfg, old(entries), Delete(key))
    {
      Pop(key);
    }

    method Clear()
      modifies this`entries
      ensures entries == Step(cfg, old(entries), Op.Clear)
    {
      entries := [];
    }

    method Cleanup(now: real) returns (removed: nat)
      modifies this`entries
      ensures entries == Step(cfg, old(entries), Op.Cleanup(now))
      ensures removed == |old(entries)| - |entries|
    {
      var active := [];
      removed := 0;
      for i := 0 to |entries|
        invariant entries == old(entries)
        invariant active + Unexpired(entries[i..], now) == Unexpired(entries, now)
        invariant removed + |active| == i
      {
        if now > entries[i].expiry {
          removed := removed + 1;
        } else {
          active := active + [entries[i]];
        }
        assert entries[i..][1..] == entries[i + 1..];
      }
      entries := active;
    }
  }

  // ---------------------------------------------------------------- filters

  lemma {:induction false} WithoutConcat<V>(a: seq<Entry<V>>, b: seq<Entry<V>>, key: string)
    ensures Without(a + b, key) == Without(a, key) + Without(b, key)
  {
    if a == [] {
      assert a + b == b;
    } else {
      assert (a + b)[1..] == a[1..] + b;
      WithoutConcat(a[1..], b, key);
    }
  }

  lemma {:induction false} UnexpiredConcat<V>(a: seq<Entry<V>>, b: seq<Entry<V>>, now: real)
    ensures Unexpired(a + b, now) == Unexpired(a, now) + Unexpired(b, now)
  {
    if a == [] {
      assert a + b == b;
    } else {
      assert (a + b)[1..] == a[1..] + b;
      UnexpiredConcat(a[1..], b, now);
    }
  }

  lemma {:induction false} WithoutMember<V>(c: seq<Entry<V>>, key: string, e: Entry<V>)
    ensures e in Without(c, key) <==> e in c && e.key != key
  {
    if c != [] { WithoutMember(c[1..], key, e); }
  }

  lemma {:induction false} UnexpiredMember<V>(c: seq<Entry<V>>, now: real, e: Entry<V>)
    ensures e in Unexpired(c, now) <==> e in c && now <= e.expiry
  {
    if c != [] { UnexpiredMember(c[1..], now, e); }
  }

  lemma {:induction false} WithoutShorter<V>(c: seq<Entry<V>>, key: string)
    ensures |Without(c, key)| <= |c|
  {
    if c != [] { WithoutShorter(c[1..], key); }
  }

  lemma {:induction false} UnexpiredShorter<V>(c: seq<Entry<V>>, now: real)
    ensures |Unexpired(c, now)| <= |c|
  {
    if c != [] { UnexpiredShorter(c[1..], now); }
  }

  lemma {:induction false} WithoutAbsent<V>(c: seq<Entry<V>>, key: string)
    requires forall i :: 0 <= i < |c| ==> c[i].key != key
    ensures Without(c, key) == c
  {
    if c != [] { WithoutAbsent(c[1..], key); }
  }

  lemma {:induction false} WithoutCommutes<V>(c: seq<Entry<V>>, a: string, b: string)
    ensures Without(Without(c, a), b) == Without(Without(c, b), a)
  {
    if c != [] {
      WithoutCommutes(c[1..], a, b);
    }
  }

  lemma {:induction false} UnexpiredWithout<V>(c: seq<Entry<V>>, key: string, now: real)
    ensures Unexpired(Without(c, key), now) == Without(Unexpired(c, now), key)
  {
    if c != [] {
      UnexpiredWithout(c[1..], key, now);
    }
  }

  lemma {:induction false} LookupOther<V>(c: seq<Entry<V>>, key: string, gone: string)
    requires key != gone
    ensures Lookup(Without(c, gone), key) == Lookup(c, key)
  {
    if c != [] { LookupOther(c[1..], key, gone); }
  }

  // ---------------------------------------------------------------- keys are unique

  predicate Distinct<V>(c: seq<Entry<V>>) {
    forall i, j :: 0 <= i < j < |c| ==> c[i].key != c[j].key
  }

  lemma {:induction false} WithoutDistinct<V>(c: seq<Entry<V>>, key: string)
    requires Distinct(c)
    ensures Distinct(Without(c, key))
  {
    if c != [] {
      WithoutDistinct(c[1..], key);
      var t := Without(c[1..], key);
      forall j | 0 <= j < |t| ensures t[j].key != c[0].key {
        WithoutMember(c[1..], key, t[j]);
        assert t[j] in c[1..];
      }
    }
  }

  lemma {:induction false} UnexpiredDistinct<V>(c: seq<Entry<V>>, now: real)
    requires Distinct(c)
    ensures Distinct(Unexpired(c, now))
  {
    if c != [] {
      UnexpiredDistinct(c[1..], now);
      var t := Unexpired(c[1..], now);
      forall j | 0 <= j < |t| ensures t[j].key != c[0].key {
        UnexpiredMember(c[1..], now, t[j]);
        assert t[j] in c[1..];
      }
    }
  }

  lemma {:induction false} StepDistinct<V>(cfg: Config, c: seq<Entry<V>>, op: Op<V>)
    requires Distinct(c)
    ensures Distinct(Step(cfg, c, op))
  {
    match op
    case Get(key, now) => WithoutDistinct(c, key); AppendDistinct(c, key, Lookup(c, key));
    case Set(key, _, _, _) => WithoutDistinct(c, key); AppendDistinct(c, key, Some(Stored(cfg, op)));
    case Delete(key) => WithoutDistinct(c, key);
    case Clear =>
    case Cleanup(now) => UnexpiredDistinct(c, now);
  }

  lemma {:induction false} AppendDistinct<V>(c: seq<Entry<V>>, key: string, e: Option<Entry<V>>)
    requires Distinct(c) && (e.Some? ==> e.value.key == key)
    ensures e.Some? ==> Distinct(Without(c, key) + [e.value])
  {
    WithoutDistinct(c, key);
    var t := Without(c, key);
    forall j | 0 <= j < |t| ensures t[j].key != key { WithoutMember(c, key, t[j]); }
  }

  // A bounded cache never holds more than maxSize entries, and never two with one key.
  lemma {:induction false} RunInvariant<V>(cfg: Config, ops: seq<Op<V>>)
    ensures Distinct(Run(cfg, ops))
    ensures Bounded(cfg) ==> |Run(cfg, ops)| <= cfg.maxSize.value
  {
    if ops != [] {
      var c, op := Run(cfg, ops[..|ops| - 1]), ops[|ops| - 1];
      RunInvariant(cfg, ops[..|ops| - 1]);
      StepDistinct(cfg, c, op);
      match op
      case Get(key, now) => if Lookup(c, key).Some? { WithoutShrinks(c, key); }
      case Set(key, _, _, _) =>
      case Delete(key) => WithoutShorter(c, key);
      case Clear =>
      case Cleanup(now) => UnexpiredShorter(c, now);
    }
  }

  lemma {:induction false} WithoutShrinks<V>(c: seq<Entry<V>>, key: string)
    requires Distinct(c) && Lookup(c, key).Some?
    ensures |Without(c, key)| == |c| - 1
  {
    if c[0].key == key {
      WithoutAbsent(c[1..], key);
    } else {
      WithoutShrinks(c[1..], key);
    }
  }
}
