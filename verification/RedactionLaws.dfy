/**
 What sanitizing means for a caller (feeds/transport_safety.py), in terms of positions in the value: which
 strings are held under sensitive keys, what becomes of each leaf, and which keys are sensitive.
 */
module RedactionLaws {
  import opened Redaction

  // ---------------------------------------------------------------- positions

  // Going from v by these positions in dictionaries, lists and tuples leads to w.
  predicate Leads(v: Value, path: seq<nat>, w: Value)
    decreases |path|
  {
    if path == [] then v == w
    else match v
      case Dict(ps) => path[0] < |ps| && Leads(ps[path[0]].value, path[1..], w)
      case List(vs) => path[0] < |vs| && Leads(vs[path[0]], path[1..], w)
      case Tuple(vs) => path[0] < |vs| && Leads(vs[path[0]], path[1..], w)
      case _ => false
  }

  // ---------------------------------------------------------------- numerals

  function NumberOf(d: string): int {
    if d == "" then 0 else 10 * NumberOf(d[..|d| - 1]) + (d[|d| - 1] as int - '0' as int)
  }

  // d is n in decimal, without leading zeros.
  predicate Numeral(d: string, n: nat) {
    && d != "" && (forall i :: 0 <= i < |d| ==> '0' <= d[i] <= '9')
    && (|d| > 1 ==> d[0] != '0')
    && NumberOf(d) == n
  }

  lemma NumeralSnoc(init: string, m: nat, c: char)
    requires (init == "" && m == 0) || (Numeral(init, m) && init[0] != '0')
    requires '0' <= c <= '9'
    ensures Numeral(init + [c], 10 * m + (c as int - '0' as int))
  {
    var d := init + [c];
    assert d[..|d| - 1] == init && d[|d| - 1] == c;
    assert NumberOf(d) == 10 * NumberOf(init) + (c as int - '0' as int);
    hide NumberOf;
  }

  // The last digit of n.
  lemma LastDigit(n: nat) returns (c: char)
    ensures '0' <= c <= '9' && c as int - '0' as int == n % 10
    ensures Digits(n) == (if n < 10 then "" else Digits(n / 10)) + [c]
  {
    c := "0123456789"[n % 10];
  }

  lemma {:induction false} DigitsAreNumeral(n: nat)
    ensures Numeral(Digits(n), n) && (n > 0 ==> Digits(n)[0] != '0')
  {
    var c := LastDigit(n);
    hide Digits, Numeral;
    if n >= 10 {
      DigitsAreNumeral(n / 10);
      NumeralSnoc(Digits(n / 10), n / 10, c);
    } else {
      NumeralSnoc("", 0, c);
      assert "" + [c] == [c];
    }
  }

  lemma {:induction false} NumeralPositive(d: string)
    requires d != "" && d[0] != '0' && forall i :: 0 <= i < |d| ==> '0' <= d[i] <= '9'
    ensures NumberOf(d) > 0
  {
    if |d| > 1 { NumeralPositive(d[..|d| - 1]); } else { assert d[..0] == ""; }
  }

  lemma {:induction false} NumeralIsDigits(d: string, n: nat)
    requires Numeral(d, n)
    ensures d == Digits(n)
  {
    var init, last := d[..|d| - 1], d[|d| - 1];
    var k := last as int - '0' as int;
    assert n == 10 * NumberOf(init) + k && 0 <= k <= 9;
    assert "0123456789"[k] == last;
    if |d| > 1 {
      NumeralPositive(init);
      assert n / 10 == NumberOf(init) && n % 10 == k;
      NumeralIsDigits(init, n / 10);
      assert d == init + [last];
    } else {
      assert init == "" && d == "" + [last];
    }
  }

  function Pow10(k: nat): nat {
    if k == 0 then 1 else 10 * Pow10(k - 1)
  }

  lemma {:induction false} DigitsLength(n: nat, k: nat)
    requires k >= 1
    ensures |Digits(n)| > k <==> n >= Pow10(k)
  {
    if n < 10 {
      PowAtLeast(k);
    } else if k > 1 {
      DigitsLength(n / 10, k - 1);
    } else {
      assert |Digits(n)| > 1 && Pow10(1) == 10 * Pow10(0);
    }
  }

  lemma {:induction false} PowAtLeast(k: nat)
    requires k >= 1
    ensures Pow10(k) >= 10
  {
    if k > 1 { PowAtLeast(k - 1); }
  }

  // ---------------------------------------------------------------- what is held under sensitive keys

  // w is text of at least 4 characters, bytes that decode to such, or an integer of at least 8 digits; s is
  // its text.
  predicate LongText(w: Value, s: string) {
    match w
    case Str(t) => t == s && |s| >= 4
    case Bytes(t) => t == s && |s| >= 4
    case Int(n) =>
      if n >= 0 then n >= 10_000_000 && Numeral(s, n)
      else n <= -10_000_000 && s != "" && s[0] == '-' && Numeral(s[1..], -n)
    case _ => false
  }

  lemma NumeralIffDigits(d: string, n: nat)
    ensures Numeral(d, n) <==> d == Digits(n)
  {
    DigitsAreNumeral(n);
    if Numeral(d, n) { NumeralIsDigits(d, n); }
  }

  lemma EightDigits(n: nat)
    ensures |Digits(n)| >= 8 <==> n >= 10_000_000
  {
    DigitsLength(n, 7);
    assert Pow10(7) == 10_000_000;
  }

  lemma NegatedIs(s: string, d: string)
    ensures s == "-" + d <==> s != "" && s[0] == '-' && s[1..] == d
  {
    if s != "" && s[0] == '-' { assert s == "-" + s[1..]; }
  }

  lemma LongTextIsSecret(w: Value, s: string)
    ensures s in SecretOf(w) <==> LongText(w, s)
  {
    if w.Int? {
      var n := if w.n < 0 then -w.n else w.n;
      EightDigits(n);
      NumeralIffDigits(s, n);
      NegatedIs(s, Digits(n));
      if s != "" { NumeralIffDigits(s[1..], n); }
      hide Digits, Numeral;
    }
  }

  // Pair i of a dictionary has a sensitive key and s as its long text.
  predicate HeldAt(ps: seq<Pair>, i: nat, s: string) {
    i < |ps| && IsSensitiveKey(ps[i].key) && LongText(ps[i].value, s)
  }

  // s is held under a sensitive key somewhere in v, at whatever depth.
  ghost predicate Held(v: Value, s: string) {
    exists path, ps, i: nat :: Leads(v, path, Dict(ps)) && HeldAt(ps, i, s)
  }

  lemma {:induction false} PairsSource(ps: seq<Pair>, s: string) returns (i: nat)
    requires s in CollectPairs(ps)
    ensures i < |ps| && (HeldAt(ps, i, s) || s in Collect(ps[i].value))
  {
    hide IsSensitiveKey, SecretOf, LongText;
    var init, p := ps[..|ps| - 1], ps[|ps| - 1];
    if s in CollectPairs(init) {
      i := PairsSource(init, s);
    } else {
      i := |ps| - 1;
      LongTextIsSecret(p.value, s);
    }
  }

  lemma {:induction false} ItemsSource(vs: seq<Value>, s: string) returns (i: nat)
    requires s in CollectItems(vs)
    ensures i < |vs| && s in Collect(vs[i])
  {
    if s in Collect(vs[|vs| - 1]) { i := |vs| - 1; } else { i := ItemsSource(vs[..|vs| - 1], s); }
  }

  lemma {:induction false} PairsCollected(ps: seq<Pair>, i: nat, s: string)
    requires i < |ps| && (HeldAt(ps, i, s) || s in Collect(ps[i].value))
    ensures s in CollectPairs(ps)
  {
    hide IsSensitiveKey, SecretOf, LongText;
    var init := ps[..|ps| - 1];
    if i < |init| {
      assert init[i] == ps[i];
      PairsCollected(init, i, s);
    } else {
      LongTextIsSecret(ps[i].value, s);
    }
  }

  lemma {:induction false} ItemsCollected(vs: seq<Value>, i: nat, s: string)
    requires i < |vs| && s in Collect(vs[i])
    ensures s in CollectItems(vs)
  {
    if i < |vs| - 1 { ItemsCollected(vs[..|vs| - 1], i, s); }
  }

  lemma StepDown(v: Value, i: nat, u: Value, path: seq<nat>, w: Value)
    requires Leads(u, path, w)
    requires match v
      case Dict(ps) => i < |ps| && ps[i].value == u
      case List(vs) => i < |vs| && vs[i] == u
      case Tuple(vs) => i < |vs| && vs[i] == u
      case _ => false
    ensures Leads(v, [i] + path, w)
  {
    assert ([i] + path)[1..] == path;
  }

  lemma {:induction false} CollectedIsHeld(v: Value, s: string) returns (path: seq<nat>, ps: seq<Pair>, i: nat)
    requires s in Collect(v)
    ensures Leads(v, path, Dict(ps)) && HeldAt(ps, i, s)
    decreases v
  {
    hide HeldAt;
    match v
    case Dict(qs) =>
      var k := PairsSource(qs, s);
      if HeldAt(qs, k, s) {
        path, ps, i := [], qs, k;
      } else {
        path, ps, i := CollectedIsHeld(qs[k].value, s);
        StepDown(v, k, qs[k].value, path, Dict(ps));
        path := [k] + path;
      }
    case List(vs) =>
      var k := ItemsSource(vs, s);
      path, ps, i := CollectedIsHeld(vs[k], s);
      StepDown(v, k, vs[k], path, Dict(ps));
      path := [k] + path;
    case Tuple(vs) =>
      var k := ItemsSource(vs, s);
      path, ps, i := CollectedIsHeld(vs[k], s);
      StepDown(v, k, vs[k], path, Dict(ps));
      path := [k] + path;
  }

  lemma {:induction false} HeldIsCollected(v: Value, path: seq<nat>, ps: seq<Pair>, i: nat, s: string)
    requires Leads(v, path, Dict(ps)) && HeldAt(ps, i, s)
    ensures s in Collect(v)
    decreases |path|
  {
    hide IsSensitiveKey, LongText;
    if path == [] {
      PairsCollected(ps, i, s);
    } else {
      match v
      case Dict(qs) =>
        HeldIsCollected(qs[path[0]].value, path[1..], ps, i, s);
        PairsCollected(qs, path[0], s);
      case List(vs) =>
        HeldIsCollected(vs[path[0]], path[1..], ps, i, s);
        ItemsCollected(vs, path[0], s);
      case Tuple(vs) =>
        HeldIsCollected(vs[path[0]], path[1..], ps, i, s);
        ItemsCollected(vs, path[0], s);
    }
  }

  /** What is collected is exactly what is held: the long texts of the values under sensitive keys, in
      dictionaries reached through dictionaries, lists and tuples in any nesting. */
  lemma CollectedIffHeld(v: Value, s: string)
    ensures s in Collect(v) <==> Held(v, s)
  {
    if s in Collect(v) {
      var path, ps, i := CollectedIsHeld(v, s);
    }
    if Held(v, s) {
      var path, ps, i: nat :| Leads(v, path, Dict(ps)) && HeldAt(ps, i, s);
      HeldIsCollected(v, path, ps, i, s);
    }
  }

  // ---------------------------------------------------------------- no leaf holds a held secret

  lemma {:induction false} CleanItemAt(vs: seq<Value>, s: string, i: nat)
    requires CleanItems(vs, s) && i < |vs|
    ensures Clean(vs[i], s)
  {
    if i > 0 { CleanItemAt(vs[1..], s, i - 1); }
  }

  lemma {:induction false} CleanPairAt(ps: seq<Pair>, s: string, i: nat)
    requires CleanPairs(ps, s) && i < |ps|
    ensures Clean(ps[i].value, s)
  {
    if i > 0 { CleanPairAt(ps[1..], s, i - 1); }
  }

  lemma {:induction false} CleanLeaf(v: Value, s: string, path: seq<nat>, t: string)
    requires Clean(v, s) && Leads(v, path, Str(t))
    ensures !Contains(t, s)
    decreases |path|
  {
    if path != [] {
      match v
      case Dict(ps) =>
        CleanPairAt(ps, s, path[0]);
        CleanLeaf(ps[path[0]].value, s, path[1..], t);
      case List(vs) =>
        CleanItemAt(vs, s, path[0]);
        CleanLeaf(vs[path[0]], s, path[1..], t);
      case Tuple(vs) =>
        CleanItemAt(vs, s, path[0]);
        CleanLeaf(vs[path[0]], s, path[1..], t);
    }
  }

  /** Redaction is complete, said in positions: no string anywhere in the output contains a safe string that is
      held under a sensitive key anywhere in the input - whatever the passes before do, and whatever order the
      held strings are replaced in. */
  lemma HeldNeverLeaks(v: Value, order: seq<string>, pre: string -> string, s: string, path: seq<nat>, t: string)
    requires forall u :: u in order <==> Held(v, u)
    requires Held(v, s) && Safe(s)
    ensures Leads(Sanitize(v, order, pre), path, Str(t)) ==> !Contains(t, s)
    ensures Leads(SanitizeValue(v, pre), path, Str(t)) ==> !Contains(t, s)
  {
    forall u ensures u in order <==> u in Collect(v) { CollectedIffHeld(v, u); }
    CollectedIffHeld(v, s);
    hide Held;
    RedactionComplete(v, order, pre, s);
    if Leads(Sanitize(v, order, pre), path, Str(t)) { CleanLeaf(Sanitize(v, order, pre), s, path, t); }
    if Leads(SanitizeValue(v, pre), path, Str(t)) { CleanLeaf(SanitizeValue(v, pre), s, path, t); }
  }

  ghost predicate HeldAlwaysCleaned(s: string) {
    forall v, pre :: Held(v, s) ==> Clean(SanitizeValue(v, pre), s)
  }

  /** And exactly the safe strings are certain to disappear when they are held. */
  lemma HeldAlwaysCleanedIffSafe(s: string)
    requires |s| >= 4
    ensures HeldAlwaysCleaned(s) <==> Safe(s)
  {
    forall v: Value ensures Held(v, s) <==> s in Collect(v) { CollectedIffHeld(v, s); }
    hide Held, Safe, Clean, SanitizeValue;
    AlwaysCleanedIffSafe(s);
    if HeldAlwaysCleaned(s) {
      forall v, pre | s in Collect(v) ensures Clean(SanitizeValue(v, pre), s) { assert Held(v, s); }
    }
    if AlwaysCleaned(s) {
      forall v, pre | Held(v, s) ensures Clean(SanitizeValue(v, pre), s) { assert s in Collect(v); }
    }
  }

  // ---------------------------------------------------------------- what becomes of each position

  // The way along path passes no sensitive key.
  predicate Open(v: Value, path: seq<nat>)
    decreases |path|
  {
    path == [] ||
    match v
    case Dict(ps) => path[0] < |ps| && !IsSensitiveKey(ps[path[0]].key) && Open(ps[path[0]].value, path[1..])
    case List(vs) => path[0] < |vs| && Open(vs[path[0]], path[1..])
    case Tuple(vs) => path[0] < |vs| && Open(vs[path[0]], path[1..])
    case _ => false
  }

  lemma {:induction false} SanitizeItemAt(vs: seq<Value>, secrets: seq<string>, pre: string -> string, i: nat)
    requires i < |vs|
    ensures SanitizeItems(vs, secrets, pre)[i] == Sanitize(vs[i], secrets, pre)
  {
    if i > 0 { SanitizeItemAt(vs[1..], secrets, pre, i - 1); }
  }

  lemma {:induction false} SanitizePairAt(ps: seq<Pair>, secrets: seq<string>, pre: string -> string, i: nat)
    requires i < |ps|
    ensures SanitizePairs(ps, secrets, pre)[i] ==
            Pair(ps[i].key, if IsSensitiveKey(ps[i].key) then Str(REDACTED) else Sanitize(ps[i].value, secrets, pre))
  {
    if i > 0 { SanitizePairAt(ps[1..], secrets, pre, i - 1); }
  }

  /** At a position reached past no sensitive key the output has what the input has there, sanitized; a string
      there is the text with the held strings replaced in it, and a value under a sensitive key there is "***". */
  lemma {:induction false} PositionKept(v: Value, secrets: seq<string>, pre: string -> string, path: seq<nat>, w: Value)
    requires Leads(v, path, w) && Open(v, path)
    ensures Leads(Sanitize(v, secrets, pre), path, Sanitize(w, secrets, pre))
    ensures w.Str? ==> Leads(Sanitize(v, secrets, pre), path, Str(Scrub(pre(w.text), secrets)))
    ensures forall i: nat :: w.Dict? && i < |w.entries| && IsSensitiveKey(w.entries[i].key) ==>
              Sanitize(w, secrets, pre).entries[i] == Pair(w.entries[i].key, Str(REDACTED))
    decreases |path|
  {
    hide IsSensitiveKey, Scrub;
    if path != [] {
      match v
      case Dict(ps) =>
        SanitizePairAt(ps, secrets, pre, path[0]);
        PositionKept(ps[path[0]].value, secrets, pre, path[1..], w);
      case List(vs) =>
        SanitizeItemAt(vs, secrets, pre, path[0]);
        PositionKept(vs[path[0]], secrets, pre, path[1..], w);
      case Tuple(vs) =>
        SanitizeItemAt(vs, secrets, pre, path[0]);
        PositionKept(vs[path[0]], secrets, pre, path[1..], w);
    } else if w.Dict? {
      forall i: nat | i < |w.entries| && IsSensitiveKey(w.entries[i].key)
        ensures Sanitize(w, secrets, pre).entries[i] == Pair(w.entries[i].key, Str(REDACTED))
      {
        SanitizePairAt(w.entries, secrets, pre, i);
      }
    }
  }

  // ---------------------------------------------------------------- replacement

  lemma {:induction false} ContainsIffAt(text: string, s: string)
    ensures Contains(text, s) <==> exists i: nat :: At(text, s, i)
  {
    if Contains(text, s) { assert At(text, s, FirstAt(text, s)); }
    if i: nat :| At(text, s, i) { ContainsAt(text, s, i); }
  }

  /** Replacement works from the left and without overlaps: up to the first occurrence nothing changes, that
      occurrence becomes "***", and the rest is treated alike; a text without an occurrence stays as it is. */
  lemma ReplaceLeftmost(text: string, s: string, k: nat)
    requires s != ""
    ensures !Contains(text, s) ==> Replace(text, s) == text
    ensures At(text, s, k) && (forall i :: 0 <= i < k ==> !At(text, s, i)) ==>
              Replace(text, s) == text[..k] + REDACTED + Replace(text[k + |s|..], s)
  {
    if !Contains(text, s) {
      forall i | 0 <= i < |text| ensures !At(text, s, i) {
        if At(text, s, i) { ContainsAt(text, s, i); }
      }
      ReplaceSkips(text, s, |text|);
      assert text[|text|..] == "" && Replace("", s) == "";
    }
    if At(text, s, k) && forall i :: 0 <= i < k ==> !At(text, s, i) {
      ReplaceSkips(text, s, k);
      assert text[k..] == s + text[k + |s|..];
      ReplaceFront(s, text[k + |s|..]);
    }
  }

  /** A text in which no secret occurs comes out as the passes before left it. */
  lemma {:induction false} ScrubKeepsOthers(text: string, secrets: seq<string>)
    requires forall i :: 0 <= i < |secrets| ==> secrets[i] == "" || !Contains(text, secrets[i])
    ensures Scrub(text, secrets) == text
  {
    if secrets != [] {
      var last := secrets[|secrets| - 1];
      ScrubKeepsOthers(text, secrets[..|secrets| - 1]);
      if last != "" { ReplaceLeftmost(text, last, 0); }
    }
  }

  // ---------------------------------------------------------------- the order of replacement

  function FirstOf(ss: seq<string>, s: string): (k: nat)
    requires s in ss
    ensures k < |ss| && ss[k] == s && forall j :: 0 <= j < k ==> ss[j] != s
  {
    if ss[0] == s then 0 else FirstOf(ss[1..], s) + 1
  }

  /** Each collected string is replaced once, in the order in which the walk first met them. */
  lemma {:induction false} DedupInOrder(ss: seq<string>)
    ensures forall i, j :: 0 <= i < j < |Dedup(ss)| ==> FirstOf(ss, Dedup(ss)[i]) < FirstOf(ss, Dedup(ss)[j])
  {
    if ss != [] {
      var init, last := ss[..|ss| - 1], ss[|ss| - 1];
      var d, r := Dedup(init), Dedup(ss);
      DedupInOrder(init);
      forall s | s in init ensures FirstOf(ss, s) == FirstOf(init, s) { FirstOfPrefix(init, last, s); }
      forall i, j | 0 <= i < j < |r| ensures FirstOf(ss, r[i]) < FirstOf(ss, r[j]) {
        assert r[i] == d[i] && d[i] in init;
        if j < |d| { assert r[j] == d[j] && d[j] in init; }
      }
    }
  }

  lemma FirstOfPrefix(init: seq<string>, last: string, s: string)
    requires s in init
    ensures FirstOf(init + [last], s) == FirstOf(init, s)
  {
    var k := FirstOf(init, s);
    assert (init + [last])[k] == s;
    forall j | 0 <= j < k ensures (init + [last])[j] != s { assert (init + [last])[j] == init[j]; }
  }

  // ---------------------------------------------------------------- which keys are sensitive

  lemma {:induction false} NormalizeConcat(a: string, b: string)
    ensures Normalize(a + b) == Normalize(a) + Normalize(b)
  {
    if a == "" {
      assert a + b == b;
    } else {
      assert (a + b)[1..] == a[1..] + b && (a + b)[0] == a[0];
      NormalizeConcat(a[1..], b);
      var first := if a[0] in "-_ " then "" else [Lower(a[0])];
      assert Normalize(a + b) == first + Normalize(a[1..] + b);
      assert Normalize(a) == first + Normalize(a[1..]);
      hide Normalize;
      Associative(first, Normalize(a[1..]), Normalize(b));
    }
  }

  lemma Associative(a: string, b: string, c: string)
    ensures a + (b + c) == (a + b) + c
  {
  }

  lemma NormalizeMiddle(a: string, c: char, b: string)
    ensures Normalize(a + [c] + b) == Normalize(a) + Normalize([c]) + Normalize(b)
    ensures Normalize([c]) == (if c in "-_ " then "" else [Lower(c)])
    ensures Normalize(a + b) == Normalize(a) + Normalize(b)
  {
    NormalizeConcat(a + [c], b);
    NormalizeConcat(a, [c]);
    NormalizeConcat(a, b);
    assert [c][1..] == "" && Normalize("") == "";
  }

  lemma SameNormal(k: string, l: string)
    requires Normalize(k) == Normalize(l)
    ensures IsSensitiveKey(k) <==> IsSensitiveKey(l)
  {
    hide Normalize, Contains;
  }

  /** A separator more or less in a key, or a letter in the other case, makes no difference. */
  lemma SpellingIgnored(a: string, c: char, b: string)
    ensures c in "-_ " ==> (IsSensitiveKey(a + [c] + b) <==> IsSensitiveKey(a + b))
    ensures 'a' <= c <= 'z' ==> (IsSensitiveKey(a + [c - 'a' + 'A'] + b) <==> IsSensitiveKey(a + [c] + b))
  {
    hide Normalize, IsSensitiveKey;
    NormalizeMiddle(a, c, b);
    if c in "-_ " {
      assert Normalize(a) + "" + Normalize(b) == Normalize(a) + Normalize(b);
      SameNormal(a + [c] + b, a + b);
    }
    if 'a' <= c <= 'z' {
      NormalizeMiddle(a, c - 'a' + 'A', b);
      SameNormal(a + [c - 'a' + 'A'] + b, a + [c] + b);
    }
  }

  // Neither separators nor capital letters.
  predicate PlainlySpelled(key: string) {
    forall i :: 0 <= i < |key| ==> key[i] !in "-_ " && !('A' <= key[i] <= 'Z')
  }

  lemma {:induction false} PlainIsNormal(key: string)
    requires PlainlySpelled(key)
    ensures Normalize(key) == key
  {
    if key != "" {
      PlainIsNormal(key[1..]);
      assert key == [key[0]] + key[1..];
    }
  }

  /** A plainly spelled key is sensitive exactly if it is "nonce" or "timestamp", ends in "sign", or has one of
      the listed words anywhere in it. */
  lemma PlainKeyIsSensitiveIff(key: string)
    requires PlainlySpelled(key)
    ensures IsSensitiveKey(key) <==>
            || key == "nonce" || key == "timestamp"
            || (|key| >= 4 && key[|key| - 4..] == "sign")
            || exists w, i: nat :: w in SENSITIVE_PARTS && At(key, w, i)
  {
    PlainIsNormal(key);
    hide Normalize;
    forall w ensures Contains(key, w) <==> exists i: nat :: At(key, w, i) { ContainsIffAt(key, w); }
    hide Contains;
    if w, i: nat :| w in SENSITIVE_PARTS && At(key, w, i) {
      var j :| 0 <= j < |SENSITIVE_PARTS| && SENSITIVE_PARTS[j] == w;
    }
  }

  // ---------------------------------------------------------------- an instance

  // A token under one key, repeated in a text nested under another.
  function NestedLeak(s: string): Value {
    Dict([Pair("headers", Dict([Pair("token", Str(s))])), Pair("nested", List([Str("failed " + s)]))])
  }

  lemma NestedIsHeld(s: string)
    requires |s| >= 4
    ensures Held(NestedLeak(s), s)
  {
    TokenIsSensitive();
    var inner := [Pair("token", Str(s))];
    assert Leads(NestedLeak(s), [0], Dict(inner)) by { assert [0][1..] == []; }
    assert HeldAt(inner, 0, s);
  }

  lemma TokenIsSensitive()
    ensures IsSensitiveKey("token")
  {
    assert "token" in SENSITIVE_PARTS by { assert SENSITIVE_PARTS[3] == "token"; }
    assert At("token", "token", 0) by { assert "token"[0..] == "token"; }
    PlainKeyIsSensitiveIff("token");
  }

  /** A safe token is gone from the nested text too. */
  lemma NestedLeakClosed(s: string, pre: string -> string, path: seq<nat>, t: string)
    requires |s| >= 4 && Safe(s) && Leads(SanitizeValue(NestedLeak(s), pre), path, Str(t))
    ensures !Contains(t, s)
  {
    NestedIsHeld(s);
    var v := NestedLeak(s);
    hide NestedLeak, Held;
    forall u ensures u in Collect(v) <==> Held(v, u) { CollectedIffHeld(v, u); }
    HeldNeverLeaks(v, Collect(v), pre, s, path, t);
  }
}
