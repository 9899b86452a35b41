/**
 Redaction of nested values (feeds/transport_safety.py): collect the strings found under sensitive
 keys, then replace them, literally and everywhere, in every other string.
 */
module Redaction {

  const REDACTED := "***"

  // ---------------------------------------------------------------- strings

  predicate Contains(text: string, s: string) {
    s <= text || (text != [] && Contains(text[1..], s))
  }

  // str.replace(s, REDACTED): leftmost matches first, not overlapping.
  function Replace(text: string, s: string): string
    requires s != ""
  {
    if s <= text then REDACTED + Replace(text[|s|..], s)
    else if text == "" then ""
    else [text[0]] + Replace(text[1..], s)
  }

  // ---------------------------------------------------------------- sensitive keys

  function Lower(c: char): char {
    if 'A' <= c <= 'Z' then c - 'A' + 'a' else c
  }

  function Normalize(key: string): string {
    if key == "" then ""
    else (if key[0] in "-_ " then "" else [Lower(key[0])]) + Normalize(key[1..])
  }

  const SENSITIVE_PARTS := ["apikey", "accesskey", "secret", "token", "signature", "password",
                            "passphrase", "authorization", "privatekey", "publickey", "listenkey"]

  predicate IsSensitiveKey(key: string) {
    var k := Normalize(key);
    || k in ["nonce", "timestamp"]
    || (|k| >= 4 && k[|k| - 4..] == "sign")
    || exists i :: 0 <= i < |SENSITIVE_PARTS| && Contains(k, SENSITIVE_PARTS[i])
  }

  // ---------------------------------------------------------------- values

  // Bytes carries its text decoded with errors ignored. Other is anything else, sets and further containers
  // included: the source neither looks into it for secrets nor changes it.
  datatype Value =
    | Str(text: string)
    | Bytes(decoded: string)
    | Int(n: int)
    | Other(id: int)
    | List(items: seq<Value>)
    | Tuple(items: seq<Value>)
    | Dict(entries: seq<Pair>)

  datatype Pair = Pair(key: string, value: Value)

  function Digits(n: nat): (s: string)
    ensures s != ""
  {
    (if n < 10 then "" else Digits(n / 10)) + ["0123456789"[n % 10]]
  }

  function IntText(n: int): string {
    if n < 0 then "-" + Digits(-n) else Digits(n)
  }

  // add(item): the text to scrub for a value found under a sensitive key.
  function SecretOf(v: Value): seq<string> {
    match v
    case Str(t) => if |t| >= 4 then [t] else []
    case Bytes(t) => if |t| >= 4 then [t] else []
    case Int(n) => if |Digits(if n < 0 then -n else n)| >= 8 then [IntText(n)] else []
    case _ => []
  }

  // walk(item)
  function Collect(v: Value): seq<string>
    decreases v, 1
  {
    match v
    case Dict(ps) => CollectPairs(ps)
    case List(vs) => CollectItems(vs)
    case Tuple(vs) => CollectItems(vs)
    case _ => []
  }

  function CollectItems(vs: seq<Value>): seq<string>
    decreases vs, 0
  {
    if vs == [] then [] else CollectItems(vs[..|vs| - 1]) + Collect(vs[|vs| - 1])
  }

  function CollectPairs(ps: seq<Pair>): seq<string>
    decreases ps, 0
  {
    if ps == [] then []
    else
      var p := ps[|ps| - 1];
      CollectPairs(ps[..|ps| - 1]) + (if IsSensitiveKey(p.key) then SecretOf(p.value) else []) + Collect(p.value)
  }

  // tuple(dict.fromkeys(...)): first occurrences, in order.
  function Dedup(ss: seq<string>): (r: seq<string>)
    ensures forall s :: s in r <==> s in ss
  {
    if ss == [] then []
    else
      var init, last := Dedup(ss[..|ss| - 1]), ss[|ss| - 1];
      assert ss == ss[..|ss| - 1] + [last];
      if last in init then init else init + [last]
  }

  function SensitiveValues(v: Value): seq<string> {
    Dedup(Collect(v))
  }

  // ---------------------------------------------------------------- sanitizing

  // The literal-replacement loop of sanitize_text.
  function Scrub(text: string, secrets: seq<string>): string {
    if secrets == [] then text
    else
      var t, s := Scrub(text, secrets[..|secrets| - 1]), secrets[|secrets| - 1];
      if s == "" then t else Replace(t, s)
  }

  // `pre` stands for the URL, key-value and bearer passes that run first.
  function Sanitize(v: Value, secrets: seq<string>, pre: string -> string): Value
    decreases v, 1
  {
    match v
    case Dict(ps) => Dict(SanitizePairs(ps, secrets, pre))
    case List(vs) => List(SanitizeItems(vs, secrets, pre))
    case Tuple(vs) => Tuple(SanitizeItems(vs, secrets, pre))
    case Str(t) => Str(Scrub(pre(t), secrets))
    case _ => v
  }

  function SanitizeItems(vs: seq<Value>, secrets: seq<string>, pre: string -> string): (r: seq<Value>)
    ensures |r| == |vs|
    decreases vs, 0
  {
    if vs == [] then []
    else [Sanitize(vs[0], secrets, pre)] + SanitizeItems(vs[1..], secrets, pre)
  }

  function SanitizePairs(ps: seq<Pair>, secrets: seq<string>, pre: string -> string): (r: seq<Pair>)
    ensures |r| == |ps|
    decreases ps, 0
  {
    if ps == [] then []
    else
      var p := ps[0];
      [Pair(p.key, if IsSensitiveKey(p.key) then Str(REDACTED) else Sanitize(p.value, secrets, pre))]
      + SanitizePairs(ps[1..], secrets, pre)
  }

  function SanitizeValue(v: Value, pre: string -> string): Value {
    Sanitize(v, SensitiveValues(v), pre)
  }

  // ---------------------------------------------------------------- the loops

  method SanitizeText(value: string, secrets: seq<string>, pre: string -> string) returns (text: string)
    ensures text == Scrub(pre(value), secrets)
    ensures forall s :: s in secrets && Safe(s) ==> !Contains(text, s)
  {
    text := pre(value);
    for i := 0 to |secrets|
      invariant text == Scrub(pre(value), secrets[..i])
      invariant forall j :: 0 <= j < i && Safe(secrets[j]) ==> !Contains(text, secrets[j])
    {
      assert secrets[..i + 1][..i] == secrets[..i];
      var secret := secrets[i];
      if secret != "" {
        ghost var before := text;
        text := Replace(text, secret);
        forall j | 0 <= j <= i && Safe(secrets[j]) ensures !Contains(text, secrets[j]) {
          if j < i { StaysAbsent(before, secret, secrets[j]); } else { ReplaceRemoves(before, secret); }
        }
      }
    }
    assert secrets[..|secrets|] == secrets;
  }

  method Walk(item: Value, found: seq<string>) returns (collected: seq<string>)
    ensures collected == found + Collect(item)
    decreases item, 1
  {
    match item
    case Dict(ps) => collected := WalkPairs(ps, found);
    case List(vs) => collected := WalkItems(vs, found);
    case Tuple(vs) => collected := WalkItems(vs, found);
    case _ => collected := found;
  }

  method WalkItems(vs: seq<Value>, found: seq<string>) returns (collected: seq<string>)
    ensures collected == found + CollectItems(vs)
    decreases vs, 0
  {
    collected := found;
    for i := 0 to |vs|
      invariant collected == found + CollectItems(vs[..i])
    {
      assert vs[..i + 1][..i] == vs[..i];
      collected := Walk(vs[i], collected);
    }
    assert vs[..|vs|] == vs;
  }

  method WalkPairs(ps: seq<Pair>, found: seq<string>) returns (collected: seq<string>)
    ensures collected == found + CollectPairs(ps)
    decreases ps, 0
  {
    hide IsSensitiveKey, SecretOf;
    collected := found;
    for i := 0 to |ps|
      invariant collected == found + CollectPairs(ps[..i])
    {
      assert ps[..i + 1][..i] == ps[..i];
      if IsSensitiveKey(ps[i].key) { collected := collected + SecretOf(ps[i].value); }
      collected := Walk(ps[i].value, collected);
    }
    assert ps[..|ps|] == ps;
  }

  // ---------------------------------------------------------------- a theorem about replacement

  // No "***" can be part of an occurrence of s, nor overlap either end of one.
  predicate Safe(s: string) {
    s != "" && s[0] != '*' && s[|s| - 1] != '*' && !Contains(s, REDACTED)
  }

  lemma {:induction false} ContainsAt(text: string, s: string, i: nat)
    requires i <= |text| && s <= text[i..]
    ensures Contains(text, s)
  {
    if i > 0 {
      assert text[1..][i - 1..] == text[i..];
      ContainsAt(text[1..], s, i - 1);
    }
  }

  lemma {:induction false} ContainsLater(a: string, b: string, s: string)
    requires Contains(b, s)
    ensures Contains(a + b, s)
  {
    if a == "" {
      assert a + b == b;
    } else {
      assert (a + b)[1..] == a[1..] + b;
      ContainsLater(a[1..], b, s);
    }
  }

  lemma StarPrefix(s: string, rest: string)
    requires s != "" && s <= REDACTED + rest
    ensures s[|s| - 1] == '*' || Contains(s, REDACTED)
  {
    var r := REDACTED + rest;
    assert r[0] == r[1] == r[2] == '*';
    if |s| >= 3 {
      assert s[0] == r[0] && s[1] == r[1] && s[2] == r[2];
      assert REDACTED <= s;
    }
  }

  // A prefix that neither ends in '*' nor holds "***" comes from the original text unchanged.
  lemma {:induction false} PrefixSurvives(text: string, gone: string, s: string)
    requires gone != "" && s <= Replace(text, gone)
    requires s == "" || (s[|s| - 1] != '*' && !Contains(s, REDACTED))
    ensures s <= text
    decreases |text|
  {
    if s != "" {
      if gone <= text {
        StarPrefix(s, Replace(text[|gone|..], gone));
      } else {
        assert s[0] == text[0];
        var r := Replace(text[1..], gone);
        assert Replace(text, gone)[1..] == r;
        assert s[1..] <= r by {
          assert forall i :: 0 <= i < |s| - 1 ==> s[1..][i] == Replace(text, gone)[i + 1];
        }
        PrefixSurvives(text[1..], gone, s[1..]);
        assert s == [s[0]] + s[1..] && text == [text[0]] + text[1..];
      }
    }
  }

  /** Replacing one secret never brings another, safe one into being. */
  lemma {:induction false} StaysAbsent(text: string, gone: string, s: string)
    requires gone != "" && Safe(s) && !Contains(text, s)
    ensures !Contains(Replace(text, gone), s)
    decreases |text|
  {
    var r := Replace(text, gone);
    if s <= r {
      PrefixSurvives(text, gone, s);
    }
    if gone <= text {
      var rest := text[|gone|..];
      assert text == gone + rest;
      if Contains(rest, s) { ContainsLater(gone, rest, s); }
      StaysAbsent(rest, gone, s);
      NotAcrossStars(Replace(rest, gone), s);
    } else if text != "" {
      StaysAbsent(text[1..], gone, s);
      assert r[1..] == Replace(text[1..], gone);
    } else {
      assert !Contains("", s);
    }
  }

  lemma NotAcrossStars(rest: string, s: string)
    requires s != "" && s[0] != '*' && !Contains(rest, s)
    ensures !Contains(REDACTED + rest, s)
  {
    var r := REDACTED + rest;
    var r1 := r[1..];
    var r2 := r1[1..];
    assert r[0] == '*' && r1[0] == '*' && r2[0] == '*' && r2[1..] == rest;
    assert !Contains(r2, s);
    assert !Contains(r1, s);
  }

  /** Replacing a safe secret leaves no occurrence of it, not even one made from the pieces. */
  lemma {:induction false} ReplaceRemoves(text: string, s: string)
    requires Safe(s)
    ensures !Contains(Replace(text, s), s)
    decreases |text|
  {
    var r := Replace(text, s);
    if s <= text {
      ReplaceRemoves(text[|s|..], s);
      NotAcrossStars(Replace(text[|s|..], s), s);
    } else {
      if s <= r { PrefixSurvives(text, s, s); }
      if text != "" {
        ReplaceRemoves(text[1..], s);
        assert r[1..] == Replace(text[1..], s);
      }
    }
  }

  // ---------------------------------------------------------------- and its converse

  lemma {:induction false} ReplaceShort(text: string, s: string)
    requires s != "" && |text| < |s|
    ensures Replace(text, s) == text
  {
    if text != "" { ReplaceShort(text[1..], s); }
  }

  // s occurs in text at position i.
  predicate At(text: string, s: string, i: nat) {
    i <= |text| && s <= text[i..]
  }

  // Where nothing matches, nothing changes.
  lemma {:induction false} ReplaceSkips(text: string, s: string, k: nat)
    requires s != "" && k <= |text|
    requires forall i :: 0 <= i < k ==> !At(text, s, i)
    ensures Replace(text, s) == text[..k] + Replace(text[k..], s)
  {
    if k > 0 {
      assert !At(text, s, 0) && text[0..] == text;
      var t := text[1..];
      forall i | 0 <= i < k - 1 ensures !At(t, s, i) {
        assert !At(text, s, i + 1) && t[i..] == text[i + 1..];
      }
      ReplaceSkips(t, s, k - 1);
      var a, b := t[..k - 1], Replace(t[k - 1..], s);
      assert t[k - 1..] == text[k..] && text[..k] == [text[0]] + a;
      assert [text[0]] + (a + b) == [text[0]] + a + b;
    } else {
      assert text[0..] == text && text[..0] == "";
    }
  }

  lemma ReplaceFront(s: string, rest: string)
    requires s != ""
    ensures Replace(s + rest, s) == REDACTED + Replace(rest, s)
  {
    assert (s + rest)[|s|..] == rest && s <= s + rest;
  }

  // The first place where s occurs in text.
  function FirstAt(text: string, s: string): (i: nat)
    requires Contains(text, s)
    ensures At(text, s, i) && forall j :: 0 <= j < i ==> !At(text, s, j)
  {
    if s <= text then assert text[0..] == text; 0
    else
      var k := FirstAt(text[1..], s);
      assert text[1..][k..] == text[k + 1..];
      assert forall j :: 0 <= j < k + 1 ==> !At(text, s, j) by {
        forall j | 0 <= j < k + 1 ensures !At(text, s, j) {
          if j == 0 { assert text[0..] == text; }
          else { assert !At(text[1..], s, j - 1) && text[1..][j - 1..] == text[j..]; }
        }
      }
      k + 1
  }

  // A text from which s is not removed.
  function Defeat(s: string): string
    requires s != "" && !Safe(s)
  {
    if s[0] == '*' then s + s[1..]
    else if s[|s| - 1] == '*' then s[..|s| - 1] + s
    else var p := FirstAt(s, REDACTED); s[..p] + s + s[p + 3..]
  }

  lemma {:induction false} DefeatLeading(s: string)
    requires s != "" && s[0] == '*'
    ensures Contains(Replace(s + s[1..], s), s)
  {
    ReplaceFront(s, s[1..]);
    ReplaceShort(s[1..], s);
    var r := REDACTED + s[1..];
    assert r[2..] == s;
    ContainsAt(r, s, 2);
  }

  // An occurrence of s in u + s that starts inside u, where s = u + "*", makes s start with '*'.
  lemma EarlyMatchTrailing(s: string, i: nat)
    requires s != "" && s[|s| - 1] == '*' && i < |s| - 1 && At(s[..|s| - 1] + s, s, i)
    ensures s[0] == '*'
  {
    var u := s[..|s| - 1];
    var text := u + s;
    assert text[i..][0] == s[0] && text[i..][|u|] == s[|u|];
    assert text[i + |u|] == s[i] && text[i] == s[i];
  }

  lemma {:induction false} DefeatTrailing(s: string)
    requires s != "" && s[0] != '*' && s[|s| - 1] == '*'
    ensures Contains(Replace(s[..|s| - 1] + s, s), s)
  {
    var u := s[..|s| - 1];
    var text := u + s;
    forall i | 0 <= i < |u| ensures !At(text, s, i) {
      if At(text, s, i) { EarlyMatchTrailing(s, i); }
    }
    ReplaceSkips(text, s, |u|);
    assert text[..|u|] == u && text[|u|..] == s + "";
    ReplaceFront(s, "");
    assert Replace("", s) == "";
    var r := u + REDACTED;
    assert Replace(text, s) == r && s == u + "*";
    assert s <= r;
  }

  // An occurrence of s that starts inside x = s[..p] brings the "***" at p to an earlier place of s.
  lemma EarlyMatchInner(s: string, p: nat, y: string, i: nat)
    requires i < p && At(s, REDACTED, p) && At(s[..p] + s + y, s, i)
    ensures At(s, REDACTED, i)
  {
    var text := s[..p] + s + y;
    var stars := s[p..];
    assert stars[0] == stars[1] == stars[2] == '*';
    assert s[p] == '*' && s[p + 1] == '*' && s[p + 2] == '*';
    var m := text[i..];
    assert m[p] == s[p] && m[p + 1] == s[p + 1] && m[p + 2] == s[p + 2];
    assert m[p] == text[p + i] && m[p + 1] == text[p + i + 1] && m[p + 2] == text[p + i + 2];
    assert text[p + i] == s[i] && text[p + i + 1] == s[i + 1] && text[p + i + 2] == s[i + 2];
    var e := s[i..];
    assert e[0] == '*' && e[1] == '*' && e[2] == '*';
  }

  lemma {:induction false} DefeatInner(s: string)
    requires s != "" && Contains(s, REDACTED)
    ensures var p := FirstAt(s, REDACTED); Contains(Replace(s[..p] + s + s[p + 3..], s), s)
  {
    var p := FirstAt(s, REDACTED);
    var x, y := s[..p], s[p + 3..];
    assert s[p..] == REDACTED + y;
    ContainsItself(s);
    hide FirstAt, Replace, Contains, At;
    ReplaceInner(s, p, y);
    assert x + s[p..] == s;
  }

  lemma ContainsItself(s: string)
    ensures Contains(s, s)
  {
    assert s <= s;
  }

  lemma {:induction false} ReplaceInner(s: string, p: nat, y: string)
    requires s != "" && At(s, REDACTED, p) && |y| < |s| && forall j :: 0 <= j < p ==> !At(s, REDACTED, j)
    ensures Replace(s[..p] + s + y, s) == s[..p] + (REDACTED + y)
  {
    var x := s[..p];
    var text := x + s + y;
    forall i | 0 <= i < p ensures !At(text, s, i) {
      if At(text, s, i) { EarlyMatchInner(s, p, y, i); }
    }
    ReplaceSkips(text, s, p);
    assert text[..p] == x && text[p..] == s + y;
    ReplaceFront(s, y);
    ReplaceShort(y, s);
  }

  ghost predicate AlwaysRemoved(s: string)
    requires s != ""
  {
    forall text :: !Contains(Replace(text, s), s)
  }

  /** Exactly which secrets a replacement always removes: those that neither start nor end with '*' and
      hold no "***". */
  lemma {:induction false} AlwaysRemovedIffSafe(s: string)
    requires s != ""
    ensures AlwaysRemoved(s) <==> Safe(s)
  {
    if Safe(s) {
      forall text ensures !Contains(Replace(text, s), s) { ReplaceRemoves(text, s); }
    } else {
      DefeatSurvives(s);
    }
  }

  lemma DefeatSurvives(s: string)
    requires s != "" && !Safe(s)
    ensures Contains(Replace(Defeat(s), s), s)
  {
    if s[0] == '*' { DefeatLeading(s); }
    else if s[|s| - 1] == '*' { DefeatTrailing(s); }
    else { DefeatInner(s); }
  }

  // ---------------------------------------------------------------- whole values

  lemma {:induction false} ScrubRemoves(text: string, secrets: seq<string>, s: string)
    requires Safe(s) && s in secrets
    ensures !Contains(Scrub(text, secrets), s)
  {
    var init, last := secrets[..|secrets| - 1], secrets[|secrets| - 1];
    var t := Scrub(text, init);
    if s in init {
      ScrubRemoves(text, init, s);
      if last != "" { StaysAbsent(t, last, s); }
    } else {
      assert s == last;
      ReplaceRemoves(t, s);
    }
  }

  // No string leaf of v contains s.
  predicate Clean(v: Value, s: string)
    decreases v, 1
  {
    match v
    case Str(t) => !Contains(t, s)
    case List(vs) => CleanItems(vs, s)
    case Tuple(vs) => CleanItems(vs, s)
    case Dict(ps) => CleanPairs(ps, s)
    case _ => true
  }

  predicate CleanItems(vs: seq<Value>, s: string)
    decreases vs, 0
  {
    vs == [] || (Clean(vs[0], s) && CleanItems(vs[1..], s))
  }

  predicate CleanPairs(ps: seq<Pair>, s: string)
    decreases ps, 0
  {
    ps == [] || (Clean(ps[0].value, s) && CleanPairs(ps[1..], s))
  }

  lemma StarsAreClean(s: string)
    requires Safe(s)
    ensures !Contains(REDACTED, s)
  {
    assert !Contains("", s);
    NotAcrossStars("", s);
    assert REDACTED + "" == REDACTED;
  }

  lemma {:induction false} SanitizeCleans(v: Value, secrets: seq<string>, pre: string -> string, s: string)
    requires Safe(s) && s in secrets
    ensures Clean(Sanitize(v, secrets, pre), s)
    decreases v, 1
  {
    match v
    case Str(t) => ScrubRemoves(pre(t), secrets, s);
    case List(vs) => SanitizeItemsCleans(vs, secrets, pre, s);
    case Tuple(vs) => SanitizeItemsCleans(vs, secrets, pre, s);
    case Dict(ps) => SanitizePairsCleans(ps, secrets, pre, s);
    case _ =>
  }

  lemma {:induction false} SanitizeItemsCleans(vs: seq<Value>, secrets: seq<string>, pre: string -> string, s: string)
    requires Safe(s) && s in secrets
    ensures CleanItems(SanitizeItems(vs, secrets, pre), s)
    decreases vs, 0
  {
    if vs != [] {
      SanitizeCleans(vs[0], secrets, pre, s);
      SanitizeItemsCleans(vs[1..], secrets, pre, s);
      assert SanitizeItems(vs, secrets, pre)[1..] == SanitizeItems(vs[1..], secrets, pre);
    }
  }

  lemma {:induction false} SanitizePairsCleans(ps: seq<Pair>, secrets: seq<string>, pre: string -> string, s: string)
    requires Safe(s) && s in secrets
    ensures CleanPairs(SanitizePairs(ps, secrets, pre), s)
    decreases ps, 0
  {
    if ps != [] {
      StarsAreClean(s);
      SanitizeCleans(ps[0].value, secrets, pre, s);
      SanitizePairsCleans(ps[1..], secrets, pre, s);
      assert SanitizePairs(ps, secrets, pre)[1..] == SanitizePairs(ps[1..], secrets, pre);
    }
  }

  /** Redaction is complete: no string leaf of the output contains any collected secret that is safe - in
      particular any without '*' - whatever the passes before do and whatever order the secrets are
      replaced in (`order` is any arrangement of them). */
  lemma {:induction false} RedactionComplete(v: Value, order: seq<string>, pre: string -> string, s: string)
    requires forall t :: t in order <==> t in Collect(v)
    requires s in Collect(v) && Safe(s)
    ensures Clean(Sanitize(v, order, pre), s)
    ensures Clean(SanitizeValue(v, pre), s)
  {
    SanitizeCleans(v, order, pre, s);
    SanitizeCleans(v, SensitiveValues(v), pre, s);
  }

  // A value that collects s and hides the text that defeats its replacement under an ordinary key.
  function Leaky(s: string): Value
    requires s != "" && !Safe(s)
  {
    Dict([Pair("nonce", Str(s)), Pair("", Str(Defeat(s)))])
  }

  lemma NormalizeStep(c: char, rest: string)
    requires c !in "-_ " && !('A' <= c <= 'Z')
    ensures Normalize([c] + rest) == [c] + Normalize(rest)
  {
    assert ([c] + rest)[1..] == rest;
  }

  lemma NonceIsSensitive()
    ensures IsSensitiveKey("nonce")
  {
    NormalizeStep('e', "");
    NormalizeStep('c', "e");
    NormalizeStep('n', "ce");
    NormalizeStep('o', "nce");
    NormalizeStep('n', "once");
    assert Normalize("") == "";
    hide Normalize, Contains;
    assert ['e'] + "" == "e" && ['c'] + "e" == "ce" && ['n'] + "ce" == "nce";
    assert ['o'] + "nce" == "once" && ['n'] + "once" == "nonce";
  }

  lemma EmptyIsOrdinary()
    ensures !IsSensitiveKey("")
  {
    forall i | 0 <= i < |SENSITIVE_PARTS| ensures !Contains("", SENSITIVE_PARTS[i]) {
      assert SENSITIVE_PARTS[i] != "";
    }
    assert Normalize("") == "";
    hide Normalize, Contains;
  }

  lemma LeakyCollects(s: string)
    requires |s| >= 4 && !Safe(s)
    ensures Collect(Leaky(s)) == SensitiveValues(Leaky(s)) == [s]
  {
    NonceIsSensitive();
    EmptyIsOrdinary();
    hide IsSensitiveKey, Safe, Defeat;
    var p, q := Pair("nonce", Str(s)), Pair("", Str(Defeat(s)));
    assert [p, q][..1] == [p] && [p][..0] == [];
    assert CollectPairs([p]) == [s] && CollectPairs([p, q]) == [s];
    assert [s][..0] == [] && Dedup([]) == [];
  }

  lemma ScrubOne(text: string, s: string)
    requires s != ""
    ensures Scrub(text, [s]) == Replace(text, s)
  {
    assert [s][..0] == [] && Scrub(text, []) == text;
  }

  lemma SanitizeTwo(p: Pair, q: Pair, secrets: seq<string>, pre: string -> string)
    requires IsSensitiveKey(p.key) && !IsSensitiveKey(q.key) && q.value.Str?
    ensures Sanitize(Dict([p, q]), secrets, pre)
            == Dict([Pair(p.key, Str(REDACTED)), Pair(q.key, Str(Scrub(pre(q.value.text), secrets)))])
  {
    hide IsSensitiveKey, Scrub;
    assert [p, q][1..] == [q] && [q][1..] == [];
    assert SanitizePairs([q], secrets, pre) == [Pair(q.key, Str(Scrub(pre(q.value.text), secrets)))];
  }

  lemma TwoDirty(p: Pair, key: string, text: string, s: string)
    requires Contains(text, s)
    ensures !Clean(Dict([p, Pair(key, Str(text))]), s)
  {
    hide Contains;
    assert [p, Pair(key, Str(text))][1..] == [Pair(key, Str(text))];
    assert !CleanPairs([Pair(key, Str(text))], s);
  }

  lemma LeakyLeaks(s: string)
    requires |s| >= 4 && !Safe(s)
    ensures !Clean(SanitizeValue(Leaky(s), (t: string) => t), s)
  {
    NonceIsSensitive();
    EmptyIsOrdinary();
    LeakyCollects(s);
    DefeatSurvives(s);
    hide IsSensitiveKey, Safe, Defeat, Replace, Contains, Scrub, Sanitize, Clean, SensitiveValues;
    ScrubOne(Defeat(s), s);
    SanitizeTwo(Pair("nonce", Str(s)), Pair("", Str(Defeat(s))), [s], (t: string) => t);
    TwoDirty(Pair("nonce", Str(REDACTED)), "", Replace(Defeat(s), s), s);
  }

  ghost predicate AlwaysCleaned(s: string) {
    forall v, pre :: s in Collect(v) ==> Clean(SanitizeValue(v, pre), s)
  }

  /** The exact condition for whole values: a secret long enough to be collected disappears from the output of
      every value that collects it, whatever the passes before do, if and only if it is safe. */
  lemma {:induction false} AlwaysCleanedIffSafe(s: string)
    requires |s| >= 4
    ensures AlwaysCleaned(s) <==> Safe(s)
  {
    hide Safe, SanitizeValue, Clean, Collect, Leaky;
    if Safe(s) {
      forall v, pre | s in Collect(v) ensures Clean(SanitizeValue(v, pre), s) {
        RedactionComplete(v, Collect(v), pre, s);
      }
    } else {
      LeakyCollects(s);
      LeakyLeaks(s);
    }
  }

  /** In particular a secret without asterisks is safe. */
  lemma {:induction false} NoStarIsSafe(s: string)
    requires s != "" && '*' !in s
    ensures Safe(s)
  {
    if Contains(s, REDACTED) { StarsInside(s); }
  }

  lemma {:induction false} StarsInside(s: string)
    requires Contains(s, REDACTED)
    ensures '*' in s
  {
    if REDACTED <= s { assert s[0] == '*'; } else { StarsInside(s[1..]); }
  }

  // w is v with string leaves rewritten and sensitive entries blanked: the same keys in the same order,
  // the same lengths, the same non-string leaves.
  predicate SameShape(v: Value, w: Value)
    decreases v, 1
  {
    match v
    case Str(_) => w.Str?
    case List(vs) => w.List? && SameItems(vs, w.items)
    case Tuple(vs) => w.Tuple? && SameItems(vs, w.items)
    case Dict(ps) => w.Dict? && SamePairs(ps, w.entries)
    case _ => w == v
  }

  predicate SameItems(vs: seq<Value>, ws: seq<Value>)
    decreases vs, 0
  {
    |vs| == |ws| && (vs == [] || (SameShape(vs[0], ws[0]) && SameItems(vs[1..], ws[1..])))
  }

  predicate SamePairs(ps: seq<Pair>, qs: seq<Pair>)
    decreases ps, 0
  {
    |ps| == |qs| &&
    (ps != [] ==>
       && ps[0].key == qs[0].key
       && (if IsSensitiveKey(ps[0].key) then qs[0].value == Str(REDACTED) else SameShape(ps[0].value, qs[0].value))
       && SamePairs(ps[1..], qs[1..]))
  }

  /** Outside redacted keys nothing but string leaves changes. */
  lemma {:induction false} ShapeKept(v: Value, secrets: seq<string>, pre: string -> string)
    ensures SameShape(v, Sanitize(v, secrets, pre))
    decreases v, 1
  {
    match v
    case List(vs) => ItemsKept(vs, secrets, pre);
    case Tuple(vs) => ItemsKept(vs, secrets, pre);
    case Dict(ps) => PairsKept(ps, secrets, pre);
    case _ =>
  }

  lemma {:induction false} ItemsKept(vs: seq<Value>, secrets: seq<string>, pre: string -> string)
    ensures SameItems(vs, SanitizeItems(vs, secrets, pre))
    decreases vs, 0
  {
    if vs != [] {
      ShapeKept(vs[0], secrets, pre);
      ItemsKept(vs[1..], secrets, pre);
      assert SanitizeItems(vs, secrets, pre)[1..] == SanitizeItems(vs[1..], secrets, pre);
    }
  }

  lemma {:induction false} PairsKept(ps: seq<Pair>, secrets: seq<string>, pre: string -> string)
    ensures SamePairs(ps, SanitizePairs(ps, secrets, pre))
    decreases ps, 0
  {
    if ps != [] {
      ShapeKept(ps[0].value, secrets, pre);
      PairsKept(ps[1..], secrets, pre);
      assert SanitizePairs(ps, secrets, pre)[1..] == SanitizePairs(ps[1..], secrets, pre);
    }
  }
}
