/** String operations of the Rust standard library that the modelled code relies on:
    trimming, substring search, splitting and integer parsing. */
module Text {

  datatype Option<+T> = None | Some(value: T)

  // ---------- white space and trimming ----------

  /** The Unicode White_Space property, which `str::trim` strips. */
  predicate IsSpace(c: char) {
    || '\U{0009}' <= c <= '\U{000D}'
    || c == ' ' || c == '\U{0085}' || c == '\U{00A0}' || c == '\U{1680}'
    || '\U{2000}' <= c <= '\U{200A}'
    || c == '\U{2028}' || c == '\U{2029}' || c == '\U{202F}' || c == '\U{205F}' || c == '\U{3000}'
  }

  /** The 25 code points. */
  lemma WhiteSpaceExact(c: char)
    ensures IsSpace(c) <==> c as int in {
      0x9, 0xA, 0xB, 0xC, 0xD, 0x20, 0x85, 0xA0, 0x1680, 0x2000, 0x2001, 0x2002, 0x2003, 0x2004, 0x2005, 0x2006, 0x2007,
      0x2008, 0x2009, 0x200A, 0x2028, 0x2029, 0x202F, 0x205F, 0x3000}
  {
  }

  predicate AllSpace(s: string) {
    forall i :: 0 <= i < |s| ==> IsSpace(s[i])
  }

  function TrimStart(s: string): (r: string)
    ensures |r| <= |s|
    ensures r != [] ==> !IsSpace(r[0])
  {
    if s != [] && IsSpace(s[0]) then TrimStart(s[1..]) else s
  }

  function TrimEnd(s: string): (r: string)
    ensures |r| <= |s|
    ensures r != [] ==> !IsSpace(r[|r| - 1])
  {
    if s != [] && IsSpace(s[|s| - 1]) then TrimEnd(s[..|s| - 1]) else s
  }

  lemma {:induction false} TrimStartParts(s: string) returns (a: string)
    ensures AllSpace(a) && s == a + TrimStart(s)
  {
    if s != [] && IsSpace(s[0]) {
      var b := TrimStartParts(s[1..]);
      a := [s[0]] + b;
    } else {
      a := [];
    }
  }

  lemma {:induction false} TrimEndParts(s: string) returns (b: string)
    ensures AllSpace(b) && s == TrimEnd(s) + b
  {
    if s != [] && IsSpace(s[|s| - 1]) {
      var a := TrimEndParts(s[..|s| - 1]);
      b := a + [s[|s| - 1]];
    } else {
      b := [];
    }
  }

  /** Trimming the end leaves a non-empty tight start alone. */
  lemma {:induction false} TrimEndStart(s: string)
    ensures TrimEnd(s) <= s
  {
    if s != [] && IsSpace(s[|s| - 1]) { TrimEndStart(s[..|s| - 1]); }
  }

  function Trim(s: string): (r: string)
    ensures |r| <= |s|
    ensures Tight(r)
  {
    TrimEndStart(TrimStart(s));
    TrimEnd(TrimStart(s))
  }

  /** A text whose two ends are no white space. */
  predicate Tight(s: string) {
    s == [] || (!IsSpace(s[0]) && !IsSpace(s[|s| - 1]))
  }

  lemma {:induction false} TrimStartOf(a: string, s: string)
    requires AllSpace(a)
    requires s == [] || !IsSpace(s[0])
    ensures TrimStart(a + s) == s
  {
    if a == [] {
      assert a + s == s;
    } else {
      assert (a + s)[1..] == a[1..] + s;
      TrimStartOf(a[1..], s);
    }
  }

  lemma {:induction false} TrimEndOf(s: string, b: string)
    requires AllSpace(b)
    requires s == [] || !IsSpace(s[|s| - 1])
    ensures TrimEnd(s + b) == s
  {
    if b == [] {
      assert s + b == s;
    } else {
      assert (s + b)[..|s| + |b| - 1] == s + b[..|b| - 1];
      TrimEndOf(s, b[..|b| - 1]);
    }
  }

  /** `Trim` finds the core of a padded text. */
  lemma TrimOf(a: string, core: string, b: string)
    requires AllSpace(a) && AllSpace(b) && Tight(core)
    ensures Trim(a + core + b) == core
  {
    if core == [] {
      assert a + core + b == (a + b) + [];
      TrimStartOf(a + b, []);
    } else {
      assert a + core + b == a + (core + b);
      TrimStartOf(a, core + b);
      TrimEndOf(core, b);
    }
  }

  /** Every text is its trimmed core between two runs of white space. */
  lemma TrimParts(s: string) returns (a: string, b: string)
    ensures AllSpace(a) && AllSpace(b) && s == a + Trim(s) + b
  {
    a := TrimStartParts(s);
    b := TrimEndParts(TrimStart(s));
  }

  lemma TrimPadding(a: string, s: string, b: string)
    requires AllSpace(a) && AllSpace(b)
    ensures Trim(a + s + b) == Trim(s)
  {
    var x, y := TrimParts(s);
    var core := Trim(s);
    TrimOf(a + x, core, y + b);
    assert a + (x + core + y) + b == (a + x) + core + (y + b);
  }

  lemma TrimPadStart(a: string, s: string)
    requires AllSpace(a)
    ensures Trim(a + s) == Trim(s)
  {
    TrimPadding(a, s, []);
    assert a + s + [] == a + s;
  }

  lemma TrimPadEnd(s: string, b: string)
    requires AllSpace(b)
    ensures Trim(s + b) == Trim(s)
  {
    TrimPadding([], s, b);
    assert [] + s + b == s + b;
  }

  lemma TrimTwice(s: string)
    ensures Trim(Trim(s)) == Trim(s)
  {
    TrimOf([], Trim(s), []);
    assert [] + Trim(s) + [] == Trim(s);
  }

  lemma TightAround(x: string, mid: string, y: string)
    requires mid != [] && Tight(mid)
    requires x == [] || !IsSpace(x[0])
    requires y == [] || !IsSpace(y[|y| - 1])
    ensures Tight(x + mid + y)
  {
    var core := x + mid + y;
    assert core[0] == if x == [] then mid[0] else x[0];
    assert core[|core| - 1] == if y == [] then mid[|mid| - 1] else y[|y| - 1];
  }

  lemma Regroup(p: string, x: string, mid: string, y: string, q: string)
    ensures (p + x) + mid + (y + q) == p + (x + mid + y) + q
  {
  }

  /** Trimming around a solid middle reaches only the two outer parts. */
  lemma TrimAround(a: string, mid: string, b: string)
    requires mid != [] && Tight(mid)
    ensures Trim(a + mid + b) == TrimStart(a) + mid + TrimEnd(b)
  {
    var x, y := TrimStart(a), TrimEnd(b);
    var p := TrimStartParts(a);
    var q := TrimEndParts(b);
    TightAround(x, mid, y);
    calc {
      Trim(a + mid + b);
      { Regroup(p, x, mid, y, q); }
      Trim(p + (x + mid + y) + q);
      { TrimOf(p, x + mid + y, q); }
      x + mid + y;
    }
  }

  lemma TrimOfTrimStart(s: string)
    ensures Trim(TrimStart(s)) == Trim(s)
  {
    var a := TrimStartParts(s);
    TrimPadStart(a, TrimStart(s));
  }

  lemma TrimOfTrimEnd(s: string)
    ensures Trim(TrimEnd(s)) == Trim(s)
  {
    var b := TrimEndParts(s);
    TrimPadEnd(TrimEnd(s), b);
  }

  /** The text is `core` between white space. */
  ghost predicate Around(text: string, core: string) {
    Tight(core) && exists a, b :: AllSpace(a) && AllSpace(b) && text == a + core + b
  }

  lemma AroundIsTrim(text: string, core: string)
    ensures Around(text, core) <==> core == Trim(text)
  {
    hide Trim, Tight;
    if Around(text, core) {
      var a, b :| AllSpace(a) && AllSpace(b) && text == a + core + b;
      TrimOf(a, core, b);
    }
    var a, b := TrimParts(text);
  }

  lemma BlankIsSpace(s: string)
    ensures Trim(s) == [] <==> AllSpace(s)
  {
    var a, b := TrimParts(s);
    if AllSpace(s) {
      TrimOf(s, [], []);
      assert s + [] + [] == s;
    } else {
      assert Trim(s) == [] ==> s == a + b;
    }
  }

  // ---------- substring search ----------

  predicate MatchAt(s: string, p: string, i: int) {
    0 <= i <= |s| - |p| && s[i..i + |p|] == p
  }

  /** `str::find`: the first position where `p` occurs. */
  function Find(s: string, p: string): (r: Option<nat>)
    ensures r.Some? ==> MatchAt(s, p, r.value) && forall j :: 0 <= j < r.value ==> !MatchAt(s, p, j)
    ensures r.None? ==> forall j :: !MatchAt(s, p, j)
  {
    FindFrom(s, p, 0)
  }

  function FindFrom(s: string, p: string, i: nat): (r: Option<nat>)
    ensures r.Some? ==> i <= r.value && MatchAt(s, p, r.value) && forall j :: i <= j < r.value ==> !MatchAt(s, p, j)
    ensures r.None? ==> forall j :: i <= j ==> !MatchAt(s, p, j)
    decreases |s| - i
  {
    if MatchAt(s, p, i) then Some(i)
    else if i >= |s| then None
    else FindFrom(s, p, i + 1)
  }

  lemma MatchShift(a: string, b: string, p: string, j: int)
    requires |a| <= j
    ensures MatchAt(a + b, p, j) <==> MatchAt(b, p, j - |a|)
  {
    if j <= |a| + |b| - |p| {
      assert (a + b)[j..j + |p|] == b[j - |a|..j - |a| + |p|];
    }
  }

  /** A match found in a prefix stays the first match whatever follows. */
  lemma FindInPrefix(a: string, b: string, p: string)
    requires Find(a, p).Some? && p != []
    ensures Find(a + b, p) == Find(a, p)
  {
    var i := Find(a, p).value;
    forall j | 0 <= j <= i
      ensures MatchAt(a + b, p, j) <==> MatchAt(a, p, j)
    {
      assert (a + b)[j..j + |p|] == a[j..j + |p|];
    }
  }

  predicate Contains(s: string, c: char) {
    exists i :: 0 <= i < |s| && s[i] == c
  }

  // ---------- splitting ----------

  /** `str::split` on one character. */
  function Split(s: string, c: char): (r: seq<string>)
    ensures |r| > 0
  {
    if s == [] then [[]]
    else
      var rest := Split(s[1..], c);
      if s[0] == c then [[]] + rest else [[s[0]] + rest[0]] + rest[1..]
  }

  lemma {:induction false} SplitOfPlain(a: string, c: char)
    requires !Contains(a, c)
    ensures Split(a, c) == [a]
  {
    if a == [] {
    } else {
      assert a[0] != c && forall i :: 0 <= i < |a[1..]| ==> a[1..][i] == a[i + 1];
      SplitOfPlain(a[1..], c);
      assert [a[0]] + a[1..] == a;
    }
  }

  /** The first field ends at the first separator. */
  lemma {:induction false} SplitOfJoin(a: string, c: char, b: string)
    requires !Contains(a, c)
    ensures Split(a + [c] + b, c) == [a] + Split(b, c)
  {
    var s := a + [c] + b;
    if a == [] {
      assert s[1..] == b;
    } else {
      assert a[0] != c && forall i :: 0 <= i < |a[1..]| ==> a[1..][i] == a[i + 1];
      SplitOfJoin(a[1..], c, b);
      assert s[1..] == a[1..] + [c] + b;
      assert [a[0]] + a[1..] == a;
    }
  }

  lemma {:induction false} SplitInjective(s: string, t: string, c: char)
    requires Split(s, c) == Split(t, c)
    ensures s == t
    decreases |s|
  {
    if s != [] && t != [] {
      SplitHead(s, c);
      SplitHead(t, c);
      SplitInjective(s[1..], t[1..], c);
      assert s == [s[0]] + s[1..] && t == [t[0]] + t[1..];
    } else {
      SplitEmpty(s, c);
      SplitEmpty(t, c);
    }
  }

  lemma SplitEmpty(s: string, c: char)
    ensures s == [] <==> Split(s, c) == [[]]
  {
    if s != [] && s[0] == c { assert |Split(s, c)| > 1; }
    if s != [] && s[0] != c { assert Split(s, c)[0] != []; }
  }

  /** The first segment is empty exactly when the text starts with a separator, else it starts like the text. */
  lemma SplitHead(s: string, c: char)
    requires s != []
    ensures var r, rest := Split(s, c), Split(s[1..], c);
            if s[0] == c then r[0] == [] && r[1..] == rest else r[0] != [] && r[0][0] == s[0] && rest == [r[0][1..]] + r[1..]
  {
    var r, rest := Split(s, c), Split(s[1..], c);
    if s[0] != c { assert r[0][1..] == rest[0] && rest == [rest[0]] + rest[1..]; }
  }

  lemma {:induction false} SplitPlain(s: string, c: char)
    ensures forall i :: 0 <= i < |Split(s, c)| ==> !Contains(Split(s, c)[i], c)
  {
    if s != [] {
      SplitPlain(s[1..], c);
      var rest := Split(s[1..], c);
      forall i | 0 <= i < |Split(s, c)|
        ensures !Contains(Split(s, c)[i], c)
      {
        if s[0] == c {
          if i > 0 { assert Split(s, c)[i] == rest[i - 1]; }
        } else if i > 0 {
          assert Split(s, c)[i] == rest[i];
        } else {
          assert Split(s, c)[0] == [s[0]] + rest[0] && !Contains(rest[0], c);
        }
      }
    }
  }

  // ---------- numbers ----------

  predicate IsDigit(c: char) { '0' <= c <= '9' }

  predicate AllDigits(s: string) {
    forall i :: 0 <= i < |s| ==> IsDigit(s[i])
  }

  function DigitValue(c: char): nat
    requires IsDigit(c)
  {
    (c as int) - ('0' as int)
  }

  function DigitsValue(s: string): nat
    requires AllDigits(s)
  {
    if s == [] then 0 else 10 * DigitsValue(s[..|s| - 1]) + DigitValue(s[|s| - 1])
  }

  const U64_LIMIT := 0x1_0000_0000_0000_0000
  const I64_MAX := 0x7FFF_FFFF_FFFF_FFFF

  /** `str::parse::<u64>`: an optional plus sign, at least one digit, no overflow. */
  function ParseU64(s: string): Option<nat> {
    var digits := if s != [] && s[0] == '+' then s[1..] else s;
    if digits == [] || !AllDigits(digits) || DigitsValue(digits) >= U64_LIMIT then None
    else Some(DigitsValue(digits))
  }

  lemma ParseU64Exact(s: string, n: nat)
    ensures ParseU64(s) == Some(n) <==>
      exists sign, ds :: sign in {"", "+"} && s == sign + ds && ds != [] && AllDigits(ds) && DigitsValue(ds) == n && n < 0x1_0000_0000_0000_0000
  {
    hide DigitsValue;
    forall sign: string, ds | sign in {"", "+"} && s == sign + ds && ds != [] && AllDigits(ds)
      ensures ParseU64(s) == if DigitsValue(ds) < U64_LIMIT then Some(DigitsValue(ds)) else None
    {
      assert sign == "" ==> s == ds;
      assert sign != "" ==> s[0] == '+' && s[1..] == ds;
      assert IsDigit(ds[0]);
    }
    if ParseU64(s) == Some(n) {
      var signed := s[0] == '+';
      var sign, ds := if signed then "+" else "", if signed then s[1..] else s;
      assert s == sign + ds;
    }
  }

  predicate IsI64(n: int) { -0x8000_0000_0000_0000 <= n < 0x8000_0000_0000_0000 }

  /** `str::parse::<i64>`: an optional sign, at least one digit, no overflow. */
  function ParseI64(s: string): Option<int> {
    var negative: bool := s != [] && s[0] == '-';
    var digits := if s != [] && (s[0] == '+' || s[0] == '-') then s[1..] else s;
    if digits == [] || !AllDigits(digits) then None
    else if negative then
      if DigitsValue(digits) > I64_MAX + 1 then None else Some(-(DigitsValue(digits) as int))
    else
      if DigitsValue(digits) > I64_MAX then None else Some(DigitsValue(digits))
  }

  function Digits(n: nat): (s: string)
    ensures s != [] && AllDigits(s) && DigitsValue(s) == n
    ensures |s| > 1 ==> s[0] != '0'
  {
    var last := ['0' + (n % 10) as char];
    if n < 10 then
      assert last[..0] == [];
      last
    else
      var s := Digits(n / 10) + last;
      assert s[..|s| - 1] == Digits(n / 10);
      s
  }

  /** An integer in decimal. */
  function Signed(n: int): (s: string)
    ensures s != []
  {
    if n < 0 then "-" + Digits(-n) else Digits(n)
  }

  lemma SignedParses(n: int)
    requires IsI64(n)
    ensures ParseI64(Signed(n)) == Some(n)
  {
    hide Digits, DigitsValue;
    var ds := Digits(if n < 0 then -n else n);
    assert IsDigit(ds[0]);
    assert n < 0 ==> Signed(n)[0] == '-' && Signed(n)[1..] == ds;
  }

  function Zeros(n: nat): (s: string)
    ensures |s| == n && AllDigits(s)
  {
    if n == 0 then [] else ['0'] + Zeros(n - 1)
  }

  /** `format!("{:0width$}", n)`. */
  function Padded(n: nat, width: nat): (s: string)
    ensures s != [] && AllDigits(s) && DigitsValue(s) == n
    ensures |s| == if |Digits(n)| < width then width else |Digits(n)|
  {
    var d := Digits(n);
    var pad := if |d| < width then width - |d| else 0;
    ZerosValue(pad, d);
    Zeros(pad) + d
  }

  lemma {:induction false} ZerosValue(n: nat, d: string)
    requires AllDigits(d)
    ensures AllDigits(Zeros(n) + d) && DigitsValue(Zeros(n) + d) == DigitsValue(d)
  {
    if d == [] {
      assert Zeros(n) + d == Zeros(n);
      if n > 0 {
        ZerosValue(n - 1, []);
        assert Zeros(n - 1) + [] == Zeros(n - 1);
        ZerosEnd(n);
      }
    } else {
      ZerosValue(n, d[..|d| - 1]);
      assert (Zeros(n) + d)[..n + |d| - 1] == Zeros(n) + d[..|d| - 1];
    }
  }

  lemma {:induction false} ZerosEnd(n: nat)
    requires n > 0
    ensures Zeros(n) == Zeros(n - 1) + ['0']
  {
    if n > 1 { ZerosEnd(n - 1); }
  }

  // ---------- letters ----------

  function LowerChar(c: char): char {
    if 'A' <= c <= 'Z' then ((c as int) + 32) as char else c
  }

  function Lower(s: string): (r: string)
    ensures |r| == |s| && forall i :: 0 <= i < |s| ==> r[i] == LowerChar(s[i])
  {
    seq(|s|, i requires 0 <= i < |s| => LowerChar(s[i]))
  }

  /** The word in lower-case, upper-case or mixed letters. */
  predicate Spells(s: string, word: string) {
    |s| == |word| && forall i :: 0 <= i < |s| ==> s[i] == word[i] || ('a' <= word[i] <= 'z' && s[i] as int + 32 == word[i] as int)
  }

  lemma SpellsIsLower(s: string, word: string)
    requires forall i :: 0 <= i < |word| ==> 'a' <= word[i] <= 'z'
    ensures Spells(s, word) <==> Lower(s) == word
  {
  }

  /** The word, in any letter case and between white space. */
  ghost predicate Writes(text: string, word: string) {
    exists w :: Around(text, w) && Spells(w, word)
  }

  lemma WritesIsLower(text: string, word: string)
    requires forall i :: 0 <= i < |word| ==> 'a' <= word[i] <= 'z'
    ensures Writes(text, word) <==> Lower(Trim(text)) == word
  {
    hide Trim, Around, Spells, Lower;
    forall x
      ensures Around(text, x) <==> x == Trim(text)
    {
      AroundIsTrim(text, x);
    }
    SpellsIsLower(Trim(text), word);
  }

  // ---------- deduplication ----------

  /** First occurrences, in order. */
  function Dedup(xs: seq<string>): (r: seq<string>)
    ensures forall x :: x in r <==> x in xs
    ensures forall i, j :: 0 <= i < j < |r| ==> r[i] != r[j]
  {
    if xs == [] then []
    else
      var r := Dedup(xs[..|xs| - 1]);
      var x := xs[|xs| - 1];
      assert xs == xs[..|xs| - 1] + [x];
      if x in r then r else r + [x]
  }
}
