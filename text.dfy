/** The string primitives the pipeline leans on, stated as Python defines
    them for the inputs it sees: `str.strip`, `str.lower` (ASCII letters),
    `str.split` on single characters, `str.startswith`/`endswith`, `in`,
    `int()` on decimal text and the `{:02d}` format. */
module Text {
  import opened Wrappers

  /** Python's `str.isspace()`: the characters `str.strip()` removes and
      the regular expression class `\s` matches. */
  predicate IsSpace(c: char) {
    c == ' ' || c == '\t' || c == '\n' || c == '\r' || c == '\U{B}' || c == '\U{C}'
    || ('\U{1C}' <= c <= '\U{1F}') || c == '\U{85}' || c == '\U{A0}' || c == '\U{1680}'
    || ('\U{2000}' <= c <= '\U{200A}') || c == '\U{2028}' || c == '\U{2029}'
    || c == '\U{202F}' || c == '\U{205F}' || c == '\U{3000}'
  }

  /** True when `s` neither starts nor ends with whitespace. */
  predicate Trimmed(s: string) {
    s == [] || (!IsSpace(s[0]) && !IsSpace(s[|s| - 1]))
  }

  function TrimLeft(s: string): (r: string)
    ensures |r| <= |s| && r == s[|s| - |r|..]
    ensures r != [] ==> !IsSpace(r[0])
    decreases |s|
  {
    if s != [] && IsSpace(s[0]) then TrimLeft(s[1..]) else s
  }

  function TrimRight(s: string): (r: string)
    ensures |r| <= |s| && r == s[..|r|]
    ensures r != [] ==> !IsSpace(r[|r| - 1])
    decreases |s|
  {
    if s != [] && IsSpace(s[|s| - 1]) then TrimRight(s[..|s| - 1]) else s
  }

  /** Python's `str.strip()`: the longest slice of `s` that neither starts
      nor ends with whitespace and leaves only whitespace outside it. */
  function Strip(s: string): (r: string)
    ensures |r| <= |s| && Trimmed(r)
    ensures Trimmed(s) ==> r == s
  {
    var l := TrimLeft(s);
    var r := TrimRight(l);
    assert r != [] ==> r[0] == l[0];
    assert Trimmed(s) && s != [] ==> l == s && s[|s| - 1] == l[|l| - 1];
    r
  }

  /** `str.lower()` on ASCII letters. */
  function LowerChar(c: char): char {
    if 'A' <= c <= 'Z' then (c as int + 32) as char else c
  }

  function Lower(s: string): (r: string)
    ensures |r| == |s|
  {
    seq(|s|, i requires 0 <= i < |s| => LowerChar(s[i]))
  }

  predicate IsBlank(s: string) {
    forall i :: 0 <= i < |s| ==> IsSpace(s[i])
  }

  lemma {:induction false} TrimLeftEmpty(s: string)
    ensures TrimLeft(s) == [] <==> IsBlank(s)
    decreases |s|
  {
    if s != [] {
      TrimLeftEmpty(s[1..]);
      if IsBlank(s[1..]) && IsSpace(s[0]) {
        forall i | 0 <= i < |s| ensures IsSpace(s[i]) {
          if i > 0 { assert s[i] == s[1..][i - 1]; }
        }
      }
      if IsBlank(s) {
        forall i | 0 <= i < |s| - 1 ensures IsSpace(s[1..][i]) {
          assert s[1..][i] == s[i + 1];
        }
      }
    }
  }

  lemma {:induction false} TrimRightKeepsHead(s: string)
    requires s != [] && !IsSpace(s[0])
    ensures TrimRight(s) != []
    decreases |s|
  {
    if |s| > 1 && IsSpace(s[|s| - 1]) {
      TrimRightKeepsHead(s[..|s| - 1]);
    }
  }

  /** Trimming on the right keeps every character up to the last
      non-space one. */
  lemma {:induction false} TrimRightKeepsPast(s: string, j: nat)
    requires j < |s| && !IsSpace(s[j])
    ensures |TrimRight(s)| > j
    decreases |s|
  {
    if j < |s| - 1 && IsSpace(s[|s| - 1]) {
      TrimRightKeepsPast(s[..|s| - 1], j);
    }
  }

  /** `s.strip()` is empty exactly when `s` is all whitespace. */
  lemma StripEmpty(s: string)
    ensures Strip(s) == [] <==> IsBlank(s)
  {
    TrimLeftEmpty(s);
    if TrimLeft(s) != [] {
      TrimRightKeepsHead(TrimLeft(s));
    }
  }

  /** Lower-casing changes no character's whitespace status. */
  lemma StripLowerEmpty(s: string)
    ensures Strip(Lower(s)) == [] <==> Strip(s) == []
  {
    StripEmpty(s);
    StripEmpty(Lower(s));
    forall i | 0 <= i < |s| ensures IsSpace(Lower(s)[i]) == IsSpace(s[i]) {
      LowerKeepsSpace(s[i]);
    }
  }

  lemma LowerKeepsSpace(c: char)
    ensures IsSpace(LowerChar(c)) == IsSpace(c)
  {
  }

  lemma LowerIdempotent(s: string)
    ensures Lower(Lower(s)) == Lower(s)
  {
  }

  /** `str.upper()` on ASCII letters. */
  function UpperChar(c: char): char {
    if 'a' <= c <= 'z' then (c as int - 32) as char else c
  }

  function Upper(s: string): (r: string)
    ensures |r| == |s|
  {
    seq(|s|, i requires 0 <= i < |s| => UpperChar(s[i]))
  }

  /** `s.replace(a, b)` for single characters. */
  function ReplaceChar(s: string, a: char, b: char): (r: string)
    ensures |r| == |s|
  {
    seq(|s|, i requires 0 <= i < |s| => if s[i] == a then b else s[i])
  }

  predicate StartsWith(s: string, prefix: string) {
    |prefix| <= |s| && s[..|prefix|] == prefix
  }

  predicate EndsWith(s: string, suffix: string) {
    |suffix| <= |s| && s[|s| - |suffix|..] == suffix
  }

  /** Python's `t in s` for strings. */
  predicate Contains(s: string, t: string) {
    exists i :: 0 <= i <= |s| - |t| && OccursAt(s, t, i)
  }

  predicate OccursAt(s: string, t: string, i: nat)
    requires i + |t| <= |s|
  {
    s[i..i + |t|] == t
  }

  /** Python's `s.find(t)`: the first index where `t` occurs, or -1. */
  function IndexOfSub(s: string, t: string): (r: int)
    ensures r >= -1
    ensures r >= 0 ==> r + |t| <= |s| && OccursAt(s, t, r)
    decreases |s|
  {
    if |s| < |t| then -1
    else if s[..|t|] == t then 0
    else
      var k := IndexOfSub(s[1..], t);
      if k < 0 then -1
      else
        assert s[k + 1..k + 1 + |t|] == s[1..][k..k + |t|];
        k + 1
  }

  /** `find` fails exactly when `t` does not occur, and never skips an
      earlier occurrence. */
  lemma {:induction false} IndexOfSubIsFirst(s: string, t: string)
    ensures IndexOfSub(s, t) >= 0 <==> Contains(s, t)
    ensures forall i :: 0 <= i < IndexOfSub(s, t) ==> !OccursAt(s, t, i)
    decreases |s|
  {
    if |s| >= |t| && s[..|t|] != t {
      IndexOfSubIsFirst(s[1..], t);
      forall i | 0 < i <= |s| - |t|
        ensures OccursAt(s, t, i) == OccursAt(s[1..], t, i - 1)
      {
        assert |s[1..]| == |s| - 1;
        assert s[i..i + |t|] == s[1..][i - 1..i - 1 + |t|];
      }
      assert !OccursAt(s, t, 0);
    } else if |s| >= |t| {
      assert OccursAt(s, t, 0);
    }
  }

  /** Python's `s.split(c)` (or `re.split` over a character class) for the
      separator characters `seps`: empty pieces are kept. */
  function SplitOn(s: string, seps: set<char>): (r: seq<string>)
    ensures |r| >= 1
    ensures forall i, j :: 0 <= i < |r| && 0 <= j < |r[i]| ==> r[i][j] !in seps
    decreases |s|
  {
    if s == [] then [""]
    else
      var rest := SplitOn(s[1..], seps);
      if s[0] in seps then [""] + rest
      else [[s[0]] + rest[0]] + rest[1..]
  }

  /** `s.split(c)` has one piece more than `s` has separators. */
  lemma {:induction false} SplitCount(s: string, c: char)
    ensures |SplitOn(s, {c})| == 1 + multiset(s)[c]
    decreases |s|
  {
    if s != [] {
      SplitCount(s[1..], c);
      assert s == [s[0]] + s[1..];
    }
  }

  /** Stripping removes only whitespace, so any other character keeps its count. */
  lemma StripKeepsCount(s: string, c: char)
    requires !IsSpace(c)
    ensures multiset(Strip(s))[c] == multiset(s)[c]
  {
    TrimLeftKeepsCount(s, c);
    TrimRightKeepsCount(TrimLeft(s), c);
  }

  lemma {:induction false} TrimLeftKeepsCount(s: string, c: char)
    requires !IsSpace(c)
    ensures multiset(TrimLeft(s))[c] == multiset(s)[c]
    decreases |s|
  {
    if s != [] && IsSpace(s[0]) {
      TrimLeftKeepsCount(s[1..], c);
      assert s == [s[0]] + s[1..];
    }
  }

  lemma {:induction false} TrimRightKeepsCount(s: string, c: char)
    requires !IsSpace(c)
    ensures multiset(TrimRight(s))[c] == multiset(s)[c]
    decreases |s|
  {
    if s != [] && IsSpace(s[|s| - 1]) {
      TrimRightKeepsCount(s[..|s| - 1], c);
      assert s == s[..|s| - 1] + [s[|s| - 1]];
    }
  }

  /** Replacing `a` by `b` keeps the count of any third character. */
  lemma {:induction false} ReplaceKeepsCount(s: string, a: char, b: char, c: char)
    requires c != a && c != b
    ensures multiset(ReplaceChar(s, a, b))[c] == multiset(s)[c]
    decreases |s|
  {
    if s != [] {
      ReplaceKeepsCount(s[1..], a, b, c);
      var r := ReplaceChar(s, a, b);
      assert r == [r[0]] + ReplaceChar(s[1..], a, b);
      assert s == [s[0]] + s[1..];
    }
  }

  /** Python's `sep.join(parts)`. */
  function JoinWith(parts: seq<string>, sep: string): string
    decreases |parts|
  {
    if parts == [] then ""
    else if |parts| == 1 then parts[0]
    else parts[0] + sep + JoinWith(parts[1..], sep)
  }

  /** Splitting on one character and joining with it gives back the text. */
  lemma {:induction false} SplitThenJoin(s: string, c: char)
    ensures JoinWith(SplitOn(s, {c}), [c]) == s
    decreases |s|
  {
    if s != [] {
      var rest := SplitOn(s[1..], {c});
      SplitThenJoin(s[1..], c);
      if s[0] == c {
        assert SplitOn(s, {c}) == [""] + rest;
        assert ([""] + rest)[1..] == rest;
      } else if |rest| == 1 {
        assert SplitOn(s, {c}) == [[s[0]] + rest[0]];
        assert s == [s[0]] + s[1..];
      } else {
        var parts := SplitOn(s, {c});
        assert parts == [[s[0]] + rest[0]] + rest[1..];
        assert parts[1..] == rest[1..];
        assert JoinWith(rest, [c]) == rest[0] + [c] + JoinWith(rest[1..], [c]);
        assert s == [s[0]] + s[1..];
      }
    }
  }

  /** A piece free of separators, followed by more text, stays one piece
      glued to the first piece of the rest. */
  lemma {:induction false} SplitPrefix(p: string, t: string, seps: set<char>)
    requires forall i :: 0 <= i < |p| ==> p[i] !in seps
    ensures SplitOn(p + t, seps) == [p + SplitOn(t, seps)[0]] + SplitOn(t, seps)[1..]
    decreases |p|
  {
    if p != [] {
      SplitPrefix(p[1..], t, seps);
      assert (p + t)[1..] == p[1..] + t;
      assert (p + t)[0] == p[0];
      assert [p[0]] + (p[1..] + SplitOn(t, seps)[0]) == p + SplitOn(t, seps)[0];
    } else {
      var r := SplitOn(t, seps);
      assert p + t == t;
      assert p + r[0] == r[0];
      assert r == [r[0]] + r[1..];
    }
  }

  /** Joining separator-free pieces and splitting again gives back the pieces. */
  lemma {:induction false} JoinThenSplit(parts: seq<string>, c: char)
    requires |parts| >= 1
    requires forall i, j :: 0 <= i < |parts| && 0 <= j < |parts[i]| ==> parts[i][j] != c
    ensures SplitOn(JoinWith(parts, [c]), {c}) == parts
    decreases |parts|
  {
    var p := parts[0];
    if |parts| == 1 {
      SplitPrefix(p, "", {c});
      assert p + "" == p;
    } else {
      var rest := JoinWith(parts[1..], [c]);
      JoinThenSplit(parts[1..], c);
      assert JoinWith(parts, [c]) == p + ([c] + rest);
      SplitPrefix(p, [c] + rest, {c});
      assert ([c] + rest)[1..] == rest;
      assert SplitOn([c] + rest, {c}) == [""] + parts[1..];
      assert p + "" == p;
    }
  }

  predicate IsDigit(c: char) {
    '0' <= c <= '9'
  }

  predicate AllDigits(s: string) {
    forall i :: 0 <= i < |s| ==> IsDigit(s[i])
  }

  function DigitChar(d: nat): (c: char)
    requires d < 10
    ensures IsDigit(c)
  {
    ('0' as int + d) as char
  }

  /** The value of a string of ASCII digits, read as a decimal numeral. */
  function DigitsValue(s: string): nat
    requires AllDigits(s)
    decreases |s|
  {
    if s == [] then 0
    else DigitsValue(s[..|s| - 1]) * 10 + (s[|s| - 1] as int - '0' as int)
  }

  /** `str(n)` for a natural number. */
  function NatToString(n: nat): (r: string)
    ensures r != [] && AllDigits(r)
    decreases n
  {
    if n < 10 then [DigitChar(n)] else NatToString(n / 10) + [DigitChar(n % 10)]
  }

  /** Reading back a formatted number gives the number. */
  lemma {:induction false} NatToStringRoundTrip(n: nat)
    ensures DigitsValue(NatToString(n)) == n
    decreases n
  {
    if n >= 10 {
      NatToStringRoundTrip(n / 10);
      var s := NatToString(n);
      assert s[..|s| - 1] == NatToString(n / 10);
    }
  }

  lemma NatToStringInjective(m: nat, n: nat)
    requires NatToString(m) == NatToString(n)
    ensures m == n
  {
    NatToStringRoundTrip(m);
    NatToStringRoundTrip(n);
  }

  /** Python's `int(s)` on base-10 text: optional surrounding whitespace, an
      optional sign and one or more ASCII digits; `None` stands for the
      `ValueError` it raises otherwise. */
  function ParseInt(s: string): Option<int> {
    var t := Strip(s);
    if t != [] && (t[0] == '+' || t[0] == '-') then
      if |t| >= 2 && AllDigits(t[1..]) then
        Some(if t[0] == '-' then -(DigitsValue(t[1..]) as int) else DigitsValue(t[1..]))
      else None
    else if t != [] && AllDigits(t) then Some(DigitsValue(t))
    else None
  }

  /** Python's `f"{n:02d}"`: at least two characters, zero-padded after the sign. */
  function Format02(n: int): string {
    if n < 0 then "-" + NatToString(-n)
    else if n < 10 then "0" + NatToString(n)
    else NatToString(n)
  }

  lemma DigitsValueTwo(d: string)
    requires |d| == 2 && AllDigits(d)
    ensures DigitsValue(d) == (d[0] as int - '0' as int) * 10 + (d[1] as int - '0' as int)
  {
    assert d[..|d| - 1] == [d[0]];
    assert [d[0]][..0] == [];
    assert DigitsValue([d[0]]) == DigitsValue([]) * 10 + (d[0] as int - '0' as int);
    assert DigitsValue(d) == DigitsValue([d[0]]) * 10 + (d[1] as int - '0' as int);
  }

  /** `int()` reads a plain run of digits as its decimal value. */
  lemma ParseDigits(d: string)
    requires d != [] && AllDigits(d)
    ensures ParseInt(d) == Some(DigitsValue(d))
  {
    assert IsDigit(d[0]) && IsDigit(d[|d| - 1]);
    assert !IsSpace(d[0]) && !IsSpace(d[|d| - 1]);
    assert Strip(d) == d;
  }

  /** Two digits survive `int` followed by `{:02d}` unchanged, so a
      well-formed clock field is copied through. */
  lemma TwoDigitsRoundTrip(d: string)
    requires |d| == 2 && AllDigits(d)
    ensures Format02(DigitsValue(d)) == d
  {
    DigitsValueTwo(d);
    var a := d[0] as int - '0' as int;
    var b := d[1] as int - '0' as int;
    var v := DigitsValue(d);
    assert DigitChar(b) == d[1] && (a < 10 ==> DigitChar(a) == d[0]);
    if v < 10 {
      assert a == 0 && v == b;
      assert Format02(v) == "0" + [DigitChar(b)];
      assert d == [d[0]] + [d[1]];
    } else {
      assert v / 10 == a && v % 10 == b;
      assert NatToString(v) == NatToString(a) + [DigitChar(b)];
      assert NatToString(a) == [d[0]];
      assert d == [d[0]] + [d[1]];
    }
  }

  /** A value below 100 formats as exactly two digits that read back to it. */
  lemma Format02RoundTrip(n: int)
    requires 0 <= n < 100
    ensures |Format02(n)| == 2 && AllDigits(Format02(n))
    ensures DigitsValue(Format02(n)) == n
  {
    var s := Format02(n);
    if n < 10 {
      assert s == ['0', DigitChar(n)];
    } else {
      assert NatToString(n / 10) == [DigitChar(n / 10)];
      assert s == [DigitChar(n / 10), DigitChar(n % 10)];
    }
    DigitsValueTwo(s);
  }
}
