/** The caption text helpers of `UniversalDownloader`: the line cleaner
    `_clean_caption_line` (tags out, entities decoded, whitespace collapsed)
    and the cue-timing normaliser `_normalize_timestamp`. */
module Captions {
  import opened Wrappers
  import opened Text

  /** The index of the first `c` in `s`, or -1. */
  function FirstIndex(s: string, c: char): (r: int)
    ensures -1 <= r < |s|
    ensures r >= 0 ==> s[r] == c
    decreases |s|
  {
    if s == [] then -1
    else if s[0] == c then 0
    else
      var k := FirstIndex(s[1..], c);
      if k < 0 then -1 else k + 1
  }

  lemma {:induction false} FirstIndexIsFirst(s: string, c: char)
    ensures forall i :: 0 <= i < |s| && s[i] == c ==> FirstIndex(s, c) != -1 && FirstIndex(s, c) <= i
    decreases |s|
  {
    if s != [] && s[0] != c {
      FirstIndexIsFirst(s[1..], c);
      assert forall i :: 0 < i < |s| ==> s[i] == s[1..][i - 1];
    }
  }

  /** `re.sub(r"<[^>]+>", "", s)`: scanning from the left, a `<` that is
      followed, after at least one character, by a `>` starts a tag, and
      everything up to that first `>` is dropped. */
  function StripTags(s: string): (r: string)
    ensures |r| <= |s|
    decreases |s|
  {
    if s == [] then []
    else if s[0] == '<' && FirstIndex(s, '>') > 1 then StripTags(s[FirstIndex(s, '>') + 1..])
    else [s[0]] + StripTags(s[1..])
  }

  /** No match of `<[^>]+>` is left in `s`: a `<` followed anywhere by a
      `>` is followed by it at once. */
  predicate NoTag(s: string) {
    forall i, j :: 0 <= i < j < |s| && s[i] == '<' && s[j] == '>' ==> s[i + 1] == '>'
  }

  /** Tag removal only deletes characters. */
  lemma {:induction false} StripTagsKeepsChars(s: string)
    ensures forall c :: c in StripTags(s) ==> c in s
    decreases |s|
  {
    if s != [] {
      var f := FirstIndex(s, '>');
      if s[0] == '<' && f > 1 {
        var rest := s[f + 1..];
        StripTagsKeepsChars(rest);
        assert StripTags(s) == StripTags(rest);
        forall c | c in rest ensures c in s {
          var k :| 0 <= k < |rest| && rest[k] == c;
          assert s[f + 1 + k] == c;
        }
      } else {
        var rest := s[1..];
        StripTagsKeepsChars(rest);
        assert StripTags(s) == [s[0]] + StripTags(rest);
        forall c | c in rest ensures c in s {
          var k :| 0 <= k < |rest| && rest[k] == c;
          assert s[1 + k] == c;
        }
      }
    }
  }

  /** Removing tags leaves no tag behind. */
  lemma {:induction false} StripTagsLeavesNoTag(s: string)
    ensures NoTag(StripTags(s))
    decreases |s|
  {
    if s != [] {
      var f := FirstIndex(s, '>');
      if s[0] == '<' && f > 1 {
        StripTagsLeavesNoTag(s[f + 1..]);
      } else {
        var t := StripTags(s[1..]);
        StripTagsLeavesNoTag(s[1..]);
        var r := [s[0]] + t;
        assert StripTags(s) == r;
        forall i, j | 0 <= i < j < |r| && r[i] == '<' && r[j] == '>'
          ensures r[i + 1] == '>'
        {
          if i == 0 {
            assert t[j - 1] == '>';
            StripTagsKeepsChars(s[1..]);
            assert '>' in s[1..];
            var k :| 0 <= k < |s[1..]| && s[1..][k] == '>';
            FirstIndexIsFirst(s, '>');
            assert s[k + 1] == '>';
            assert f == 1;
            assert t == [s[1]] + StripTags(s[2..]);
          } else {
            assert t[i - 1] == '<' && t[j - 1] == '>';
          }
        }
      }
    }
  }

  /** Text without tags passes through tag removal unchanged. */
  lemma {:induction false} StripTagsOfTagFree(s: string)
    requires NoTag(s)
    ensures StripTags(s) == s
    decreases |s|
  {
    if s != [] {
      var f := FirstIndex(s, '>');
      FirstIndexIsFirst(s, '>');
      assert s[0] == '<' && f >= 0 ==> f <= 1;
      assert NoTag(s[1..]) by {
        forall i, j | 0 <= i < j < |s[1..]| && s[1..][i] == '<' && s[1..][j] == '>'
          ensures s[1..][i + 1] == '>'
        {
          assert s[i + 1] == '<' && s[j + 1] == '>';
        }
      }
      StripTagsOfTagFree(s[1..]);
    }
  }

  /** Tag removal is idempotent. */
  lemma StripTagsIdempotent(s: string)
    ensures StripTags(StripTags(s)) == StripTags(s)
  {
    StripTagsLeavesNoTag(s);
    StripTagsOfTagFree(StripTags(s));
  }

  /** `html.unescape` on the character references captions use:
      `&amp;`, `&lt;`, `&gt;`, `&quot;` and `&#39;`, decoded in one pass
      from the left (so `&amp;lt;` becomes `&lt;`). */
  function Unescape(s: string): (r: string)
    ensures |r| <= |s|
    decreases |s|
  {
    if s == [] then []
    else match Reference(s)
      case Some((c, k)) => [c] + Unescape(s[k..])
      case None => [s[0]] + Unescape(s[1..])
  }

  /** The reference `s` starts with, as its character and its length. */
  function Reference(s: string): (r: Option<(char, nat)>)
    ensures r.Some? ==> s != [] && s[0] == '&' && 4 <= r.value.1 <= |s|
  {
    if s == [] || s[0] != '&' then None
    else if StartsWith(s, "&amp;") then Some(('&', 5))
    else if StartsWith(s, "&lt;") then Some(('<', 4))
    else if StartsWith(s, "&gt;") then Some(('>', 4))
    else if StartsWith(s, "&quot;") then Some(('"', 6))
    else if StartsWith(s, "&#39;") then Some(('\'', 5))
    else None
  }

  /** `re.sub(r"\s+", " ", s)`: every maximal run of whitespace becomes one
      space. */
  function CollapseSpaces(s: string): (r: string)
    ensures |r| <= |s|
    ensures r != [] && s != [] ==> (IsSpace(r[0]) <==> IsSpace(s[0]))
    decreases |s|
  {
    if s == [] then []
    else if IsSpace(s[0]) then [' '] + CollapseSpaces(TrimLeft(s[1..]))
    else [s[0]] + CollapseSpaces(s[1..])
  }

  /** Every whitespace character is a plain space and no two are adjacent. */
  predicate SingleSpaced(s: string) {
    forall i :: 0 <= i < |s| && IsSpace(s[i]) ==> s[i] == ' ' && (i + 1 < |s| ==> !IsSpace(s[i + 1]))
  }

  lemma {:induction false} CollapseSpacesIsSingleSpaced(s: string)
    ensures SingleSpaced(CollapseSpaces(s))
    decreases |s|
  {
    if s != [] {
      var rest := if IsSpace(s[0]) then TrimLeft(s[1..]) else s[1..];
      CollapseSpacesIsSingleSpaced(rest);
      var t := CollapseSpaces(rest);
      var r := CollapseSpaces(s);
      assert r == [if IsSpace(s[0]) then ' ' else s[0]] + t;
      forall i | 0 <= i < |r| && IsSpace(r[i])
        ensures r[i] == ' ' && (i + 1 < |r| ==> !IsSpace(r[i + 1]))
      {
        if i > 0 {
          assert r[i] == t[i - 1];
          assert i + 1 < |r| ==> r[i + 1] == t[i];
        } else if i + 1 < |r| {
          assert r[1] == t[0];
        }
      }
    }
  }

  /** A slice of single-spaced text is single-spaced. */
  lemma SingleSpacedSlice(s: string, lo: nat, hi: nat)
    requires lo <= hi <= |s| && SingleSpaced(s)
    ensures SingleSpaced(s[lo..hi])
  {
    var t := s[lo..hi];
    forall i | 0 <= i < |t| && IsSpace(t[i])
      ensures t[i] == ' ' && (i + 1 < |t| ==> !IsSpace(t[i + 1]))
    {
      assert t[i] == s[lo + i];
      assert i + 1 < |t| ==> t[i + 1] == s[lo + i + 1];
    }
  }

  /** Stripping single-spaced text keeps it single-spaced. */
  lemma StripKeepsSingleSpaced(s: string)
    requires SingleSpaced(s)
    ensures SingleSpaced(Strip(s))
  {
    var l := TrimLeft(s);
    SingleSpacedSlice(s, |s| - |l|, |s|);
    SingleSpacedSlice(l, 0, |TrimRight(l)|);
  }

  /** Text before the first `&` passes through `Unescape` as it is. */
  lemma {:induction false} UnescapePlainPrefix(t: string, rest: string)
    requires '&' !in t
    ensures Unescape(t + rest) == t + Unescape(rest)
    decreases |t|
  {
    if t == [] {
      assert t + rest == rest;
    } else {
      var s := t + rest;
      assert s[0] == t[0];
      assert s[1..] == t[1..] + rest;
      UnescapePlainPrefix(t[1..], rest);
      assert t == [t[0]] + t[1..];
    }
  }

  /** Text without `&` is left as it is. */
  lemma UnescapePlain(s: string)
    requires '&' !in s
    ensures Unescape(s) == s
  {
    UnescapePlainPrefix(s, []);
    assert s + [] == s;
  }

  /** Two strings that differ at index `i` do not start one with the other. */
  lemma NotPrefix(s: string, p: string, i: nat)
    requires i < |p| && i < |s| && s[i] != p[i]
    ensures !StartsWith(s, p)
  {
    if |p| <= |s| {
      assert s[..|p|][i] == s[i];
    }
  }

  /** Each of the five references decodes to its character, and decoding
      goes on after it. */
  lemma UnescapeAmp(rest: string)
    ensures Unescape("&amp;" + rest) == "&" + Unescape(rest)
  {
    assert StartsWith("&amp;" + rest, "&amp;");
    assert ("&amp;" + rest)[5..] == rest;
  }

  lemma UnescapeLt(rest: string)
    ensures Unescape("&lt;" + rest) == "<" + Unescape(rest)
  {
    NotPrefix("&lt;" + rest, "&amp;", 1);
    assert StartsWith("&lt;" + rest, "&lt;");
    assert ("&lt;" + rest)[4..] == rest;
  }

  lemma UnescapeGt(rest: string)
    ensures Unescape("&gt;" + rest) == ">" + Unescape(rest)
  {
    NotPrefix("&gt;" + rest, "&amp;", 1);
    NotPrefix("&gt;" + rest, "&lt;", 1);
    assert StartsWith("&gt;" + rest, "&gt;");
    assert ("&gt;" + rest)[4..] == rest;
  }

  lemma UnescapeQuot(rest: string)
    ensures Unescape("&quot;" + rest) == "\"" + Unescape(rest)
  {
    NotPrefix("&quot;" + rest, "&amp;", 1);
    NotPrefix("&quot;" + rest, "&lt;", 1);
    NotPrefix("&quot;" + rest, "&gt;", 1);
    assert StartsWith("&quot;" + rest, "&quot;");
    assert ("&quot;" + rest)[6..] == rest;
  }

  lemma UnescapeApos(rest: string)
    ensures Unescape("&#39;" + rest) == "'" + Unescape(rest)
  {
    NotPrefix("&#39;" + rest, "&amp;", 1);
    NotPrefix("&#39;" + rest, "&lt;", 1);
    NotPrefix("&#39;" + rest, "&gt;", 1);
    NotPrefix("&#39;" + rest, "&quot;", 1);
    assert StartsWith("&#39;" + rest, "&#39;");
    assert ("&#39;" + rest)[5..] == rest;
  }

  /** `UniversalDownloader._clean_caption_line`. */
  function CleanCaptionLine(line: string): string {
    Strip(CollapseSpaces(Unescape(StripTags(line))))
  }

  /** A cleaned line has no whitespace at either end, no run of two or
      more whitespace characters and no whitespace but plain spaces. */
  lemma CleanLineIsTidy(line: string)
    ensures Trimmed(CleanCaptionLine(line)) && SingleSpaced(CleanCaptionLine(line))
  {
    var collapsed := CollapseSpaces(Unescape(StripTags(line)));
    CollapseSpacesIsSingleSpaced(Unescape(StripTags(line)));
    StripKeepsSingleSpaced(collapsed);
  }

  /** Single-spaced text is left as it is by the whitespace collapse. */
  lemma {:induction false} CollapseSingleSpaced(s: string)
    requires SingleSpaced(s)
    ensures CollapseSpaces(s) == s
    decreases |s|
  {
    if s != [] {
      var u := s[1..];
      SingleSpacedSlice(s, 1, |s|);
      CollapseSingleSpaced(u);
      if IsSpace(s[0]) {
        LoneSpace(s);
      }
      assert s == [s[0]] + u;
    }
  }

  /** A single space followed by a non-space stays as it is. */
  lemma LoneSpace(s: string)
    requires s != [] && IsSpace(s[0]) && SingleSpaced(s)
    ensures s[0] == ' ' && CollapseSpaces(s) == [' '] + CollapseSpaces(s[1..])
  {
    var u := s[1..];
    assert TrimLeft(u) == u by {
      if u != [] {
        assert u[0] == s[1] && !IsSpace(s[1]);
      }
    }
  }

  /** A tidy line with no `<` and no `&` is its own cleaned form. */
  lemma CleanOfPlain(t: string)
    requires Trimmed(t) && SingleSpaced(t) && '<' !in t && '&' !in t
    ensures CleanCaptionLine(t) == t
  {
    assert NoTag(t);
    StripTagsOfTagFree(t);
    UnescapePlain(t);
    CollapseSingleSpaced(t);
  }

  /** Cleaning a cleaned line again changes nothing when the cleaned line
      holds no `<` and no `&`. */
  lemma CleanIdempotentWhenPlain(line: string)
    requires '<' !in CleanCaptionLine(line) && '&' !in CleanCaptionLine(line)
    ensures CleanCaptionLine(CleanCaptionLine(line)) == CleanCaptionLine(line)
  {
    CleanLineIsTidy(line);
    CleanOfPlain(CleanCaptionLine(line));
  }

  /** Cleaning is not idempotent: an escaped tag `&lt;t&gt;` cleans to
      the tag `<t>`, and cleaning that again deletes it. */
  lemma CleanNotIdempotent(t: string)
    requires t != [] && '<' !in t && '>' !in t && '&' !in t
    requires forall i :: 0 <= i < |t| ==> !IsSpace(t[i])
    ensures CleanCaptionLine("&lt;" + t + "&gt;") == "<" + t + ">"
    ensures CleanCaptionLine("<" + t + ">") == ""
  {
    EscapedTagCleans(t);
    TagCleansAway(t);
  }

  lemma EscapedTagCleans(t: string)
    requires '<' !in t && '&' !in t
    requires forall i :: 0 <= i < |t| ==> !IsSpace(t[i])
    ensures CleanCaptionLine("&lt;" + t + "&gt;") == "<" + t + ">"
  {
    var e := "&lt;" + t + "&gt;";
    assert '<' !in "&lt;" && '<' !in "&gt;";
    assert NoTag(e);
    StripTagsOfTagFree(e);
    assert e == "&lt;" + (t + "&gt;");
    UnescapeLt(t + "&gt;");
    UnescapePlainPrefix(t, "&gt;");
    UnescapeGt([]);
    assert "&gt;" + [] == "&gt;";
    var d := "<" + t + ">";
    assert Unescape(e) == d;
    assert SingleSpaced(d) by {
      forall i | 0 <= i < |d| ensures !IsSpace(d[i]) {
        if 0 < i < |d| - 1 {
          assert d[i] == t[i - 1];
        }
      }
    }
    CollapseSingleSpaced(d);
  }

  lemma TagCleansAway(t: string)
    requires t != [] && '>' !in t
    ensures CleanCaptionLine("<" + t + ">") == ""
  {
    var s := "<" + t + ">";
    FirstIndexIsFirst(s, '>');
    var f := FirstIndex(s, '>');
    assert s[|t| + 1] == '>';
    assert forall i :: 0 < i <= |t| ==> s[i] == t[i - 1];
    assert f == |t| + 1;
    assert s[f + 1..] == [];
  }

  /** `raw.strip().replace(",", ".").split(":")`. */
  function ClockFields(raw: string): (r: seq<string>)
    ensures |r| >= 1
  {
    SplitOn(ReplaceChar(Strip(raw), ',', '.'), {':'})
  }

  /** `field.split(".")[0]`. */
  function WholeSeconds(field: string): string {
    SplitOn(field, {'.'})[0]
  }

  /** `f"{int(hh):02d}:{int(mm):02d}:{int(sec):02d}"`, or `None` for the
      `ValueError` of a field that is not a number. */
  function Clock(hh: string, mm: string, sec: string): (r: Option<string>)
    ensures r.Some? ==> r.value != ""
  {
    match (ParseInt(hh), ParseInt(mm), ParseInt(sec))
    case (Some(h), Some(m), Some(s)) => Some(Format02(h) + ":" + Format02(m) + ":" + Format02(s))
    case _ => None
  }

  /** `f"00:{int(mm):02d}:{int(sec):02d}"`, or `None` for a field that is
      not a number. */
  function ShortClock(mm: string, sec: string): (r: Option<string>)
    ensures r.Some? ==> r.value != ""
  {
    match (ParseInt(mm), ParseInt(sec))
    case (Some(m), Some(s)) => Some("00:" + Format02(m) + ":" + Format02(s))
    case _ => None
  }

  /** `UniversalDownloader._normalize_timestamp`. `None` stands for the
      `ValueError` that `int()` raises on a field that is not a number. */
  function NormalizeTimestamp(raw: string): (r: Option<string>)
    ensures r.Some? ==> r.value != ""
  {
    var parts := ClockFields(raw);
    if |parts| == 3 then Clock(parts[0], parts[1], WholeSeconds(parts[2]))
    else if |parts| == 2 then ShortClock(parts[0], WholeSeconds(parts[1]))
    else Some("00:00:00")
  }

  /** A clock field of exactly two ASCII digits. */
  predicate TwoDigits(d: string) {
    |d| == 2 && AllDigits(d)
  }

  /** A clock field of one or more ASCII digits. */
  predicate Numeral(d: string) {
    d != [] && AllDigits(d)
  }

  /** The seconds field and its fraction: `ss` and `frac` are digits and
      the separator is `.` (WebVTT) or `,` (SRT). */
  predicate FractionSep(c: char) {
    c == '.' || c == ','
  }

  /** Replacing `x` leaves an `x`-free head alone. */
  lemma ReplaceHead(head: string, tail: string, x: char, y: char)
    requires x !in head
    ensures ReplaceChar(head + tail, x, y) == head + ReplaceChar(tail, x, y)
  {
    var r := ReplaceChar(head + tail, x, y);
    forall i | 0 <= i < |r| ensures r[i] == (head + ReplaceChar(tail, x, y))[i] {
      if i < |head| {
        assert (head + tail)[i] == head[i];
      } else {
        assert (head + tail)[i] == tail[i - |head|];
      }
    }
  }

  /** After `,` becomes `.`, the seconds field is what precedes the first
      `.`, and no `:` appears. */
  lemma SecondsField(ss: string, sep: char, frac: string)
    requires Numeral(ss) && FractionSep(sep) && AllDigits(frac)
    ensures var f := ReplaceChar(ss + [sep] + frac, ',', '.');
      ':' !in f && SplitOn(f, {'.'})[0] == ss
  {
    DigitsHaveNoSeparator(ss);
    FractionReplaced(sep, frac);
    assert ss + [sep] + frac == ss + ([sep] + frac);
    ReplaceHead(ss, [sep] + frac, ',', '.');
    assert forall i :: 0 <= i < |ss| ==> ss[i] !in {'.'};
    SplitPrefix(ss, "." + frac, {'.'});
    assert SplitOn("." + frac, {'.'})[0] == "";
    assert ss + "" == ss;
  }

  /** The fraction separator becomes `.` and the digits after it stay. */
  lemma FractionReplaced(sep: char, frac: string)
    requires FractionSep(sep) && AllDigits(frac)
    ensures ReplaceChar([sep] + frac, ',', '.') == "." + frac
  {
    var g := ReplaceChar([sep] + frac, ',', '.');
    forall i | 0 <= i < |g| ensures g[i] == ("." + frac)[i] {
      if i > 0 {
        assert ([sep] + frac)[i] == frac[i - 1] && IsDigit(frac[i - 1]);
      }
    }
  }

  /** Three `:`-free fields joined by `:` split back into those fields. */
  lemma SplitClock(a: string, b: string, c: string)
    requires ':' !in a && ':' !in b && ':' !in c
    ensures SplitOn(a + ":" + b + ":" + c, {':'}) == [a, b, c]
  {
    var parts := [a, b, c];
    assert JoinWith(parts, [':']) == a + ":" + b + ":" + c by {
      assert JoinWith(parts[1..], [':']) == b + [':'] + JoinWith(parts[2..], [':']);
      assert JoinWith(parts[2..], [':']) == c;
    }
    JoinThenSplit(parts, ':');
  }

  lemma SplitPair(a: string, b: string)
    requires ':' !in a && ':' !in b
    ensures SplitOn(a + ":" + b, {':'}) == [a, b]
  {
    var parts := [a, b];
    assert JoinWith(parts, [':']) == a + ":" + b by {
      assert JoinWith(parts[1..], [':']) == b;
    }
    JoinThenSplit(parts, ':');
  }

  /** A numeral field holds no separator and `int()` reads its value. */
  lemma NumeralField(d: string)
    requires Numeral(d)
    ensures ParseInt(d) == Some(DigitsValue(d))
    ensures ':' !in d && ',' !in d && '.' !in d
  {
    assert IsDigit(d[0]);
    ParseDigits(d);
    DigitsHaveNoSeparator(d);
  }

  /** Digits are none of the separators a cue time uses. */
  lemma DigitsHaveNoSeparator(d: string)
    requires AllDigits(d)
    ensures ':' !in d && ',' !in d && '.' !in d
  {
  }

  /** A two-digit field reads and formats back as itself. */
  lemma FieldRoundTrip(d: string)
    requires TwoDigits(d)
    ensures ParseInt(d) == Some(DigitsValue(d)) && Format02(DigitsValue(d)) == d
    ensures ':' !in d && ',' !in d
  {
    assert IsDigit(d[0]) && IsDigit(d[1]);
    ParseDigits(d);
    TwoDigitsRoundTrip(d);
  }

  /** Two-digit fields format back as themselves. */
  lemma ClockOfDigits(hh: string, mm: string, ss: string)
    requires TwoDigits(hh) && TwoDigits(mm) && TwoDigits(ss)
    ensures Clock(hh, mm, ss) == Some(hh + ":" + mm + ":" + ss)
  {
    FieldRoundTrip(hh);
    FieldRoundTrip(mm);
    FieldRoundTrip(ss);
  }

  /** Text that starts with a digit and ends with a digit or a fraction
      separator has nothing to strip. */
  lemma StripClock(raw: string)
    requires raw != [] && IsDigit(raw[0]) && (IsDigit(raw[|raw| - 1]) || FractionSep(raw[|raw| - 1]))
    ensures Strip(raw) == raw
  {
  }

  /** Three separately proved facts about a cue time give its fields. */
  lemma ClockFieldsFrom(raw: string, t: string, parts: seq<string>)
    requires Strip(raw) == raw
    requires ReplaceChar(raw, ',', '.') == t
    requires SplitOn(t, {':'}) == parts
    ensures ClockFields(raw) == parts
  {
  }

  /** A cue time made of a digit head and a seconds tail needs no strip. */
  lemma ClockIsStripped(head: string, ss: string, sep: char, frac: string)
    requires head != [] && IsDigit(head[0]) && Numeral(ss) && FractionSep(sep) && AllDigits(frac)
    ensures Strip(head + (ss + [sep] + frac)) == head + (ss + [sep] + frac)
  {
    LastOfTail(head, ss, sep, frac);
    StripClock(head + (ss + [sep] + frac));
  }

  /** Only the seconds tail of a cue time holds a `,` to replace. */
  lemma ClockReplaced(head: string, ss: string, sep: char, frac: string)
    requires ',' !in head
    ensures ReplaceChar(head + (ss + [sep] + frac), ',', '.') == head + ReplaceChar(ss + [sep] + frac, ',', '.')
  {
    ReplaceHead(head, ss + [sep] + frac, ',', '.');
  }

  /** The `MM:` head of a short cue time. */
  lemma ShortHead(mm: string)
    requires Numeral(mm)
    ensures var head := mm + ":"; head != [] && IsDigit(head[0]) && ',' !in head
  {
    DigitsHaveNoSeparator(mm);
  }

  /** The `HH:MM:` head of a full cue time. */
  lemma FullHead(hh: string, mm: string)
    requires Numeral(hh) && Numeral(mm)
    ensures var head := hh + ":" + mm + ":"; head != [] && IsDigit(head[0]) && ',' !in head
  {
    DigitsHaveNoSeparator(hh);
    DigitsHaveNoSeparator(mm);
    var head := hh + ":" + mm + ":";
    assert head == hh + (":" + mm + ":") && head[0] == hh[0];
    assert ',' !in ":";
  }

  lemma FullClockSplit(hh: string, mm: string, ss: string, sep: char, frac: string)
    requires Numeral(hh) && Numeral(mm) && Numeral(ss) && FractionSep(sep) && AllDigits(frac)
    ensures var f := ReplaceChar(ss + [sep] + frac, ',', '.');
      SplitOn((hh + ":" + mm + ":") + f, {':'}) == [hh, mm, f] && WholeSeconds(f) == ss
  {
    var f := ReplaceChar(ss + [sep] + frac, ',', '.');
    NumeralField(hh);
    NumeralField(mm);
    SecondsField(ss, sep, frac);
    SplitClock(hh, mm, f);
  }

  lemma ShortClockSplit(mm: string, ss: string, sep: char, frac: string)
    requires Numeral(mm) && Numeral(ss) && FractionSep(sep) && AllDigits(frac)
    ensures var f := ReplaceChar(ss + [sep] + frac, ',', '.');
      SplitOn((mm + ":") + f, {':'}) == [mm, f] && WholeSeconds(f) == ss
  {
    var f := ReplaceChar(ss + [sep] + frac, ',', '.');
    NumeralField(mm);
    SecondsField(ss, sep, frac);
    SplitPair(mm, f);
  }

  lemma ClockFieldsOfFull(hh: string, mm: string, ss: string, sep: char, frac: string)
    requires Numeral(hh) && Numeral(mm) && Numeral(ss) && FractionSep(sep) && AllDigits(frac)
    ensures var f := ReplaceChar(ss + [sep] + frac, ',', '.');
      ClockFields((hh + ":" + mm + ":") + (ss + [sep] + frac)) == [hh, mm, f] && WholeSeconds(f) == ss
  {
    var head := hh + ":" + mm + ":";
    var f := ReplaceChar(ss + [sep] + frac, ',', '.');
    FullHead(hh, mm);
    ClockIsStripped(head, ss, sep, frac);
    ClockReplaced(head, ss, sep, frac);
    FullClockSplit(hh, mm, ss, sep, frac);
    ClockFieldsFrom(head + (ss + [sep] + frac), head + f, [hh, mm, f]);
  }

  lemma ClockFieldsOfShort(mm: string, ss: string, sep: char, frac: string)
    requires Numeral(mm) && Numeral(ss) && FractionSep(sep) && AllDigits(frac)
    ensures var f := ReplaceChar(ss + [sep] + frac, ',', '.');
      ClockFields((mm + ":") + (ss + [sep] + frac)) == [mm, f] && WholeSeconds(f) == ss
  {
    var head := mm + ":";
    var f := ReplaceChar(ss + [sep] + frac, ',', '.');
    ShortHead(mm);
    ClockIsStripped(head, ss, sep, frac);
    ClockReplaced(head, ss, sep, frac);
    ShortClockSplit(mm, ss, sep, frac);
    ClockFieldsFrom(head + (ss + [sep] + frac), head + f, [mm, f]);
  }

  /** The ends of a cue time made of a digit prefix and a seconds tail. */
  lemma LastOfTail(head: string, ss: string, sep: char, frac: string)
    requires head != [] && IsDigit(head[0]) && Numeral(ss) && FractionSep(sep) && AllDigits(frac)
    ensures var raw := head + (ss + [sep] + frac);
      raw[0] == head[0] && (IsDigit(raw[|raw| - 1]) || FractionSep(raw[|raw| - 1]))
  {
    var tail := ss + [sep] + frac;
    if frac != [] {
      assert tail[|tail| - 1] == frac[|frac| - 1];
    } else {
      assert tail[|tail| - 1] == sep;
    }
  }

  /** Three fields, with a seconds field whose whole part reads as a
      clock, normalise to that clock. */
  lemma NormalizeThree(raw: string, hh: string, mm: string, f: string, ss: string, clock: string)
    requires ClockFields(raw) == [hh, mm, f] && WholeSeconds(f) == ss
    requires Clock(hh, mm, ss) == Some(clock)
    ensures NormalizeTimestamp(raw) == Some(clock)
  {
  }

  /** Two fields normalise with a zero hour. */
  lemma NormalizeTwo(raw: string, mm: string, f: string, ss: string, clock: string)
    requires ClockFields(raw) == [mm, f] && WholeSeconds(f) == ss
    requires ShortClock(mm, ss) == Some(clock)
    ensures NormalizeTimestamp(raw) == Some(clock)
  {
  }

  lemma FullTimeParts(hh: string, mm: string, ss: string, sep: char, frac: string)
    ensures hh + ":" + mm + ":" + ss + [sep] + frac == (hh + ":" + mm + ":") + (ss + [sep] + frac)
  {
  }

  lemma ShortTimeParts(mm: string, ss: string, sep: char, frac: string)
    ensures mm + ":" + ss + [sep] + frac == (mm + ":") + (ss + [sep] + frac)
  {
  }

  /** An `HH:MM:SS.ttt` (or `HH:MM:SS,ttt`) cue time keeps its clock and
      drops the fraction. */
  lemma NormalizeFullTime(hh: string, mm: string, ss: string, sep: char, frac: string)
    requires TwoDigits(hh) && TwoDigits(mm) && TwoDigits(ss) && FractionSep(sep) && AllDigits(frac)
    ensures NormalizeTimestamp(hh + ":" + mm + ":" + ss + [sep] + frac) == Some(hh + ":" + mm + ":" + ss)
  {
    FullTimeParts(hh, mm, ss, sep, frac);
    ClockFieldsOfFull(hh, mm, ss, sep, frac);
    ClockOfDigits(hh, mm, ss);
    NormalizeThree(hh + ":" + mm + ":" + ss + [sep] + frac, hh, mm, ReplaceChar(ss + [sep] + frac, ',', '.'), ss, hh + ":" + mm + ":" + ss);
  }

  /** Two-digit fields format back as themselves behind a zero hour. */
  lemma ShortClockOfDigits(mm: string, ss: string)
    requires TwoDigits(mm) && TwoDigits(ss)
    ensures ShortClock(mm, ss) == Some("00:" + mm + ":" + ss)
  {
    FieldRoundTrip(mm);
    FieldRoundTrip(ss);
  }

  /** An `MM:SS.ttt` cue time gets a zero hour. */
  lemma NormalizeShortTime(mm: string, ss: string, sep: char, frac: string)
    requires TwoDigits(mm) && TwoDigits(ss) && FractionSep(sep) && AllDigits(frac)
    ensures NormalizeTimestamp(mm + ":" + ss + [sep] + frac) == Some("00:" + mm + ":" + ss)
  {
    ShortTimeParts(mm, ss, sep, frac);
    ClockFieldsOfShort(mm, ss, sep, frac);
    ShortClockOfDigits(mm, ss);
    NormalizeTwo(mm + ":" + ss + [sep] + frac, mm, ReplaceChar(ss + [sep] + frac, ',', '.'), ss, "00:" + mm + ":" + ss);
  }

  /** Numeral fields of any length read as `int()` reads them. */
  lemma ClockOfNumerals(hh: string, mm: string, ss: string)
    requires Numeral(hh) && Numeral(mm) && Numeral(ss)
    ensures Clock(hh, mm, ss) ==
      Some(Format02(DigitsValue(hh)) + ":" + Format02(DigitsValue(mm)) + ":" + Format02(DigitsValue(ss)))
  {
    NumeralField(hh);
    NumeralField(mm);
    NumeralField(ss);
  }

  lemma ShortClockOfNumerals(mm: string, ss: string)
    requires Numeral(mm) && Numeral(ss)
    ensures ShortClock(mm, ss) == Some("00:" + Format02(DigitsValue(mm)) + ":" + Format02(DigitsValue(ss)))
  {
    NumeralField(mm);
    NumeralField(ss);
  }

  /** `H:M:S.f` with fields of any number of digits: each field is read
      as a number and written back zero-padded to two digits, and the
      fraction is dropped. */
  lemma NormalizePadsFullTime(hh: string, mm: string, ss: string, sep: char, frac: string)
    requires Numeral(hh) && Numeral(mm) && Numeral(ss) && FractionSep(sep) && AllDigits(frac)
    ensures NormalizeTimestamp(hh + ":" + mm + ":" + ss + [sep] + frac) ==
      Some(Format02(DigitsValue(hh)) + ":" + Format02(DigitsValue(mm)) + ":" + Format02(DigitsValue(ss)))
  {
    var clock := Format02(DigitsValue(hh)) + ":" + Format02(DigitsValue(mm)) + ":" + Format02(DigitsValue(ss));
    FullTimeParts(hh, mm, ss, sep, frac);
    ClockFieldsOfFull(hh, mm, ss, sep, frac);
    ClockOfNumerals(hh, mm, ss);
    NormalizeThree(hh + ":" + mm + ":" + ss + [sep] + frac, hh, mm, ReplaceChar(ss + [sep] + frac, ',', '.'), ss, clock);
  }

  /** `M:S.f` with fields of any number of digits: a zero hour, then
      both fields zero-padded to two digits. */
  lemma NormalizePadsShortTime(mm: string, ss: string, sep: char, frac: string)
    requires Numeral(mm) && Numeral(ss) && FractionSep(sep) && AllDigits(frac)
    ensures NormalizeTimestamp(mm + ":" + ss + [sep] + frac) ==
      Some("00:" + Format02(DigitsValue(mm)) + ":" + Format02(DigitsValue(ss)))
  {
    var clock := "00:" + Format02(DigitsValue(mm)) + ":" + Format02(DigitsValue(ss));
    ShortTimeParts(mm, ss, sep, frac);
    ClockFieldsOfShort(mm, ss, sep, frac);
    ShortClockOfNumerals(mm, ss);
    NormalizeTwo(mm + ":" + ss + [sep] + frac, mm, ReplaceChar(ss + [sep] + frac, ',', '.'), ss, clock);
  }

  /** A single digit is written with a leading zero. */
  lemma PadDigit(c: char)
    requires IsDigit(c)
    ensures Format02(DigitsValue([c])) == ['0', c]
  {
    assert [c][..0] == [];
    assert DigitsValue([c]) == c as int - '0' as int < 10;
    assert DigitChar(DigitsValue([c])) == c;
  }

  /** One-digit fields are zero-padded: `1:2:3.5` becomes `01:02:03`. */
  lemma NormalizeSingleDigits(h: char, m: char, s: char, f: char)
    requires IsDigit(h) && IsDigit(m) && IsDigit(s) && IsDigit(f)
    ensures NormalizeTimestamp([h] + ":" + [m] + ":" + [s] + "." + [f]) == Some(['0', h] + ":" + ['0', m] + ":" + ['0', s])
  {
    NormalizePadsFullTime([h], [m], [s], '.', [f]);
    PadDigit(h);
    PadDigit(m);
    PadDigit(s);
  }

  /** Four or more fields, that is three or more `:`, give `00:00:00`. */
  lemma NormalizeManyFields(raw: string)
    requires multiset(raw)[':'] >= 3
    ensures NormalizeTimestamp(raw) == Some("00:00:00")
  {
    StripKeepsCount(raw, ':');
    ReplaceKeepsCount(Strip(raw), ',', '.', ':');
    SplitCount(ReplaceChar(Strip(raw), ',', '.'), ':');
  }

  /** Text with no `:` at all normalises to midnight. */
  lemma NormalizeWithoutColon(raw: string)
    requires ':' !in raw
    ensures NormalizeTimestamp(raw) == Some("00:00:00")
  {
    var t := Strip(raw);
    var ts := ReplaceChar(t, ',', '.');
    assert ':' !in t by {
      TrimLeftRightSlice(raw);
    }
    NoSeparatorOnePiece(ts, ':');
  }

  /** `Strip(s)` is a slice of `s`. */
  lemma TrimLeftRightSlice(s: string)
    ensures forall c :: c in Strip(s) ==> c in s
  {
    var l := TrimLeft(s);
    assert forall c :: c in l ==> c in s;
  }

  lemma {:induction false} NoSeparatorOnePiece(s: string, c: char)
    requires c !in s
    ensures |SplitOn(s, {c})| == 1
    decreases |s|
  {
    if s != [] {
      NoSeparatorOnePiece(s[1..], c);
    }
  }
}
