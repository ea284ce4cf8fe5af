/** `UniversalDownloader.parse_caption_text`: a line-driven state machine
    that gathers the text lines of each WebVTT or SRT cue, cleans the
    gathered text when the cue ends, drops it when it is empty or repeats
    the previous cue, and prefixes it with the cue's start time.

    The lines are the result of `str.splitlines()` on the file's text;
    reading the file is not part of this model. */
module CaptionParsing {
  import opened Wrappers
  import opened Text
  import opened Captions

  /** How the parser treats one input line, after `line.strip()`. */
  datatype LineKind =
    | Blank                  // ends the pending cue
    | Skipped                // a header, a `NOTE` block start or a cue number
    | Timing(stamp: Option<string>)  // a cue timing line, with its start time normalised
    | Content(text: string)  // a line of cue text

  /** A normalised start time is never empty. */
  predicate StampOk(k: LineKind) {
    k.Timing? && k.stamp.Some? ==> k.stamp.value != ""
  }

  function KindOf(line: string): (k: LineKind)
    ensures k.Content? ==> k.text != "" && Trimmed(k.text)
    ensures StampOk(k)
  {
    var s := Strip(line);
    if s == [] then Blank
    else if StartsWith(Upper(s), "WEBVTT") || StartsWith(s, "Kind:") || StartsWith(s, "Language:") then Skipped
    else if StartsWith(s, "NOTE") then Skipped
    else if AllDigits(s) then Skipped
    else if Contains(s, "-->") then
      IndexOfSubIsFirst(s, "-->");
      Timing(NormalizeTimestamp(Strip(s[..IndexOfSub(s, "-->")])))
    else Content(s)
  }

  /** The parser's variables: `parsed_lines`, `current_timestamp`,
      `cue_lines` and `last_text`; `texts` records, in order, the cleaned
      text of every emitted line (the source keeps only the last one). */
  datatype ParserState = ParserState(
    parsed: seq<string>, stamp: string, cue: seq<string>, last: string, texts: seq<string>)

  const Init := ParserState([], "", [], "", [])

  /** The emitted line for a cue's cleaned text. */
  function Entry(stamp: string, text: string, incl: bool): string {
    if incl && stamp != "" then "[" + stamp + "] " + text else text
  }

  /** `flush_cue()`. */
  function Flush(st: ParserState, incl: bool): (r: ParserState)
    ensures r.cue == [] && r.stamp == st.stamp
    ensures r.parsed == st.parsed || r.parsed == st.parsed + [Entry(st.stamp, r.last, incl)]
  {
    if st.cue == [] then st
    else
      var joined := CleanCaptionLine(JoinWith(st.cue, " "));
      if joined == "" || joined == st.last then st.(cue := [])
      else st.(cue := [], last := joined, texts := st.texts + [joined],
               parsed := st.parsed + [Entry(st.stamp, joined, incl)])
  }

  /** One iteration of the loop over the lines; `None` is the `ValueError`
      that a timing field which is not a number raises. */
  function Step(st: ParserState, k: LineKind, incl: bool): (r: Option<ParserState>)
    ensures r.None? <==> k.Timing? && k.stamp.None?
    ensures r.Some? && k.Timing? ==> r.value.stamp == k.stamp.value && r.value.cue == []
    ensures r.Some? && k.Content? ==> r.value.cue == st.cue + [k.text] && r.value.parsed == st.parsed
  {
    match k
    case Blank => Some(Flush(st, incl))
    case Skipped => Some(st)
    case Timing(stamp) =>
      (match stamp
       case None => None
       case Some(ts) => Some(Flush(st, incl).(stamp := ts)))
    case Content(s) => Some(st.(cue := st.cue + [s]))
  }

  /** The state after `step` has read the first `n` of `items`, starting
      from the initial state; `None` once a step has failed. */
  function Fold<T>(step: (ParserState, T) -> Option<ParserState>, items: seq<T>, n: nat): Option<ParserState>
    requires n <= |items|
  {
    if n == 0 then Some(Init)
    else
      match Fold(step, items, n - 1)
      case None => None
      case Some(st) => step(st, items[n - 1])
  }

  /** The body of the loop over the lines, as a step on lines. */
  function LineStep(incl: bool): (ParserState, string) -> Option<ParserState> {
    (st, line) => Step(st, KindOf(line), incl)
  }

  /** The state after the loop has read the first `n` lines. */
  function Run(lines: seq<string>, n: nat, incl: bool): Option<ParserState>
    requires n <= |lines|
  {
    Fold(LineStep(incl), lines, n)
  }

  /** What `parse_caption_text` returns, or `None` for the exception. */
  function Output(lines: seq<string>, incl: bool): (r: Option<string>)
    ensures r.Some? ==> Trimmed(r.value)
    ensures r.None? <==> Run(lines, |lines|, incl).None?
  {
    match Run(lines, |lines|, incl)
    case None => None
    case Some(st) => Some(Strip(JoinWith(Flush(st, incl).parsed, "\n")))
  }

  /** A cleaned cue text as the parser keeps it: non-empty, with no
      whitespace at its ends and only single plain spaces inside. */
  predicate Tidy(t: string) {
    t != "" && Trimmed(t) && SingleSpaced(t)
  }

  /** `p` is `t` behind a `[...] ` time prefix. */
  predicate Stamped(p: string, t: string) {
    |p| >= |t| + 4 && p[0] == '[' && p[|p| - |t| - 2..] == "] " + t
  }

  /** No two consecutive texts are equal. */
  predicate NoRepeats(texts: seq<string>) {
    forall k :: 0 < k < |texts| ==> texts[k - 1] != texts[k]
  }

  /** Each emitted line is its text, bare or behind a time prefix, and a
      prefix only with timestamps enabled. */
  predicate Rendered(parsed: seq<string>, texts: seq<string>, incl: bool) {
    |parsed| == |texts| &&
    forall k :: 0 <= k < |parsed| ==> parsed[k] == texts[k] || (incl && Stamped(parsed[k], texts[k]))
  }

  /** What the loop keeps true: each emitted line is a tidy cleaned text,
      bare or behind a time prefix, and only with timestamps enabled and a
      timing line seen; no two consecutive texts are equal; `last_text` is
      the last emitted text. */
  ghost predicate Good(st: ParserState, incl: bool) {
    && (forall k :: 0 <= k < |st.texts| ==> Tidy(st.texts[k]))
    && NoRepeats(st.texts)
    && st.last == (if st.texts == [] then "" else st.texts[|st.texts| - 1])
    && Rendered(st.parsed, st.texts, incl)
    && ((!incl || st.stamp == "") ==> st.parsed == st.texts)
  }

  lemma EntryShape(stamp: string, text: string, incl: bool)
    ensures var e := Entry(stamp, text, incl);
      e == text || (incl && stamp != "" && Stamped(e, text))
  {
    if incl && stamp != "" {
      var e := "[" + stamp + "] " + text;
      assert e[|e| - |text| - 2..] == "] " + text;
    }
  }

  lemma RenderedSnoc(parsed: seq<string>, texts: seq<string>, incl: bool, stamp: string, t: string)
    requires Rendered(parsed, texts, incl)
    ensures Rendered(parsed + [Entry(stamp, t, incl)], texts + [t], incl)
  {
    EntryShape(stamp, t, incl);
  }

  lemma NoRepeatsSnoc(texts: seq<string>, t: string)
    requires NoRepeats(texts) && (texts == [] || texts[|texts| - 1] != t)
    ensures NoRepeats(texts + [t])
  {
  }

  /** Emitting a new tidy text that differs from the last keeps the
      invariant. */
  lemma EmitKeepsGood(st: ParserState, t: string, incl: bool)
    requires Good(st, incl) && Tidy(t) && t != st.last
    ensures Good(st.(cue := [], last := t, texts := st.texts + [t],
                     parsed := st.parsed + [Entry(st.stamp, t, incl)]), incl)
  {
    RenderedSnoc(st.parsed, st.texts, incl, st.stamp, t);
    NoRepeatsSnoc(st.texts, t);
  }

  /** Dropping the pending cue keeps the invariant. */
  lemma ClearKeepsGood(st: ParserState, incl: bool)
    requires Good(st, incl)
    ensures Good(st.(cue := []), incl)
  {
  }

  /** Flushing keeps the loop's invariant, empties the pending cue and
      leaves the timestamp alone. */
  lemma FlushKeepsGood(st: ParserState, incl: bool)
    requires Good(st, incl)
    ensures var f := Flush(st, incl); Good(f, incl) && f.cue == [] && f.stamp == st.stamp
  {
    if st.cue != [] {
      var joined := CleanCaptionLine(JoinWith(st.cue, " "));
      if joined == "" || joined == st.last {
        assert Flush(st, incl) == st.(cue := []);
        ClearKeepsGood(st, incl);
      } else {
        assert Flush(st, incl) == st.(cue := [], last := joined, texts := st.texts + [joined],
                                      parsed := st.parsed + [Entry(st.stamp, joined, incl)]);
        CleanLineIsTidy(JoinWith(st.cue, " "));
        EmitKeepsGood(st, joined, incl);
      }
    }
  }

  /** A flush that emits a line emits it under the timestamp current
      before the flush, with the cue's cleaned text. */
  lemma FlushEmitsUnderCurrentStamp(st: ParserState, incl: bool)
    requires Good(st, incl)
    ensures var f := Flush(st, incl);
      |f.parsed| == |st.parsed| || f.parsed == st.parsed + [Entry(st.stamp, f.last, incl)]
    ensures var f := Flush(st, incl);
      |f.parsed| != |st.parsed| <==> (st.cue != [] && Tidy(f.last) && f.last != st.last)
  {
    if st.cue != [] {
      var joined := CleanCaptionLine(JoinWith(st.cue, " "));
      if joined == "" || joined == st.last {
        assert Flush(st, incl) == st.(cue := []);
      } else {
        assert Flush(st, incl) == st.(cue := [], last := joined, texts := st.texts + [joined],
                                      parsed := st.parsed + [Entry(st.stamp, joined, incl)]);
        CleanLineIsTidy(JoinWith(st.cue, " "));
      }
    }
  }

  lemma CueKeepsGood(st: ParserState, s: string, incl: bool)
    requires Good(st, incl)
    ensures Good(st.(cue := st.cue + [s]), incl)
  {
  }

  lemma StampKeepsGood(st: ParserState, ts: string, incl: bool)
    requires Good(st, incl) && ts != ""
    ensures Good(st.(stamp := ts), incl)
  {
  }

  /** Every line keeps the loop's invariant. */
  lemma StepKeepsGood(st: ParserState, k: LineKind, incl: bool)
    requires Good(st, incl) && StampOk(k)
    ensures Step(st, k, incl).Some? ==> Good(Step(st, k, incl).value, incl)
  {
    match k
    case Blank =>
      FlushKeepsGood(st, incl);
    case Skipped =>
    case Timing(stamp) =>
      if stamp.Some? {
        FlushKeepsGood(st, incl);
        StampKeepsGood(Flush(st, incl), stamp.value, incl);
      }
    case Content(s) =>
      CueKeepsGood(st, s, incl);
  }

  /** A fold whose every step keeps the invariant reaches only states
      that keep it. */
  lemma {:induction false} FoldIsGood<T>(step: (ParserState, T) -> Option<ParserState>, items: seq<T>, n: nat, incl: bool)
    requires n <= |items| && Fold(step, items, n).Some?
    requires forall st, x :: Good(st, incl) && step(st, x).Some? ==> Good(step(st, x).value, incl)
    ensures Good(Fold(step, items, n).value, incl)
  {
    if n > 0 {
      FoldIsGood(step, items, n - 1, incl);
    }
  }

  /** Every state the loop reaches keeps the invariant. */
  lemma RunIsGood(lines: seq<string>, n: nat, incl: bool)
    requires n <= |lines| && Run(lines, n, incl).Some?
    ensures Good(Run(lines, n, incl).value, incl)
  {
    forall st, line | Good(st, incl) && LineStep(incl)(st, line).Some?
      ensures Good(LineStep(incl)(st, line).value, incl)
    {
      StepKeepsGood(st, KindOf(line), incl);
    }
    FoldIsGood(LineStep(incl), lines, n, incl);
  }

  /** Some item among the first `n` is marked. */
  ghost predicate SawMark<T>(marked: T -> bool, items: seq<T>, n: nat) {
    exists i :: 0 <= i < n && i < |items| && marked(items[i])
  }

  lemma SawMarkNext<T>(marked: T -> bool, items: seq<T>, n: nat)
    requires n < |items|
    ensures SawMark(marked, items, n + 1) <==> SawMark(marked, items, n) || marked(items[n])
  {
    if SawMark(marked, items, n + 1) && !marked(items[n]) {
      var i :| 0 <= i < n + 1 && i < |items| && marked(items[i]);
      assert i < n;
    }
  }

  /** Only a timing line changes the timestamp, and always to a non-empty
      one. */
  lemma StepStamp(st: ParserState, k: LineKind, incl: bool)
    requires StampOk(k) && Step(st, k, incl).Some?
    ensures var s := Step(st, k, incl).value;
      if k.Timing? then s.stamp != "" else s.stamp == st.stamp
  {
  }

  /** In a fold whose steps change the timestamp only on a marked item,
      and then to a non-empty one, a timestamp is in force exactly when
      some marked item has been read. */
  lemma {:induction false} FoldStamp<T>(step: (ParserState, T) -> Option<ParserState>, marked: T -> bool, items: seq<T>, n: nat)
    requires n <= |items| && Fold(step, items, n).Some?
    requires forall st, x :: step(st, x).Some? ==>
      if marked(x) then step(st, x).value.stamp != "" else step(st, x).value.stamp == st.stamp
    ensures Fold(step, items, n).value.stamp != "" <==> SawMark(marked, items, n)
  {
    if n > 0 {
      FoldStamp(step, marked, items, n - 1);
      SawMarkNext(marked, items, n - 1);
    }
  }

  function IsTiming(line: string): bool {
    KindOf(line).Timing?
  }

  /** A time prefix is in force exactly when some cue timing line has been
      read. */
  lemma StampMeansTiming(lines: seq<string>, n: nat, incl: bool)
    requires n <= |lines| && Run(lines, n, incl).Some?
    ensures Run(lines, n, incl).value.stamp != "" <==> exists i :: 0 <= i < n && IsTiming(lines[i])
  {
    forall st, line | LineStep(incl)(st, line).Some?
      ensures var s := LineStep(incl)(st, line).value;
        if IsTiming(line) then s.stamp != "" else s.stamp == st.stamp
    {
      StepStamp(st, KindOf(line), incl);
    }
    FoldStamp(LineStep(incl), IsTiming, lines, n);
  }

  /** A stamped line starts with `[` and ends as its text does. */
  lemma StampedTrimmed(p: string, t: string)
    requires Stamped(p, t) && Tidy(t)
    ensures p != "" && Trimmed(p)
  {
    assert p[|p| - 1] == ("] " + t)[|t| + 1];
  }

  /** Lines with nothing to strip at their ends, joined by newlines, have
      nothing to strip either. */
  lemma {:induction false} JoinTrimmed(parts: seq<string>)
    requires forall k :: 0 <= k < |parts| ==> parts[k] != "" && Trimmed(parts[k])
    ensures Trimmed(JoinWith(parts, "\n"))
    ensures parts != [] ==> JoinWith(parts, "\n") != "" && JoinWith(parts, "\n")[0] == parts[0][0]
    decreases |parts|
  {
    if |parts| > 1 {
      JoinTrimmed(parts[1..]);
      var rest := JoinWith(parts[1..], "\n");
      var j := parts[0] + "\n" + rest;
      assert j[0] == parts[0][0];
      assert j[|j| - 1] == rest[|rest| - 1];
    }
  }

  /** The final `.strip()` of the joined lines never removes anything:
      the output is exactly the emitted lines joined by newlines. */
  lemma OutputIsJoinedLines(lines: seq<string>, incl: bool)
    requires Run(lines, |lines|, incl).Some?
    ensures Output(lines, incl) == Some(JoinWith(Flush(Run(lines, |lines|, incl).value, incl).parsed, "\n"))
  {
    var st := Run(lines, |lines|, incl).value;
    RunIsGood(lines, |lines|, incl);
    FlushKeepsGood(st, incl);
    var f := Flush(st, incl);
    forall k | 0 <= k < |f.parsed| ensures f.parsed[k] != "" && Trimmed(f.parsed[k]) {
      if f.parsed[k] != f.texts[k] {
        StampedTrimmed(f.parsed[k], f.texts[k]);
      }
    }
    JoinTrimmed(f.parsed);
  }

  /** Without timestamps the output lines are the cleaned cue texts
      themselves, none empty and none equal to the one before it. */
  lemma PlainOutput(lines: seq<string>)
    requires Run(lines, |lines|, false).Some?
    ensures var f := Flush(Run(lines, |lines|, false).value, false);
      && f.parsed == f.texts
      && (forall k :: 0 <= k < |f.parsed| ==> Tidy(f.parsed[k]))
      && (forall k :: 0 < k < |f.parsed| ==> f.parsed[k - 1] != f.parsed[k])
  {
    RunIsGood(lines, |lines|, false);
    FlushKeepsGood(Run(lines, |lines|, false).value, false);
  }

  /** A timing line first flushes the pending cue under the previous
      timestamp, then makes its own start time current. */
  lemma TimingLine(st: ParserState, k: LineKind, incl: bool)
    requires Good(st, incl) && k.Timing? && StampOk(k)
    requires Step(st, k, incl).Some?
    ensures var s := Step(st, k, incl).value; var f := Flush(st, incl);
      && s.cue == [] && s.stamp != "" && s.parsed == f.parsed
      && (|f.parsed| == |st.parsed| || f.parsed == st.parsed + [Entry(st.stamp, f.last, incl)])
  {
    FlushKeepsGood(st, incl);
    FlushEmitsUnderCurrentStamp(st, incl);
  }

  /** Upper-casing leaves an upper-case `WEBVTT` prefix in place. */
  lemma UpperKeepsHeader(s: string)
    requires StartsWith(s, "WEBVTT")
    ensures StartsWith(Upper(s), "WEBVTT")
  {
    assert Upper(s)[..6] == s[..6];
  }

  /** Header lines, `NOTE` lines and cue numbers are skipped. */
  lemma SkippedKind(line: string)
    requires var s := Strip(line);
      StartsWith(s, "WEBVTT") || StartsWith(s, "Kind:") || StartsWith(s, "Language:")
      || StartsWith(s, "NOTE") || (s != "" && AllDigits(s))
    ensures KindOf(line) == Skipped
  {
    var s := Strip(line);
    if StartsWith(s, "WEBVTT") {
      UpperKeepsHeader(s);
    }
  }

  /** Header lines, `NOTE` lines and cue numbers change nothing. */
  lemma SkippedLine(st: ParserState, line: string, incl: bool)
    requires var s := Strip(line);
      StartsWith(s, "WEBVTT") || StartsWith(s, "Kind:") || StartsWith(s, "Language:")
      || StartsWith(s, "NOTE") || (s != "" && AllDigits(s))
    ensures LineStep(incl)(st, line) == Some(st)
  {
    SkippedKind(line);
  }

  /** The parser's mutable variables, updated in place by `flush_cue`. */
  class CaptionParser {
    var parsedLines: seq<string>
    var currentTimestamp: string
    var cueLines: seq<string>
    var lastText: string
    const includeTimestamps: bool
    ghost var texts: seq<string>

    ghost function State(): ParserState
      reads this
    {
      ParserState(parsedLines, currentTimestamp, cueLines, lastText, texts)
    }

    constructor (incl: bool)
      ensures State() == Init && includeTimestamps == incl
    {
      parsedLines := [];
      currentTimestamp := "";
      cueLines := [];
      lastText := "";
      includeTimestamps := incl;
      texts := [];
    }

    /** `flush_cue()`. */
    method FlushCue()
      modifies this
      ensures State() == Flush(old(State()), includeTimestamps)
    {
      if cueLines == [] {
        return;
      }
      var joined := CleanCaptionLine(JoinWith(cueLines, " "));
      cueLines := [];
      if joined == "" || joined == lastText {
        return;
      }
      lastText := joined;
      texts := texts + [joined];
      if includeTimestamps && currentTimestamp != "" {
        parsedLines := parsedLines + ["[" + currentTimestamp + "] " + joined];
      } else {
        parsedLines := parsedLines + [joined];
      }
    }
  }

  /** Once a fold has failed, it stays failed. */
  lemma {:induction false} FoldStaysFailed<T>(step: (ParserState, T) -> Option<ParserState>, items: seq<T>, n: nat)
    requires n <= |items| && Fold(step, items, n).None?
    ensures Fold(step, items, |items|).None?
    decreases |items| - n
  {
    if n != |items| {
      FoldStaysFailed(step, items, n + 1);
    }
  }

  /** Reading one more item after a fold over `n` of them. */
  lemma FoldNext<T>(step: (ParserState, T) -> Option<ParserState>, items: seq<T>, n: nat, st: ParserState, next: Option<ParserState>)
    requires n < |items| && Fold(step, items, n) == Some(st)
    requires step(st, items[n]) == next
    ensures Fold(step, items, n + 1) == next
  {
  }

  /** The body of the loop over the lines, on a line of kind `k`; `false`
      when a timing field is not a number. */
  method Feed(p: CaptionParser, k: LineKind) returns (ok: bool)
    modifies p
    ensures var next := Step(old(p.State()), k, p.includeTimestamps);
      ok == next.Some? && (ok ==> p.State() == next.value)
  {
    match k {
      case Blank =>
        p.FlushCue();
      case Skipped =>
      case Timing(ts) =>
        p.FlushCue();
        if ts.None? {
          return false;
        }
        p.currentTimestamp := ts.value;
      case Content(s) =>
        p.cueLines := p.cueLines + [s];
    }
    return true;
  }

  lemma OutputOfRun(lines: seq<string>, incl: bool, st: Option<ParserState>)
    requires Run(lines, |lines|, incl) == st
    ensures Output(lines, incl) ==
      if st.None? then None else Some(Strip(JoinWith(Flush(st.value, incl).parsed, "\n")))
  {
  }

  /** The loop of `parse_caption_text` over the lines of the file;
      `false` when a timestamp raised. */
  method ReadLines(p: CaptionParser, lines: seq<string>) returns (ok: bool)
    requires p.State() == Init
    modifies p
    ensures Run(lines, |lines|, p.includeTimestamps) == if ok then Some(p.State()) else None
  {
    ok := true;
    for i := 0 to |lines|
      invariant Run(lines, i, p.includeTimestamps) == Some(p.State())
    {
      ok := ReadLine(p, lines, i);
      if !ok {
        return;
      }
    }
  }

  /** One pass of that loop: classify line `i` and feed it to the parser. */
  method ReadLine(p: CaptionParser, lines: seq<string>, i: nat) returns (ok: bool)
    requires i < |lines| && Run(lines, i, p.includeTimestamps) == Some(p.State())
    modifies p
    ensures ok ==> Run(lines, i + 1, p.includeTimestamps) == Some(p.State())
    ensures !ok ==> Run(lines, |lines|, p.includeTimestamps).None?
  {
    ghost var st := p.State();
    var k := KindOf(lines[i]);
    ok := Feed(p, k);
    if !ok {
      FoldNext(LineStep(p.includeTimestamps), lines, i, st, None);
      FoldStaysFailed(LineStep(p.includeTimestamps), lines, i + 1);
      return;
    }
    FoldNext(LineStep(p.includeTimestamps), lines, i, st, Some(p.State()));
  }

  /** `parse_caption_text` on the file's lines. */
  method ParseCaptionText(lines: seq<string>, includeTimestamps: bool) returns (r: Option<string>)
    ensures r == Output(lines, includeTimestamps)
  {
    var p := new CaptionParser(includeTimestamps);
    var ok := ReadLines(p, lines);
    if !ok {
      OutputOfRun(lines, includeTimestamps, None);
      return None;
    }
    OutputOfRun(lines, includeTimestamps, Some(p.State()));
    p.FlushCue();
    r := Some(Strip(JoinWith(p.parsedLines, "\n")));
  }
}
