/** The pure and list-building parts of `UniversalDownloader` around the
    caption download: the percentage the progress hook reports, the
    YouTube URL test, the list of browser cookie sources to try, and the
    choice of the caption file yt-dlp wrote.

    yt-dlp itself, the directory listing, file modification times and file
    contents are inputs: a listing is a sequence of (resolved) paths in
    `glob` order, `mtime` gives each path's modification time and `read`
    gives the lines of a file. */
module Downloader {
  import opened Wrappers
  import opened Text
  import opened Paths
  import opened CaptionParsing

  // ---------------------------------------------------------------------
  // `_progress_hook`
  // ---------------------------------------------------------------------

  /** `DownloadProgress` as the callback receives it. */
  datatype DownloadProgress = DownloadProgress(percent: real, speed: string, eta: string, filename: string)

  const Esc: char := '\U{1B}'

  /** The class `[0-9;]`. */
  predicate IsCodeChar(c: char) {
    IsDigit(c) || c == ';'
  }

  /** The length of the longest prefix of `s` made of `[0-9;]`. */
  function CodeRun(s: string): (n: nat)
    ensures n <= |s|
    ensures forall i :: 0 <= i < n ==> IsCodeChar(s[i])
    ensures n < |s| ==> !IsCodeChar(s[n])
    decreases |s|
  {
    if s != [] && IsCodeChar(s[0]) then 1 + CodeRun(s[1..]) else 0
  }

  /** The length of the match of `\x1b\[[0-9;]*m` at the start of `s`, or
      0 when none starts there. The class cannot match `m`, so the only
      candidate is the longest run of code characters. */
  function AnsiLength(s: string): (n: nat)
    ensures n <= |s|
  {
    if |s| >= 2 && s[0] == Esc && s[1] == '[' then
      var k := CodeRun(s[2..]);
      if 2 + k < |s| && s[2 + k] == 'm' then 3 + k else 0
    else 0
  }

  /** `re.sub(r'\x1b\[[0-9;]*m', '', s)`: the scan goes left to right,
      drops each match and resumes right after it. */
  function StripAnsi(s: string): (r: string)
    ensures |r| <= |s|
    ensures forall c :: c in r ==> c in s
    decreases |s|
  {
    if s == [] then []
    else
      var n := AnsiLength(s);
      if n > 0 then StripAnsi(s[n..]) else [s[0]] + StripAnsi(s[1..])
  }

  predicate IsNumericChar(c: char) {
    IsDigit(c) || c == '.'
  }

  predicate AllNumeric(s: string) {
    forall i :: 0 <= i < |s| ==> IsNumericChar(s[i])
  }

  /** `re.sub(r'[^\d.]', '', s)`. */
  function KeepNumeric(s: string): (r: string)
    ensures AllNumeric(r) && |r| <= |s|
    decreases |s|
  {
    if s == [] then []
    else if IsNumericChar(s[0]) then [s[0]] + KeepNumeric(s[1..])
    else KeepNumeric(s[1..])
  }

  function Pow10(n: nat): (r: nat)
    ensures r >= 1
  {
    if n == 0 then 1 else 10 * Pow10(n - 1)
  }

  /** The exact value of the numeral `ip.fp`. */
  function DecimalValue(ip: string, fp: string): (r: real)
    requires AllDigits(ip) && AllDigits(fp)
    ensures r >= 0.0
  {
    DigitsValue(ip) as real + DigitsValue(fp) as real / Pow10(|fp|) as real
  }

  /** `float(t)` for a string of digits and dots: it succeeds when there is
      at least one digit and at most one dot; `None` is the `ValueError`. */
  function ParseDecimal(t: string): (r: Option<real>)
    requires AllNumeric(t)
    ensures r.Some? ==> r.value >= 0.0
  {
    var i := LastIndexOf(t, '.');
    LastIndexOfIsLast(t, '.');
    if i < 0 then
      if t == "" then None else Some(DigitsValue(t) as real)
    else if '.' in t[..i] || |t| == 1 then None
    else
      DotSplitsDigits(t, i);
      Some(DecimalValue(t[..i], t[i + 1..]))
  }

  /** Around its only dot, a numeral of digits and dots is digits. */
  lemma DotSplitsDigits(t: string, i: nat)
    requires AllNumeric(t) && i < |t| && '.' !in t[..i]
    requires forall k :: i < k < |t| ==> t[k] != '.'
    ensures AllDigits(t[..i]) && AllDigits(t[i + 1..])
  {
    forall k | 0 <= k < i ensures IsDigit(t[..i][k]) {
      assert t[..i][k] == t[k];
    }
    var rest := t[i + 1..];
    forall k | 0 <= k < |rest| ensures IsDigit(rest[k]) {
      assert rest[k] == t[i + 1 + k];
    }
  }

  /** The `percent` `_progress_hook` reports for the `_percent_str` entry
      (`None` when the entry is absent or `None`): ANSI colour codes and
      everything but digits and dots are dropped, and anything `float`
      rejects counts as 0. It never fails. */
  function Percent(field: Option<string>): (r: real)
    ensures r >= 0.0
  {
    var s := if field.Some? then field.value else "0";
    if s == "" then 0.0
    else
      var t := KeepNumeric(StripAnsi(s));
      if t == "" then 0.0
      else
        match ParseDecimal(t)
        case Some(v) => v
        case None => 0.0
  }

  /** `_progress_hook(d, callback)`: the progress handed to the callback,
      or `None` when nothing is reported. */
  function ProgressHook(hasCallback: bool, status: string, percentField: Option<string>,
                        speed: string, eta: string, filename: string): (r: Option<DownloadProgress>)
    ensures r.Some? <==> hasCallback && status == "downloading"
    ensures r.Some? ==> r.value.percent >= 0.0 && '/' !in r.value.filename
  {
    if hasCallback && status == "downloading" then
      Some(DownloadProgress(Percent(percentField), speed, eta, Name(filename)))
    else None
  }

  lemma {:induction false} StripAnsiOfPlain(s: string)
    requires Esc !in s
    ensures StripAnsi(s) == s
    decreases |s|
  {
    if s != [] {
      assert s[0] != Esc;
      StripAnsiOfPlain(s[1..]);
      assert s == [s[0]] + s[1..];
    }
  }

  /** A colour code at the front is removed whole. */
  lemma StripAnsiOfCode(codes: string, rest: string)
    requires forall i :: 0 <= i < |codes| ==> IsCodeChar(codes[i])
    ensures StripAnsi([Esc, '['] + codes + "m" + rest) == StripAnsi(rest)
  {
    var s := [Esc, '['] + codes + "m" + rest;
    assert s[2..] == codes + "m" + rest;
    CodeRunOf(codes, "m" + rest);
    assert s[2 + |codes|] == 'm';
    assert s[3 + |codes|..] == rest;
  }

  lemma {:induction false} CodeRunOf(codes: string, rest: string)
    requires forall i :: 0 <= i < |codes| ==> IsCodeChar(codes[i])
    requires rest == [] || !IsCodeChar(rest[0])
    ensures CodeRun(codes + rest) == |codes|
    decreases |codes|
  {
    if codes != [] {
      assert (codes + rest)[1..] == codes[1..] + rest;
      CodeRunOf(codes[1..], rest);
    } else {
      assert codes + rest == rest;
    }
  }

  lemma {:induction false} KeepNumericOfNumeric(s: string)
    requires AllNumeric(s)
    ensures KeepNumeric(s) == s
    decreases |s|
  {
    if s != [] {
      KeepNumericOfNumeric(s[1..]);
      assert s == [s[0]] + s[1..];
    }
  }

  lemma {:induction false} KeepNumericAppend(a: string, b: string)
    ensures KeepNumeric(a + b) == KeepNumeric(a) + KeepNumeric(b)
    decreases |a|
  {
    if a == [] {
      assert a + b == b;
    } else {
      assert (a + b)[1..] == a[1..] + b;
      KeepNumericAppend(a[1..], b);
    }
  }

  lemma {:induction false} KeepNumericOfOther(s: string)
    requires forall i :: 0 <= i < |s| ==> !IsNumericChar(s[i])
    ensures KeepNumeric(s) == ""
    decreases |s|
  {
    if s != [] {
      KeepNumericOfOther(s[1..]);
    }
  }

  /** `float` reads `ip.fp` as its exact decimal value. */
  lemma ParseDecimalOf(ip: string, fp: string)
    requires AllDigits(ip) && AllDigits(fp) && ip + fp != ""
    ensures AllNumeric(ip + "." + fp)
    ensures ParseDecimal(ip + "." + fp) == Some(DecimalValue(ip, fp))
  {
    var t := ip + "." + fp;
    assert t[|ip|] == '.';
    assert forall k :: 0 <= k < |t| && k != |ip| ==> IsDigit(t[k]);
    LastIndexOfIsLast(t, '.');
    assert LastIndexOf(t, '.') == |ip|;
    assert t[..|ip|] == ip && t[|ip| + 1..] == fp;
  }

  /** A numeral with two dots is rejected by `float` and reported as 0. */
  lemma ParseDecimalTwoDots(a: string, b: string, c: string)
    requires AllDigits(a) && AllDigits(b) && AllDigits(c)
    ensures AllNumeric(a + "." + b + "." + c)
    ensures ParseDecimal(a + "." + b + "." + c) == None
  {
    var t := a + "." + b + "." + c;
    var j := |a| + 1 + |b|;
    assert t[|a|] == '.' && t[j] == '.';
    assert forall k :: 0 <= k < |t| && k != |a| && k != j ==> IsDigit(t[k]);
    LastIndexOfIsLast(t, '.');
    assert LastIndexOf(t, '.') == j;
    assert t[..j][|a|] == '.';
  }

  /** A colour code in front of a non-empty field changes nothing. */
  lemma PercentIgnoresCode(codes: string, field: string)
    requires forall i :: 0 <= i < |codes| ==> IsCodeChar(codes[i])
    requires field != ""
    ensures Percent(Some([Esc, '['] + codes + "m" + field)) == Percent(Some(field))
  {
    StripAnsiOfCode(codes, field);
  }

  /** Text around a numeral that holds no digit, dot or escape character. */
  predicate IsPadding(s: string) {
    forall i :: 0 <= i < |s| ==> !IsNumericChar(s[i]) && s[i] != Esc
  }

  lemma {:induction false} PaddedNumeral(pad: string, num: string, tail: string)
    requires IsPadding(pad) && IsPadding(tail) && AllNumeric(num)
    ensures Esc !in pad + num + tail
    ensures KeepNumeric(pad + num + tail) == num
  {
    var plain := pad + num + tail;
    forall k | 0 <= k < |plain| ensures plain[k] != Esc {
      if k < |pad| { assert plain[k] == pad[k]; }
      else if k < |pad| + |num| { assert plain[k] == num[k - |pad|]; assert IsNumericChar(num[k - |pad|]); }
      else { assert plain[k] == tail[k - |pad| - |num|]; }
    }
    KeepNumericAppend(pad + num, tail);
    KeepNumericAppend(pad, num);
    KeepNumericOfOther(pad);
    KeepNumericOfOther(tail);
    KeepNumericOfNumeric(num);
  }

  /** yt-dlp's `" 42.5%"`-style field is reported as the exact number it
      shows. */
  lemma PercentOfField(pad: string, ip: string, fp: string, tail: string)
    requires IsPadding(pad) && IsPadding(tail)
    requires AllDigits(ip) && AllDigits(fp) && ip != ""
    ensures Percent(Some(pad + ip + "." + fp + tail)) == DecimalValue(ip, fp)
  {
    ParseDecimalOf(ip, fp);
    var num := ip + "." + fp;
    PaddedNumeral(pad, num, tail);
    StripAnsiOfPlain(pad + num + tail);
    assert pad + ip + "." + fp + tail == pad + num + tail;
  }

  // ---------------------------------------------------------------------
  // `is_youtube_url`
  // ---------------------------------------------------------------------

  /** `is_youtube_url(url)`, with `None` read as the empty string. */
  predicate IsYoutubeUrl(url: string): (b: bool)
    ensures b ==> exists i :: 0 <= i <= |url| - 8 && OccursAt(Lower(url), "youtu", i)
  {
    var lowered := Lower(url);
    HostsStartAlike(lowered);
    Contains(lowered, "youtube.com") || Contains(lowered, "youtu.be")
  }

  /** Both host names start with `youtu`. */
  lemma HostsStartAlike(s: string)
    ensures Contains(s, "youtube.com") || Contains(s, "youtu.be") ==>
      exists i :: 0 <= i <= |s| - 8 && OccursAt(s, "youtu", i)
  {
    if Contains(s, "youtube.com") {
      var i :| 0 <= i <= |s| - 11 && OccursAt(s, "youtube.com", i);
      assert s[i..i + 5] == s[i..i + 11][..5];
      assert OccursAt(s, "youtu", i);
    } else if Contains(s, "youtu.be") {
      var i :| 0 <= i <= |s| - 8 && OccursAt(s, "youtu.be", i);
      assert s[i..i + 5] == s[i..i + 8][..5];
      assert OccursAt(s, "youtu", i);
    }
  }

  /** The test ignores case. */
  lemma YoutubeUrlIgnoresCase(url: string)
    ensures IsYoutubeUrl(Upper(url)) == IsYoutubeUrl(url)
  {
    assert Lower(Upper(url)) == Lower(url);
  }

  /** Any text holding one of the two host names is accepted. */
  lemma YoutubeHostAccepted(pre: string, host: string, post: string)
    requires host == "youtube.com" || host == "youtu.be"
    ensures IsYoutubeUrl(pre + host + post)
  {
    var u := pre + host + post;
    assert Lower(host) == host;
    assert Lower(u)[|pre|..|pre| + |host|] == Lower(host);
    assert OccursAt(Lower(u), host, |pre|);
  }

  // ---------------------------------------------------------------------
  // The browser cookie sources of `download_youtube_captions`
  // ---------------------------------------------------------------------

  /** `YT_COOKIE_BROWSER_ORDER`. */
  const CookieBrowserOrder: seq<string> := ["edge", "chrome", "brave", "firefox"]

  predicate Distinct<T(==)>(xs: seq<T>) {
    forall i, j :: 0 <= i < j < |xs| ==> xs[i] != xs[j]
  }

  /** `list(dict.fromkeys(xs))`: the first occurrence of each value, in
      order. */
  function Dedupe(xs: seq<string>): (r: seq<string>)
    ensures forall x :: x in r <==> x in xs
    ensures Distinct(r)
    decreases |xs|
  {
    if xs == [] then []
    else
      var d := Dedupe(xs[..|xs| - 1]);
      if xs[|xs| - 1] in d then d else d + [xs[|xs| - 1]]
  }

  /** `xs` without the occurrences of `c`. */
  function Without(xs: seq<string>, c: string): (r: seq<string>)
    ensures forall x :: x in r <==> x in xs && x != c
    decreases |xs|
  {
    if xs == [] then []
    else
      var w := Without(xs[..|xs| - 1], c);
      if xs[|xs| - 1] == c then w else w + [xs[|xs| - 1]]
  }

  /** The browsers to try, in order: the configured one first when there
      is one, then the built-in order without it. */
  function PreferredBrowsers(configured: string): seq<string> {
    if configured == "" then CookieBrowserOrder
    else [configured] + Without(CookieBrowserOrder, configured)
  }

  lemma DedupeStep(xs: seq<string>, i: nat)
    requires i < |xs|
    ensures Dedupe(xs[..i + 1]) == if xs[i] in Dedupe(xs[..i]) then Dedupe(xs[..i]) else Dedupe(xs[..i]) + [xs[i]]
  {
    assert xs[..i + 1][..i] == xs[..i];
  }

  lemma {:induction false} DedupeOfDistinct(xs: seq<string>)
    requires Distinct(xs)
    ensures Dedupe(xs) == xs
    decreases |xs|
  {
    if xs != [] {
      var init := xs[..|xs| - 1];
      DedupeOfDistinct(init);
      assert xs[|xs| - 1] !in init;
      assert init + [xs[|xs| - 1]] == xs;
    }
  }

  /** Deduplicating a value followed by distinct values keeps the value
      first and drops its later copy. */
  lemma {:induction false} DedupeFront(c: string, xs: seq<string>)
    requires Distinct(xs)
    ensures Dedupe([c] + xs) == [c] + Without(xs, c)
    decreases |xs|
  {
    if xs == [] {
      assert [c] + xs == [c];
      assert Dedupe([c][..0]) == [];
    } else {
      var init := xs[..|xs| - 1];
      var y := xs[|xs| - 1];
      DedupeFront(c, init);
      assert ([c] + xs)[..|[c] + xs| - 1] == [c] + init;
      assert y !in init;
      if y == c {
        assert Dedupe([c] + xs) == [c] + Without(init, c);
      } else {
        assert y !in Dedupe([c] + init);
        assert Dedupe([c] + xs) == [c] + Without(init, c) + [y];
      }
    }
  }

  lemma CookieOrderDistinct()
    ensures Distinct(CookieBrowserOrder)
  {
  }

  function Somes<T>(xs: seq<T>): (r: seq<Option<T>>)
    ensures |r| == |xs| && forall i :: 0 <= i < |xs| ==> r[i] == Some(xs[i])
  {
    seq(|xs|, i requires 0 <= i < |xs| => Some(xs[i]))
  }

  /** The browsers `download_youtube_captions` lists before removing
      repeats: the configured one, if any, then the built-in order. */
  function ListedBrowsers(configured: string): seq<string> {
    if configured == "" then CookieBrowserOrder else [configured] + CookieBrowserOrder
  }

  /** Removing repeats from the listed browsers gives the preferred order. */
  lemma ListedThenDeduped(configured: string)
    ensures Dedupe(ListedBrowsers(configured)) == PreferredBrowsers(configured)
  {
    CookieOrderDistinct();
    if configured == "" {
      DedupeOfDistinct(CookieBrowserOrder);
    } else {
      DedupeFront(configured, CookieBrowserOrder);
    }
  }

  /** The `dict.fromkeys` pass: keep each name the first time it is seen. */
  method RemoveRepeats(names: seq<string>) returns (kept: seq<string>)
    ensures kept == Dedupe(names)
  {
    kept := [];
    for i := 0 to |names|
      invariant kept == Dedupe(names[..i])
    {
      DedupeStep(names, i);
      if names[i] !in kept {
        kept := kept + [names[i]];
      }
    }
    assert names[..|names|] == names;
  }

  /** The `browser_sources` list of `download_youtube_captions`, with
      `env` the value of `TRANSCRIPTAI_YT_BROWSER` (empty when unset). */
  method BrowserSources(useBrowserCookies: bool, env: string) returns (sources: seq<Option<string>>)
    ensures !useBrowserCookies ==> sources == [None]
    ensures useBrowserCookies ==>
      sources == Somes(PreferredBrowsers(Lower(Strip(env)))) + [None]
  {
    if !useBrowserCookies {
      return [None];
    }
    var configured := Lower(Strip(env));
    var browsers: seq<string> := [];
    if configured != "" {
      browsers := browsers + [configured];
    }
    browsers := browsers + CookieBrowserOrder;
    assert browsers == ListedBrowsers(configured);
    var kept := RemoveRepeats(browsers);
    ListedThenDeduped(configured);
    sources := Somes(kept) + [None];
  }

  /** With cookies on, the anonymous attempt comes last, every browser is
      tried once, and the configured browser first. */
  lemma SourcesShape(env: string)
    ensures var c := Lower(Strip(env)); var b := PreferredBrowsers(c);
      && Distinct(b) && None !in Somes(b)
      && (forall x :: x in b <==> x in CookieBrowserOrder || (x == c && c != ""))
      && (c != "" ==> b[0] == c)
  {
    var c := Lower(Strip(env));
    CookieOrderDistinct();
    if c != "" {
      DedupeFront(c, CookieBrowserOrder);
    }
  }

  // ---------------------------------------------------------------------
  // Choosing the caption file in `_download_subtitles`
  // ---------------------------------------------------------------------

  const NoCaptionTrack := "No YouTube caption track found (manual or auto-generated)."
  const EmptyCaptionText := "Caption file downloaded but produced empty transcript text."

  /** `path.suffix.lower() in {".vtt", ".srt"}`. */
  predicate IsCaptionFile(path: string) {
    Lower(Suffix(path)) in {".vtt", ".srt"}
  }

  /** The first pass keeps a subtitle file that was not there before the
      download and, when the video id is known, names that id. */
  predicate IsNewCaption(path: string, before: set<string>, videoId: string) {
    path !in before && IsCaptionFile(path) && (videoId == "" || Contains(Name(path), "[" + videoId + "]"))
  }

  function NewCaptionTest(before: set<string>, videoId: string): string -> bool {
    path => IsNewCaption(path, before, videoId)
  }

  /** The elements of `xs` that pass `keep`, in order. */
  function Filter(xs: seq<string>, keep: string -> bool): (r: seq<string>)
    ensures forall x :: x in r <==> x in xs && keep(x)
    decreases |xs|
  {
    if xs == [] then []
    else
      var f := Filter(xs[..|xs| - 1], keep);
      if keep(xs[|xs| - 1]) then f + [xs[|xs| - 1]] else f
  }

  lemma FilterStep(xs: seq<string>, i: nat, keep: string -> bool)
    requires i < |xs|
    ensures Filter(xs[..i + 1], keep) == if keep(xs[i]) then Filter(xs[..i], keep) + [xs[i]] else Filter(xs[..i], keep)
  {
    assert xs[..i + 1][..i] == xs[..i];
  }

  /** The candidate list: the new files of this video, or else every
      subtitle file in the directory. */
  function Candidates(listing: seq<string>, before: set<string>, videoId: string): seq<string> {
    var newOnes := Filter(listing, NewCaptionTest(before, videoId));
    if newOnes != [] then newOnes else Filter(listing, IsCaptionFile)
  }

  /** The index `sorted(candidates, key=mtime, reverse=True)[0]` picks:
      the stable sort puts first the earliest of the newest files. */
  function Newest(cands: seq<string>, mtime: string -> int): (i: nat)
    requires cands != []
    ensures i < |cands|
    ensures forall j :: 0 <= j < |cands| ==> mtime(cands[j]) <= mtime(cands[i])
    ensures forall j :: 0 <= j < i ==> mtime(cands[j]) < mtime(cands[i])
    decreases |cands|
  {
    if |cands| == 1 then 0
    else
      var k := Newest(cands[..|cands| - 1], mtime);
      assert forall j :: 0 <= j < |cands| - 1 ==> cands[..|cands| - 1][j] == cands[j];
      if mtime(cands[|cands| - 1]) > mtime(cands[k]) then |cands| - 1 else k
  }

  lemma NewestStep(cands: seq<string>, i: nat, mtime: string -> int)
    requires 0 < i < |cands|
    ensures Newest(cands[..i + 1], mtime) ==
      if mtime(cands[i]) > mtime(cands[Newest(cands[..i], mtime)]) then i else Newest(cands[..i], mtime)
  {
    assert cands[..i + 1][..i] == cands[..i];
  }

  /** The candidate search and the newest-first pick of `_download_subtitles`,
      over the directory listing after the download. */
  method SelectCaption(listing: seq<string>, before: set<string>, videoId: string, mtime: string -> int)
    returns (r: Result<string, string>)
    ensures r.Failure? <==> Candidates(listing, before, videoId) == []
    ensures r.Failure? ==> r.error == NoCaptionTrack
    ensures r.Success? ==> var c := Candidates(listing, before, videoId); r.value == c[Newest(c, mtime)]
  {
    var candidates: seq<string> := [];
    for i := 0 to |listing|
      invariant candidates == Filter(listing[..i], NewCaptionTest(before, videoId))
    {
      FilterStep(listing, i, NewCaptionTest(before, videoId));
      var path := listing[i];
      if path in before {
        continue;
      }
      if Lower(Suffix(path)) !in {".vtt", ".srt"} {
        continue;
      }
      if videoId != "" && !Contains(Name(path), "[" + videoId + "]") {
        continue;
      }
      candidates := candidates + [path];
    }
    assert listing[..|listing|] == listing;
    if candidates == [] {
      for i := 0 to |listing|
        invariant candidates == Filter(listing[..i], IsCaptionFile)
      {
        FilterStep(listing, i, IsCaptionFile);
        if Lower(Suffix(listing[i])) in {".vtt", ".srt"} {
          candidates := candidates + [listing[i]];
        }
      }
    }
    if candidates == [] {
      return Failure(NoCaptionTrack);
    }
    var best := 0;
    for i := 1 to |candidates|
      invariant best == Newest(candidates[..i], mtime)
    {
      NewestStep(candidates, i, mtime);
      if mtime(candidates[i]) > mtime(candidates[best]) {
        best := i;
      }
    }
    assert candidates[..|candidates|] == candidates;
    return Success(candidates[best]);
  }

  /** The search fails exactly when the directory holds no subtitle file
      at all, since every new caption is a subtitle file. */
  lemma NoCandidateMeansNoCaption(listing: seq<string>, before: set<string>, videoId: string)
    ensures Candidates(listing, before, videoId) == [] <==> forall p :: p in listing ==> !IsCaptionFile(p)
  {
    var newOnes := Filter(listing, NewCaptionTest(before, videoId));
    if newOnes == [] && Filter(listing, IsCaptionFile) == [] {
      forall p | p in listing ensures !IsCaptionFile(p) {
        assert p !in Filter(listing, IsCaptionFile);
      }
    }
    if newOnes != [] {
      assert newOnes[0] in listing && IsCaptionFile(newOnes[0]);
    }
    if Filter(listing, IsCaptionFile) != [] {
      var c := Filter(listing, IsCaptionFile)[0];
      assert c in listing && IsCaptionFile(c);
    }
  }

  /** The chosen file is a subtitle file from the listing; it is one of
      this download's new files whenever there is one, and no candidate
      is newer. */
  lemma ChosenCaption(listing: seq<string>, before: set<string>, videoId: string, mtime: string -> int)
    requires Candidates(listing, before, videoId) != []
    ensures var c := Candidates(listing, before, videoId); var p := c[Newest(c, mtime)];
      && p in listing && IsCaptionFile(p)
      && ((exists q :: q in listing && IsNewCaption(q, before, videoId)) ==> IsNewCaption(p, before, videoId))
      && (forall q :: q in c ==> mtime(q) <= mtime(p))
  {
    var c := Candidates(listing, before, videoId);
    var p := c[Newest(c, mtime)];
    assert p in c;
    var newOnes := Filter(listing, NewCaptionTest(before, videoId));
    if exists q :: q in listing && IsNewCaption(q, before, videoId) {
      var q :| q in listing && IsNewCaption(q, before, videoId);
      assert q in newOnes;
    }
  }

  /** What one call of `_download_subtitles` ends in. */
  datatype Outcome =
    | Fetched(text: string, path: string)   // the parsed text and the saved `.txt` path
    | DownloadFailed(msg: string)           // a `DownloadError` from yt-dlp
    | Failed(msg: string)                   // any other exception

  /** What yt-dlp's `extract_info` did: raised a `DownloadError` or
      another exception, or returned the video's `id` (the directory then
      holds `listing`). */
  datatype Extraction =
    | ExtractError(msg: string)                     // `DownloadError`
    | ExtractCrash(msg: string)                     // any other exception
    | Extracted(id: string, listing: seq<string>)

  /** The text of the `ValueError` a malformed timing line raises; the
      model does not carry the offending field. */
  const TimingValueError := "invalid literal for int() with base 10"

  /** `_download_subtitles(cookie_browser)` after `extract_info`: pick the
      caption file, parse it, and save the text next to it as `.txt`. */
  method DownloadSubtitles(extraction: Extraction, before: set<string>, mtime: string -> int,
                           read: string -> seq<string>, includeTimestamps: bool, transcriptsDir: string)
    returns (o: Outcome)
    ensures extraction.ExtractError? ==> o == DownloadFailed(extraction.msg)
    ensures extraction.ExtractCrash? ==> o == Failed(extraction.msg)
    ensures extraction.Extracted? ==>
      var c := Candidates(extraction.listing, before, Strip(extraction.id));
      if c == [] then o == Failed(NoCaptionTrack)
      else
        var p := c[Newest(c, mtime)];
        match Output(read(p), includeTimestamps)
        case None => o == Failed(TimingValueError)
        case Some(text) =>
          if text == "" then o == Failed(EmptyCaptionText)
          else o == Fetched(text, Join(transcriptsDir, Stem(p) + ".txt"))
  {
    if extraction.ExtractError? {
      return DownloadFailed(extraction.msg);
    }
    if extraction.ExtractCrash? {
      return Failed(extraction.msg);
    }
    var videoId := Strip(extraction.id);
    var chosen := SelectCaption(extraction.listing, before, videoId, mtime);
    if chosen.Failure? {
      return Failed(chosen.error);
    }
    var captionPath := chosen.value;
    var transcript := ParseCaptionText(read(captionPath), includeTimestamps);
    if transcript.None? {
      return Failed(TimingValueError);
    }
    if transcript.value == "" {
      return Failed(EmptyCaptionText);
    }
    return Fetched(transcript.value, Join(transcriptsDir, Stem(captionPath) + ".txt"));
  }

  /** A fetched transcript is never empty and is saved under the
      transcripts directory as a `.txt` file named after the caption file. */
  lemma FetchedShape(transcriptsDir: string, p: string, text: string)
    requires text != ""
    ensures var o := Fetched(text, Join(transcriptsDir, Stem(p) + ".txt"));
      o.text != "" && EndsWith(o.path, ".txt") && StartsWith(o.path, transcriptsDir + "/")
  {
    var path := Join(transcriptsDir, Stem(p) + ".txt");
    assert path == (transcriptsDir + "/") + (Stem(p) + ".txt");
    assert path[|path| - 4..] == ".txt";
    assert path[..|transcriptsDir| + 1] == transcriptsDir + "/";
  }
}
