/** The input classifier: a blob of URLs and file paths separated by `;`
    or newlines is cut into trimmed segments, each segment is typed as a
    URL, a media file or invalid, and the segments are partitioned into the
    three lists the pipeline consumes.

    The filesystem is the set `existing` of paths that exist and are
    regular files (`Path(p).exists() and Path(p).is_file()`). */
module InputProcessor {
  import opened Wrappers
  import opened Text
  import opened Paths

  datatype InputType = Url | File | Invalid

  /** `InputProcessor.MEDIA_EXTENSIONS`: video then audio suffixes. */
  const MediaExtensions: set<string> := {
    ".mp4", ".avi", ".mov", ".mkv", ".webm", ".flv", ".wmv", ".m4v", ".3gp",
    ".mp3", ".wav", ".m4a", ".flac", ".aac", ".ogg", ".opus", ".wma", ".aiff", ".aif"
  }

  /** `path.suffix.lower() in MEDIA_EXTENSIONS`. */
  predicate HasMediaSuffix(path: string): (b: bool)
    ensures b ==> 4 <= |Suffix(path)| <= 5 && Suffix(path)[0] == '.'
  {
    var e := Lower(Suffix(path));
    ExtensionShape(e);
    e in MediaExtensions
  }

  /** Every listed extension is a dot and three or four characters. */
  lemma ExtensionShape(e: string)
    ensures e in MediaExtensions ==> 4 <= |e| <= 5 && e[0] == '.'
  {
  }

  /** `Path("clip.mp4/")` names `clip.mp4`, so a trailing separator
      keeps a media path a media path. */
  lemma MediaSuffixIgnoresTrailing(path: string)
    ensures HasMediaSuffix(path + "/") == HasMediaSuffix(path)
    ensures HasMediaSuffix(path + "/.") == HasMediaSuffix(path)
  {
    SuffixIgnoresTrailing(path);
  }

  /** The top-level domains of the third URL pattern, in its order. */
  const Tlds: seq<string> := ["com", "org", "net", "io", "co", "tv", "be", "de", "fr", "uk"]

  /** The class `[a-zA-Z0-9-]`. */
  predicate IsLabelChar(c: char) {
    'a' <= c <= 'z' || 'A' <= c <= 'Z' || '0' <= c <= '9' || c == '-'
  }

  predicate AllLabel(s: string) {
    forall i :: 0 <= i < |s| ==> IsLabelChar(s[i])
  }

  /** The length of the longest prefix of label characters. */
  function LabelRun(s: string): (n: nat)
    ensures n <= |s| && AllLabel(s[..n])
    ensures n < |s| ==> !IsLabelChar(s[n])
    decreases |s|
  {
    if s != [] && IsLabelChar(s[0]) then
      var n := 1 + LabelRun(s[1..]);
      assert s[..n] == [s[0]] + s[1..][..n - 1];
      n
    else 0
  }

  /** Case-insensitive prefix test against one of the listed TLDs
      (the pattern is not anchored at its end). */
  predicate StartsWithTld(s: string) {
    exists k :: 0 <= k < |Tlds| && StartsWith(Lower(s), Tlds[k])
  }

  /** `re.match(URL_PATTERNS[k], s, re.IGNORECASE)`:
      0 is `^https?://`, 1 is `^www\.`, 2 is the bare-domain pattern.
      In pattern 2 a dot cannot be a label character, so the label is the
      longest run of label characters. */
  predicate MatchesUrlPattern(s: string, k: nat)
    requires k < 3
  {
    if k == 0 then StartsWith(Lower(s), "http://") || StartsWith(Lower(s), "https://")
    else if k == 1 then StartsWith(Lower(s), "www.")
    else
      var n := LabelRun(s);
      1 <= n < |s| && s[n] == '.' && StartsWithTld(s[n + 1..])
  }

  /** The regular-expression reading of pattern 2: some non-empty run of
      label characters, then a dot, then a listed TLD. */
  predicate DomainRegexMatches(s: string) {
    exists k :: 1 <= k < |s| && AllLabel(s[..k]) && s[k] == '.' && StartsWithTld(s[k + 1..])
  }

  /** Pattern 2 as computed agrees with its regular-expression reading. */
  lemma DomainPatternAgrees(s: string)
    ensures MatchesUrlPattern(s, 2) <==> DomainRegexMatches(s)
  {
    var n := LabelRun(s);
    if MatchesUrlPattern(s, 2) {
      assert 1 <= n < |s| && AllLabel(s[..n]) && s[n] == '.' && StartsWithTld(s[n + 1..]);
    }
    if DomainRegexMatches(s) {
      var k :| 1 <= k < |s| && AllLabel(s[..k]) && s[k] == '.' && StartsWithTld(s[k + 1..]);
      LabelRunAtLeast(s, k);
      LabelRunAtMost(s, k);
    }
  }

  lemma {:induction false} LabelRunAtLeast(s: string, k: nat)
    requires k <= |s| && AllLabel(s[..k])
    ensures LabelRun(s) >= k
    decreases k
  {
    if k > 0 {
      assert IsLabelChar(s[..k][0]);
      assert s[1..][..k - 1] == s[..k][1..];
      LabelRunAtLeast(s[1..], k - 1);
    }
  }

  lemma {:induction false} LabelRunAtMost(s: string, k: nat)
    requires k < |s| && !IsLabelChar(s[k])
    ensures LabelRun(s) <= k
    decreases k
  {
    if k > 0 && IsLabelChar(s[0]) {
      assert s[1..][k - 1] == s[k];
      LabelRunAtMost(s[1..], k - 1);
    }
  }

  /** Any of `URL_PATTERNS` matches. */
  predicate LooksLikeUrl(s: string): (b: bool)
    ensures b ==> |s| >= 4
  {
    MatchesUrlPattern(s, 0) || MatchesUrlPattern(s, 1) || MatchesUrlPattern(s, 2)
  }

  /** `InputProcessor.detect_input_type`. Both branches of the source's
      existence test check the same suffix, so the type never depends on
      whether the path exists. */
  function DetectInputType(text: string, existing: set<string>): (r: InputType)
    ensures r == Url <==> Strip(text) != "" && LooksLikeUrl(Strip(text))
    ensures r == File <==> Strip(text) != "" && !LooksLikeUrl(Strip(text)) && HasMediaSuffix(Strip(text))
  {
    var t := Strip(text);
    if t == "" then Invalid
    else if LooksLikeUrl(t) then Url
    else if t in existing then
      if HasMediaSuffix(t) then File else Invalid
    else if HasMediaSuffix(t) then File
    else Invalid
  }

  /** `re.split(r'[;\n]', ...)`. */
  const ItemSeparators: set<char> := {';', '\n'}

  /** The non-empty trimmed pieces, in input order. */
  function Segments(pieces: seq<string>): (r: seq<string>)
    ensures forall i :: 0 <= i < |r| ==> r[i] != "" && Trimmed(r[i])
    decreases |pieces|
  {
    if pieces == [] then []
    else
      var t := Strip(pieces[|pieces| - 1]);
      Segments(pieces[..|pieces| - 1]) + (if t == "" then [] else [t])
  }

  /** The three lists `parse_mixed_input` returns. */
  datatype Bucket = Urls | Files | Rejected

  datatype ParsedInput = ParsedInput(urls: seq<string>, files: seq<string>, invalid: seq<string>)

  /** Where `parse_mixed_input` routes a segment: URLs to `urls`, media
      paths that exist to `files`, everything else to `invalid`. */
  function BucketOf(seg: string, existing: set<string>): Bucket {
    match DetectInputType(seg, existing)
    case Url => Urls
    case File => if seg in existing then Files else Rejected
    case Invalid => Rejected
  }

  function Route(existing: set<string>): string -> Bucket {
    seg => BucketOf(seg, existing)
  }

  /** What the `invalid` list records for a segment: the segment, or for a
      media path that is not an existing file, the segment with a reason. */
  function Rejection(seg: string, existing: set<string>): string {
    if DetectInputType(seg, existing) == File && seg !in existing then seg + " (file not found)"
    else seg
  }

  /** The segments `route` sends to bucket `b`, in input order. */
  function Sources(segs: seq<string>, route: string -> Bucket, b: Bucket): seq<string>
    decreases |segs|
  {
    if segs == [] then []
    else
      var last := segs[|segs| - 1];
      Sources(segs[..|segs| - 1], route, b) + (if route(last) == b then [last] else [])
  }

  /** `Rejection` applied to each segment. */
  function Rejections(segs: seq<string>, existing: set<string>): (r: seq<string>)
    ensures |r| == |segs|
    decreases |segs|
  {
    if segs == [] then []
    else Rejections(segs[..|segs| - 1], existing) + [Rejection(segs[|segs| - 1], existing)]
  }

  lemma SegmentsStep(pieces: seq<string>, i: nat)
    requires i < |pieces|
    ensures Segments(pieces[..i + 1])
      == if Strip(pieces[i]) == "" then Segments(pieces[..i]) else Segments(pieces[..i]) + [Strip(pieces[i])]
  {
    assert pieces[..i + 1][..i] == pieces[..i];
  }

  lemma SourcesSnoc(segs: seq<string>, seg: string, route: string -> Bucket, b: Bucket)
    ensures Sources(segs + [seg], route, b)
      == if route(seg) == b then Sources(segs, route, b) + [seg] else Sources(segs, route, b)
  {
    assert (segs + [seg])[..|segs|] == segs;
  }

  lemma RejectionsSnoc(segs: seq<string>, seg: string, existing: set<string>)
    ensures Rejections(segs + [seg], existing) == Rejections(segs, existing) + [Rejection(seg, existing)]
  {
    assert (segs + [seg])[..|segs|] == segs;
  }

  /** What one non-blank piece adds to each list. */
  lemma ParseStep(pieces: seq<string>, i: nat, existing: set<string>)
    requires i < |pieces| && Strip(pieces[i]) != ""
    ensures var segs, next, item := Segments(pieces[..i]), Segments(pieces[..i + 1]), Strip(pieces[i]);
      var t, route := DetectInputType(item, existing), Route(existing);
      && Sources(next, route, Urls)
        == (if t == Url then Sources(segs, route, Urls) + [item] else Sources(segs, route, Urls))
      && Sources(next, route, Files)
        == (if t == File && item in existing then Sources(segs, route, Files) + [item]
            else Sources(segs, route, Files))
      && Rejections(Sources(next, route, Rejected), existing)
        == (if t == Invalid then Rejections(Sources(segs, route, Rejected), existing) + [item]
            else if t == File && item !in existing
            then Rejections(Sources(segs, route, Rejected), existing) + [item + " (file not found)"]
            else Rejections(Sources(segs, route, Rejected), existing))
  {
    var segs, item, route := Segments(pieces[..i]), Strip(pieces[i]), Route(existing);
    SegmentsStep(pieces, i);
    SourcesSnoc(segs, item, route, Urls);
    SourcesSnoc(segs, item, route, Files);
    SourcesSnoc(segs, item, route, Rejected);
    if route(item) == Rejected {
      RejectionsSnoc(Sources(segs, route, Rejected), item, existing);
    }
  }

  /** `InputProcessor.parse_mixed_input`: the segments in input order, URLs
      and existing media files kept verbatim, the rest recorded by
      `Rejection`. */
  method ParseMixedInput(text: string, existing: set<string>) returns (r: ParsedInput)
    ensures var segs := Segments(SplitOn(text, ItemSeparators));
      && r.urls == Sources(segs, Route(existing), Urls)
      && r.files == Sources(segs, Route(existing), Files)
      && r.invalid == Rejections(Sources(segs, Route(existing), Rejected), existing)
  {
    var pieces := SplitOn(text, ItemSeparators);
    var route := Route(existing);
    var urls, files, invalid := [], [], [];
    for i := 0 to |pieces|
      invariant urls == Sources(Segments(pieces[..i]), route, Urls)
      invariant files == Sources(Segments(pieces[..i]), route, Files)
      invariant invalid == Rejections(Sources(Segments(pieces[..i]), route, Rejected), existing)
    {
      SegmentsStep(pieces, i);
      var item := Strip(pieces[i]);
      if item == "" {
        continue;
      }
      ParseStep(pieces, i, existing);
      var inputType := DetectInputType(item, existing);
      if inputType == Url {
        urls := urls + [item];
      } else if inputType == File {
        if item in existing {
          files := files + [item];
        } else {
          invalid := invalid + [item + " (file not found)"];
        }
      } else {
        invalid := invalid + [item];
      }
    }
    assert pieces[..|pieces|] == pieces;
    r := ParsedInput(urls, files, invalid);
  }

  /** Every segment lands in exactly one of the three lists: nothing is
      lost and nothing is duplicated. */
  lemma {:induction false} PartitionIsExact(segs: seq<string>, route: string -> Bucket)
    ensures multiset(Sources(segs, route, Urls)) + multiset(Sources(segs, route, Files))
            + multiset(Sources(segs, route, Rejected)) == multiset(segs)
    decreases |segs|
  {
    if segs != [] {
      PartitionIsExact(segs[..|segs| - 1], route);
      MultisetStep(segs);
      SourcesStep(segs, route, Urls);
      SourcesStep(segs, route, Files);
      SourcesStep(segs, route, Rejected);
    }
  }

  /** Dropping the last segment takes it out of the one bucket it went to. */
  lemma SourcesStep(segs: seq<string>, route: string -> Bucket, b: Bucket)
    requires segs != []
    ensures multiset(Sources(segs, route, b))
      == multiset(Sources(segs[..|segs| - 1], route, b))
        + if route(segs[|segs| - 1]) == b then multiset{segs[|segs| - 1]} else multiset{}
  {
  }

  lemma MultisetStep<T>(s: seq<T>)
    requires s != []
    ensures multiset(s) == multiset(s[..|s| - 1]) + multiset{s[|s| - 1]}
  {
    assert s == s[..|s| - 1] + [s[|s| - 1]];
  }

  /** A segment sent to bucket `b` is one `route` sends there. */
  lemma {:induction false} SourcesAreRouted(segs: seq<string>, route: string -> Bucket, b: Bucket)
    ensures forall s :: s in Sources(segs, route, b) ==> s in segs && route(s) == b
    decreases |segs|
  {
    if segs != [] {
      SourcesAreRouted(segs[..|segs| - 1], route, b);
      assert segs == segs[..|segs| - 1] + [segs[|segs| - 1]];
    }
  }

  /** How one trimmed, non-empty segment is routed and recorded. */
  lemma SegmentRouting(seg: string, existing: set<string>)
    requires seg != "" && Trimmed(seg)
    ensures BucketOf(seg, existing) == Urls <==> LooksLikeUrl(seg)
    ensures BucketOf(seg, existing) == Files <==> !LooksLikeUrl(seg) && HasMediaSuffix(seg) && seg in existing
    ensures BucketOf(seg, existing) == Rejected ==>
      Rejection(seg, existing) == if HasMediaSuffix(seg) && !LooksLikeUrl(seg) then seg + " (file not found)" else seg
  {
    assert Strip(seg) == seg;
    var d := DetectInputType(seg, existing);
    assert d == Url <==> LooksLikeUrl(seg);
    assert d == File <==> !LooksLikeUrl(seg) && HasMediaSuffix(seg);
  }

  /** The `files` list holds only existing media files and the `urls` list
      only segments matching a URL pattern; an `invalid` entry carries
      " (file not found)" exactly when its segment is a media path that is
      not an existing file. */
  lemma BucketsAreSound(segs: seq<string>, existing: set<string>)
    requires forall i :: 0 <= i < |segs| ==> segs[i] != "" && Trimmed(segs[i])
    ensures forall f :: f in Sources(segs, Route(existing), Files) ==>
      f in existing && HasMediaSuffix(f) && !LooksLikeUrl(f)
    ensures forall u :: u in Sources(segs, Route(existing), Urls) ==> LooksLikeUrl(u)
    ensures forall s :: s in Sources(segs, Route(existing), Rejected) ==>
      Rejection(s, existing) == if HasMediaSuffix(s) && !LooksLikeUrl(s) then s + " (file not found)" else s
  {
    var route := Route(existing);
    SourcesAreRouted(segs, route, Files);
    SourcesAreRouted(segs, route, Urls);
    SourcesAreRouted(segs, route, Rejected);
    forall s | s in segs
      ensures BucketOf(s, existing) == Urls <==> LooksLikeUrl(s)
      ensures BucketOf(s, existing) == Files <==> !LooksLikeUrl(s) && HasMediaSuffix(s) && s in existing
      ensures BucketOf(s, existing) == Rejected ==>
        Rejection(s, existing) == if HasMediaSuffix(s) && !LooksLikeUrl(s) then s + " (file not found)" else s
    {
      var i :| 0 <= i < |segs| && segs[i] == s;
      SegmentRouting(s, existing);
    }
  }

  /** The accepted paths of `validate_files`, in order. */
  function AcceptedFiles(paths: seq<string>, existing: set<string>): seq<string>
    decreases |paths|
  {
    if paths == [] then []
    else
      var last := paths[|paths| - 1];
      AcceptedFiles(paths[..|paths| - 1], existing)
        + (if last in existing && HasMediaSuffix(last) then [last] else [])
  }

  /** The rejected paths of `validate_files`, each with its reason, in order. */
  function RejectedFiles(paths: seq<string>, existing: set<string>): seq<string>
    decreases |paths|
  {
    if paths == [] then []
    else
      var last := paths[|paths| - 1];
      RejectedFiles(paths[..|paths| - 1], existing)
        + (if last !in existing then [last + " (file not found)"]
           else if !HasMediaSuffix(last) then [last + " (not a supported media file)"]
           else [])
  }

  lemma ValidationStep(paths: seq<string>, i: nat, existing: set<string>)
    requires i < |paths|
    ensures var p := paths[i];
      && AcceptedFiles(paths[..i + 1], existing)
        == AcceptedFiles(paths[..i], existing) + (if p in existing && HasMediaSuffix(p) then [p] else [])
      && RejectedFiles(paths[..i + 1], existing)
        == RejectedFiles(paths[..i], existing)
          + (if p !in existing then [p + " (file not found)"]
             else if !HasMediaSuffix(p) then [p + " (not a supported media file)"]
             else [])
  {
    assert paths[..i + 1][..i] == paths[..i];
  }

  /** `InputProcessor.validate_files`. */
  method ValidateFiles(paths: seq<string>, existing: set<string>) returns (valid: seq<string>, invalid: seq<string>)
    ensures valid == AcceptedFiles(paths, existing)
    ensures invalid == RejectedFiles(paths, existing)
  {
    valid, invalid := [], [];
    for i := 0 to |paths|
      invariant valid == AcceptedFiles(paths[..i], existing)
      invariant invalid == RejectedFiles(paths[..i], existing)
    {
      var path := paths[i];
      ValidationStep(paths, i, existing);
      if path in existing {
        if HasMediaSuffix(path) {
          valid := valid + [path];
        } else {
          invalid := invalid + [path + " (not a supported media file)"];
        }
      } else {
        invalid := invalid + [path + " (file not found)"];
      }
    }
    assert paths[..|paths|] == paths;
  }

  /** The two reasons `validate_files` gives for a rejected path. */
  predicate IsRejection(m: string) {
    EndsWith(m, " (not a supported media file)") || EndsWith(m, " (file not found)")
  }

  /** Each path is either accepted, as an existing media file, or rejected
      with one of the two reasons: the lists together are as long as the
      input. */
  lemma {:induction false} ValidationIsExact(paths: seq<string>, existing: set<string>)
    ensures |AcceptedFiles(paths, existing)| + |RejectedFiles(paths, existing)| == |paths|
    ensures forall p :: p in AcceptedFiles(paths, existing) ==> p in paths && p in existing && HasMediaSuffix(p)
    ensures forall m :: m in RejectedFiles(paths, existing) ==> IsRejection(m)
    decreases |paths|
  {
    if paths != [] {
      var init := paths[..|paths| - 1];
      var p := paths[|paths| - 1];
      ValidationIsExact(init, existing);
      ReasonsAreRejections(p);
      assert forall x :: x in init ==> x in paths;
    }
  }

  lemma ReasonsAreRejections(p: string)
    ensures IsRejection(p + " (file not found)")
    ensures IsRejection(p + " (not a supported media file)")
  {
    var m1 := p + " (file not found)";
    var m2 := p + " (not a supported media file)";
    assert m1[|p|..] == " (file not found)";
    assert m2[|p|..] == " (not a supported media file)";
  }
}
