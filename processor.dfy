// The processing pipeline: parsed input becomes a queue of items (URLs first,
// then local files); each item gets a video (downloaded, copied into the
// videos directory, or used in place), a transcript written under a name no
// existing file has, and its video removed unless it is to be kept. A failing
// item is marked as an error and the rest of the queue still runs.
//
// The filesystem is the set of paths that exist (`Disk.files`); what yt-dlp,
// the copy, the transcriber and the unlink do to one item is given as
// `Effects`.

module Processor {
  import opened Wrappers
  import opened Text
  import opened Paths
  import InputProcessor
  import Transcriber

  // ---------------------------------------------------------------------------
  // Free names
  // ---------------------------------------------------------------------------

  /** A family of candidate names: `first`, then `head + "1" + tail`,
      `head + "2" + tail`, and so on. */
  datatype NameScheme = NameScheme(first: string, head: string, tail: string)

  function Candidate(s: NameScheme, k: nat): string {
    if k == 0 then s.first else s.head + NatToString(k) + s.tail
  }

  /** The first name is shorter than every numbered one, so no numbered name
      can coincide with it. */
  predicate Spaced(s: NameScheme) {
    |s.first| <= |s.head| + |s.tail|
  }

  /** Path number `k` of a scheme under a directory. */
  function Slot(dir: string, s: NameScheme, k: nat): string {
    Join(dir, Candidate(s, k))
  }

  /** Candidate `n` is the first one whose path is free: every earlier one is taken. */
  predicate FirstFree(files: set<string>, dir: string, s: NameScheme, n: nat) {
    Slot(dir, s, n) !in files && forall k :: 0 <= k < n ==> Slot(dir, s, k) in files
  }

  /** `path` is the first free candidate path. */
  ghost predicate FreeSlot(files: set<string>, dir: string, s: NameScheme, path: string) {
    exists n :: FirstFree(files, dir, s, n) && path == Slot(dir, s, n)
  }

  /** Different numbers give different paths. */
  lemma SlotInjective(dir: string, s: NameScheme, j: nat, k: nat)
    requires Spaced(s)
    requires Slot(dir, s, j) == Slot(dir, s, k)
    ensures j == k
  {
    var a, b := Candidate(s, j), Candidate(s, k);
    assert a == Slot(dir, s, j)[|dir| + 1..];
    assert b == Slot(dir, s, k)[|dir| + 1..];
    if j != 0 && k != 0 {
      var x, y := NatToString(j), NatToString(k);
      assert |x| == |y|;
      assert a[|s.head|..|s.head| + |x|] == x;
      assert b[|s.head|..|s.head| + |y|] == y;
      NatToStringInjective(j, k);
    }
  }

  /** At most one candidate is the first free one. */
  lemma FirstFreeUnique(files: set<string>, dir: string, s: NameScheme, m: nat, n: nat)
    requires FirstFree(files, dir, s, m) && FirstFree(files, dir, s, n)
    ensures m == n
  {
  }

  /** An injective function takes `n` different values on the first `n` numbers. */
  lemma {:induction false} InjectiveCount(f: nat -> string, n: nat)
    requires forall j: nat, k: nat :: f(j) == f(k) ==> j == k
    ensures |set k: nat | k < n :: f(k)| == n
  {
    if n > 0 {
      InjectiveCount(f, n - 1);
      var smaller := set k: nat | k < n - 1 :: f(k);
      assert (set k: nat | k < n :: f(k)) == smaller + {f(n - 1)};
      assert f(n - 1) !in smaller;
    }
  }

  /** Numbered copy `k` is `<stem>_<k><suffix>` in `dir`. */
  lemma CopySlot(dir: string, source: string, k: nat)
    requires k != 0
    ensures Slot(dir, CopyScheme(source), k) == Join(dir, Stem(source) + "_" + NatToString(k) + Suffix(source))
  {
  }

  /** One more taken candidate extends the taken prefix. */
  lemma ExtendTaken(files: set<string>, dir: string, s: NameScheme, n: nat)
    requires forall k :: 0 <= k < n ==> Slot(dir, s, k) in files
    requires Slot(dir, s, n) in files
    ensures forall k :: 0 <= k < n + 1 ==> Slot(dir, s, k) in files
  {
  }

  /** The search for a free name stops: no more candidates than there are
      files can be taken. */
  lemma TakenSlotsBound(files: set<string>, dir: string, s: NameScheme, n: nat)
    requires Spaced(s)
    requires forall k :: 0 <= k < n ==> Slot(dir, s, k) in files
    ensures n <= |files|
  {
    var f := (k: nat) => Slot(dir, s, k);
    forall j: nat, k: nat | f(j) == f(k)
      ensures j == k
    {
      SlotInjective(dir, s, j, k);
    }
    InjectiveCount(f, n);
    SubsetSize(set k: nat | k < n :: f(k), files);
  }

  lemma SubsetSize(a: set<string>, b: set<string>)
    requires a <= b
    ensures |a| <= |b|
  {
    assert |b| == |a| + |b - a| by {
      assert b == a + (b - a);
    }
  }

  // ---------------------------------------------------------------------------
  // Transcript names
  // ---------------------------------------------------------------------------

  /** Characters removed from a transcript name. */
  const Unsafe: set<char> := {'<', '>', ':', '"', '|', '?', '*', '\\'}

  /** No unsafe character and no space. */
  predicate SafeName(s: string) {
    forall i :: 0 <= i < |s| ==> s[i] !in Unsafe && s[i] != ' '
  }

  lemma SafeConcat(a: string, b: string)
    requires SafeName(a) && SafeName(b)
    ensures SafeName(a + b)
  {
    assert forall i :: |a| <= i < |a + b| ==> (a + b)[i] == b[i - |a|];
  }

  /** `re.sub(r'[<>:"|?*\\]', '', s).replace(' ', '_')`. */
  function CleanName(s: string): (r: string)
    ensures |r| <= |s|
    ensures SafeName(r)
  {
    if s == [] then []
    else if s[0] in Unsafe then CleanName(s[1..])
    else [if s[0] == ' ' then '_' else s[0]] + CleanName(s[1..])
  }

  /** A name that is already clean is left alone; in particular cleaning twice
      is cleaning once. */
  lemma {:induction false} CleanNameOfClean(s: string)
    requires SafeName(s)
    ensures CleanName(s) == s
  {
    if s != [] {
      CleanNameOfClean(s[1..]);
      assert s == [s[0]] + s[1..];
    }
  }

  /** Every character that is neither unsafe nor a space survives cleaning. */
  lemma {:induction false} CleanNameKeeps(s: string, c: char)
    requires c !in Unsafe && c != ' ' && c in s
    ensures c in CleanName(s)
  {
    if s[0] != c {
      assert c in s[1..];
      CleanNameKeeps(s[1..], c);
    }
  }

  /** `generate_transcript_filename`: the cleaned stem of the video with
      `.txt`, then `_1.txt`, `_2.txt`, ... */
  function TranscriptScheme(videoPath: string): (s: NameScheme)
    ensures Spaced(s)
  {
    var cleaned := CleanName(Stem(videoPath));
    NameScheme(cleaned + ".txt", cleaned + "_", ".txt")
  }

  /** Every candidate transcript name is free of the unsafe characters and of
      spaces, and ends in `.txt`. */
  lemma TranscriptNamesAreClean(videoPath: string, k: nat)
    ensures var name := Candidate(TranscriptScheme(videoPath), k);
      SafeName(name) && |name| >= 4 && name[|name| - 4..] == ".txt"
  {
    var cleaned := CleanName(Stem(videoPath));
    var txt := ".txt";
    assert SafeName(txt);
    if k == 0 {
      SafeConcat(cleaned, txt);
    } else {
      var d := NatToString(k);
      assert SafeName(d) by {
        assert forall i :: 0 <= i < |d| ==> IsDigit(d[i]);
      }
      var under := "_";
      assert SafeName(under);
      SafeConcat(cleaned, under);
      SafeConcat(cleaned + under, d);
      SafeConcat(cleaned + under + d, txt);
    }
  }

  /** `shutil` destination for a copied file: the file's own name, then
      `stem_1.suffix`, `stem_2.suffix`, ... */
  function CopyScheme(source: string): (s: NameScheme)
    ensures Spaced(s)
  {
    StemSuffix(source);
    NameScheme(Name(source), Stem(source) + "_", Suffix(source))
  }

  // ---------------------------------------------------------------------------
  // Items, statuses and the outside world
  // ---------------------------------------------------------------------------

  datatype ItemKind = UrlItem | FileItem

  datatype Status = Pending | Downloading | Copying | Transcribing | Completed | Error

  /** One entry of the processing queue. */
  class ProcessingItem {
    const source: string
    const kind: ItemKind
    const needsDownload: bool
    var status: Status
    var progress: real
    var errorMessage: Option<string>
    var videoPath: Option<string>
    var transcriptPath: Option<string>
    /** Every status the item has been given, oldest first. */
    ghost var history: seq<Status>

    constructor(source: string, kind: ItemKind, needsDownload: bool)
      ensures this.source == source && this.kind == kind && this.needsDownload == needsDownload
      ensures status == Pending && progress == 0.0 && errorMessage.None?
      ensures videoPath.None? && transcriptPath.None? && history == [Pending]
    {
      this.source := source;
      this.kind := kind;
      this.needsDownload := needsDownload;
      status := Pending;
      progress := 0.0;
      errorMessage := None;
      videoPath := None;
      transcriptPath := None;
      history := [Pending];
    }
  }

  /** The paths that exist. */
  class Disk {
    var files: set<string>

    constructor(files: set<string>)
      ensures this.files == files
    {
      this.files := files;
    }
  }

  /** What the outside world does while one item is processed. */
  datatype Effects = Effects(
    download: Result<string, string>,  // yt-dlp: the file it wrote, or its error
    copyError: Option<string>,         // the copy's error, if it raised
    transcribeError: Option<string>,   // `transcribe_and_save`'s error, if it raised
    unlinkFails: bool)                 // removing the video raised (the error is ignored)

  const DownloadFailed := "Download failed: "

  /** The error of the step that gets the video, if it raises. */
  function MediaError(needsDownload: bool, copyFiles: bool, e: Effects): (r: Option<string>)
    ensures needsDownload ==> (r.Some? <==> e.download.Failure?)
    ensures !needsDownload ==> r == (if copyFiles then e.copyError else None)
  {
    if needsDownload then
      (if e.download.Failure? then Some(DownloadFailed + e.download.error) else None)
    else if copyFiles then e.copyError
    else None
  }

  /** The error an item ends with, if any: the first step that raises. */
  function FailureOf(needsDownload: bool, copyFiles: bool, downloadOnly: bool, e: Effects): (r: Option<string>)
    ensures r.None? <==> MediaError(needsDownload, copyFiles, e).None? && (downloadOnly || e.transcribeError.None?)
    ensures needsDownload && e.download.Failure? ==> r == Some(DownloadFailed + e.download.error)
  {
    var m := MediaError(needsDownload, copyFiles, e);
    if m.Some? then m
    else if !downloadOnly then e.transcribeError
    else None
  }

  /** The status given while the video is being obtained. */
  function MediaStatus(needsDownload: bool, copyFiles: bool): seq<Status> {
    if needsDownload then [Downloading] else if copyFiles then [Copying] else []
  }

  /** The statuses `process_single_item` gives an item, in order. */
  function StatusPath(needsDownload: bool, copyFiles: bool, downloadOnly: bool, e: Effects): (r: seq<Status>)
    ensures r != []
  {
    var media := MediaStatus(needsDownload, copyFiles);
    if MediaError(needsDownload, copyFiles, e).Some? then media
    else if downloadOnly then media + [Completed]
    else if e.transcribeError.Some? then media + [Transcribing]
    else media + [Transcribing, Completed]
  }

  /** The statuses an item goes through: it downloads exactly when it is a URL,
      copies exactly when it is a file to be copied, is only transcribed when
      there is a transcriber, never returns to pending, and ends completed
      exactly when nothing raised; completion is always the last status. */
  lemma StatusPathShape(needsDownload: bool, copyFiles: bool, downloadOnly: bool, e: Effects)
    ensures var r := StatusPath(needsDownload, copyFiles, downloadOnly, e);
      && (r[|r| - 1] == Completed <==> FailureOf(needsDownload, copyFiles, downloadOnly, e).None?)
      && (Completed in r ==> r[|r| - 1] == Completed)
      && (Downloading in r <==> needsDownload)
      && (Copying in r <==> !needsDownload && copyFiles)
      && (Transcribing in r ==> !downloadOnly)
      && Pending !in r && Error !in r
  {
  }

  /** An item that completed without a transcriber has no transcript step. */
  lemma DownloadOnlyPath(needsDownload: bool, copyFiles: bool, e: Effects)
    requires FailureOf(needsDownload, copyFiles, true, e).None?
    ensures StatusPath(needsDownload, copyFiles, true, e) == MediaStatus(needsDownload, copyFiles) + [Completed]
  {
  }

  function ProcessingMessage(source: string): string {
    "Processing " + source + "..."
  }

  function CopyingMessage(source: string): string {
    "Copying " + Name(source) + " to assets/videos/..."
  }

  /** The progress messages one item produces. */
  function Announcements(hasCallback: bool, copyFiles: bool, source: string, needsDownload: bool): seq<string> {
    if !hasCallback then []
    else if !needsDownload && copyFiles then [ProcessingMessage(source), CopyingMessage(source)]
    else [ProcessingMessage(source)]
  }

  /** An item is announced exactly when there is a callback, always first with
      its `Processing` line, and a copied file also with its `Copying` line. */
  lemma AnnouncementsShape(hasCallback: bool, copyFiles: bool, source: string, needsDownload: bool)
    ensures var r := Announcements(hasCallback, copyFiles, source, needsDownload);
      && (hasCallback <==> r != [])
      && (r != [] ==> r[0] == ProcessingMessage(source))
      && (|r| == 2 <==> hasCallback && copyFiles && !needsDownload)
  {
  }

  /** The messages of the first `n` items of a queue. */
  function Log(hasCallback: bool, copyFiles: bool, queue: seq<ProcessingItem>, n: nat): seq<string>
    requires n <= |queue|
  {
    if n == 0 then []
    else
      Log(hasCallback, copyFiles, queue, n - 1)
      + Announcements(hasCallback, copyFiles, queue[n - 1].source, queue[n - 1].needsDownload)
  }

  /** With no callback nothing is announced; with one, every item is, each
      item's announcement opening with its `Processing` line. */
  lemma {:induction false} LogLength(hasCallback: bool, copyFiles: bool, queue: seq<ProcessingItem>, n: nat)
    requires n <= |queue|
    ensures !hasCallback ==> Log(hasCallback, copyFiles, queue, n) == []
    ensures hasCallback ==> n <= |Log(hasCallback, copyFiles, queue, n)| <= 2 * n
  {
    if n > 0 {
      LogLength(hasCallback, copyFiles, queue, n - 1);
      AnnouncementsShape(hasCallback, copyFiles, queue[n - 1].source, queue[n - 1].needsDownload);
    }
  }

  /** Nothing has been recorded on the item yet. */
  predicate Untouched(item: ProcessingItem)
    reads item
  {
    item.errorMessage.None? && item.progress == 0.0 && item.videoPath.None? && item.transcriptPath.None?
  }

  /** The queue holds an item per URL, in order, marked for download, then an
      item per file, in order. */
  predicate Queued(queue: seq<ProcessingItem>, urls: seq<string>, files: seq<string>) {
    && |queue| == |urls| + |files|
    && forall j :: 0 <= j < |queue| ==>
      && queue[j].source == (urls + files)[j]
      && (queue[j].needsDownload <==> j < |urls|)
      && queue[j].kind == (if j < |urls| then UrlItem else FileItem)
  }

  /** No item appears twice. */
  predicate AllDifferent(queue: seq<ProcessingItem>) {
    forall j, k :: 0 <= j < k < |queue| ==> queue[j] != queue[k]
  }

  /** The queue `process_mixed_input` builds: a pending URL item for every URL,
      then a pending file item for every file. */
  method NewQueue(urls: seq<string>, files: seq<string>) returns (queue: seq<ProcessingItem>)
    ensures Queued(queue, urls, files) && AllDifferent(queue)
    ensures forall j :: 0 <= j < |queue| ==> fresh(queue[j])
    ensures forall j :: 0 <= j < |queue| ==> queue[j].status == Pending && Untouched(queue[j])
  {
    queue := [];
    for i := 0 to |urls|
      invariant |queue| == i
      invariant forall j :: 0 <= j < i ==> fresh(queue[j])
      invariant forall j, k :: 0 <= j < k < i ==> queue[j] != queue[k]
      invariant forall j :: 0 <= j < i ==>
        && queue[j].source == urls[j] && queue[j].needsDownload && queue[j].kind == UrlItem
        && queue[j].status == Pending && Untouched(queue[j])
    {
      var item := new ProcessingItem(urls[i], UrlItem, true);
      queue := queue + [item];
    }
    for i := 0 to |files|
      invariant |queue| == |urls| + i
      invariant forall j :: 0 <= j < |queue| ==> fresh(queue[j])
      invariant forall j, k :: 0 <= j < k < |queue| ==> queue[j] != queue[k]
      invariant forall j :: 0 <= j < |urls| ==>
        && queue[j].source == urls[j] && queue[j].needsDownload && queue[j].kind == UrlItem
      invariant forall j :: |urls| <= j < |queue| ==>
        && queue[j].source == files[j - |urls|] && !queue[j].needsDownload && queue[j].kind == FileItem
      invariant forall j :: 0 <= j < |queue| ==>
        queue[j].status == Pending && Untouched(queue[j])
    {
      var item := new ProcessingItem(files[i], FileItem, false);
      queue := queue + [item];
    }
  }

  // ---------------------------------------------------------------------------
  // The processor
  // ---------------------------------------------------------------------------

  class UnifiedProcessor {
    const downloadOnly: bool
    const keepVideo: bool
    const copyFiles: bool
    const transcriptsDir: string
    const videosDir: string
    const transcriber: Option<Transcriber.WhisperTranscriber>

    /** There is a transcriber exactly when transcripts are wanted. */
    predicate Valid() {
      transcriber.Some? <==> !downloadOnly
    }

    /** The transcriber is only created when transcripts are wanted. */
    constructor(model: string, downloadOnly: bool, keepVideo: bool, copyFiles: bool,
                torch: Transcriber.Torch, transcriptsDir: string, videosDir: string)
      ensures this.downloadOnly == downloadOnly && this.keepVideo == keepVideo && this.copyFiles == copyFiles
      ensures this.transcriptsDir == transcriptsDir && this.videosDir == videosDir
      ensures transcriber.Some? <==> !downloadOnly
      ensures transcriber.Some? ==> fresh(transcriber.value) && transcriber.value.modelName == model
      ensures Valid()
    {
      if !downloadOnly {
        var t := new Transcriber.WhisperTranscriber(model, None, torch);
        transcriber := Some(t);
      } else {
        transcriber := None;
      }
      this.downloadOnly := downloadOnly;
      this.keepVideo := keepVideo;
      this.copyFiles := copyFiles;
      this.transcriptsDir := transcriptsDir;
      this.videosDir := videosDir;
    }

    /** The paths that exist once `video` has been removed, if it is to be
        removed, it exists and the unlink does not raise. */
    function Unlinked(files: set<string>, video: string, unlinkFails: bool): set<string> {
      if !keepVideo && video in files && !unlinkFails then files - {video} else files
    }

    /** What getting the video did: the item's video path went from `v0` to
        `video`, and the disk from `before` to `after`. */
    ghost predicate Obtained(item: ProcessingItem, e: Effects, v0: Option<string>, video: Option<string>,
                             before: set<string>, after: set<string>)
    {
      if MediaError(item.needsDownload, copyFiles, e).Some? then
        video == v0 && after == before
      else if item.needsDownload then
        video == Some(e.download.value) && after == before + {e.download.value}
      else if copyFiles then
        && video.Some?
        && video.value !in before
        && after == before + {video.value}
      else
        video == Some(item.source) && after == before
    }

    /** What the transcription step did: the transcript path went from `t0`
        to `transcript` and the disk from `before` to `after`. With a
        transcriber and no error, the transcript has the first free name and
        the video is removed unless it is kept. */
    ghost predicate Written(e: Effects, t0: Option<string>, video: string, transcript: Option<string>,
                            before: set<string>, after: set<string>)
    {
      if downloadOnly || e.transcribeError.Some? then
        transcript == t0 && after == before
      else
        && transcript.Some?
        && transcript.value !in before
        && after == Unlinked(before + {transcript.value}, video, e.unlinkFails)
    }

    /** The paths that exist once the video has been obtained. */
    function Fetched(item: ProcessingItem, e: Effects, video: Option<string>, before: set<string>): set<string> {
      if MediaError(item.needsDownload, copyFiles, e).None? && (item.needsDownload || copyFiles) && video.Some?
      then before + {video.value} else before
    }

    /** What processing the item did to its paths (video `v0` to `video`,
        transcript `t0` to `transcript`) and to the disk: the video is
        obtained, and then, unless that failed, the transcript written. */
    ghost predicate Processed(item: ProcessingItem, e: Effects, v0: Option<string>, t0: Option<string>,
                              video: Option<string>, transcript: Option<string>,
                              before: set<string>, after: set<string>)
    {
      var mid := Fetched(item, e, video, before);
      && Obtained(item, e, v0, video, before, mid)
      && if MediaError(item.needsDownload, copyFiles, e).Some? then transcript == t0 && after == mid
         else video.Some? && Written(e, t0, video.value, transcript, mid, after)
    }

    /** The two steps together make up what processing the item does. */
    lemma ObtainThenWrite(item: ProcessingItem, e: Effects, v0: Option<string>, t0: Option<string>,
                          video: Option<string>, transcript: Option<string>,
                          before: set<string>, mid: set<string>, after: set<string>)
      requires Obtained(item, e, v0, video, before, mid)
      requires MediaError(item.needsDownload, copyFiles, e).Some? ==> transcript == t0 && after == mid
      requires MediaError(item.needsDownload, copyFiles, e).None? ==>
        video.Some? && Written(e, t0, video.value, transcript, mid, after)
      ensures Processed(item, e, v0, t0, video, transcript, before, after)
    {
      assert Fetched(item, e, video, before) == mid;
    }

    /** A completed item has a video and, with a transcriber, a transcript
        whose path did not exist before the item was processed and exists
        afterwards, unless it is the video path and the video was removed. */
    lemma CompletedItem(item: ProcessingItem, e: Effects, before: set<string>, after: set<string>)
      requires Settled(item, e) && item.status == Completed
      requires Processed(item, e, None, None, item.videoPath, item.transcriptPath, before, after)
      ensures item.videoPath.Some?
      ensures !downloadOnly ==>
        && item.transcriptPath.Some?
        && item.transcriptPath.value !in before
        && (item.transcriptPath.value in after <==>
              item.transcriptPath != item.videoPath || keepVideo || e.unlinkFails)
    {
      var mid := Fetched(item, e, item.videoPath, before);
      assert before <= mid;
    }

    /** `generate_transcript_filename`: the first candidate name that does not
        exist in the transcripts directory. */
    method GenerateTranscriptFilename(videoPath: string, disk: Disk) returns (filename: string)
      ensures exists n :: (FirstFree(disk.files, transcriptsDir, TranscriptScheme(videoPath), n)
                           && filename == Candidate(TranscriptScheme(videoPath), n))
    {
      var cleaned := CleanName(Stem(videoPath));
      ghost var s := TranscriptScheme(videoPath);
      var counter := 1;
      filename := cleaned + ".txt";
      while Join(transcriptsDir, filename) in disk.files
        invariant 1 <= counter && filename == Candidate(s, counter - 1)
        invariant forall k :: 0 <= k < counter - 1 ==> Slot(transcriptsDir, s, k) in disk.files
        decreases |disk.files| - counter
      {
        ExtendTaken(disk.files, transcriptsDir, s, counter - 1);
        TakenSlotsBound(disk.files, transcriptsDir, s, counter);
        filename := cleaned + "_" + NatToString(counter) + ".txt";
        counter := counter + 1;
      }
      assert FirstFree(disk.files, transcriptsDir, s, counter - 1);
    }

    /** The destination of a copied file: the first candidate path that does
        not exist in the videos directory. */
    method CopyDestination(source: string, disk: Disk) returns (dest: string)
      ensures FreeSlot(disk.files, videosDir, CopyScheme(source), dest)
    {
      ghost var s := CopyScheme(source);
      dest := Join(videosDir, Name(source));
      var counter := 1;
      while dest in disk.files
        invariant 1 <= counter && dest == Slot(videosDir, s, counter - 1)
        invariant forall k :: 0 <= k < counter - 1 ==> Slot(videosDir, s, k) in disk.files
        decreases |disk.files| - counter
      {
        ExtendTaken(disk.files, videosDir, s, counter - 1);
        TakenSlotsBound(disk.files, videosDir, s, counter);
        var stem := Stem(source);
        dest := Join(videosDir, stem + "_" + NatToString(counter) + Suffix(source));
        CopySlot(videosDir, source, counter);
        counter := counter + 1;
      }
      assert FirstFree(disk.files, videosDir, s, counter - 1);
    }

    /** Step 1 of `process_single_item`: download the URL, copy the file into
        the videos directory, or use the file where it is. */
    method ObtainVideo(item: ProcessingItem, disk: Disk, hasCallback: bool, e: Effects)
      returns (err: Option<string>, messages: seq<string>)
      modifies item, disk
      ensures err == MediaError(item.needsDownload, copyFiles, e)
      ensures item.history == old(item.history) + MediaStatus(item.needsDownload, copyFiles)
      ensures item.status == (if item.needsDownload then Downloading
                              else if copyFiles then Copying else old(item.status))
      ensures item.progress == old(item.progress) && item.errorMessage == old(item.errorMessage)
      ensures item.transcriptPath == old(item.transcriptPath)
      ensures messages == (if hasCallback && !item.needsDownload && copyFiles then [CopyingMessage(item.source)] else [])
      ensures err.Some? ==> item.videoPath == old(item.videoPath) && disk.files == old(disk.files)
      ensures err.None? && item.needsDownload ==>
        item.videoPath == Some(e.download.value) && disk.files == old(disk.files) + {e.download.value}
      ensures err.None? && !item.needsDownload && copyFiles ==>
        item.videoPath.Some? && item.videoPath.value !in old(disk.files)
        && disk.files == old(disk.files) + {item.videoPath.value}
      ensures err.None? && !item.needsDownload && !copyFiles ==>
        item.videoPath == Some(item.source) && disk.files == old(disk.files)
      ensures err.None? && (item.needsDownload || copyFiles) ==> item.videoPath.value in disk.files
      ensures Obtained(item, e, old(item.videoPath), item.videoPath, old(disk.files), disk.files)
    {
      messages := [];
      if item.needsDownload {
        item.status := Downloading;
        item.history := item.history + [Downloading];
        if e.download.Failure? {
          return Some(DownloadFailed + e.download.error), messages;
        }
        disk.files := disk.files + {e.download.value};
        item.videoPath := Some(e.download.value);
      } else if copyFiles {
        item.status := Copying;
        item.history := item.history + [Copying];
        if hasCallback {
          messages := [CopyingMessage(item.source)];
        }
        var dest := CopyDestination(item.source, disk);
        if e.copyError.Some? {
          return e.copyError, messages;
        }
        disk.files := disk.files + {dest};
        item.videoPath := Some(dest);
      } else {
        item.videoPath := Some(item.source);
      }
      err := None;
    }

    /** Step 2 of `process_single_item`: with a transcriber, write the
        transcript under a fresh name and remove the video unless it is kept. */
    method TranscribeVideo(item: ProcessingItem, disk: Disk, e: Effects) returns (err: Option<string>)
      requires Valid() && item.videoPath.Some?
      modifies item, disk
      ensures err == (if downloadOnly then None else e.transcribeError)
      ensures item.history == if downloadOnly then old(item.history) else old(item.history) + [Transcribing]
      ensures item.status == (if downloadOnly then old(item.status) else Transcribing)
      ensures item.progress == old(item.progress) && item.errorMessage == old(item.errorMessage)
      ensures item.videoPath == old(item.videoPath)
      ensures err.Some? || downloadOnly ==>
        item.transcriptPath == old(item.transcriptPath) && disk.files == old(disk.files)
      ensures err.None? && !downloadOnly ==>
        var video := item.videoPath.value;
        && item.transcriptPath.Some?
        && item.transcriptPath.value !in old(disk.files)
        && var written := old(disk.files) + {item.transcriptPath.value};
        && disk.files == (if !keepVideo && video in written && !e.unlinkFails
                          then written - {video} else written)
      ensures err.None? && !downloadOnly && item.videoPath.value in old(disk.files) ==>
        && item.transcriptPath.value !in old(disk.files)
        && item.transcriptPath.value in disk.files
        && (item.videoPath.value in disk.files <==> keepVideo || e.unlinkFails)
      ensures Written(e, old(item.transcriptPath), item.videoPath.value, item.transcriptPath, old(disk.files), disk.files)
    {
      if !downloadOnly && transcriber.Some? {
        item.status := Transcribing;
        item.history := item.history + [Transcribing];
        var video := item.videoPath.value;
        var name := GenerateTranscriptFilename(video, disk);
        var path := Join(transcriptsDir, name);
        if e.transcribeError.Some? {
          return e.transcribeError;
        }
        disk.files := disk.files + {path};
        item.transcriptPath := Some(path);
        if !keepVideo && video in disk.files {
          if !e.unlinkFails {
            disk.files := disk.files - {video};
          }
        }
      }
      err := None;
    }

    /** `process_single_item`: the error it raises, if any, and otherwise the
        completed item. */
    method ProcessSingleItem(item: ProcessingItem, disk: Disk, hasCallback: bool, e: Effects)
      returns (err: Option<string>, messages: seq<string>)
      requires Valid()
      modifies item, disk
      ensures err == FailureOf(item.needsDownload, copyFiles, downloadOnly, e)
      ensures var path := StatusPath(item.needsDownload, copyFiles, downloadOnly, e);
        item.history == old(item.history) + path && item.status == path[|path| - 1]
      ensures item.progress == (if err.None? then 100.0 else old(item.progress))
      ensures item.errorMessage == old(item.errorMessage)
      ensures messages == Announcements(hasCallback, copyFiles, item.source, item.needsDownload)
      ensures err.None? ==> item.videoPath.Some?
      ensures err.None? && downloadOnly ==> item.transcriptPath == old(item.transcriptPath)
      ensures err.None? && !downloadOnly ==> item.transcriptPath.Some?
      ensures err.None? && !downloadOnly && (item.needsDownload || copyFiles || item.source in old(disk.files)) ==>
        && item.transcriptPath.value !in old(disk.files)
        && item.transcriptPath.value in disk.files
        && (item.videoPath.value in disk.files <==> keepVideo || e.unlinkFails)
      ensures Processed(item, e, old(item.videoPath), old(item.transcriptPath),
                        item.videoPath, item.transcriptPath, old(disk.files), disk.files)
    {
      messages := if hasCallback then [ProcessingMessage(item.source)] else [];
      ghost var before := item.history;
      ghost var media := MediaStatus(item.needsDownload, copyFiles);
      ghost var v0, t0, d0 := item.videoPath, item.transcriptPath, disk.files;
      var copying;
      err, copying := ObtainVideo(item, disk, hasCallback, e);
      ghost var v1, d1 := item.videoPath, disk.files;
      if copying != [] {
        messages := messages + copying;
      }
      assert messages == Announcements(hasCallback, copyFiles, item.source, item.needsDownload);
      if err.Some? {
        ObtainThenWrite(item, e, v0, t0, v1, item.transcriptPath, d0, d1, disk.files);
        return;
      }
      err := TranscribeVideo(item, disk, e);
      ObtainThenWrite(item, e, v0, t0, v1, item.transcriptPath, d0, d1, disk.files);
      if err.Some? {
        assert item.history == before + (media + [Transcribing]);
        return;
      }
      item.status := Completed;
      item.history := item.history + [Completed];
      item.progress := 100.0;
      if downloadOnly {
        assert item.history == before + (media + [Completed]);
      } else {
        assert item.history == before + (media + [Transcribing, Completed]);
      }
    }

    /** The item has reached the end of processing: completed with full
        progress when none of its steps raised, otherwise marked as an error
        with the message of the step that raised. */
    predicate Settled(item: ProcessingItem, e: Effects)
      reads item
    {
      var failure := FailureOf(item.needsDownload, copyFiles, downloadOnly, e);
      && item.errorMessage == failure
      && item.status == (if failure.Some? then Error else Completed)
      && item.progress == (if failure.Some? then 0.0 else 100.0)
    }

    /** One pass of the loop of `process_mixed_input`: item `i` of the queue
        is processed and, when that raises, marked as an error with the
        message; its progress messages follow those of the items before it. */
    method ProcessOne(queue: seq<ProcessingItem>, i: nat, disk: Disk, hasCallback: bool, e: Effects,
                      before: seq<string>)
      returns (messages: seq<string>)
      requires Valid() && i < |queue| && Untouched(queue[i])
      requires before == Log(hasCallback, copyFiles, queue, i)
      modifies queue[i], disk
      ensures messages == Log(hasCallback, copyFiles, queue, i + 1)
      ensures Settled(queue[i], e)
      ensures Processed(queue[i], e, None, None, queue[i].videoPath, queue[i].transcriptPath, old(disk.files), disk.files)
    {
      var item := queue[i];
      var err, said := ProcessSingleItem(item, disk, hasCallback, e);
      messages := before + said;
      if err.Some? {
        item.status := Error;
        item.history := item.history + [Error];
        item.errorMessage := err;
      } else {
        StatusPathShape(item.needsDownload, copyFiles, downloadOnly, e);
      }
    }

    /** The loop of `process_mixed_input`: every item of the queue is
        processed in turn; an item whose processing raises is marked as an
        error with the message, and the queue goes on. `effects(i)` is what
        happens to the `i`-th item. */
    method RunQueue(queue: seq<ProcessingItem>, disk: Disk, hasCallback: bool, effects: nat -> Effects)
      returns (results: seq<ProcessingItem>, messages: seq<string>, ghost disks: seq<set<string>>)
      requires Valid()
      requires AllDifferent(queue)
      requires forall j :: 0 <= j < |queue| ==> Untouched(queue[j])
      modifies disk, queue
      ensures results == queue
      ensures messages == Log(hasCallback, copyFiles, queue, |queue|)
      ensures forall j: nat :: j < |queue| ==> Settled(queue[j], effects(j))
      ensures |disks| == |queue| + 1 && disks[0] == old(disk.files) && disks[|queue|] == disk.files
      ensures forall j: nat :: j < |queue| ==>
        Processed(queue[j], effects(j), None, None, queue[j].videoPath, queue[j].transcriptPath, disks[j], disks[j + 1])
      ensures forall j: nat :: j < |queue| && queue[j].status == Completed ==>
        && queue[j].videoPath.Some?
        && (!downloadOnly ==> queue[j].transcriptPath.Some? && queue[j].transcriptPath.value !in disks[j])
    {
      messages := [];
      disks := [disk.files];
      for i := 0 to |queue|
        invariant messages == Log(hasCallback, copyFiles, queue, i)
        invariant forall j: nat :: j < |queue| ==>
          if j < i then Settled(queue[j], effects(j)) else Untouched(queue[j])
        invariant |disks| == i + 1 && disks[0] == old(disk.files) && disks[i] == disk.files
        invariant forall j: nat :: j < i ==>
          Processed(queue[j], effects(j), None, None, queue[j].videoPath, queue[j].transcriptPath, disks[j], disks[j + 1])
      {
        messages := ProcessOne(queue, i, disk, hasCallback, effects(i), messages);
        disks := disks + [disk.files];
      }
      forall j: nat | j < |queue| && queue[j].status == Completed
        ensures queue[j].videoPath.Some?
        ensures !downloadOnly ==> queue[j].transcriptPath.Some? && queue[j].transcriptPath.value !in disks[j]
      {
        CompletedItem(queue[j], effects(j), disks[j], disks[j + 1]);
      }
      // every pass appends the item it processed, so the results are the queue
      results := queue;
    }

    /** `process_mixed_input`: the URLs of the input and then its files, each
        processed in turn (see `RunQueue`). */
    method ProcessMixedInput(disk: Disk, text: string, hasCallback: bool, effects: nat -> Effects)
      returns (results: seq<ProcessingItem>, messages: seq<string>, ghost disks: seq<set<string>>)
      requires Valid()
      modifies disk
      ensures var segs := InputProcessor.Segments(SplitOn(text, InputProcessor.ItemSeparators));
        var route := InputProcessor.Route(old(disk.files));
        Queued(results, InputProcessor.Sources(segs, route, InputProcessor.Urls),
               InputProcessor.Sources(segs, route, InputProcessor.Files))
      ensures AllDifferent(results) && forall i :: 0 <= i < |results| ==> fresh(results[i])
      ensures messages == Log(hasCallback, copyFiles, results, |results|)
      ensures forall i: nat :: i < |results| ==> Settled(results[i], effects(i))
      ensures |disks| == |results| + 1 && disks[0] == old(disk.files) && disks[|results|] == disk.files
      ensures forall i: nat :: i < |results| ==>
        Processed(results[i], effects(i), None, None, results[i].videoPath, results[i].transcriptPath, disks[i], disks[i + 1])
      ensures forall i: nat :: i < |results| && results[i].status == Completed ==>
        && results[i].videoPath.Some?
        && (!downloadOnly ==> results[i].transcriptPath.Some? && results[i].transcriptPath.value !in disks[i])
    {
      var parsed := InputProcessor.ParseMixedInput(text, disk.files);
      var queue := NewQueue(parsed.urls, parsed.files);
      results, messages, disks := RunQueue(queue, disk, hasCallback, effects);
    }
  }
}
