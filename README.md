# TranscriptAI core, modelled in Dafny

TranscriptAI turns a list of YouTube (or other) URLs and local media files
into text transcripts. Its core has five parts, modelled here one Dafny module per
concern:

- **InputProcessor** (`input_processor.dfy`, from `src/core/input_processor.py`).
  It splits the user's mixed input on `;` and newlines, then sorts each
  segment into URLs, existing media files, or rejections with their reason.
  It also validates a list of file paths.
- **Downloader**, **Captions**, **CaptionParsing** and **CaptionFetch**
  (from `src/core/downloader.py`).
  - the yt-dlp progress hook, with ANSI codes removed and the percentage parsed;
  - the YouTube URL test;
  - caption line cleaning and timestamp normalisation;
  - the VTT/SRT caption parser, as a class whose `flush_cue` updates its
    fields;
  - the ordered, de-duplicated list of cookie sources;
  - the choice of the newest caption file;
  - the retry loop with exponential back-off over cookie sources, and the
    message it raises in the end.
- **Transcriber** (`transcriber.dfy`, from `src/core/transcriber.py`).
  - device resolution;
  - the ffmpeg/ffprobe check;
  - model loading and unloading on a `WhisperTranscriber` object;
  - the elapsed-time progress estimator and its 0.5-point emit threshold;
  - the outcome and progress messages of `transcribe` and `transcribe_and_save`.
- **Processor** (`processor.dfy`, from `src/core/processor.py`).
  - `ProcessingItem` and `UnifiedProcessor` as classes;
  - the item state machine (pending, downloading/copying, transcribing,
    completed/error);
  - collision-free copy and transcript names;
  - the file-system effects on a `Disk` object;
  - the queue loop, where a failing item is marked as an error and the
    loop goes on.
- **Analyzer** (`analyzer.dfy`, from `src/core/analyzer.py`).
  - the Ollama model-name normalisation and matching;
  - the extraction of model names and chat content from both reply
    shapes;
  - `ensure_model`'s resolve/pull/resolve sequence on an
    `OllamaAnalyzer` object;
  - the error texts of `_generate_response`;
  - the JSON-or-fallback parsing of quotes and topics.

`Text`, `Paths` and `Wrappers` hold the Python string, path and
`Option`/`Result` operations the other modules need.

**External effects become inputs.** yt-dlp, Whisper, torch, the Ollama
client, the file system, environment variables and the clock are all given
as parameters. Examples:

| effect | parameter |
|---|---|
| a caption download | an `Extraction` value |
| each yt-dlp call in the retry loop | a `call` function |
| `shutil.which` | a `found` function |
| whether the model loads or Whisper raises | `Result` values |
| the wake-up times of the progress thread | an `elapsed` sequence |
| `json.loads` | an abstract `parse` function |
| the existence of files | the set `Disk.files`, or an `existing` set |

An exception is a `Failure` or `Some(error)` carrying its message.

When `keep_video` is off, the processor deletes the video after a
successful transcription, whatever its origin: a downloaded file, a copy,
or, when `copy_files` is also off, the user's own file, transcribed in
place. `TranscribeVideo` states this: after a transcription, the video is
gone from the disk exactly when it is not kept and its unlink does not
raise.

**Caption cleaning is not idempotent.** The cleaning of caption lines
could be expected to leave an already-clean line alone. The code does not
do this: tags are removed before entities are decoded, so `&lt;b&gt;`
cleans to `<b>`, and cleaning that again deletes it. The model follows
the code: `CleanNotIdempotent` exhibits the case, and
`CleanIdempotentWhenPlain` shows that cleaning twice is cleaning once
whenever the cleaned line holds no `<` and no `&`.

## Model

| member | source | states |
|---|---|---|
| InputProcessor.HasMediaSuffix | src/core/input_processor.py:27-30 | a media suffix is a dot and three or four characters |
| InputProcessor.MediaSuffixIgnoresTrailing | src/core/input_processor.py:46-56 | `clip.mp4/` and `clip.mp4/.` have a media suffix exactly when `clip.mp4` has one |
| InputProcessor.LooksLikeUrl | src/core/input_processor.py:20-24 | text matching a URL pattern has at least four characters |
| InputProcessor.DomainPatternAgrees | src/core/input_processor.py:23 | the hand-written matcher for the bare-domain pattern (a run of letters, digits and hyphens, a dot, then one of the listed top-level domains) accepts exactly the strings the regular expression matches at their start |
| InputProcessor.LabelRun | src/core/input_processor.py:23 | the label run is the longest prefix of letters, digits and hyphens |
| InputProcessor.DetectInputType | src/core/input_processor.py:33-59 | the result is a URL exactly when the stripped text is non-empty and matches a URL pattern; it is a file exactly when it is non-empty, not a URL, and has a media suffix, whether or not the file exists |
| InputProcessor.Segments | src/core/input_processor.py:71-76 | every kept segment is non-empty and stripped |
| InputProcessor.ParseMixedInput | src/core/input_processor.py:62-92 | the three lists are the segments routed to URLs and to existing files, in input order, and the rejections of the rest, each with its reason |
| InputProcessor.PartitionIsExact | src/core/input_processor.py:73-90 | as multisets, the URL, file and rejected lists together are exactly the segments: nothing is lost or duplicated |
| InputProcessor.SourcesAreRouted | src/core/input_processor.py:73-90 | every listed item is a segment that was routed to that list |
| InputProcessor.SegmentRouting | src/core/input_processor.py:78-90 | a segment goes to URLs iff it looks like a URL, and to files iff it is not a URL, has a media suffix and exists; otherwise it is rejected |
| InputProcessor.BucketsAreSound | src/core/input_processor.py:78-90 | every accepted file exists and has a media suffix, every URL looks like one, and every rejected segment is neither |
| InputProcessor.Rejections | src/core/input_processor.py:88-90 | there is one reason per rejected segment |
| InputProcessor.ValidateFiles | src/core/input_processor.py:95-110 | the valid paths and the messages are those the model functions give, in input order |
| InputProcessor.ValidationIsExact | src/core/input_processor.py:95-110 | each path produces exactly one entry, valid or invalid; a valid path exists and has a media suffix; every message is a path with one of the two reasons |
| InputProcessor.ReasonsAreRejections | src/core/input_processor.py:106-108 | both reason suffixes mark a message as a rejection |
| Paths.DropTrailing | src/core/processor.py:114-122 | the path without its trailing separators and `.` components: a prefix of the path that ends in neither |
| Paths.Name | src/core/processor.py:114-122 | a path's name holds no separator and is never `.` |
| Paths.NameIgnoresTrailing | src/core/processor.py:114-122 | `p/`, `p/.` and `p/./` have the same name as `p` |
| Paths.Suffix | src/core/processor.py:126-127 | a suffix is empty or a dot and at least one more character, ending the name |
| Paths.Stem | src/core/processor.py:126-127 | the stem begins the name and is empty only for an empty name |
| Paths.SuffixIgnoresTrailing | src/core/processor.py:126-127 | a trailing separator or `.` component changes neither suffix nor stem |
| Paths.StemSuffix | src/core/processor.py:126-127 | stem followed by suffix is the name |
| Paths.NameOfJoin | src/core/processor.py:122 | the name of `dir / name` is `name` |
| Paths.LastIndexOfIsLast | src/core/processor.py:126-127 | the index found is the last occurrence of the character |
| Downloader.StripAnsi | src/core/downloader.py:58 | removing colour codes never lengthens the text and adds no character |
| Downloader.StripAnsiOfPlain | src/core/downloader.py:58 | text without ESC is left unchanged |
| Downloader.StripAnsiOfCode | src/core/downloader.py:58 | a leading colour code is removed and the rest is handled alike |
| Downloader.CodeRun | src/core/downloader.py:58 | the run is the longest prefix of digits and semicolons |
| Downloader.KeepNumeric | src/core/downloader.py:59 | keeps only digits and dots |
| Downloader.KeepNumericOfNumeric | src/core/downloader.py:59 | a numeric string is kept whole |
| Downloader.KeepNumericAppend | src/core/downloader.py:59 | the filter distributes over concatenation |
| Downloader.KeepNumericOfOther | src/core/downloader.py:59 | text with no digit or dot becomes empty |
| Downloader.ParseDecimal | src/core/downloader.py:60-63 | a parsed value is never negative; `None` is the `ValueError` |
| Downloader.ParseDecimalOf | src/core/downloader.py:61 | `ip.fp` parses to its decimal value |
| Downloader.ParseDecimalTwoDots | src/core/downloader.py:62-63 | a string with two dots is rejected, so the percentage falls back to 0 |
| Downloader.Percent | src/core/downloader.py:54-65 | the percentage is never negative |
| Downloader.PercentIgnoresCode | src/core/downloader.py:58 | a leading colour code does not change the percentage |
| Downloader.PaddedNumeral | src/core/downloader.py:59 | spaces and `%` around a numeral are dropped |
| Downloader.PercentOfField | src/core/downloader.py:54-63 | a padded field such as ` 42.5%` gives its decimal value |
| Downloader.ProgressHook | src/core/downloader.py:48-70 | a progress record is produced exactly when there is a callback and the status is `downloading`; its percent is never negative and its file name has no separator |
| Downloader.IsYoutubeUrl | src/core/downloader.py:72-76 | an accepted URL holds `youtu`, in any case, with room for the rest of a host name |
| Downloader.YoutubeUrlIgnoresCase | src/core/downloader.py:72-76 | the YouTube test ignores case |
| Downloader.YoutubeHostAccepted | src/core/downloader.py:72-76 | any URL containing `youtube.com` or `youtu.be` is accepted |
| Downloader.Dedupe | src/core/downloader.py:166 | `dict.fromkeys` keeps the same elements, each once |
| Downloader.DedupeOfDistinct | src/core/downloader.py:166 | a list without repeats is unchanged |
| Downloader.DedupeFront | src/core/downloader.py:166 | the configured browser stays first, and the rest keep their order without it |
| Downloader.CookieOrderDistinct | src/core/downloader.py:31 | the built-in browser order has no repeats |
| Downloader.RemoveRepeats | src/core/downloader.py:166 | the loop computes `Dedupe` |
| Downloader.BrowserSources | src/core/downloader.py:158-168 | without cookies the only source is anonymous; with cookies the sources are the de-duplicated browsers followed by the anonymous attempt |
| Downloader.SourcesShape | src/core/downloader.py:158-168 | every browser is tried once; the configured one is tried first; only the built-in and configured browsers appear; the anonymous attempt is not among them |
| Downloader.Filter | src/core/downloader.py:193-208 | keeps exactly the elements that pass the test |
| Downloader.Newest | src/core/downloader.py:213 | picks a candidate with the greatest mtime, and the first such one, as the stable reverse sort does |
| Downloader.SelectCaption | src/core/downloader.py:193-213 | fails with the no-track message exactly when there is no candidate; otherwise returns the newest candidate |
| Downloader.NoCandidateMeansNoCaption | src/core/downloader.py:204-211 | there is no candidate exactly when the directory has no `.vtt`/`.srt` file |
| Downloader.ChosenCaption | src/core/downloader.py:188-213 | the chosen file is a caption file in the directory; it is a new file of this video whenever one exists; no candidate is newer |
| Downloader.DownloadSubtitles | src/core/downloader.py:170-221 | a `DownloadError` and other exceptions pass through; the no-track, timestamp and empty-text failures are reported; on success the text is saved next to the caption as `<stem>.txt` |
| Downloader.FetchedShape | src/core/downloader.py:214-221 | a fetched transcript is non-empty and lies under the transcripts directory as a `.txt` file |
| Captions.FirstIndexIsFirst | src/core/downloader.py:81 | the index found is the first occurrence |
| Captions.StripTags | src/core/downloader.py:81 | removing `<…>` tags never lengthens the text |
| Captions.StripTagsKeepsChars | src/core/downloader.py:81 | removing tags adds no character |
| Captions.StripTagsLeavesNoTag | src/core/downloader.py:81 | the result holds no complete tag |
| Captions.StripTagsOfTagFree | src/core/downloader.py:81 | text without a tag is unchanged |
| Captions.StripTagsIdempotent | src/core/downloader.py:81 | removing tags twice is the same as once |
| Captions.Unescape | src/core/downloader.py:82 | unescaping entities never lengthens the text |
| Captions.UnescapePlainPrefix | src/core/downloader.py:82 | text before the first `&` is copied as it is |
| Captions.UnescapePlain | src/core/downloader.py:82 | text without `&` is unchanged |
| Captions.UnescapeAmp | src/core/downloader.py:82 | `&amp;` decodes to `&` and decoding goes on after it |
| Captions.UnescapeLt | src/core/downloader.py:82 | `&lt;` decodes to `<` and decoding goes on after it |
| Captions.UnescapeGt | src/core/downloader.py:82 | `&gt;` decodes to `>` and decoding goes on after it |
| Captions.UnescapeQuot | src/core/downloader.py:82 | `&quot;` decodes to `"` and decoding goes on after it |
| Captions.UnescapeApos | src/core/downloader.py:82 | `&#39;` decodes to `'` and decoding goes on after it |
| Captions.CollapseSpaces | src/core/downloader.py:83 | collapsing whitespace never lengthens the text and keeps whether it starts with a space |
| Captions.CollapseSpacesIsSingleSpaced | src/core/downloader.py:83 | the result has only single plain spaces |
| Captions.StripKeepsSingleSpaced | src/core/downloader.py:83 | stripping keeps the text single-spaced |
| Captions.CollapseSingleSpaced | src/core/downloader.py:83 | single-spaced text is unchanged by the collapse |
| Captions.LoneSpace | src/core/downloader.py:83 | a single space before a non-space is kept as it is |
| Captions.CleanLineIsTidy | src/core/downloader.py:78-84 | a cleaned caption line is stripped and single-spaced |
| Captions.CleanOfPlain | src/core/downloader.py:79-84 | a stripped, single-spaced line with no `<` and no `&` is its own cleaned form |
| Captions.CleanIdempotentWhenPlain | src/core/downloader.py:79-84 | cleaning a cleaned line again changes nothing when it holds no `<` and no `&` |
| Captions.CleanNotIdempotent | src/core/downloader.py:79-84 | for any body `t` free of `<`, `>`, `&` and whitespace, `&lt;t&gt;` cleans to `<t>`, and `<t>` cleans to the empty line |
| Captions.EscapedTagCleans | src/core/downloader.py:81-83 | `&lt;t&gt;` survives tag removal and decodes to `<t>` |
| Captions.TagCleansAway | src/core/downloader.py:81 | `<t>` is one tag and is removed whole |
| Captions.NormalizeTimestamp | src/core/downloader.py:86-99 | a normalised time is never empty; `None` is the `ValueError` of `int()` |
| Captions.NormalizePadsFullTime | src/core/downloader.py:91-94 | `H:M:S.f` with numeral fields of any length gives each of hours, minutes and whole seconds zero-padded to two digits |
| Captions.NormalizePadsShortTime | src/core/downloader.py:95-98 | `M:S.f` with numeral fields gives `00:` then minutes and whole seconds zero-padded to two digits |
| Captions.NormalizeSingleDigits | src/core/downloader.py:91-94 | `h:m:s.f` with single digits becomes `0h:0m:0s` |
| Captions.PadDigit | src/core/downloader.py:94 | a single digit is padded with one leading zero |
| Captions.NormalizeManyFields | src/core/downloader.py:99 | a time with four or more fields becomes `00:00:00` |
| Captions.NormalizeFullTime | src/core/downloader.py:91-94 | `HH:MM:SS.fff` or `HH:MM:SS,fff` normalises to `HH:MM:SS` |
| Captions.NormalizeShortTime | src/core/downloader.py:95-98 | `MM:SS.fff` normalises to `00:MM:SS` |
| Captions.NormalizeWithoutColon | src/core/downloader.py:99 | a time without a colon becomes `00:00:00` |
| Captions.ClockOfDigits | src/core/downloader.py:94 | two-digit fields format back to themselves |
| CaptionParsing.KindOf | src/core/downloader.py:124-140 | a content line is non-empty and stripped; a timing line's start time is never empty |
| CaptionParsing.CaptionParser.constructor | src/core/downloader.py:105-108 | the parser starts with no lines, no timestamp, no cue and no last text |
| CaptionParsing.Flush | src/core/downloader.py:110-122 | a flush empties the cue, keeps the timestamp and adds at most the line for the text it keeps |
| CaptionParsing.Step | src/core/downloader.py:124-140 | a step fails exactly on a timing line whose time is not a number; a timing line flushes and sets the timestamp; a text line joins the cue and emits nothing |
| CaptionParsing.Output | src/core/downloader.py:101-143 | the output is stripped, and it is missing exactly when the loop raised |
| CaptionParsing.CaptionParser.FlushCue | src/core/downloader.py:110-122 | the new state is `Flush` of the old one |
| CaptionParsing.Feed | src/core/downloader.py:124-140 | one loop pass moves the parser to the state `Step` gives, and fails exactly when the timestamp raised |
| CaptionParsing.ReadLine | src/core/downloader.py:124-140 | line i moves the parser one step along `Run`, or the whole run fails |
| CaptionParsing.ReadLines | src/core/downloader.py:124-140 | after the loop, the parser holds the state `Run` gives, or the loop stopped because `Run` fails |
| CaptionParsing.ParseCaptionText | src/core/downloader.py:101-143 | the result is `Output`: the stripped join of the flushed lines, or the exception |
| CaptionParsing.FlushKeepsGood | src/core/downloader.py:110-122 | a flush keeps the parser invariant, empties the cue and keeps the timestamp |
| CaptionParsing.FlushEmitsUnderCurrentStamp | src/core/downloader.py:110-122 | a flush adds at most one line, built from the current timestamp; it adds one exactly when the cue was non-empty and its cleaned text is non-empty and differs from the last |
| CaptionParsing.StepKeepsGood | src/core/downloader.py:124-140 | every loop pass keeps the parser invariant |
| CaptionParsing.RunIsGood | src/core/downloader.py:124-140 | after any number of lines, emitted lines are tidy, consecutive texts differ, and a `[time]` prefix appears only with timestamps on |
| CaptionParsing.StampMeansTiming | src/core/downloader.py:135-139 | a timestamp is set exactly when a timing line has been read |
| CaptionParsing.TimingLine | src/core/downloader.py:135-139 | a timing line first flushes under the previous timestamp, then makes its own start time current |
| CaptionParsing.PlainOutput | src/core/downloader.py:119-122 | without timestamps the output lines are the cleaned texts, each tidy, with no two consecutive ones equal |
| CaptionParsing.OutputIsJoinedLines | src/core/downloader.py:142-143 | the output is the newline join of the flushed lines, which needs no further strip |
| CaptionParsing.JoinTrimmed | src/core/downloader.py:143 | joining stripped non-empty lines gives stripped non-empty text |
| CaptionParsing.SkippedKind | src/core/downloader.py:129-134 | header, `NOTE` and cue-number lines are skipped |
| CaptionParsing.SkippedLine | src/core/downloader.py:129-134 | a skipped line leaves the parser state unchanged |
| CaptionParsing.UpperKeepsHeader | src/core/downloader.py:129 | a `WEBVTT` header is recognised after upper-casing |
| CaptionFetch.Drive | src/core/downloader.py:223-251 | the retry loop from one source and attempt: a success follows a call; with no call made the loop raises the final message for the last error seen, with no pause |
| CaptionFetch.RetryPauses | src/core/downloader.py:228-235 | a rate-limited failure with retries left pauses `base * 2^attempt` and retries the same source |
| CaptionFetch.NoRetryAdvances | src/core/downloader.py:237-243 | any other failure, or a rate limit on the last attempt, moves to the next source without a pause |
| CaptionFetch.RateLimitedSource | src/core/downloader.py:224-243 | a source rate-limited on every attempt gets all `max_retries + 1` calls, with the pauses `base * 2^k` for k from the attempt reached up to `max_retries - 1`, then the loop moves on with the last rate-limit error |
| CaptionFetch.BackoffSchedule | src/core/downloader.py:150-151 | with the defaults, 3 retries and a base of 8 s, the pauses are 8, 16 and 32 seconds |
| CaptionFetch.DrivePerSource | src/core/downloader.py:224-225 | each source is called at most `max_retries + 1` times |
| CaptionFetch.FetchCaptions | src/core/downloader.py:223-251 | the result, pauses and sources tried are those `Drive` gives |
| CaptionFetch.TrySource | src/core/downloader.py:224-243 | one source's attempts extend the run exactly as `Drive` does |
| CaptionFetch.DownloadYoutubeCaptions | src/core/downloader.py:145-251 | a non-YouTube URL fails at once with no calls; otherwise the run is `Drive` over the cookie sources |
| CaptionFetch.DriveStopsAtFetch | src/core/downloader.py:226-227 | the loop stops at the first successful call; every earlier call failed; the result is that call's text and path |
| CaptionFetch.DriveFailure | src/core/downloader.py:245-251 | on failure the message is the final message built from the last error |
| CaptionFetch.DriveDelays | src/core/downloader.py:231-235 | every pause is `base * 2^k` for some k below `max_retries`, and each pause precedes a call |
| CaptionFetch.DriveCallCount | src/core/downloader.py:224-225 | the total number of calls is at most the number of sources times `max_retries + 1` |
| CaptionFetch.DriveUsesSources | src/core/downloader.py:224 | calls use only the given sources |
| CaptionFetch.DriveTriesEverySource | src/core/downloader.py:224-243 | when every call fails, every source has been tried |
| CaptionFetch.FetchSummary | src/core/downloader.py:223-251 | success iff some call fetched, and then the last call is that fetch; the call count is bounded; every pause is a back-off step |
| CaptionFetch.NoAttempts | src/core/downloader.py:223-251 | with negative `max_retries` no call is made and the message is the unknown-error one |
| CaptionFetch.FinalMessageRateLimited | src/core/downloader.py:245-251 | the rate-limit message is raised exactly when the last error mentions 429 or Too Many Requests; otherwise the message starts with `YouTube captions unavailable: ` |
| CaptionFetch.UnavailableIsNotRateLimited | src/core/downloader.py:246-251 | the two final messages never coincide |
| Transcriber.ResolveDevice | src/core/transcriber.py:42-65 | an explicit device other than `auto` is used lower-cased; otherwise cuda when available, else mps when built and available, else cpu |
| Transcriber.ResolvedDeviceIsStable | src/core/transcriber.py:42-65 | a resolved device is lower-case and resolves to itself |
| Transcriber.AutoMeansProbe | src/core/transcriber.py:44 | `auto` in any case is the same as no device |
| Transcriber.ProbedNameIsPlain | src/core/transcriber.py:50-65 | the probed names are lower-case, stripped and not `auto` |
| Transcriber.MissingTools | src/core/transcriber.py:130-132 | lists exactly the tools not found, in the order ffmpeg, ffprobe |
| Transcriber.FfmpegCheck | src/core/transcriber.py:128-138 | the check raises exactly when a tool is missing, with the message naming them |
| Transcriber.FfmpegMessageNamesTools | src/core/transcriber.py:134 | the message lists exactly the missing tools |
| Transcriber.Estimate | src/core/transcriber.py:169-178 | an estimate never exceeds 95 with a known duration, or 90 without |
| Transcriber.EstimateNow | src/core/transcriber.py:167-178 | the thread's estimate at one wake-up, and the update counter it leaves |
| Transcriber.TickMessage | src/core/transcriber.py:185-189 | every periodic message starts with `Transcribing... ` |
| Transcriber.Ticks | src/core/transcriber.py:163-190 | after n wake-ups at most n messages were sent |
| Transcriber.TicksStep | src/core/transcriber.py:180-190 | one wake-up adds a message exactly when the estimate rose by 0.5 or more |
| Transcriber.ReportProgress | src/core/transcriber.py:163-192 | the thread's messages are those `Ticks` gives |
| Transcriber.TicksRise | src/core/transcriber.py:180-190 | sent percentages rise by at least 0.5 each time, never pass the cap, and all have stage `processing` |
| Transcriber.TicksNeverLag | src/core/transcriber.py:180-182 | no estimate so far is 0.5 or more above the last one sent |
| Transcriber.TicksWithoutDuration | src/core/transcriber.py:175-178 | without a duration, after n wake-ups, there are min(n, 45) messages, the k-th says 2k percent, and the last reported value is min(90, 2n) |
| Transcriber.NoDurationStep | src/core/transcriber.py:175-190 | one more wake-up without a duration keeps that shape |
| Transcriber.OutputPath | src/core/transcriber.py:235-242 | an explicit output path is used; otherwise the file is `<stem>.txt` in the given or default transcripts directory |
| Transcriber.RunWhisper | src/core/transcriber.py:153-228 | the stripped text or `Transcription failed: …`, with the start, periodic and completion messages when there is a callback |
| Transcriber.WhisperTranscriber.constructor | src/core/transcriber.py:35-39 | the device is resolved; fp16 is used exactly on cuda; no model is loaded |
| Transcriber.WhisperTranscriber.LoadModel | src/core/transcriber.py:67-88 | a loaded model is kept; otherwise the model is loaded, with the loading and loaded messages, or the error is reported after the loading message |
| Transcriber.WhisperTranscriber.UnloadModel | src/core/transcriber.py:90-97 | no model is held afterwards |
| Transcriber.WhisperTranscriber.Transcribe | src/core/transcriber.py:140-228 | a missing tool fails first and changes nothing; then a load failure; otherwise the stripped Whisper text or its failure, with every message in order; result and messages together are `TranscribeOutcome` for whether a model was already held |
| Transcriber.WhisperTranscriber.TranscribeAndSave | src/core/transcriber.py:230-258 | a failure of `transcribe` is returned with its error and messages unchanged; on success, the text and the output path, after `transcribe`'s messages and then `Saving to …` at 90 and `Saved to …` at 100; it succeeds exactly when the check, the load and Whisper succeed |
| Processor.SlotInjective | src/core/processor.py:50-55 | different counters give different candidate paths |
| Processor.FirstFreeUnique | src/core/processor.py:50-55 | there is only one first free counter |
| Processor.TakenSlotsBound | src/core/processor.py:53-55 | the uniqueness loop runs at most as many times as there are files, so it ends |
| Processor.CleanName | src/core/processor.py:47-48 | the cleaned name never grows and has none of the characters the cleaning pattern removes and no space |
| Processor.CleanNameOfClean | src/core/processor.py:47-48 | a name that is already clean is unchanged |
| Processor.CleanNameKeeps | src/core/processor.py:47-48 | every other character survives |
| Processor.TranscriptNamesAreClean | src/core/processor.py:47-54 | every candidate transcript name is clean and ends in `.txt` |
| Processor.UnifiedProcessor.GenerateTranscriptFilename | src/core/processor.py:39-57 | the name is the first candidate, `<clean>.txt` then `<clean>_<n>.txt`, that does not exist in the transcripts directory |
| Processor.UnifiedProcessor.CopyDestination | src/core/processor.py:122-128 | the destination is the first free one of `<name>`, then `<stem>_<n><suffix>`, in the videos directory |
| Processor.ProcessingItem.constructor | src/core/processor.py:16-26 | a new item is pending, at 0 %, with no error, no video and no transcript |
| Processor.NewQueue | src/core/processor.py:69-77 | the queue holds fresh, distinct, pending items: the URLs, to be downloaded, then the files |
| Processor.UnifiedProcessor.constructor | src/core/processor.py:32-37 | a transcriber exists exactly when the processor is not download-only |
| Processor.MediaError | src/core/processor.py:107-134 | getting the video fails exactly when the download fails, or when the copy fails for a copied file; an in-place file cannot fail |
| Processor.FailureOf | src/core/processor.py:97-164 | an item fails exactly when getting the video fails, or when there is a transcriber and transcription fails; a failed download gives `Download failed: …` |
| Processor.StatusPath | src/core/processor.py:107-162 | an item always passes through at least one status |
| Processor.StatusPathShape | src/core/processor.py:107-162 | the item ends completed exactly when nothing failed; it downloads exactly for URLs; it copies exactly for copied files; it transcribes only with a transcriber; it never returns to pending |
| Processor.DownloadOnlyPath | src/core/processor.py:136-162 | in download-only mode a successful item goes from getting the video straight to completed |
| Processor.AnnouncementsShape | src/core/processor.py:103-120 | an item is announced exactly when there is a callback, first with its `Processing` line; copied files also get a `Copying` line |
| Processor.LogLength | src/core/processor.py:80-93 | without a callback nothing is logged; with one, each item logs one or two lines |
| Processor.UnifiedProcessor.ObtainVideo | src/core/processor.py:106-134 | a download adds the downloaded file; a copy adds a new file at a free destination; an in-place file is used as is; a failure leaves the item's video and the disk unchanged (all of it together as `Obtained`) |
| Processor.UnifiedProcessor.TranscribeVideo | src/core/processor.py:136-159 | with a transcriber, the transcript is written to a file that did not exist, and the video is deleted exactly when it is not kept and its unlink does not raise; without one, or when transcription raises, the transcript path and the disk are unchanged (as `Written`) |
| Processor.UnifiedProcessor.ProcessSingleItem | src/core/processor.py:97-164 | the item's failure, status history, progress and messages are those the model functions give; a completed item has a video and, with a transcriber, a new transcript on disk; its paths and the disk change as `Processed` says: a failed download or copy changes neither, a download's video is the downloaded file, an in-place file's video is its own path, the copy and the transcript are new files, and a failed transcription adds only the obtained video |
| Processor.UnifiedProcessor.ProcessOne | src/core/processor.py:81-93 | a failing item is marked as an error with its message and 0 %; a successful one is completed at 100 %; the messages extend the log; the item's video and transcript paths and the disk change as `Processed` says |
| Processor.UnifiedProcessor.ObtainThenWrite | src/core/processor.py:106-159 | getting the video and then, unless that failed, writing the transcript is what processing an item does to its paths and the disk |
| Processor.UnifiedProcessor.CompletedItem | src/core/processor.py:136-162 | a completed item has a video and, with a transcriber, a transcript that did not exist before the item and exists afterwards unless it is the removed video itself |
| Processor.UnifiedProcessor.RunQueue | src/core/processor.py:80-95 | every item of the queue is settled, in order, and the results are the queue itself; the disk goes through one state per item, each step as `Processed` says for that item; every completed item has a video and, with a transcriber, a transcript that did not exist when the item started |
| Processor.UnifiedProcessor.ProcessMixedInput | src/core/processor.py:59-95 | the results are fresh items for the parsed URLs then files, each settled as its effects decide, with the matching progress log; the disk goes from its old state through one step per item, each as `Processed` says; every completed item has a video and, with a transcriber, a new transcript |
| Analyzer.NormalizeModelName | src/core/analyzer.py:30-33 | a normalised name has no tag separator |
| Analyzer.NormalizeKeepsHead | src/core/analyzer.py:30-33 | the normalised name is the lower-cased, stripped name up to its first `:` |
| Analyzer.NormalizeDropsTag | src/core/analyzer.py:30-33 | for any tag, `base:tag` and `base` normalise to the same base |
| Analyzer.FirstTruthy | src/core/analyzer.py:42-50 | `a or b` on optional names: the first non-empty value, if any |
| Analyzer.FilterMapFrom | src/core/analyzer.py:41-52 | every kept name comes from one of the entries |
| Analyzer.ModelNames | src/core/analyzer.py:35-53 | there is at most one name per entry, and no name is empty |
| Analyzer.ExtractModelNames | src/core/analyzer.py:35-53 | the loop computes `ModelNames`, taking `name or model` for dicts and `model or name` for objects |
| Analyzer.Available | src/core/analyzer.py:68-74 | a failed listing gives no models; listed names are never empty |
| Analyzer.ExtractChatContent | src/core/analyzer.py:55-66 | a non-empty result is the message content; the result is empty exactly when there is no message or its content is empty |
| Analyzer.GenerateResponse | src/core/analyzer.py:119-134 | the reply is never empty: the content, `Error: Empty model response`, or `Error: ` followed by the exception |
| Analyzer.FirstMatch | src/core/analyzer.py:92-98 | a resolved name is one of the listed names and matches the model |
| Analyzer.FirstMatchFindsAny | src/core/analyzer.py:84-98 | a name resolves exactly when some listed name matches |
| Analyzer.FirstMatchAt | src/core/analyzer.py:95-97 | the resolved name is the first matching one in list order |
| Analyzer.OllamaAnalyzer.constructor | src/core/analyzer.py:24-28 | the model is the one given and `keep_alive` is `0s` |
| Analyzer.OllamaAnalyzer.ListAvailableModels | src/core/analyzer.py:68-74 | the names are those of `Available` |
| Analyzer.OllamaAnalyzer.CheckModelAvailability | src/core/analyzer.py:76-90 | true exactly when some available name matches the model |
| Analyzer.OllamaAnalyzer.ResolveModelName | src/core/analyzer.py:92-98 | the first matching available name, if any |
| Analyzer.OllamaAnalyzer.EnsureModel | src/core/analyzer.py:100-117 | succeeds exactly when a name resolves before the pull, or after a pull that did not raise; the model becomes that name, which matches the old one; on failure the model is unchanged |
| Analyzer.DropBullet | src/core/analyzer.py:181 | removes one leading bullet and the spaces after it |
| Analyzer.StripChars | src/core/analyzer.py:182 | the result has no quote character at either end, and clean text is unchanged |
| Analyzer.SliceTo | src/core/analyzer.py:185 | Python's `s[:n]`, including negative n |
| Analyzer.QuoteOf | src/core/analyzer.py:177-184 | a quote comes from a non-heading line longer than 20 characters; it is non-empty and has no surrounding quote characters |
| Analyzer.TopicOf | src/core/analyzer.py:208-213 | a topic comes from a non-empty line that is not a heading |
| Analyzer.FallbackQuotes | src/core/analyzer.py:174-185 | at most `max_quotes` quotes |
| Analyzer.FallbackTopics | src/core/analyzer.py:204-214 | at most ten topics |
| Analyzer.FallbackItems | src/core/analyzer.py:174-214 | every fallback item is non-empty and no longer than the reply |
| Analyzer.PlainLineIsKept | src/core/analyzer.py:174-214 | a plain line of more than 20 characters is the only quote and the only topic |
| Analyzer.EmptyReplyIsKept | src/core/analyzer.py:119-214 | the empty-reply error text is the only quote and the only topic |
| Analyzer.QuotesFromLines | src/core/analyzer.py:175-185 | the loop computes `FallbackQuotes` |
| Analyzer.TopicsFromLines | src/core/analyzer.py:206-214 | the loop computes `FallbackTopics` |
| Analyzer.ExtractQuotes | src/core/analyzer.py:150-185 | a JSON list gives its items; other JSON gives none; unparsable text gives the fallback quotes |
| Analyzer.ExtractTopics | src/core/analyzer.py:187-214 | a JSON list gives its items; other JSON gives none; unparsable text gives the fallback topics |

## Left out

- **File I/O.** Reading and writing files is not modelled; the processor
  and downloader record paths in `Disk.files`. `read_text` followed by
  `splitlines` is taken as a given sequence of lines. `Disk.files` stands
  for both `exists()` and `is_file()`, so a directory whose name has a media
  suffix counts as a file here, though `is_file()` rejects it. The
  validated and parsed file lists hold the input strings, not normalised
  `Path` objects.
- **Windows paths.** Paths are `PurePosixPath`: `/` is the only separator.
  The program is also packaged as a Windows executable, where `pathlib`
  also splits on `\` and reads drive letters. That case is not modelled,
  and it changes `Name`, `Stem` and `Suffix`. For example, `C:\v\clip.mp4`
  would give the transcript name `clip.txt` on Windows, not `Cvclip.txt`. It
  touches `DetectInputType`, `ValidateFiles`, `CopyDestination` and
  `GenerateTranscriptFilename`.
- **Text.** Case mapping and digits are ASCII only; whitespace is the
  full `str.isspace` set. `int()` accepts surrounding whitespace and a
  sign, but not `_` separators. `html.unescape` handles only the five
  references `&amp;`, `&lt;`, `&gt;`, `&quot;` and `&#39;`.
- **Numbers.** Floats are reals, and `{:.1f}` formatting is an abstract
  `fmt` function.
- **Error detail.** The `ValueError` that `int()` raises on a malformed
  timing field carries a fixed message, not the field. Python exception
  types are reduced to their messages, except that `DownloadError` is kept
  apart.
- **Audio duration.** The ffprobe duration is an input, so `_get_audio_duration`
  is not modelled.
- **The progress thread.** It runs as a sequence of wake-up times, not
  concurrently. The `join` timeouts are not modelled.
- **Progress objects.** Callback progress objects are snapshots passed by
  value, so later mutation of a shared object is not modelled.
- **Caption files.** `glob` order and `st_mtime` are inputs. A failing
  `stat` is not modelled. `Path.resolve` is the identity.
- **Video download.** `UniversalDownloader.download` is an input outcome
  (`Effects.download`), with `Download failed: ` prepended to its error.
  The yt-dlp options are not modelled.
- Transcriber.WhisperTranscriber.TranscribeAndSave: the write of the
  transcript is not modelled; as called from the processor, its outcome is
  the `Effects.transcribeError` input.
- **File copies.** `shutil.copy2` and `Path.unlink` are effects whose
  failures are inputs (`copyError`, `unlinkFails`).
- **Progress callbacks.** The processor does not forward the download and
  transcription progress callbacks; only its own text messages are
  modelled.
- **async.** `async`/`await` and `run_in_executor` run sequentially.
- Processor.UnifiedProcessor.ObtainVideo: the statement that a copy goes to
  the first free destination is made on `CopyDestination`, not repeated
  here; `Obtained`, and with it `Processed`, states only that the copy is new.
- Processor.UnifiedProcessor.TranscribeVideo: states only that the
  transcript is new, not that it has the first free name; that is stated on
  `GenerateTranscriptFilename`. `Written`, and with it `Processed`, says the
  same.
- **Analyzer JSON.** `json.loads` is an abstract `parse` function, and JSON
  list items are taken as text. A dict reply whose value is `None` or not
  a string is not modelled.
- **Analyzer prompts.** The prompts and `transcript[:4000]` are not modelled.
- **Thin analyzer calls.** `summarize`, `analyze_sentiment`,
  `custom_analysis`, `test_model_response` and `full_analysis` only pass
  their prompt to `_generate_response`, whose reply is modelled by
  `GenerateResponse`. They and `AnalysisResult` are not modelled separately.
- **Analyzer print.** The `print` in `ensure_model` is not modelled.
- Transcriber.WhisperTranscriber.UnloadModel: `gc.collect` and the CUDA
  cache release are not modelled.
- **Start-up.** `ProjectPaths.ensure_directories` and the constructors'
  directory set-up are replaced by directory parameters.
- **Downloader test.** `test_downloader` and the other test entry points
  are not modelled.
