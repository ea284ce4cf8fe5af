/** `WhisperTranscriber`: the choice of the compute device, the loaded
    model held on the object, the check for the FFmpeg tools, the
    progress the background thread reports while Whisper runs, and the
    place the transcript is saved.

    Whisper, `torch`, `shutil.which`, the clock and the file system are
    inputs: `torch` describes what the device probes answer, `loaded` is
    what `whisper.load_model` returns, `whisper` what the transcription
    returns, `elapsed` the seconds the progress thread reads at each of
    its wake-ups, and `fmt` the `{:.1f}` formatting of a percentage. */
module Transcriber {
  import opened Wrappers
  import opened Text
  import opened Paths

  const FfmpegDownloadUrl := "https://www.ffmpeg.org/download.html"

  /** `TranscriptionProgress` as a callback sees it at the moment of the
      call. */
  datatype TranscriptionProgress = TranscriptionProgress(stage: string, percent: real, message: string)

  // ---------------------------------------------------------------------
  // `_resolve_device`
  // ---------------------------------------------------------------------

  /** `torch.backends.mps`; a probe that raised is `None`. */
  datatype Mps = NoMpsBackend | MpsBackend(built: Option<bool>, available: Option<bool>)

  /** The optional `torch` module; a probe that raised is `None`. */
  datatype Torch = NoTorch | Torch(cudaAvailable: Option<bool>, mps: Mps)

  predicate CudaReady(t: Torch) {
    t.Torch? && t.cudaAvailable == Some(true)
  }

  /** `is_built()` and then `is_available()` both answer yes. */
  predicate MpsReady(t: Torch) {
    t.Torch? && t.mps.MpsBackend? && t.mps.built == Some(true) && t.mps.available == Some(true)
  }

  /** The requested device is used as given: it is set, not blank, and
      not `auto` in any case. */
  predicate Overrides(device: Option<string>) {
    device.Some? && Strip(device.value) != "" && Lower(device.value) != "auto"
  }

  /** `_resolve_device(device)`. */
  function ResolveDevice(device: Option<string>, torch: Torch): (r: string)
    ensures Overrides(device) ==> r == Lower(device.value)
    ensures !Overrides(device) ==> r in {"cuda", "mps", "cpu"}
    ensures !Overrides(device) ==>
      && (r == "cuda" <==> CudaReady(torch))
      && (r == "mps" <==> !CudaReady(torch) && MpsReady(torch))
  {
    if Overrides(device) then Lower(device.value)
    else if CudaReady(torch) then "cuda"
    else if MpsReady(torch) then "mps"
    else "cpu"
  }

  /** A probed device name comes back unchanged from strip and lower. */
  lemma ProbedNameIsPlain(r: string)
    requires r in {"cuda", "mps", "cpu"}
    ensures Lower(r) == r && Strip(r) == r && r != "auto"
  {
    assert Trimmed(r);
  }

  /** The device is always lower-case, and handing a resolved device back
      in resolves to it again, whatever the hardware answers then. */
  lemma ResolvedDeviceIsStable(device: Option<string>, torch: Torch, later: Torch)
    ensures var r := ResolveDevice(device, torch);
      Lower(r) == r && ResolveDevice(Some(r), later) == r
  {
    if Overrides(device) {
      LowerIdempotent(device.value);
      StripLowerEmpty(device.value);
    } else {
      ProbedNameIsPlain(ResolveDevice(device, torch));
    }
  }

  /** `auto`, in any case, and a blank request both mean probing. */
  lemma AutoMeansProbe(device: string, torch: Torch)
    requires Lower(device) == "auto" || Strip(device) == ""
    ensures ResolveDevice(Some(device), torch) == ResolveDevice(None, torch)
  {
  }

  // ---------------------------------------------------------------------
  // `_ensure_ffmpeg_available`
  // ---------------------------------------------------------------------

  /** The tools that `shutil.which` does not find, in the order checked. */
  function MissingTools(found: string -> bool): (r: seq<string>)
    ensures forall t :: t in r <==> (t == "ffmpeg" || t == "ffprobe") && !found(t)
    ensures |r| <= 2 && (|r| == 2 ==> r == ["ffmpeg", "ffprobe"])
  {
    (if found("ffmpeg") then [] else ["ffmpeg"]) + (if found("ffprobe") then [] else ["ffprobe"])
  }

  const MissingToolsLead := "Missing required media tools: "
  const InstallHint := ". Install FFmpeg: " + FfmpegDownloadUrl

  /** The error `_ensure_ffmpeg_available` raises, if any. */
  function FfmpegCheck(found: string -> bool): (r: Option<string>)
    ensures r.None? <==> found("ffmpeg") && found("ffprobe")
    ensures r.Some? ==> r.value == MissingToolsLead + JoinWith(MissingTools(found), ", ") + InstallHint
  {
    var missing := MissingTools(found);
    if missing == [] then None else Some(MissingToolsLead + JoinWith(missing, ", ") + InstallHint)
  }

  /** The message names exactly the missing tools, `ffmpeg` first. */
  lemma FfmpegMessageNamesTools(found: string -> bool)
    ensures var listed := JoinWith(MissingTools(found), ", ");
      && (!found("ffmpeg") && !found("ffprobe") ==> listed == "ffmpeg, ffprobe")
      && (!found("ffmpeg") && found("ffprobe") ==> listed == "ffmpeg")
      && (found("ffmpeg") && !found("ffprobe") ==> listed == "ffprobe")
  {
  }

  // ---------------------------------------------------------------------
  // The progress thread of `transcribe`
  // ---------------------------------------------------------------------

  function Min(a: real, b: real): real {
    if a <= b then a else b
  }

  /** `int(x)`: truncation toward zero. */
  function Trunc(x: real): int {
    if x >= 0.0 then x.Floor else -((-x).Floor)
  }

  function IntText(i: int): string {
    if i < 0 then "-" + NatToString(-i) else NatToString(i)
  }

  /** The estimate `elapsed` seconds after the start: the share of 2.5
      times the audio duration, or, when the duration is unknown, two
      points for each of the `count` wake-ups so far. */
  function Estimate(duration: real, elapsed: real, count: nat): (r: real)
    ensures r <= (if duration > 0.0 then 95.0 else 90.0)
  {
    if duration > 0.0 then Min(95.0, elapsed / (duration * 2.5) * 100.0)
    else Min(90.0, count as real * 2.0)
  }

  /** One wake-up's estimate; `update_count` only moves without a
      duration. */
  method EstimateNow(duration: real, elapsed: real, updateCount: nat, ghost i: nat) returns (estimated: real, count: nat)
    requires updateCount == if duration > 0.0 then 0 else i
    ensures count == if duration > 0.0 then 0 else i + 1
    ensures estimated == Estimate(duration, elapsed, i + 1)
  {
    count := updateCount;
    if duration > 0.0 {
      var estimatedTotalTime := duration * 2.5;
      estimated := Min(95.0, elapsed / estimatedTotalTime * 100.0);
    } else {
      count := count + 1;
      estimated := Min(90.0, count as real * 2.0);
    }
  }

  function TickMessage(duration: real, elapsed: real, percent: real, fmt: real -> string): (m: string)
    ensures StartsWith(m, "Transcribing... ")
  {
    if duration > 0.0 then "Transcribing... " + fmt(percent) + "%"
    else "Transcribing... (" + IntText(Trunc(elapsed)) + "s elapsed)"
  }

  function TickUpdate(duration: real, elapsed: real, percent: real, fmt: real -> string): TranscriptionProgress {
    TranscriptionProgress("processing", percent, TickMessage(duration, elapsed, percent, fmt))
  }

  /** The updates sent and `last_progress_update` after the first `n`
      wake-ups. */
  datatype Ticker = Ticker(updates: seq<TranscriptionProgress>, last: real)

  function Ticks(duration: real, elapsed: seq<real>, fmt: real -> string, n: nat): (r: Ticker)
    requires n <= |elapsed|
    ensures |r.updates| <= n
  {
    if n == 0 then Ticker([], 0.0)
    else
      var t := Ticks(duration, elapsed, fmt, n - 1);
      var e := Estimate(duration, elapsed[n - 1], n);
      if e - t.last >= 0.5 then Ticker(t.updates + [TickUpdate(duration, elapsed[n - 1], e, fmt)], e)
      else t
  }

  lemma TicksStep(duration: real, elapsed: seq<real>, fmt: real -> string, i: nat)
    requires i < |elapsed|
    ensures var t := Ticks(duration, elapsed, fmt, i); var e := Estimate(duration, elapsed[i], i + 1);
      Ticks(duration, elapsed, fmt, i + 1) ==
        if e - t.last >= 0.5 then Ticker(t.updates + [TickUpdate(duration, elapsed[i], e, fmt)], e) else t
  {
  }

  /** `update_progress_periodically`, for the wake-ups before the
      transcription completes. */
  method ReportProgress(duration: real, elapsed: seq<real>, fmt: real -> string)
    returns (updates: seq<TranscriptionProgress>)
    ensures updates == Ticks(duration, elapsed, fmt, |elapsed|).updates
  {
    var last := 0.0;
    var updateCount := 0;
    updates := [];
    for i := 0 to |elapsed|
      invariant Ticks(duration, elapsed, fmt, i) == Ticker(updates, last)
      invariant updateCount == if duration > 0.0 then 0 else i
    {
      var estimated;
      estimated, updateCount := EstimateNow(duration, elapsed[i], updateCount, i);
      TicksStep(duration, elapsed, fmt, i);
      if estimated - last >= 0.5 {
        last := estimated;
        updates := updates + [TickUpdate(duration, elapsed[i], estimated, fmt)];
      }
    }
  }

  /** The reported percentages rise by at least half a point each time,
      start at 0.5 or more, stay within the cap (95, or 90 without a
      duration), and the last one is `last_progress_update`. */
  lemma {:induction false} TicksRise(duration: real, elapsed: seq<real>, fmt: real -> string, n: nat)
    requires n <= |elapsed|
    ensures var t := Ticks(duration, elapsed, fmt, n); var u := t.updates;
      && (forall i, j :: 0 <= i < j < |u| ==> u[i].percent + 0.5 <= u[j].percent)
      && (forall i :: 0 <= i < |u| ==> 0.5 <= u[i].percent <= t.last)
      && (forall i :: 0 <= i < |u| ==> u[i].percent <= (if duration > 0.0 then 95.0 else 90.0))
      && (forall i :: 0 <= i < |u| ==> u[i].stage == "processing")
      && (u == [] <==> t.last == 0.0)
      && (u != [] ==> u[|u| - 1].percent == t.last)
    decreases n
  {
    if n > 0 {
      TicksRise(duration, elapsed, fmt, n - 1);
    }
  }

  /** The display never lags behind the estimate by half a point or
      more: every estimate so far is below the last reported value plus
      0.5. */
  lemma {:induction false} TicksNeverLag(duration: real, elapsed: seq<real>, fmt: real -> string, n: nat)
    requires n <= |elapsed|
    ensures forall i :: 0 <= i < n ==> Estimate(duration, elapsed[i], i + 1) < Ticks(duration, elapsed, fmt, n).last + 0.5
    decreases n
  {
    if n > 0 {
      TicksNeverLag(duration, elapsed, fmt, n - 1);
      var t := Ticks(duration, elapsed, fmt, n - 1);
      var e := Estimate(duration, elapsed[n - 1], n);
      TicksStep(duration, elapsed, fmt, n - 1);
      if e - t.last >= 0.5 {
        assert Ticks(duration, elapsed, fmt, n).last == e;
      } else {
        assert Ticks(duration, elapsed, fmt, n) == t;
      }
    }
  }

  /** Without a duration the thread reports 2, 4, 6, ... up to 90, one
      step per wake-up, and nothing after the 45th. */
  lemma {:induction false} TicksWithoutDuration(duration: real, elapsed: seq<real>, fmt: real -> string, n: nat)
    requires duration <= 0.0 && n <= |elapsed|
    ensures NoDurationShape(Ticks(duration, elapsed, fmt, n), n)
    decreases n
  {
    if n > 0 {
      TicksWithoutDuration(duration, elapsed, fmt, n - 1);
      NoDurationStep(duration, elapsed, fmt, n);
    }
  }

  /** The updates after `n` wake-ups without a duration: one per wake-up
      up to the 45th, the k-th at 2k percent. */
  predicate NoDurationShape(t: Ticker, n: nat) {
    && |t.updates| == (if n <= 45 then n else 45)
    && (forall k :: 0 <= k < |t.updates| ==> t.updates[k].percent == (k + 1) as real * 2.0)
    && t.last == Min(90.0, n as real * 2.0)
  }

  lemma NoDurationStep(duration: real, elapsed: seq<real>, fmt: real -> string, n: nat)
    requires duration <= 0.0 && 0 < n <= |elapsed|
    requires NoDurationShape(Ticks(duration, elapsed, fmt, n - 1), n - 1)
    ensures NoDurationShape(Ticks(duration, elapsed, fmt, n), n)
  {
    var t := Ticks(duration, elapsed, fmt, n - 1);
    var e := Estimate(duration, elapsed[n - 1], n);
    TicksStep(duration, elapsed, fmt, n - 1);
    if n <= 45 {
      assert t.last == (n - 1) as real * 2.0 && e == n as real * 2.0;
      var u := t.updates + [TickUpdate(duration, elapsed[n - 1], e, fmt)];
      assert Ticks(duration, elapsed, fmt, n) == Ticker(u, e);
      assert forall k :: 0 <= k < |t.updates| ==> u[k] == t.updates[k];
    } else {
      assert t.last == 90.0 && e == 90.0;
    }
  }

  // ---------------------------------------------------------------------
  // The transcriber object
  // ---------------------------------------------------------------------

  /** What `whisper.load_model` returned: which model, on which device. */
  datatype Model = Model(name: string, device: string)

  function LoadingUpdate(modelName: string, device: string): TranscriptionProgress {
    TranscriptionProgress("loading", 0.0, "Loading " + modelName + " model on " + device + "...")
  }

  const LoadedUpdate := TranscriptionProgress("loading", 100.0, "Model loaded successfully")

  function StartUpdate(audioPath: string): TranscriptionProgress {
    TranscriptionProgress("processing", 0.0, "Transcribing " + Name(audioPath) + "...")
  }

  const CompleteUpdate := TranscriptionProgress("saving", 100.0, "Transcription complete")

  const TranscriptionFailed := "Transcription failed: "

  /** The path `transcribe_and_save` writes to: the one given, or the
      audio file's stem with `.txt` in the transcripts directory. */
  function OutputPath(audioPath: string, outputPath: Option<string>, transcriptsDir: Option<string>,
                      defaultDir: string): (p: string)
    ensures outputPath.Some? ==> p == outputPath.value
    ensures outputPath.None? ==>
      var dir := if transcriptsDir.Some? then transcriptsDir.value else defaultDir;
      StartsWith(p, dir + "/") && Name(p) == Stem(audioPath) + ".txt"
  {
    if outputPath.Some? then outputPath.value
    else
      var dir := if transcriptsDir.Some? then transcriptsDir.value else defaultDir;
      var p := Join(dir, Stem(audioPath) + ".txt");
      NameOfJoin(dir, Stem(audioPath) + ".txt");
      assert p[..|dir| + 1] == dir + "/";
      p
  }

  /** The part of `transcribe` after the model is ready: the start
      update, the progress thread's updates while Whisper runs, and the
      completion update or the wrapped error. */
  method RunWhisper(audioPath: string, hasCallback: bool, duration: real, elapsed: seq<real>,
                    fmt: real -> string, whisper: Result<string, string>)
    returns (r: Result<string, string>, updates: seq<TranscriptionProgress>)
    ensures r == if whisper.Success? then Success(Strip(whisper.value)) else Failure(TranscriptionFailed + whisper.error)
    ensures updates == if !hasCallback then []
      else [StartUpdate(audioPath)] + Ticks(duration, elapsed, fmt, |elapsed|).updates
           + (if whisper.Success? then [CompleteUpdate] else [])
  {
    updates := [];
    if hasCallback {
      var ticks := ReportProgress(duration, elapsed, fmt);
      updates := [StartUpdate(audioPath)] + ticks;
    }
    if whisper.Failure? {
      return Failure(TranscriptionFailed + whisper.error), updates;
    }
    if hasCallback {
      updates := updates + [CompleteUpdate];
    }
    r := Success(Strip(whisper.value));
  }

  /** What `transcribe` returns and reports, given whether a model was
      already held: the missing-tools error, the loader's error, or
      Whisper's outcome after the loading updates. */
  function TranscribeOutcome(modelName: string, device: string, held: bool, audioPath: string,
                             found: string -> bool, hasCallback: bool, loaded: Result<Model, string>,
                             duration: real, elapsed: seq<real>, fmt: real -> string,
                             whisper: Result<string, string>): (Result<string, string>, seq<TranscriptionProgress>)
  {
    if FfmpegCheck(found).Some? then (Failure(FfmpegCheck(found).value), [])
    else if !held && loaded.Failure? then
      (Failure(loaded.error), if hasCallback then [LoadingUpdate(modelName, device)] else [])
    else
      var loading := if !held && hasCallback then [LoadingUpdate(modelName, device), LoadedUpdate] else [];
      var running := if !hasCallback then []
        else [StartUpdate(audioPath)] + Ticks(duration, elapsed, fmt, |elapsed|).updates
             + (if whisper.Success? then [CompleteUpdate] else []);
      (if whisper.Success? then Success(Strip(whisper.value)) else Failure(TranscriptionFailed + whisper.error),
       loading + running)
  }

  /** The two updates `transcribe_and_save` sends around the write. */
  function SavingUpdates(out: string): seq<TranscriptionProgress> {
    [TranscriptionProgress("saving", 90.0, "Saving to " + Name(out) + "..."),
     TranscriptionProgress("saving", 100.0, "Saved to " + Name(out))]
  }

  class WhisperTranscriber {
    const modelName: string
    const device: string
    const useFp16: bool
    var model: Option<Model>

    /** `WhisperTranscriber(model_name, device)`. */
    constructor(modelName: string, device: Option<string>, torch: Torch)
      ensures this.modelName == modelName && this.device == ResolveDevice(device, torch)
      ensures useFp16 <==> this.device == "cuda"
      ensures model.None?
    {
      this.modelName := modelName;
      this.device := ResolveDevice(device, torch);
      this.useFp16 := ResolveDevice(device, torch) == "cuda";
      this.model := None;
    }

    /** `load_model(progress_callback)`: nothing happens when a model is
        already loaded; otherwise the model is loaded, or the loader's
        error is raised and no model is held. */
    method LoadModel(hasCallback: bool, loaded: Result<Model, string>)
      returns (err: Option<string>, updates: seq<TranscriptionProgress>)
      modifies this
      ensures old(model).Some? ==> model == old(model) && err.None? && updates == []
      ensures old(model).None? && loaded.Success? ==>
        model == Some(loaded.value) && err.None?
        && updates == (if hasCallback then [LoadingUpdate(modelName, device), LoadedUpdate] else [])
      ensures old(model).None? && loaded.Failure? ==>
        model.None? && err == Some(loaded.error)
        && updates == (if hasCallback then [LoadingUpdate(modelName, device)] else [])
    {
      updates := [];
      if model.Some? {
        return None, [];
      }
      if hasCallback {
        updates := updates + [LoadingUpdate(modelName, device)];
      }
      if loaded.Failure? {
        return Some(loaded.error), updates;
      }
      model := Some(loaded.value);
      if hasCallback {
        updates := updates + [LoadedUpdate];
      }
      err := None;
    }

    /** `unload_model()`: safe with or without a model; none is held
        afterwards. */
    method UnloadModel()
      modifies this
      ensures model.None?
    {
      model := None;
    }

    /** `transcribe(audio_path, progress_callback)`: the missing-tools
        error comes first and unwrapped, then a model is loaded if none
        is held, then the transcription runs while the progress thread
        reports; its error is raised as "Transcription failed: ...". */
    method Transcribe(audioPath: string, found: string -> bool, hasCallback: bool, loaded: Result<Model, string>,
                      duration: real, elapsed: seq<real>, fmt: real -> string, whisper: Result<string, string>)
      returns (r: Result<string, string>, updates: seq<TranscriptionProgress>)
      modifies this
      ensures FfmpegCheck(found).Some? ==> r == Failure(FfmpegCheck(found).value) && updates == [] && model == old(model)
      ensures FfmpegCheck(found).None? && old(model).None? && loaded.Failure? ==>
        r == Failure(loaded.error) && model.None?
        && updates == (if hasCallback then [LoadingUpdate(modelName, device)] else [])
      ensures FfmpegCheck(found).None? && (old(model).Some? || loaded.Success?) ==>
        && model == (if old(model).Some? then old(model) else Some(loaded.value))
        && r == (if whisper.Success? then Success(Strip(whisper.value)) else Failure(TranscriptionFailed + whisper.error))
        && updates ==
          (if old(model).None? && hasCallback then [LoadingUpdate(modelName, device), LoadedUpdate] else [])
          + (if !hasCallback then []
             else [StartUpdate(audioPath)] + Ticks(duration, elapsed, fmt, |elapsed|).updates
                  + (if whisper.Success? then [CompleteUpdate] else []))
      ensures (r, updates) == TranscribeOutcome(modelName, device, old(model).Some?, audioPath, found, hasCallback,
                                                loaded, duration, elapsed, fmt, whisper)
    {
      var missing := FfmpegCheck(found);
      if missing.Some? {
        return Failure(missing.value), [];
      }
      var err, loading := LoadModel(hasCallback, loaded);
      if err.Some? {
        return Failure(err.value), loading;
      }
      var running;
      r, running := RunWhisper(audioPath, hasCallback, duration, elapsed, fmt, whisper);
      updates := loading + running;
    }

    /** `transcribe_and_save(...)`: `transcribe`'s error and updates as
        they are; on success the text and the path it is written to, with
        two "saving" updates naming the file. */
    method TranscribeAndSave(audioPath: string, outputPath: Option<string>, transcriptsDir: Option<string>,
                             defaultDir: string, found: string -> bool, hasCallback: bool,
                             loaded: Result<Model, string>, duration: real, elapsed: seq<real>,
                             fmt: real -> string, whisper: Result<string, string>)
      returns (r: Result<(string, string), string>, updates: seq<TranscriptionProgress>)
      modifies this
      ensures var t := TranscribeOutcome(modelName, device, old(model).Some?, audioPath, found, hasCallback,
                                         loaded, duration, elapsed, fmt, whisper);
        var out := OutputPath(audioPath, outputPath, transcriptsDir, defaultDir);
        && (t.0.Failure? ==> r == Failure(t.0.error) && updates == t.1)
        && (t.0.Success? ==>
              r == Success((t.0.value, out)) && updates == t.1 + (if hasCallback then SavingUpdates(out) else []))
      ensures r.Success? <==> FfmpegCheck(found).None? && (old(model).Some? || loaded.Success?) && whisper.Success?
      ensures r.Success? ==> r.value.0 == Strip(whisper.value) && (!hasCallback ==> updates == [])
      ensures model.Some? <==> old(model).Some? || (FfmpegCheck(found).None? && loaded.Success?)
    {
      var text;
      text, updates := Transcribe(audioPath, found, hasCallback, loaded, duration, elapsed, fmt, whisper);
      if text.Failure? {
        return Failure(text.error), updates;
      }
      var out := OutputPath(audioPath, outputPath, transcriptsDir, defaultDir);
      if hasCallback {
        updates := updates + SavingUpdates(out);
      }
      r := Success((text.value, out));
    }
  }
}
