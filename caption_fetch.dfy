/** The retry loop of `download_youtube_captions`: every browser cookie
    source is tried in turn, a rate-limited request is retried after an
    exponentially growing pause, and when every source fails one error
    message sums up the last failure.

    The download itself is an input: `call(browser, n)` is what the `n`-th
    call of `_download_subtitles` (counted from 0 over the whole run)
    ends in when it uses the cookies of `browser`. Pauses are returned as
    the list of their lengths in seconds instead of being slept. */
module CaptionFetch {
  import opened Wrappers
  import opened Text
  import opened Paths
  import opened Downloader

  datatype Caption = Caption(text: string, path: string)

  /** How a sequence of attempts ends: the captions or the message of the
      exception raised, the pauses taken, and the cookie source of each
      call, in order. */
  datatype Run = Run(result: Result<Caption, string>, delays: seq<real>, tried: seq<Option<string>>)

  const NotYoutube := "Not a YouTube URL"
  const RateLimitedFailure := "YouTube subtitle " + "request was rate-limited (HTTP 429) after retries. Whisper fallback will be used."
  const Unavailable := "YouTube captions unavailable: "
  const UnknownError := "unknown subtitle download error"

  /** The rate-limit test the loop and the final message share. */
  predicate RateLimited(msg: string) {
    Contains(msg, "429") || Contains(msg, "Too Many Requests")
  }

  /** `len(range(max_retries + 1))`. */
  function Attempts(maxRetries: int): nat {
    if maxRetries < 0 then 0 else maxRetries + 1
  }

  function Pow2(n: nat): (r: nat)
    ensures r >= 1
  {
    if n == 0 then 1 else 2 * Pow2(n - 1)
  }

  /** `backoff_base_seconds * (2 ** attempt)`. */
  function Backoff(base: real, attempt: nat): real {
    base * Pow2(attempt) as real
  }

  /** The message of the exception raised once every source has failed,
      from the last error seen (`None` when no call was made). */
  function FinalMessage(last: Option<string>): string {
    var msg := if last.Some? then last.value else UnknownError;
    if RateLimited(msg) then RateLimitedFailure else Unavailable + msg
  }

  function MessageOf(o: Outcome): string {
    match o
    case Fetched(_, _) => ""
    case DownloadFailed(msg) => msg
    case Failed(msg) => msg
  }

  /** Whether a failed call is retried with the same source: a
      rate-limited `DownloadError` with retries left. */
  predicate Retries(o: Outcome, a: nat, maxRetries: int) {
    o.DownloadFailed? && RateLimited(o.msg) && a < maxRetries
  }

  /** The pause before the next call. */
  function Pause(retry: bool, base: real, a: nat): seq<real> {
    if retry then [Backoff(base, a)] else []
  }

  /** The rest of the loop from source `c`, attempt `a`, with `n` calls
      made so far and `last` the last error seen. */
  function Drive(sources: seq<Option<string>>, maxRetries: int, base: real,
                 call: (Option<string>, nat) -> Outcome,
                 c: nat, a: nat, n: nat, last: Option<string>): (r: Run)
    requires c <= |sources|
    ensures r.result.Success? ==> r.tried != []
    ensures r.tried == [] ==> r.result == Failure(FinalMessage(last)) && r.delays == []
    decreases |sources| - c, Attempts(maxRetries) - a
  {
    if c == |sources| then Run(Failure(FinalMessage(last)), [], [])
    else if a >= Attempts(maxRetries) then Drive(sources, maxRetries, base, call, c + 1, 0, n, last)
    else
      var o := call(sources[c], n);
      if o.Fetched? then Run(Success(Caption(o.text, o.path)), [], [sources[c]])
      else
        var retry := Retries(o, a, maxRetries);
        var r := Drive(sources, maxRetries, base, call, if retry then c else c + 1, if retry then a + 1 else 0,
                       n + 1, Some(MessageOf(o)));
        Run(r.result, Pause(retry, base, a) + r.delays, [sources[c]] + r.tried)
  }

  /** `r` preceded by the pauses `d` and the calls `t`. */
  function After(d: seq<real>, t: seq<Option<string>>, r: Run): Run {
    Run(r.result, d + r.delays, t + r.tried)
  }

  lemma AfterStep(d: seq<real>, t: seq<Option<string>>, x: seq<real>, b: Option<string>, r: Run)
    ensures After(d, t, Run(r.result, x + r.delays, [b] + r.tried)) == After(d + x, t + [b], r)
  {
    assert d + (x + r.delays) == (d + x) + r.delays;
    assert t + ([b] + r.tried) == (t + [b]) + r.tried;
  }

  /** The inner loop, over the attempts with source `c`: it ends with the
      captions, or hands over to the next source. */
  method TrySource(sources: seq<Option<string>>, maxRetries: int, base: real,
                   call: (Option<string>, nat) -> Outcome, c: nat,
                   delays0: seq<real>, tried0: seq<Option<string>>, last0: Option<string>)
    returns (found: Option<Caption>, delays: seq<real>, tried: seq<Option<string>>, last: Option<string>)
    requires c < |sources|
    ensures After(delays0, tried0, Drive(sources, maxRetries, base, call, c, 0, |tried0|, last0)) ==
      if found.Some? then Run(Success(found.value), delays, tried)
      else After(delays, tried, Drive(sources, maxRetries, base, call, c + 1, 0, |tried|, last))
  {
    delays, tried, last := delays0, tried0, last0;
    found := None;
    var a := 0;
    while a < Attempts(maxRetries)
      invariant After(delays0, tried0, Drive(sources, maxRetries, base, call, c, 0, |tried0|, last0)) ==
        After(delays, tried, Drive(sources, maxRetries, base, call, c, a, |tried|, last))
      decreases Attempts(maxRetries) - a
    {
      var b := sources[c];
      var n := |tried|;
      var o := call(b, n);
      ghost var rest := Drive(sources, maxRetries, base, call, c + 1, 0, n + 1, if o.Fetched? then last else Some(MessageOf(o)));
      if o.Fetched? {
        AfterStep(delays, tried, [], b, Run(Success(Caption(o.text, o.path)), [], []));
        assert delays + [] == delays;
        found := Some(Caption(o.text, o.path));
        tried := tried + [b];
        return;
      }
      var msg := MessageOf(o);
      if o.DownloadFailed? && RateLimited(msg) && a < maxRetries {
        AfterStep(delays, tried, [Backoff(base, a)], b, Drive(sources, maxRetries, base, call, c, a + 1, n + 1, Some(msg)));
        delays := delays + [Backoff(base, a)];
        tried := tried + [b];
        last := Some(msg);
        a := a + 1;
      } else {
        AfterStep(delays, tried, [], b, rest);
        assert delays + [] == delays;
        tried := tried + [b];
        last := Some(msg);
        return;
      }
    }
  }

  /** The loop over the browser sources. */
  method FetchCaptions(sources: seq<Option<string>>, maxRetries: int, base: real,
                       call: (Option<string>, nat) -> Outcome)
    returns (r: Result<Caption, string>, delays: seq<real>, tried: seq<Option<string>>)
    ensures Run(r, delays, tried) == Drive(sources, maxRetries, base, call, 0, 0, 0, None)
  {
    delays, tried := [], [];
    var last: Option<string> := None;
    for c := 0 to |sources|
      invariant Drive(sources, maxRetries, base, call, 0, 0, 0, None) ==
        After(delays, tried, Drive(sources, maxRetries, base, call, c, 0, |tried|, last))
    {
      var found;
      found, delays, tried, last := TrySource(sources, maxRetries, base, call, c, delays, tried, last);
      if found.Some? {
        return Success(found.value), delays, tried;
      }
    }
    assert delays + [] == delays && tried + [] == tried;
    r := Failure(FinalMessage(last));
  }

  /** The browser sources for the given settings (see `BrowserSources`). */
  function CookieSources(useBrowserCookies: bool, env: string): seq<Option<string>> {
    if useBrowserCookies then Somes(PreferredBrowsers(Lower(Strip(env)))) + [None] else [None]
  }

  /** `download_youtube_captions(url, include_timestamps, use_browser_cookies,
      max_retries, backoff_base_seconds)`. */
  method DownloadYoutubeCaptions(url: string, useBrowserCookies: bool, env: string, maxRetries: int, base: real,
                                 call: (Option<string>, nat) -> Outcome)
    returns (r: Result<Caption, string>, delays: seq<real>, tried: seq<Option<string>>)
    ensures !IsYoutubeUrl(url) ==> r == Failure(NotYoutube) && delays == [] && tried == []
    ensures IsYoutubeUrl(url) ==>
      Run(r, delays, tried) == Drive(CookieSources(useBrowserCookies, env), maxRetries, base, call, 0, 0, 0, None)
  {
    if !IsYoutubeUrl(url) {
      return Failure(NotYoutube), [], [];
    }
    var sources := BrowserSources(useBrowserCookies, env);
    r, delays, tried := FetchCaptions(sources, maxRetries, base, call);
  }

  // ---------------------------------------------------------------------
  // Properties of the loop
  // ---------------------------------------------------------------------

  /** What the last of the calls `tried` (numbered from `n`) ended in. */
  function LastOutcome(call: (Option<string>, nat) -> Outcome, tried: seq<Option<string>>, n: nat): Option<Outcome> {
    if tried == [] then None else Some(call(tried[|tried| - 1], n + |tried| - 1))
  }

  /** The error of the last call, or `last` when there was none. */
  function LastError(call: (Option<string>, nat) -> Outcome, tried: seq<Option<string>>, n: nat,
                     last: Option<string>): Option<string> {
    match LastOutcome(call, tried, n)
    case None => last
    case Some(o) => Some(MessageOf(o))
  }

  /** No call but possibly the last fetched captions. */
  predicate EarlierCallsFailed(call: (Option<string>, nat) -> Outcome, tried: seq<Option<string>>, n: nat) {
    forall i :: 0 <= i < |tried| - 1 ==> !call(tried[i], n + i).Fetched?
  }

  lemma LastOutcomeCons(call: (Option<string>, nat) -> Outcome, b: Option<string>, tried: seq<Option<string>>, n: nat)
    ensures LastOutcome(call, [b] + tried, n) == if tried == [] then Some(call(b, n)) else LastOutcome(call, tried, n + 1)
  {
    if tried != [] {
      assert ([b] + tried)[|tried|] == tried[|tried| - 1];
    }
  }

  lemma EarlierCallsFailedCons(call: (Option<string>, nat) -> Outcome, b: Option<string>, tried: seq<Option<string>>, n: nat)
    requires !call(b, n).Fetched? && EarlierCallsFailed(call, tried, n + 1)
    ensures EarlierCallsFailed(call, [b] + tried, n)
  {
    var t := [b] + tried;
    forall i | 0 <= i < |t| - 1 ensures !call(t[i], n + i).Fetched? {
      if i > 0 {
        assert t[i] == tried[i - 1];
      }
    }
  }

  /** The loop stops at the first call that fetched captions and only
      there: every earlier call failed, and the run succeeds exactly when
      its last call fetched, with that call's text and path. */
  lemma {:induction false} DriveStopsAtFetch(sources: seq<Option<string>>, maxRetries: int, base: real,
                                             call: (Option<string>, nat) -> Outcome,
                                             c: nat, a: nat, n: nat, last: Option<string>)
    requires c <= |sources|
    ensures var R := Drive(sources, maxRetries, base, call, c, a, n, last); var o := LastOutcome(call, R.tried, n);
      && EarlierCallsFailed(call, R.tried, n)
      && (R.result.Success? <==> o.Some? && o.value.Fetched?)
      && (R.result.Success? ==> o == Some(Fetched(R.result.value.text, R.result.value.path)))
    decreases |sources| - c, Attempts(maxRetries) - a
  {
    if c == |sources| {
    } else if a >= Attempts(maxRetries) {
      DriveStopsAtFetch(sources, maxRetries, base, call, c + 1, 0, n, last);
    } else if call(sources[c], n).Fetched? {
      LastOutcomeCons(call, sources[c], [], n);
    } else {
      var o := call(sources[c], n);
      var retry := Retries(o, a, maxRetries);
      var r := Drive(sources, maxRetries, base, call, if retry then c else c + 1, if retry then a + 1 else 0,
                     n + 1, Some(MessageOf(o)));
      DriveStopsAtFetch(sources, maxRetries, base, call, if retry then c else c + 1, if retry then a + 1 else 0,
                        n + 1, Some(MessageOf(o)));
      LastOutcomeCons(call, sources[c], r.tried, n);
      EarlierCallsFailedCons(call, sources[c], r.tried, n);
    }
  }

  /** When the loop fails, its message sums up the error of its last call
      (or says the error is unknown when no call was made). */
  lemma {:induction false} DriveFailure(sources: seq<Option<string>>, maxRetries: int, base: real,
                                        call: (Option<string>, nat) -> Outcome,
                                        c: nat, a: nat, n: nat, last: Option<string>)
    requires c <= |sources|
    ensures var R := Drive(sources, maxRetries, base, call, c, a, n, last);
      R.result.Failure? ==> R.result.error == FinalMessage(LastError(call, R.tried, n, last))
    decreases |sources| - c, Attempts(maxRetries) - a
  {
    if c == |sources| {
    } else if a >= Attempts(maxRetries) {
      DriveFailure(sources, maxRetries, base, call, c + 1, 0, n, last);
    } else if !call(sources[c], n).Fetched? {
      var o := call(sources[c], n);
      var retry := Retries(o, a, maxRetries);
      var r := Drive(sources, maxRetries, base, call, if retry then c else c + 1, if retry then a + 1 else 0,
                     n + 1, Some(MessageOf(o)));
      DriveFailure(sources, maxRetries, base, call, if retry then c else c + 1, if retry then a + 1 else 0,
                   n + 1, Some(MessageOf(o)));
      LastOutcomeCons(call, sources[c], r.tried, n);
    }
  }

  /** A pause of `backoff_base_seconds * 2 ** k` for a retry `k` below
      `max_retries`. */
  ghost predicate IsBackoff(base: real, maxRetries: int, d: real) {
    exists k: nat :: k < maxRetries && d == Backoff(base, k)
  }

  /** Every pause is a backoff step, and each is followed by a call. */
  lemma {:induction false} DriveDelays(sources: seq<Option<string>>, maxRetries: int, base: real,
                                       call: (Option<string>, nat) -> Outcome,
                                       c: nat, a: nat, n: nat, last: Option<string>)
    requires c <= |sources|
    ensures var R := Drive(sources, maxRetries, base, call, c, a, n, last);
      && |R.delays| <= |R.tried|
      && (forall i :: 0 <= i < |R.delays| ==> IsBackoff(base, maxRetries, R.delays[i]))
    decreases |sources| - c, Attempts(maxRetries) - a
  {
    if c == |sources| {
    } else if a >= Attempts(maxRetries) {
      DriveDelays(sources, maxRetries, base, call, c + 1, 0, n, last);
    } else if !call(sources[c], n).Fetched? {
      var o := call(sources[c], n);
      if Retries(o, a, maxRetries) {
        DriveDelays(sources, maxRetries, base, call, c, a + 1, n + 1, Some(MessageOf(o)));
        assert IsBackoff(base, maxRetries, Backoff(base, a));
      } else {
        DriveDelays(sources, maxRetries, base, call, c + 1, 0, n + 1, Some(MessageOf(o)));
      }
    }
  }

  /** `k * per`, counted one source at a time. */
  function Slots(k: nat, per: nat): (r: nat)
    ensures r == k * per
  {
    if k == 0 then 0 else per + Slots(k - 1, per)
  }

  /** Each source is tried at most `max_retries + 1` times: from attempt
      `a` of source `c` on, at most the remaining attempts are made. */
  lemma {:induction false} DriveCallCount(sources: seq<Option<string>>, maxRetries: int, base: real,
                                          call: (Option<string>, nat) -> Outcome,
                                          c: nat, a: nat, n: nat, last: Option<string>)
    requires c <= |sources|
    requires a == 0 || (c < |sources| && a <= Attempts(maxRetries))
    ensures |Drive(sources, maxRetries, base, call, c, a, n, last).tried| + a <= Slots(|sources| - c, Attempts(maxRetries))
    decreases |sources| - c, Attempts(maxRetries) - a
  {
    if c == |sources| {
    } else if a >= Attempts(maxRetries) {
      DriveCallCount(sources, maxRetries, base, call, c + 1, 0, n, last);
    } else if !call(sources[c], n).Fetched? {
      var o := call(sources[c], n);
      if Retries(o, a, maxRetries) {
        DriveCallCount(sources, maxRetries, base, call, c, a + 1, n + 1, Some(MessageOf(o)));
      } else {
        DriveCallCount(sources, maxRetries, base, call, c + 1, 0, n + 1, Some(MessageOf(o)));
      }
    }
  }

  /** Only the given sources are used, from the current one on. */
  lemma {:induction false} DriveUsesSources(sources: seq<Option<string>>, maxRetries: int, base: real,
                                            call: (Option<string>, nat) -> Outcome,
                                            c: nat, a: nat, n: nat, last: Option<string>)
    requires c <= |sources|
    ensures forall x :: x in Drive(sources, maxRetries, base, call, c, a, n, last).tried ==> x in sources[c..]
    decreases |sources| - c, Attempts(maxRetries) - a
  {
    if c == |sources| {
    } else if a >= Attempts(maxRetries) {
      DriveUsesSources(sources, maxRetries, base, call, c + 1, 0, n, last);
      assert forall x :: x in sources[c + 1..] ==> x in sources[c..];
    } else if !call(sources[c], n).Fetched? {
      var o := call(sources[c], n);
      var R := Drive(sources, maxRetries, base, call, c, a, n, last);
      if Retries(o, a, maxRetries) {
        DriveUsesSources(sources, maxRetries, base, call, c, a + 1, n + 1, Some(MessageOf(o)));
      } else {
        DriveUsesSources(sources, maxRetries, base, call, c + 1, 0, n + 1, Some(MessageOf(o)));
        assert forall x :: x in sources[c + 1..] ==> x in sources[c..];
      }
      assert sources[c] in sources[c..];
    }
  }

  /** A run that fails has tried every source it reached at least once,
      when at least one attempt is allowed. */
  lemma {:induction false} DriveTriesEverySource(sources: seq<Option<string>>, maxRetries: int, base: real,
                                                 call: (Option<string>, nat) -> Outcome,
                                                 c: nat, a: nat, n: nat, last: Option<string>)
    requires c <= |sources|
    ensures var R := Drive(sources, maxRetries, base, call, c, a, n, last);
      R.result.Failure? && maxRetries >= 0 ==>
        && (forall j :: c < j < |sources| ==> sources[j] in R.tried)
        && (a == 0 && c < |sources| ==> sources[c] in R.tried)
    decreases |sources| - c, Attempts(maxRetries) - a
  {
    if c == |sources| {
    } else if a >= Attempts(maxRetries) {
      DriveTriesEverySource(sources, maxRetries, base, call, c + 1, 0, n, last);
    } else if !call(sources[c], n).Fetched? {
      var o := call(sources[c], n);
      var R := Drive(sources, maxRetries, base, call, c, a, n, last);
      var r;
      if Retries(o, a, maxRetries) {
        r := Drive(sources, maxRetries, base, call, c, a + 1, n + 1, Some(MessageOf(o)));
        DriveTriesEverySource(sources, maxRetries, base, call, c, a + 1, n + 1, Some(MessageOf(o)));
      } else {
        r := Drive(sources, maxRetries, base, call, c + 1, 0, n + 1, Some(MessageOf(o)));
        DriveTriesEverySource(sources, maxRetries, base, call, c + 1, 0, n + 1, Some(MessageOf(o)));
      }
      assert R.tried == [sources[c]] + r.tried && R.result == r.result;
    }
  }

  lemma {:induction false} ContainsFirst(s: string, t: string)
    requires t != [] && Contains(s, t)
    ensures t[0] in s
  {
    var i :| 0 <= i <= |s| - |t| && OccursAt(s, t, i);
    assert s[i] == s[i..i + |t|][0];
  }

  /** The rate-limit message is raised exactly when the last error was a
      rate-limit error; any other failure reads "YouTube captions
      unavailable: " followed by the last error. */
  lemma FinalMessageRateLimited(last: Option<string>)
    ensures FinalMessage(last) == RateLimitedFailure <==> last.Some? && RateLimited(last.value)
    ensures FinalMessage(last) != RateLimitedFailure ==> StartsWith(FinalMessage(last), Unavailable)
  {
    if last.None? {
      assert '4' !in UnknownError && 'T' !in UnknownError;
      if Contains(UnknownError, "429") { ContainsFirst(UnknownError, "429"); }
      if Contains(UnknownError, "Too Many Requests") { ContainsFirst(UnknownError, "Too Many Requests"); }
    }
    var msg := if last.Some? then last.value else UnknownError;
    UnavailableIsNotRateLimited(msg);
    assert (Unavailable + msg)[..|Unavailable|] == Unavailable;
  }

  lemma UnavailableIsNotRateLimited(msg: string)
    ensures Unavailable + msg != RateLimitedFailure
  {
    var u := Unavailable + msg;
    assert u[8] == Unavailable[8] == 'c';
    assert "YouTube subtitle "[8] == 's';
    assert RateLimitedFailure[8] == 's';
  }

  /** Over a whole run: it succeeds exactly when some call fetched, that
      call is the last one, it makes at most `max_retries + 1` calls per
      source, and every pause is a backoff step of a retry. */
  lemma FetchSummary(sources: seq<Option<string>>, maxRetries: int, base: real, call: (Option<string>, nat) -> Outcome)
    ensures var R := Drive(sources, maxRetries, base, call, 0, 0, 0, None); var k := |R.tried|;
      && (R.result.Success? <==> exists i :: 0 <= i < k && call(R.tried[i], i).Fetched?)
      && (R.result.Success? ==> call(R.tried[k - 1], k - 1) == Fetched(R.result.value.text, R.result.value.path))
      && k <= |sources| * Attempts(maxRetries)
      && |R.delays| <= k
      && (forall i :: 0 <= i < |R.delays| ==> IsBackoff(base, maxRetries, R.delays[i]))
  {
    var R := Drive(sources, maxRetries, base, call, 0, 0, 0, None);
    DriveStopsAtFetch(sources, maxRetries, base, call, 0, 0, 0, None);
    DriveCallCount(sources, maxRetries, base, call, 0, 0, 0, None);
    DriveDelays(sources, maxRetries, base, call, 0, 0, 0, None);
    if exists i :: 0 <= i < |R.tried| && call(R.tried[i], i).Fetched? {
      var i :| 0 <= i < |R.tried| && call(R.tried[i], i).Fetched?;
      assert i == |R.tried| - 1;
    }
  }

  // ---------------------------------------------------------------------
  // The back-off schedule of one source
  // ---------------------------------------------------------------------

  /** A `DownloadError` whose message mentions 429 or Too Many Requests. */
  predicate RateLimitError(o: Outcome) {
    o.DownloadFailed? && RateLimited(o.msg)
  }

  /** The pauses `backoff_base_seconds * 2 ** k` for the retries `k` from
      `a` up to `max_retries - 1`, in order. */
  function Backoffs(base: real, a: nat, maxRetries: int): seq<real>
    decreases maxRetries - a
  {
    if a >= maxRetries then [] else [Backoff(base, a)] + Backoffs(base, a + 1, maxRetries)
  }

  /** `k` calls with the same cookie source. */
  function Repeat(b: Option<string>, k: nat): seq<Option<string>> {
    if k == 0 then [] else [b] + Repeat(b, k - 1)
  }

  /** A rate-limited failure with retries left pauses `base * 2 ** a` and
      calls the same source again, at attempt `a + 1`. */
  lemma RetryPauses(sources: seq<Option<string>>, maxRetries: int, base: real,
                    call: (Option<string>, nat) -> Outcome,
                    c: nat, a: nat, n: nat, last: Option<string>)
    requires c < |sources| && a < maxRetries && RateLimitError(call(sources[c], n))
    ensures Drive(sources, maxRetries, base, call, c, a, n, last) ==
      After([Backoff(base, a)], [sources[c]],
            Drive(sources, maxRetries, base, call, c, a + 1, n + 1, Some(call(sources[c], n).msg)))
  {
  }

  /** Any other failure, and a rate-limited failure at the last attempt
      (`a == max_retries`), moves on to the next source at attempt 0
      with no pause. */
  lemma NoRetryAdvances(sources: seq<Option<string>>, maxRetries: int, base: real,
                        call: (Option<string>, nat) -> Outcome,
                        c: nat, a: nat, n: nat, last: Option<string>)
    requires c < |sources| && a < Attempts(maxRetries)
    requires var o := call(sources[c], n); !o.Fetched? && (!RateLimitError(o) || a == maxRetries)
    ensures Drive(sources, maxRetries, base, call, c, a, n, last) ==
      After([], [sources[c]],
            Drive(sources, maxRetries, base, call, c + 1, 0, n + 1, Some(MessageOf(call(sources[c], n)))))
  {
  }

  /** A source whose remaining calls are all rate-limited takes the
      pauses `base * 2 ** a`, ..., `base * 2 ** (max_retries - 1)`, one
      call per remaining attempt, and then the next source is tried with
      the last call's error as the last error. */
  lemma {:induction false} RateLimitedSource(sources: seq<Option<string>>, maxRetries: int, base: real,
                                             call: (Option<string>, nat) -> Outcome,
                                             c: nat, a: nat, n: nat, last: Option<string>)
    requires c < |sources| && a < Attempts(maxRetries)
    requires forall j :: n <= j < n + Attempts(maxRetries) - a ==> RateLimitError(call(sources[c], j))
    ensures var k := Attempts(maxRetries) - a;
      Drive(sources, maxRetries, base, call, c, a, n, last) ==
        After(Backoffs(base, a, maxRetries), Repeat(sources[c], k),
              Drive(sources, maxRetries, base, call, c + 1, 0, n + k, Some(MessageOf(call(sources[c], n + k - 1)))))
    decreases Attempts(maxRetries) - a
  {
    var b := sources[c];
    var k := Attempts(maxRetries) - a;
    var next := Drive(sources, maxRetries, base, call, c + 1, 0, n + k, Some(MessageOf(call(b, n + k - 1))));
    if a < maxRetries {
      var rest := Drive(sources, maxRetries, base, call, c, a + 1, n + 1, Some(call(b, n).msg));
      RetryPauses(sources, maxRetries, base, call, c, a, n, last);
      RateLimitedSource(sources, maxRetries, base, call, c, a + 1, n + 1, Some(call(b, n).msg));
      assert Attempts(maxRetries) - (a + 1) == k - 1 && (n + 1) + (k - 1) == n + k;
      assert rest == After(Backoffs(base, a + 1, maxRetries), Repeat(b, k - 1), next);
      AfterAfter([Backoff(base, a)], [b], Backoffs(base, a + 1, maxRetries), Repeat(b, k - 1), next);
      calc {
        Drive(sources, maxRetries, base, call, c, a, n, last);
        After([Backoff(base, a)], [b], rest);
        After([Backoff(base, a)], [b], After(Backoffs(base, a + 1, maxRetries), Repeat(b, k - 1), next));
        After([Backoff(base, a)] + Backoffs(base, a + 1, maxRetries), [b] + Repeat(b, k - 1), next);
        After(Backoffs(base, a, maxRetries), Repeat(b, k), next);
      }
    } else {
      NoRetryAdvances(sources, maxRetries, base, call, c, a, n, last);
      assert k == 1 && n + k - 1 == n;
      assert Backoffs(base, a, maxRetries) == [] && Repeat(b, k) == [b];
      assert Drive(sources, maxRetries, base, call, c, a, n, last) == After([], [b], next);
    }
  }

  lemma AfterAfter(d1: seq<real>, t1: seq<Option<string>>, d2: seq<real>, t2: seq<Option<string>>, r: Run)
    ensures After(d1, t1, After(d2, t2, r)) == After(d1 + d2, t1 + t2, r)
  {
    assert d1 + (d2 + r.delays) == (d1 + d2) + r.delays;
    assert t1 + (t2 + r.tried) == (t1 + t2) + r.tried;
  }

  /** With the defaults, `max_retries = 3` and a base of 8 seconds, a
      rate-limited source waits 8 s, 16 s and then 32 s. */
  lemma BackoffSchedule()
    ensures Backoffs(8.0, 0, 3) == [8.0, 16.0, 32.0]
  {
    assert Pow2(1) == 2 && Pow2(2) == 4;
  }

  /** With distinct sources, each source `x` is called at most
      `max_retries + 1` times; from attempt `a` of source `c` on, at most
      the remaining attempts are made with it. */
  lemma {:induction false} DrivePerSource(sources: seq<Option<string>>, maxRetries: int, base: real,
                                          call: (Option<string>, nat) -> Outcome,
                                          c: nat, a: nat, n: nat, last: Option<string>, x: Option<string>)
    requires c <= |sources| && Distinct(sources)
    requires a == 0 || (c < |sources| && a <= Attempts(maxRetries))
    ensures Count(Drive(sources, maxRetries, base, call, c, a, n, last).tried, x)
      + (if c < |sources| && x == sources[c] then a else 0) <= Attempts(maxRetries)
    decreases |sources| - c, Attempts(maxRetries) - a
  {
    if c == |sources| {
    } else if a >= Attempts(maxRetries) {
      DrivePerSource(sources, maxRetries, base, call, c + 1, 0, n, last, x);
      NotLater(sources, maxRetries, base, call, c, n, last);
    } else if call(sources[c], n).Fetched? {
    } else if Retries(call(sources[c], n), a, maxRetries) {
      var m := Some(MessageOf(call(sources[c], n)));
      RetryPauses(sources, maxRetries, base, call, c, a, n, last);
      DrivePerSource(sources, maxRetries, base, call, c, a + 1, n + 1, m, x);
      CountCons(sources[c], Drive(sources, maxRetries, base, call, c, a + 1, n + 1, m).tried, x);
    } else {
      var m := Some(MessageOf(call(sources[c], n)));
      NoRetryAdvances(sources, maxRetries, base, call, c, a, n, last);
      DrivePerSource(sources, maxRetries, base, call, c + 1, 0, n + 1, m, x);
      NotLater(sources, maxRetries, base, call, c, n + 1, m);
      CountCons(sources[c], Drive(sources, maxRetries, base, call, c + 1, 0, n + 1, m).tried, x);
    }
  }

  /** How many calls used source `x`. */
  function Count(t: seq<Option<string>>, x: Option<string>): nat {
    if t == [] then 0 else (if t[0] == x then 1 else 0) + Count(t[1..], x)
  }

  lemma CountCons(b: Option<string>, t: seq<Option<string>>, x: Option<string>)
    ensures Count([b] + t, x) == Count(t, x) + (if x == b then 1 else 0)
  {
    assert ([b] + t)[1..] == t;
  }

  lemma {:induction false} CountAbsent(t: seq<Option<string>>, x: Option<string>)
    requires x !in t
    ensures Count(t, x) == 0
  {
    if t != [] {
      CountAbsent(t[1..], x);
    }
  }

  /** Once a run has moved past source `c`, that source is not called again. */
  lemma NotLater(sources: seq<Option<string>>, maxRetries: int, base: real,
                 call: (Option<string>, nat) -> Outcome, c: nat, n: nat, last: Option<string>)
    requires c < |sources| && Distinct(sources)
    ensures Count(Drive(sources, maxRetries, base, call, c + 1, 0, n, last).tried, sources[c]) == 0
  {
    DriveUsesSources(sources, maxRetries, base, call, c + 1, 0, n, last);
    assert sources[c] !in sources[c + 1..];
    CountAbsent(Drive(sources, maxRetries, base, call, c + 1, 0, n, last).tried, sources[c]);
  }

  /** Without any attempt (a negative `max_retries`) the run fails at once
      with the unknown-error message. */
  lemma NoAttempts(sources: seq<Option<string>>, maxRetries: int, base: real, call: (Option<string>, nat) -> Outcome)
    requires maxRetries < 0
    ensures Drive(sources, maxRetries, base, call, 0, 0, 0, None) == Run(Failure(Unavailable + UnknownError), [], [])
  {
    DriveCallCount(sources, maxRetries, base, call, 0, 0, 0, None);
    DriveFailure(sources, maxRetries, base, call, 0, 0, 0, None);
    DriveDelays(sources, maxRetries, base, call, 0, 0, 0, None);
    DriveStopsAtFetch(sources, maxRetries, base, call, 0, 0, 0, None);
    FinalMessageRateLimited(None);
  }
}
