/**
  The decision logic of the transfer worker (src/Http/HttpWorker.php): how a
  finished transfer is classified, when and how a job is retried, which
  options a transfer is opened with, and the bookkeeping of live handles.
  The curl multi/share handles, sockets and sleeping are not modelled: a
  finished transfer arrives as a `TransferOutcome`, and a retry delay is
  returned as a number of microseconds instead of being slept.
 */
module HttpWorker {
  import opened Wrappers
  import opened HttpJob
  import Strings

  /** Retries allowed per job (`$maxRetries`). */
  const MaxRetries: nat := 3

  // curl option ids (curl.h)
  /** CURLOPT_TIMEOUT */
  const OptTimeout := 13
  /** CURLOPT_FOLLOWLOCATION */
  const OptFollowLocation := 52
  /** CURLOPT_CONNECTTIMEOUT */
  const OptConnectTimeout := 78
  /** CURLOPT_HTTP_CONTENT_DECODING */
  const OptHttpContentDecoding := 158
  /** CURLOPT_FILE */
  const OptFile := 10001
  /** CURLOPT_USERAGENT */
  const OptUserAgent := 10018
  /** CURLOPT_CAINFO */
  const OptCaInfo := 10065
  /** CURLOPT_CAPATH */
  const OptCaPath := 10097
  /** CURLOPT_SHARE */
  const OptShare := 10100
  /** CURLOPT_ENCODING */
  const OptEncoding := 10102

  /** CURLE_OK */
  const ErrnoOk := 0

  /** What a finished transfer reports: curl errno, curl error text, HTTP status and body. */
  datatype TransferOutcome = TransferOutcome(errno: int, error: string, statusCode: int, body: string)

  // ---------------------------------------------------------------------------
  // Retry policy
  // ---------------------------------------------------------------------------

  /**
    Transport errors worth retrying: could not resolve host (6), could not
    connect (7), HTTP/2 (16), HTTP/2 stream (92), and a TLS connect error (35)
    whose text says the peer reset the connection.
   */
  predicate RetryableErrno(errno: int, error: string) {
    errno in {6, 7, 16, 92} || (errno == 35 && Strings.Contains(error, "Connection reset by peer"))
  }

  /** HTTP statuses worth retrying. */
  predicate RetryableStatus(code: int) {
    code in {500, 502, 503, 504}
  }

  /**
    The pause before a restart, in microseconds, from the retry count after
    incrementing: none after the first retry, 100 ms after the second, 500 ms
    from the third on.
   */
  function RestartDelay(retries: nat): (us: nat)
    ensures retries <= 1 ==> us == 0
    ensures retries == 2 ==> us == 100000
    ensures retries >= 3 ==> us == 500000
  {
    if retries >= 3 then 500000 else if retries >= 2 then 100000 else 0
  }

  /**
    `restartJobWithDelay`: one more retry, and the delay that count calls for.
    The source restarts the transfer with `$job->options`
    (src/Http/HttpWorker.php:217), a property the job does not declare: it
    names its options `curlOptions` (src/Http/Job.php:13). Under strict types
    the null that reads as reaches an `array` parameter, a `TypeError`, which
    is an `\Error` that the worker's `catch (\Exception)` does not catch. The
    model restarts with the job's curl options.
   */
  function RestartJob(job: Job): (r: (Job, nat))
    ensures r.0 == job.(retries := job.retries + 1)
    ensures r.1 == RestartDelay(job.retries + 1)
  {
    var j := job.(retries := job.retries + 1);
    (j, RestartDelay(j.retries))
  }

  /** `retryFromCurlError`: the restarted job and its delay, or None when no retry is made. */
  function RetryFromCurlError(job: Job, errno: int, error: string): (r: Option<(Job, nat)>)
    ensures r.Some? <==> job.retries < MaxRetries && RetryableErrno(errno, error)
    ensures r.Some? ==> r.value == RestartJob(job)
  {
    if job.retries >= MaxRetries then None
    else if RetryableErrno(errno, error) then Some(RestartJob(job))
    else None
  }

  /** `retryFromStatusError`: the restarted job and its delay, or None when no retry is made. */
  function RetryFromStatusError(job: Job, statusCode: int): (r: Option<(Job, nat)>)
    ensures r.Some? <==> job.retries < MaxRetries && RetryableStatus(statusCode)
    ensures r.Some? ==> r.value == RestartJob(job)
  {
    if job.retries >= MaxRetries then None
    else if RetryableStatus(statusCode) then Some(RestartJob(job))
    else None
  }

  /** How `tick` disposes of one finished transfer. */
  datatype Completion =
    | Done(job: Job)                   // completed with its response
    | Restart(job: Job, delay: nat)    // re-registered after `delay` microseconds
    | Fail(job: Job, message: string)  // marked failed; `tick` throws `message`

  /** The message thrown for a transport error that is not retried. */
  function CurlErrorMessage(errno: int, error: string, url: string): string {
    "curl error " + Strings.IntToString(errno) + ": " + error + " (" + url + ")"
  }

  /** The message thrown for a non-200 status that is not retried. */
  function HttpErrorMessage(statusCode: int, url: string): string {
    "http error " + Strings.IntToString(statusCode) + " downloading " + url
  }

  /**
    The classification in `tick`. The curl errno is looked at before the HTTP
    status; only errno 0 with status 200 completes the job, with the response
    (job id, job URL, body). A retryable condition restarts the job while
    retries remain; anything else fails it.
   */
  function Finish(job: Job, outcome: TransferOutcome): (c: Completion)
    ensures c.Done? <==> outcome.errno == ErrnoOk && outcome.statusCode == 200
    ensures c.Done? ==> c.job == job.(status := Completed, response := Some(Response(job.id, job.url, outcome.body)))
    ensures c.Restart? <==> (job.retries < MaxRetries &&
                             if outcome.errno != ErrnoOk then RetryableErrno(outcome.errno, outcome.error)
                             else outcome.statusCode != 200 && RetryableStatus(outcome.statusCode))
    ensures c.Restart? ==> c.job == job.(retries := job.retries + 1) && c.delay == RestartDelay(job.retries + 1)
    ensures c.Fail? ==> c.job == job.(status := Failed)
    ensures c.Fail? && outcome.errno != ErrnoOk ==> c.message == CurlErrorMessage(outcome.errno, outcome.error, job.url)
    ensures c.Fail? && outcome.errno == ErrnoOk ==> c.message == HttpErrorMessage(outcome.statusCode, job.url)
  {
    if outcome.errno != ErrnoOk then
      match RetryFromCurlError(job, outcome.errno, outcome.error)
      case Some(r) => Restart(r.0, r.1)
      case None => Fail(job.(status := Failed), CurlErrorMessage(outcome.errno, outcome.error, job.url))
    else if outcome.statusCode != 200 then
      match RetryFromStatusError(job, outcome.statusCode)
      case Some(r) => Restart(r.0, r.1)
      case None => Fail(job.(status := Failed), HttpErrorMessage(outcome.statusCode, job.url))
    else
      Done(job.(status := Completed, response := Some(Response(job.id, job.url, outcome.body))))
  }

  /** A job that has used up its retries is never restarted. */
  lemma NoRetryAfterMax(job: Job, outcome: TransferOutcome)
    requires job.retries >= MaxRetries
    ensures !Finish(job, outcome).Restart?
  {
  }

  // ---------------------------------------------------------------------------
  // The life of one job over successive attempts
  // ---------------------------------------------------------------------------

  /** How a job ended, how many transfers it took and the delays slept between them. */
  datatype Life = Life(last: Completion, attempts: nat, delays: seq<nat>)

  /**
    Feeding the outcomes of successive attempts to one job until it completes
    or fails. None when the outcomes run out while the job is still retrying.
   */
  function Lifecycle(job: Job, outcomes: seq<TransferOutcome>): Option<Life>
    decreases |outcomes|
  {
    if outcomes == [] then None
    else
      match Finish(job, outcomes[0])
      case Restart(j, d) =>
        (match Lifecycle(j, outcomes[1..])
         case None => None
         case Some(l) => Some(Life(l.last, l.attempts + 1, [d] + l.delays)))
      case c => Some(Life(c, 1, []))
  }

  /** The delays a job sees on its way from `from` retries to its end. */
  function DelaySchedule(from: nat, n: nat): (r: seq<nat>)
    ensures |r| == n
    ensures forall k :: 0 <= k < n ==> r[k] == RestartDelay(from + k + 1)
    decreases n
  {
    if n == 0 then [] else [RestartDelay(from + 1)] + DelaySchedule(from + 1, n - 1)
  }

  /**
    A job is transferred at most `MaxRetries + 1 - retries` more times; given
    that many outcomes it always reaches an end; it never ends restarting;
    and the delays before its restarts follow the back-off schedule.
   */
  lemma {:induction false} LifecycleBounded(job: Job, outcomes: seq<TransferOutcome>)
    requires job.retries <= MaxRetries
    ensures var l := Lifecycle(job, outcomes);
            && (|outcomes| >= MaxRetries + 1 - job.retries ==> l.Some?)
            && (l.Some? ==> 1 <= l.value.attempts <= MaxRetries + 1 - job.retries
                            && !l.value.last.Restart?
                            && l.value.delays == DelaySchedule(job.retries, l.value.attempts - 1))
    decreases |outcomes|
  {
    if outcomes != [] {
      var c := Finish(job, outcomes[0]);
      if c.Restart? {
        LifecycleBounded(c.job, outcomes[1..]);
      }
    }
  }

  /** A fresh job makes at most four attempts, sleeping 0, 100 ms and 500 ms before its restarts. */
  lemma AtMostFourAttempts(job: Job, outcomes: seq<TransferOutcome>)
    requires job.retries == 0
    requires Lifecycle(job, outcomes).Some?
    ensures Lifecycle(job, outcomes).value.attempts <= 4
    ensures Lifecycle(job, outcomes).value.delays <= [0, 100000, 500000]
  {
    LifecycleBounded(job, outcomes);
    var l := Lifecycle(job, outcomes).value;
    var ds := DelaySchedule(0, l.attempts - 1);
    assert forall k :: 0 <= k < |ds| ==> ds[k] == [0, 100000, 500000][k];
  }

  // ---------------------------------------------------------------------------
  // Transfer options and handle bookkeeping
  // ---------------------------------------------------------------------------

  /** The CA option: a bundle directory goes to CAPATH, a bundle file to CAINFO. */
  function CaOptions(bundle: string, isDir: bool): (r: CurlOptions)
    ensures r.Keys == {if isDir then OptCaPath else OptCaInfo}
  {
    map[(if isDir then OptCaPath else OptCaInfo) := Text(bundle)]
  }

  /** Options a caller cannot override. */
  const ForcedKeys: set<int> := {OptShare, OptFollowLocation, OptFile, OptEncoding, OptHttpContentDecoding}

  /** Trust store, connect timeout (10 s) and overall timeout (300 s). */
  function Baseline(caOptions: CurlOptions): CurlOptions {
    caOptions + map[OptConnectTimeout := Number(10), OptTimeout := Number(300)]
  }

  /** Shared session cache, redirects, the body sink and transparent compression. */
  function Forced(share: OptionValue, body: OptionValue, gzip: bool): (r: CurlOptions)
    ensures r.Keys == ForcedKeys
  {
    map[OptShare := share, OptFollowLocation := Flag(true), OptFile := body,
        OptEncoding := Text(if gzip then "gzip" else ""),
        OptHttpContentDecoding := Number(if gzip then 0 else 1)]
  }

  /**
    The options a transfer is opened with (`download`): the baseline first,
    then the caller's options, which may replace baseline entries, then the
    forced options, which the caller cannot replace.
   */
  function EffectiveOptions(caOptions: CurlOptions, caller: CurlOptions, share: OptionValue,
                            body: OptionValue, gzip: bool): (r: CurlOptions)
    ensures r.Keys == Baseline(caOptions).Keys + caller.Keys + ForcedKeys
    ensures forall k :: k in ForcedKeys ==> r[k] == Forced(share, body, gzip)[k]
    ensures forall k :: k in caller && k !in ForcedKeys ==> r[k] == caller[k]
    ensures forall k :: k in Baseline(caOptions) && k !in caller && k !in ForcedKeys ==> r[k] == Baseline(caOptions)[k]
  {
    var base := Baseline(caOptions);
    var withCaller := if |caller| != 0 then base + caller else base;
    withCaller + Forced(share, body, gzip)
  }

  /** A caller's timeouts replace the baseline ones; its redirect setting never survives. */
  lemma CallerPrecedence(caOptions: CurlOptions, caller: CurlOptions, share: OptionValue, body: OptionValue, gzip: bool)
    requires OptTimeout in caller && OptFollowLocation in caller
    ensures EffectiveOptions(caOptions, caller, share, body, gzip)[OptTimeout] == caller[OptTimeout]
    ensures EffectiveOptions(caOptions, caller, share, body, gzip)[OptFollowLocation] == Flag(true)
  {
  }

  /**
    The worker's registry: jobs keyed by the id of their curl handle, and the
    handles currently attached to the multi handle.
   */
  datatype Worker = Worker(jobs: map<nat, Job>, attached: set<nat>)

  /**
    `download`: register `job` under the new handle `handle` (the value
    curl_init returned) and attach it; the job remembers the handle.
   */
  function Download(w: Worker, job: Job, handle: nat): (r: (Worker, Job))
    ensures r.1 == job.(curlHandle := Some(handle), curlId := Some(handle))
    ensures r.0.jobs == w.jobs[handle := r.1] && r.0.attached == w.attached + {handle}
  {
    var j := job.(curlHandle := Some(handle), curlId := Some(handle));
    (Worker(w.jobs[handle := j], w.attached + {handle}), j)
  }

  /** `removeCurlHandle`: detach and forget the job's live handle, if it has one. */
  function RemoveCurlHandle(w: Worker, job: Job): (r: (Worker, Job))
    ensures r.1.curlHandle.None?
    ensures r.1 == job.(curlHandle := None)
    ensures job.curlHandle.Some? ==> r.0.attached == w.attached - {job.curlHandle.value}
    ensures job.curlHandle.None? ==> r.0 == w
    ensures r.0.jobs == w.jobs
  {
    match job.curlHandle
    case None => (w, job)
    case Some(h) => (w.(attached := w.attached - {h}), job.(curlHandle := None))
  }

  /** `removeFromJobs`: unregister the job's handle id, if registered. */
  function RemoveFromJobs(w: Worker, job: Job): (r: Worker)
    ensures job.curlId.Some? ==> r.jobs.Keys == w.jobs.Keys - {job.curlId.value}
    ensures job.curlId.None? ==> r.jobs == w.jobs
    ensures forall k :: k in r.jobs ==> r.jobs[k] == w.jobs[k]
    ensures r.attached == w.attached
  {
    match job.curlId
    case Some(id) => if id in w.jobs then w.(jobs := w.jobs - {id}) else w
    case None => w
  }

  /** Removing a handle twice does no more than removing it once. */
  lemma RemoveCurlHandleIdempotent(w: Worker, job: Job)
    ensures var (w1, j1) := RemoveCurlHandle(w, job);
            RemoveCurlHandle(w1, j1) == (w1, j1)
  {
  }

  /** Unregistering twice does no more than unregistering once. */
  lemma RemoveFromJobsIdempotent(w: Worker, job: Job)
    ensures RemoveFromJobs(RemoveFromJobs(w, job), job) == RemoveFromJobs(w, job)
  {
  }

  /** `abortRequest`: release the transfer of a job without classifying it. */
  function AbortRequest(w: Worker, job: Job): (r: (Worker, Job))
    ensures r.1.curlHandle.None?
    ensures job.curlId.Some? ==> job.curlId.value !in r.0.jobs
    ensures job.curlHandle.Some? ==> job.curlHandle.value !in r.0.attached
    ensures r.0.attached <= w.attached
    ensures forall k :: k in r.0.jobs ==> k in w.jobs && r.0.jobs[k] == w.jobs[k]
  {
    var (w1, j1) := RemoveCurlHandle(w, job);
    (RemoveFromJobs(w1, j1), j1)
  }

  /**
    Aborting a transfer just started on a fresh handle gives back the
    registry as it was; the job keeps only the id of the released handle.
   */
  lemma DownloadThenAbort(w: Worker, job: Job, handle: nat)
    requires handle !in w.jobs && handle !in w.attached
    ensures var (w1, j1) := Download(w, job, handle);
            AbortRequest(w1, j1) == (w, job.(curlHandle := None, curlId := Some(handle)))
  {
    var (w1, j1) := Download(w, job, handle);
    assert w1.jobs - {handle} == w.jobs;
    assert w1.attached - {handle} == w.attached;
  }
}
