/**
  The batch downloader (src/Http/HttpDownloader.php): it queues one job per
  URL, keeps at most twelve transfers in flight, polls the worker until no
  job is active, collects responses by URL index, and on the first failure
  abandons the whole batch.

  The transport is not modelled: each poll of the worker (`tick`) is given
  the transfers that finished during it, as a `Harvest` of (job id, outcome)
  pairs in the order curl reported them, and a wait is given the sequence of
  harvests its polls see.
 */
module HttpDownloader {
  import opened Wrappers
  import opened HttpJob
  import opened ResponseCollector
  import HttpWorker

  /** Transfers allowed in flight at once (`$maxJobs`). */
  const MaxJobs: nat := 12

  /** URLs queued between two waits in `getBatch`. */
  const ChunkSize: nat := 50

  /** The pause between two chunks, in microseconds. */
  const ChunkPauseUs: nat := 50000

  /** The transfers that finished during one poll of the worker. */
  type Harvest = seq<(int, HttpWorker.TransferOutcome)>

  /**
    The downloader's state: the jobs in queue order, the number it believes
    are in flight, the completed responses, the options every new job gets
    and the configured user agent.
   */
  datatype Downloader = Downloader(
    jobs: seq<Job>,
    runningJobs: nat,
    collector: Collector,
    curlOptions: CurlOptions,
    userAgent: Option<string>)

  // ---------------------------------------------------------------------------
  // Job bookkeeping
  // ---------------------------------------------------------------------------

  /** The ids of a job list. */
  function Ids(jobs: seq<Job>): (r: set<int>)
    ensures forall i :: 0 <= i < |jobs| ==> jobs[i].id in r
    decreases |jobs|
  {
    if jobs == [] then {} else {jobs[0].id} + Ids(jobs[1..])
  }

  /** The number of jobs whose status is Started. */
  function CountStarted(jobs: seq<Job>): (n: nat)
    ensures n <= |jobs|
    decreases |jobs|
  {
    if jobs == [] then 0 else (if jobs[0].status == Started then 1 else 0) + CountStarted(jobs[1..])
  }

  /** Both lists hold the same jobs by id and URL, in the same positions. */
  predicate SameShape(a: seq<Job>, b: seq<Job>) {
    |a| == |b| && forall i :: 0 <= i < |a| ==> a[i].id == b[i].id && a[i].url == b[i].url
  }

  /** Jobs of the same shape have the same ids. */
  lemma {:induction false} SameShapeIds(a: seq<Job>, b: seq<Job>)
    requires SameShape(a, b)
    ensures Ids(a) == Ids(b)
    decreases |a|
  {
    if a != [] {
      SameShapeIds(a[1..], b[1..]);
    }
  }

  /** Replacing one job changes the Started count by exactly the change at that position. */
  lemma {:induction false} CountStartedUpdate(jobs: seq<Job>, i: nat, j: Job)
    requires i < |jobs|
    ensures CountStarted(jobs[i := j]) + (if jobs[i].status == Started then 1 else 0)
            == CountStarted(jobs) + (if j.status == Started then 1 else 0)
    decreases |jobs|
  {
    if i > 0 {
      CountStartedUpdate(jobs[1..], i - 1, j);
      assert jobs[i := j][1..] == jobs[1..][i - 1 := j];
    }
  }

  /** The position of the job with id `id`, if one is listed. */
  function IndexOfId(jobs: seq<Job>, id: int): (r: Option<nat>)
    ensures r.None? <==> id !in Ids(jobs)
    ensures r.Some? ==> r.value < |jobs| && jobs[r.value].id == id
    decreases |jobs|
  {
    if jobs == [] then None
    else if jobs[0].id == id then Some(0)
    else match IndexOfId(jobs[1..], id)
      case None => None
      case Some(k) => Some(k + 1)
  }

  /**
    `$this->jobs[$index] = $job`: a job with a new id goes to the end of the
    list; one with a listed id replaces that entry where it stands.
   */
  function Put(jobs: seq<Job>, job: Job): (r: seq<Job>)
    ensures job.id !in Ids(jobs) ==> r == jobs + [job]
    ensures job.id in Ids(jobs) ==> |r| == |jobs| && job in r
    ensures job.id in Ids(jobs) ==>
              exists i :: 0 <= i < |jobs| && jobs[i].id == job.id && r == jobs[i := job]
  {
    match IndexOfId(jobs, job.id)
    case None => jobs + [job]
    case Some(i) =>
      assert jobs[i := job][i] == job;
      jobs[i := job]
  }

  /**
    `startJob`: a queued job becomes Started and is counted; any other job is
    left alone. The source then hands the job to the worker through
    `WorkerInterface::download(Job)` (src/Http/HttpDownloader.php:128). The
    default worker, `HttpWorker`, does not declare that interface and its
    `download` also takes the curl options (src/Http/HttpWorker.php:46), so
    as written the constructor cannot store a new `HttpWorker` in the
    property typed `WorkerInterface` (src/Http/HttpDownloader.php:25 and 34)
    and raises a `TypeError`. The transfer is not modelled; the model takes
    the job to start with the curl options it carries.
   */
  function StartJob(job: Job, running: nat): (r: (Job, nat))
    ensures job.status == Queued ==> r == (job.(status := Started), running + 1)
    ensures job.status != Queued ==> r == (job, running)
  {
    if job.status != Queued then (job, running) else (job.(status := Started), running + 1)
  }

  // ---------------------------------------------------------------------------
  // State invariants
  // ---------------------------------------------------------------------------

  /** The in-flight count is the number of Started jobs and never exceeds the cap. */
  predicate Inv(d: Downloader) {
    d.runningJobs == CountStarted(d.jobs) && d.runningJobs <= MaxJobs
  }

  /** The state between two public calls: no jobs and no stored responses. */
  predicate Idle(d: Downloader) {
    d.jobs == [] && d.runningJobs == 0 && d.collector == Empty
  }

  /** A job the downloader can hold: never failed or aborted, and a completed one carries its response. */
  predicate Consistent(j: Job) {
    && j.status != Failed && j.status != Aborted
    && (j.status == Completed ==> j.response.Some? && j.response.value.id == j.id && j.response.value.url == j.url)
  }

  /** Every job is consistent and is the URL `e` expects under its id. */
  predicate JobsMatch(jobs: seq<Job>, e: map<int, string>) {
    forall i :: 0 <= i < |jobs| ==> jobs[i].id in e && e[jobs[i].id] == jobs[i].url && Consistent(jobs[i])
  }

  /** Every stored response sits under its own id and is for the URL `e` expects. */
  predicate CollectorMatches(c: Collector, e: map<int, string>) {
    forall k :: k in c.items ==> k in e && c.items[k].id == k && c.items[k].url == e[k]
  }

  /**
    The downloader accounts for the expected URLs `e`: each is either still a
    job or already a stored response, and nothing else is held.
   */
  predicate Tracks(d: Downloader, e: map<int, string>) {
    && JobsMatch(d.jobs, e)
    && CollectorMatches(d.collector, e)
    && e.Keys == Ids(d.jobs) + d.collector.items.Keys
  }

  lemma IdleTracksNothing(d: Downloader)
    requires Idle(d)
    ensures Inv(d) && Tracks(d, map[])
  {
  }

  // ---------------------------------------------------------------------------
  // Construction and options
  // ---------------------------------------------------------------------------

  /**
    `setUserAgent`: a configured user agent is added to the options unless
    the options already name one.
   */
  function WithUserAgent(options: CurlOptions, userAgent: Option<string>): (r: CurlOptions)
    ensures userAgent.None? || HttpWorker.OptUserAgent in options ==> r == options
    ensures userAgent.Some? && HttpWorker.OptUserAgent !in options ==>
              r == options[HttpWorker.OptUserAgent := Text(userAgent.value)]
  {
    match userAgent
    case None => options
    case Some(ua) => if HttpWorker.OptUserAgent in options then options else options[HttpWorker.OptUserAgent := Text(ua)]
  }

  /** Applying the user agent again changes nothing. */
  lemma WithUserAgentIdempotent(options: CurlOptions, userAgent: Option<string>)
    ensures WithUserAgent(WithUserAgent(options, userAgent), userAgent) == WithUserAgent(options, userAgent)
  {
  }

  /** The constructor: idle, with the user agent as the only option when one is given. */
  function New(userAgent: Option<string>): (d: Downloader)
    ensures Idle(d) && d.userAgent == userAgent
    ensures userAgent.Some? ==> d.curlOptions == map[HttpWorker.OptUserAgent := Text(userAgent.value)]
    ensures userAgent.None? ==> d.curlOptions == map[]
  {
    Downloader([], 0, Empty, WithUserAgent(map[], userAgent), userAgent)
  }

  /** `setCurlOptions`: replace the options, then add the user agent if they lack one. */
  function SetCurlOptions(d: Downloader, options: CurlOptions): (r: Downloader)
    ensures r == d.(curlOptions := WithUserAgent(options, d.userAgent))
    ensures forall k :: k in options ==> k in r.curlOptions && r.curlOptions[k] == options[k]
  {
    d.(curlOptions := WithUserAgent(options, d.userAgent))
  }

  // ---------------------------------------------------------------------------
  // Queueing and polling
  // ---------------------------------------------------------------------------

  /** `queueJob`: a new job with the current options, started at once if there is room. */
  function QueueJob(d: Downloader, id: int, url: string): (r: Downloader)
    ensures id !in Ids(d.jobs) ==> |r.jobs| == |d.jobs| + 1 && r.jobs[..|d.jobs|] == d.jobs
    ensures id !in Ids(d.jobs) ==> var j := r.jobs[|d.jobs|];
              j.id == id && j.url == url && j.curlOptions == d.curlOptions && j.retries == 0
              && (j.status == Started <==> d.runningJobs < MaxJobs)
              && (j.status == Queued <==> d.runningJobs >= MaxJobs)
    ensures r.runningJobs == if d.runningJobs < MaxJobs then d.runningJobs + 1 else d.runningJobs
    ensures r.collector == d.collector && r.curlOptions == d.curlOptions && r.userAgent == d.userAgent
  {
    var job := NewJob(id, url, d.curlOptions);
    if d.runningJobs < MaxJobs then
      var (started, running) := StartJob(job, d.runningJobs);
      d.(jobs := Put(d.jobs, started), runningJobs := running)
    else
      d.(jobs := Put(d.jobs, job))
  }

  /** Queueing a URL under a new id keeps the invariant and adds that URL to the ones accounted for. */
  lemma QueueJobTracks(d: Downloader, e: map<int, string>, id: int, url: string)
    requires Inv(d) && Tracks(d, e) && id !in e
    ensures Inv(QueueJob(d, id, url)) && Tracks(QueueJob(d, id, url), e[id := url])
  {
    var r := QueueJob(d, id, url);
    var j := r.jobs[|d.jobs|];
    assert r.jobs == d.jobs + [j];
    CountAppend(d.jobs, j);
    IdsAppend(d.jobs, j);
  }

  lemma {:induction false} CountAppend(jobs: seq<Job>, j: Job)
    ensures CountStarted(jobs + [j]) == CountStarted(jobs) + (if j.status == Started then 1 else 0)
    decreases |jobs|
  {
    if jobs != [] {
      CountAppend(jobs[1..], j);
      assert (jobs + [j])[1..] == jobs[1..] + [j];
    }
  }

  lemma {:induction false} IdsAppend(jobs: seq<Job>, j: Job)
    ensures Ids(jobs + [j]) == Ids(jobs) + {j.id}
    decreases |jobs|
  {
    if jobs != [] {
      IdsAppend(jobs[1..], j);
      assert (jobs + [j])[1..] == jobs[1..] + [j];
    }
  }

  /**
    The start loop of `countActiveJobs`: queued jobs are started in queue
    order while fewer than `MaxJobs` are running. Only queued jobs change;
    when the cap is not reached no job is left queued; an earlier queued job
    is never passed over for a later one; the count never exceeds the cap.
   */
  function Admit(jobs: seq<Job>, running: nat): (r: (seq<Job>, nat))
    ensures SameShape(jobs, r.0)
    ensures running <= r.1
    ensures running <= MaxJobs ==> r.1 <= MaxJobs
    ensures running >= MaxJobs ==> r == (jobs, running)
    ensures CountStarted(r.0) + running == CountStarted(jobs) + r.1
    ensures forall i :: 0 <= i < |jobs| ==>
              r.0[i] == jobs[i] || (jobs[i].status == Queued && r.0[i] == jobs[i].(status := Started))
    ensures r.1 < MaxJobs ==> forall i :: 0 <= i < |jobs| ==> r.0[i].status != Queued
    ensures forall k, i :: 0 <= k < i < |jobs| && jobs[k].status == Queued && r.0[i] != jobs[i] ==> r.0[k] != jobs[k]
    decreases |jobs|
  {
    if jobs == [] then ([], running)
    else
      var (first, running') :=
        if jobs[0].status == Queued && running < MaxJobs then StartJob(jobs[0], running) else (jobs[0], running);
      var (rest, n) := Admit(jobs[1..], running');
      assert jobs == [jobs[0]] + jobs[1..];
      ([first] + rest, n)
  }

  /** The first Started job with id `id`: the one the worker has a live transfer for. */
  function FindStarted(jobs: seq<Job>, id: int): (r: Option<nat>)
    ensures r.Some? ==> r.value < |jobs| && jobs[r.value].id == id && jobs[r.value].status == Started
    ensures r.None? ==> forall i :: 0 <= i < |jobs| ==> jobs[i].id != id || jobs[i].status != Started
    decreases |jobs|
  {
    if jobs == [] then None
    else if jobs[0].id == id && jobs[0].status == Started then Some(0)
    else match FindStarted(jobs[1..], id)
      case None => None
      case Some(k) => Some(k + 1)
  }

  /** What the worker's `tick` leaves: the updated jobs, or the jobs when it threw and why. */
  datatype Harvested = Harvested(jobs: seq<Job>) | Threw(jobs: seq<Job>, message: string)

  /**
    The worker's `tick` over one harvest: each finished transfer of a started
    job is classified by `HttpWorker.Finish`; completed and restarted jobs
    are updated in place, transfers of unknown jobs are skipped, and the first
    failure stops the poll with its message.
   */
  function ApplyHarvest(jobs: seq<Job>, harvest: Harvest): (r: Harvested)
    ensures SameShape(jobs, r.jobs)
    ensures CountStarted(r.jobs) <= CountStarted(jobs)
    ensures forall i :: 0 <= i < |jobs| && jobs[i].status == Queued ==> r.jobs[i] == jobs[i]
    ensures r.Harvested? && (forall i :: 0 <= i < |jobs| ==> Consistent(jobs[i])) ==>
              forall i :: 0 <= i < |r.jobs| ==> Consistent(r.jobs[i])
    decreases |harvest|
  {
    if harvest == [] then Harvested(jobs)
    else
      var (id, outcome) := harvest[0];
      match FindStarted(jobs, id)
      case None => ApplyHarvest(jobs, harvest[1..])
      case Some(i) =>
        match ApplyOutcome(jobs, i, outcome)
        case Harvested(jobs') => ApplyHarvest(jobs', harvest[1..])
        case Threw(jobs', msg) => Threw(jobs', msg)
  }

  /**
    One finished transfer of the started job at `i`: completed and restarted
    jobs are updated in place and the poll goes on; a failure is recorded on
    the job and stops the poll.
   */
  function ApplyOutcome(jobs: seq<Job>, i: nat, outcome: HttpWorker.TransferOutcome): (r: Harvested)
    requires i < |jobs| && jobs[i].status == Started
    ensures SameShape(jobs, r.jobs)
    ensures CountStarted(r.jobs) <= CountStarted(jobs)
    ensures forall k :: 0 <= k < |jobs| && k != i ==> r.jobs[k] == jobs[k]
    ensures r.Threw? <==> HttpWorker.Finish(jobs[i], outcome).Fail?
    ensures r.Harvested? && Consistent(jobs[i]) ==> Consistent(r.jobs[i])
  {
    match HttpWorker.Finish(jobs[i], outcome)
    case Done(j) =>
      CountStartedUpdate(jobs, i, j);
      Harvested(jobs[i := j])
    case Restart(j, _) =>
      CountStartedUpdate(jobs, i, j);
      Harvested(jobs[i := j])
    case Fail(j, msg) =>
      CountStartedUpdate(jobs, i, j);
      Threw(jobs[i := j], msg)
  }

  /** Store a finished job's response (every finished job the downloader holds has one). */
  function Collect(c: Collector, job: Job): Collector {
    match job.response
    case Some(resp) => Add(c, resp)
    case None => c
  }

  /**
    The recount of `countActiveJobs`: active jobs stay, in order; every other
    job leaves the list and its response goes to the collector. Nothing is
    lost: the ids held before are the ids held after, between list and store.
   */
  function Recount(jobs: seq<Job>, c: Collector): (r: (seq<Job>, Collector))
    ensures forall i :: 0 <= i < |r.0| ==> IsActive(r.0[i].status) && r.0[i] in jobs
    ensures forall i :: 0 <= i < |jobs| && IsActive(jobs[i].status) ==> jobs[i] in r.0
    ensures c.items.Keys <= r.1.items.Keys
    ensures (forall i :: 0 <= i < |jobs| ==> Consistent(jobs[i])) ==>
              Ids(jobs) + c.items.Keys == Ids(r.0) + r.1.items.Keys
    decreases |jobs|
  {
    if jobs == [] then ([], c)
    else if IsActive(jobs[0].status) then
      var (rest, c') := Recount(jobs[1..], c);
      ([jobs[0]] + rest, c')
    else
      Recount(jobs[1..], Collect(c, jobs[0]))
  }

  /** The recount stores only responses for the URLs expected under their ids. */
  lemma {:induction false} RecountMatches(jobs: seq<Job>, c: Collector, e: map<int, string>)
    requires JobsMatch(jobs, e) && CollectorMatches(c, e)
    ensures JobsMatch(Recount(jobs, c).0, e) && CollectorMatches(Recount(jobs, c).1, e)
    decreases |jobs|
  {
    if jobs != [] {
      if IsActive(jobs[0].status) {
        RecountMatches(jobs[1..], c, e);
      } else {
        RecountMatches(jobs[1..], Collect(c, jobs[0]), e);
      }
    }
  }

  /** A poll's result: the new state and the active count, or the state when the worker threw. */
  datatype Tick = Ticked(d: Downloader, active: nat) | Failure(d: Downloader, message: string)

  /**
    `countActiveJobs`: start queued jobs up to the cap, poll the worker with
    `harvest`, then drop every finished job into the collector and recount.
    The active count is the number of jobs left, all of them queued or
    started, and the in-flight count is the number of started ones.
   */
  function CountActiveJobs(d: Downloader, harvest: Harvest): (r: Tick)
    ensures r.Ticked? ==> r.active == |r.d.jobs| && r.d.runningJobs == CountStarted(r.d.jobs)
    ensures r.Ticked? ==> forall i :: 0 <= i < |r.d.jobs| ==> IsActive(r.d.jobs[i].status)
    ensures r.Ticked? ==> d.collector.items.Keys <= r.d.collector.items.Keys
    ensures r.d.curlOptions == d.curlOptions && r.d.userAgent == d.userAgent
  {
    var admitted := Admit(d.jobs, d.runningJobs);
    match ApplyHarvest(admitted.0, harvest)
    case Threw(jobs, msg) => Failure(d.(jobs := jobs, runningJobs := admitted.1), msg)
    case Harvested(jobs) =>
      var settled := Settle(d, jobs);
      Ticked(settled, |settled.jobs|)
  }

  /** The recount applied to the state: finished jobs go to the collector, the in-flight count is redone. */
  function Settle(d: Downloader, jobs: seq<Job>): (r: Downloader)
    ensures r.jobs == Recount(jobs, d.collector).0 && r.collector == Recount(jobs, d.collector).1
    ensures r.runningJobs == CountStarted(r.jobs)
    ensures r.curlOptions == d.curlOptions && r.userAgent == d.userAgent
  {
    var (remaining, c) := Recount(jobs, d.collector);
    d.(jobs := remaining, runningJobs := CountStarted(remaining), collector := c)
  }

  /** Polling keeps the invariant and the accounting of the expected URLs. */
  lemma CountActiveJobsTracks(d: Downloader, harvest: Harvest, e: map<int, string>)
    requires Inv(d) && Tracks(d, e)
    ensures CountActiveJobs(d, harvest).Ticked? ==>
              Inv(CountActiveJobs(d, harvest).d) && Tracks(CountActiveJobs(d, harvest).d, e)
  {
    var admitted := Admit(d.jobs, d.runningJobs);
    var h := ApplyHarvest(admitted.0, harvest);
    if h.Harvested? {
      SameShapeIds(d.jobs, admitted.0);
      SameShapeIds(admitted.0, h.jobs);
      assert JobsMatch(admitted.0, e);
      assert JobsMatch(h.jobs, e);
      RecountMatches(h.jobs, d.collector, e);
      RecountStarted(h.jobs, d.collector);
    }
  }

  /** The recount keeps exactly the Started jobs. */
  lemma {:induction false} RecountStarted(jobs: seq<Job>, c: Collector)
    ensures CountStarted(Recount(jobs, c).0) == CountStarted(jobs)
    decreases |jobs|
  {
    if jobs != [] {
      if IsActive(jobs[0].status) {
        RecountStarted(jobs[1..], c);
      } else {
        RecountStarted(jobs[1..], Collect(c, jobs[0]));
      }
    }
  }

  // ---------------------------------------------------------------------------
  // Waiting and aborting
  // ---------------------------------------------------------------------------

  /**
    `abortJobs`: every job that was started has its transfer released (the
    returned jobs), then all jobs and stored responses are dropped.
   */
  function AbortJobs(d: Downloader): (r: (Downloader, seq<Job>))
    ensures Idle(r.0)
    ensures r.0.curlOptions == d.curlOptions && r.0.userAgent == d.userAgent
    ensures forall i :: 0 <= i < |r.1| ==> r.1[i] in d.jobs && r.1[i].status != Queued
    ensures forall i :: 0 <= i < |d.jobs| && d.jobs[i].status != Queued ==> d.jobs[i] in r.1
  {
    (d.(jobs := [], runningJobs := 0, collector := GetAll(d.collector).1), Released(d.jobs))
  }

  /** The jobs that are not queued, in order. */
  function Released(jobs: seq<Job>): (r: seq<Job>)
    ensures forall i :: 0 <= i < |r| ==> r[i] in jobs && r[i].status != Queued
    ensures forall i :: 0 <= i < |jobs| && jobs[i].status != Queued ==> jobs[i] in r
    decreases |jobs|
  {
    if jobs == [] then []
    else if jobs[0].status == Queued then Released(jobs[1..])
    else [jobs[0]] + Released(jobs[1..])
  }

  /**
    How a wait ends: no job left active; a failure (after `abortJobs`, with
    the released jobs and the message rethrown); or, in the model only, the
    supplied polls ran out while jobs were still active.
   */
  datatype Waited =
    | Finished(d: Downloader)
    | Abandoned(d: Downloader, released: seq<Job>, message: string)
    | OutOfTicks(d: Downloader)

  /** `wait`: poll until no job is active, one harvest per poll. */
  function Wait(d: Downloader, polls: seq<Harvest>): (r: Waited)
    ensures r.Finished? ==> r.d.jobs == [] && r.d.runningJobs == 0
    ensures r.Finished? ==> d.collector.items.Keys <= r.d.collector.items.Keys
    ensures r.Abandoned? ==> Idle(r.d)
    ensures r.d.curlOptions == d.curlOptions && r.d.userAgent == d.userAgent
    decreases |polls|
  {
    if polls == [] then OutOfTicks(d)
    else
      match CountActiveJobs(d, polls[0])
      case Failure(d', msg) =>
        var (aborted, released) := AbortJobs(d');
        Abandoned(aborted, released, msg)
      case Ticked(d', active) =>
        if active == 0 then Finished(d') else Wait(d', polls[1..])
  }

  /**
    A wait that finishes leaves every expected URL's response in the
    collector, under its id and for its URL; one that runs out of polls
    still accounts for all of them.
   */
  lemma {:induction false} WaitTracks(d: Downloader, polls: seq<Harvest>, e: map<int, string>)
    requires Inv(d) && Tracks(d, e)
    ensures var r := Wait(d, polls);
            !r.Abandoned? ==> Inv(r.d) && Tracks(r.d, e)
    ensures Wait(d, polls).Finished? ==> Wait(d, polls).d.collector.items.Keys == e.Keys
    decreases |polls|
  {
    if polls != [] {
      CountActiveJobsTracks(d, polls[0], e);
      var t := CountActiveJobs(d, polls[0]);
      if t.Ticked? && t.active != 0 {
        WaitTracks(t.d, polls[1..], e);
      }
    }
  }

  // ---------------------------------------------------------------------------
  // The public operations
  // ---------------------------------------------------------------------------

  /** The outcome of a public fetch: the value and the new state, the rethrown failure, or out of polls. */
  datatype Fetch<T> = Fetched(d: Downloader, value: T) | Thrown(d: Downloader, message: string) | Stalled(d: Downloader)

  /** The responses of a batch by URL index, and the pauses made between its chunks. */
  datatype Batch = Batch(responses: map<int, Response>, pauses: nat)

  /** The URLs `0 .. n-1` of a list, by index. */
  function Expected(urls: seq<string>, n: nat): (e: map<int, string>)
    requires n <= |urls|
    ensures forall k :: k in e <==> 0 <= k < n
    ensures forall k :: 0 <= k < n ==> e[k] == urls[k]
  {
    map k | 0 <= k < n :: urls[k]
  }

  /**
    `get`: download one URL under id 0. When the wait finishes, the one
    response is for that URL; either way the downloader is left idle.
   */
  function Get(d: Downloader, url: string, polls: seq<Harvest>): (r: Fetch<Response>)
    requires Idle(d)
    ensures r.Fetched? ==> r.value.id == 0 && r.value.url == url && Idle(r.d)
    ensures r.Thrown? ==> Idle(r.d)
    ensures r.d.curlOptions == d.curlOptions
  {
    var d1 := QueueJob(d, 0, url);
    QueueJobTracks(d, map[], 0, url);
    assert map[][0 := url] == map[0 := url];
    WaitTracks(d1, polls, map[0 := url]);
    match Wait(d1, polls)
    case Finished(d2) =>
      var (all, c) := GetAll(d2.collector);
      Fetched(d2.(collector := c), all[0])
    case Abandoned(d2, _, msg) => Thrown(d2, msg)
    case OutOfTicks(d2) => Stalled(d2)
  }

  /** Queueing the next URL of a batch under its index keeps the batch accounted for. */
  lemma QueueNextTracks(d: Downloader, urls: seq<string>, i: nat)
    requires i < |urls| && Inv(d) && Tracks(d, Expected(urls, i))
    ensures Inv(QueueJob(d, i, urls[i])) && Tracks(QueueJob(d, i, urls[i]), Expected(urls, i + 1))
  {
    QueueJobTracks(d, Expected(urls, i), i, urls[i]);
    assert Expected(urls, i)[i := urls[i]] == Expected(urls, i + 1);
  }

  /** With no jobs left, the stored responses are one per URL index, for that URL. */
  lemma BatchComplete(d: Downloader, urls: seq<string>)
    requires Tracks(d, Expected(urls, |urls|)) && d.jobs == []
    ensures forall k :: k in d.collector.items <==> 0 <= k < |urls|
    ensures forall k :: 0 <= k < |urls| ==> d.collector.items[k].id == k && d.collector.items[k].url == urls[k]
  {
    assert Ids(d.jobs) == {};
  }

  /** The pause count after one more URL: a pause follows every completed chunk but the last. */
  lemma PauseCountNext(i: nat, n: nat, pauses: nat)
    requires i < n && pauses == i / ChunkSize
    ensures var j := i + 1;
            var next := if (j % ChunkSize == 0 || j == n) && j < n then pauses + 1 else pauses;
            next == if j == n then (j - 1) / ChunkSize else j / ChunkSize
  {
  }

  /**
    One turn of the batch loop: queue the URL at `i` under its index, and
    when that completes a chunk or the batch, wait with the given polls. A
    wait that throws or runs out of polls ends the batch; otherwise the
    batch stays accounted for, and after the last chunk no job is left.
   */
  method QueueNext(d: Downloader, urls: seq<string>, i: nat, polls: seq<Harvest>)
    returns (next: Downloader, waited: bool, stop: Option<Fetch<Batch>>)
    requires i < |urls| && Inv(d) && Tracks(d, Expected(urls, i))
    ensures waited <==> (i + 1) % ChunkSize == 0 || i + 1 == |urls|
    ensures stop.None? ==> Inv(next) && Tracks(next, Expected(urls, i + 1))
    ensures stop.None? && i + 1 == |urls| ==> next.jobs == []
    ensures stop.Some? ==> && (stop.value.Thrown? || stop.value.Stalled?)
                           && (stop.value.Thrown? ==> Idle(stop.value.d))
                           && stop.value.d.curlOptions == d.curlOptions
    ensures next.curlOptions == d.curlOptions && next.userAgent == d.userAgent
  {
    QueueNextTracks(d, urls, i);
    next := QueueJob(d, i, urls[i]);
    waited := (i + 1) % ChunkSize == 0 || i + 1 == |urls|;
    stop := None;
    if waited {
      WaitTracks(next, polls, Expected(urls, i + 1));
      match Wait(next, polls) {
        case Abandoned(d', _, msg) =>
          stop := Some(Thrown(d', msg));
        case OutOfTicks(d') =>
          stop := Some(Stalled(d'));
        case Finished(d') =>
          next := d';
      }
    }
  }

  /**
    `getBatch`: queue the URLs in order, waiting after every 50th and after
    the last, pausing 50 ms between chunks, then hand out all responses.
    On success there is exactly one response per URL index, for that URL,
    and a pause before every chunk but the first; a failure leaves nothing
    behind.
   */
  method GetBatch(d0: Downloader, urls: seq<string>, polls: nat -> seq<Harvest>) returns (r: Fetch<Batch>)
    requires Idle(d0)
    ensures r.Fetched? ==> forall k :: k in r.value.responses <==> 0 <= k < |urls|
    ensures r.Fetched? ==> forall k :: 0 <= k < |urls| ==>
              r.value.responses[k].id == k && r.value.responses[k].url == urls[k]
    ensures r.Fetched? && |urls| > 0 ==> r.value.pauses == (|urls| - 1) / ChunkSize
    ensures r.Fetched? || r.Thrown? ==> Idle(r.d)
    ensures r.d.curlOptions == d0.curlOptions
  {
    var d := d0;
    var i := 0;
    var waits := 0;
    var pauses := 0;
    IdleTracksNothing(d0);
    assert Expected(urls, 0) == map[];
    while i < |urls|
      invariant 0 <= i <= |urls|
      invariant Inv(d) && Tracks(d, Expected(urls, i))
      invariant d.curlOptions == d0.curlOptions && d.userAgent == d0.userAgent
      invariant i == |urls| ==> d.jobs == []
      invariant pauses == if i == |urls| && i > 0 then (i - 1) / ChunkSize else i / ChunkSize
    {
      var next, waited, stop := QueueNext(d, urls, i, polls(waits));
      if stop.Some? {
        return stop.value;
      }
      PauseCountNext(i, |urls|, pauses);
      d := next;
      i := i + 1;
      if waited {
        waits := waits + 1;
        if i < |urls| {
          pauses := pauses + 1;
        }
      }
    }
    BatchComplete(d, urls);
    var (all, c) := GetAll(d.collector);
    r := Fetched(d.(collector := c), Batch(all, pauses));
  }
}
