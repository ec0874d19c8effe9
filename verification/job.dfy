/**
  The unit of work of the batch downloader (src/Http/Job.php) and the payload
  it produces (src/Http/Response.php).
 */
module HttpJob {
  import opened Wrappers

  /** A transfer option value; the transport treats it as opaque. */
  datatype OptionValue = Text(text: string) | Number(number: int) | Flag(flag: bool) | Resource(name: string)

  /** Transfer options keyed by curl option id, as curl_setopt_array receives them. */
  type CurlOptions = map<int, OptionValue>

  /** The fetched payload: the job id (the URL's index), the URL and the raw body. */
  datatype Response = Response(id: int, url: string, contents: string)

  /** The life-cycle states of a job. */
  datatype Status = Queued | Started | Completed | Failed | Aborted

  /** The integer constants STATUS_QUEUED .. STATUS_ABORTED the downloader compares. */
  function StatusCode(s: Status): int {
    match s
    case Queued => 1
    case Started => 2
    case Completed => 3
    case Failed => 4
    case Aborted => 5
  }

  /** The downloader treats a job as still active when its code is below STATUS_COMPLETED. */
  predicate IsActive(s: Status) {
    StatusCode(s) < StatusCode(Completed)
  }

  /**
    The status codes are strictly ordered Queued < Started < Completed < Failed
    < Aborted, so "below Completed" means exactly "queued or started".
   */
  lemma StatusOrder(s: Status, t: Status)
    ensures StatusCode(s) < StatusCode(t) <==>
              || (s.Queued? && !t.Queued?)
              || (s.Started? && (t.Completed? || t.Failed? || t.Aborted?))
              || (s.Completed? && (t.Failed? || t.Aborted?))
              || (s.Failed? && t.Aborted?)
    ensures IsActive(s) <==> s.Queued? || s.Started?
  {
  }

  /**
    A job: the URL, its options, its status and retry count. `curlHandle` is
    the live transfer (if any), `curlId` the key the worker registered it
    under, and `response` is set once the job completed.
   */
  datatype Job = Job(
    id: int,
    url: string,
    curlOptions: CurlOptions,
    status: Status,
    retries: nat,
    curlHandle: Option<nat>,
    curlId: Option<nat>,
    response: Option<Response>)

  /** A new job: queued, never retried, with its id, URL and options stored unchanged. */
  function NewJob(id: int, url: string, curlOptions: CurlOptions): (j: Job)
    ensures j.status == Queued && j.retries == 0
    ensures j.id == id && j.url == url && j.curlOptions == curlOptions
    ensures j.curlHandle.None? && j.response.None?
  {
    Job(id, url, curlOptions, Queued, 0, None, None, None)
  }
}
