/**
  The run loop every endpoint shares (src/Web/Application.php): the options
  split between the transport and the filter, the two download rounds of a
  task, how each response fills or adds to its slot, and how many further
  pages the first page of the pilots list calls for.

  The downloader, the endpoint's parser and `gzdecode` are parameters (a
  `Services` value): a download gives the responses in the order the batch
  hands them out, each carrying its URL index as its id, and a parse gives
  the page's data collector. How a call ends distinguishes an exception the
  run may catch from an `\Error` (a `TypeError` or a division by zero) that
  passes every `catch (\RuntimeException)`.

  The source calls three collector methods that the endpoint collector
  (src/Web/Endpoint/DataCollector.php) does not declare: `addData`
  (src/Web/Application.php:146), `getProcessedCount` (:161) and
  `getOverallCount` (:163); as written each call is an `\Error`. The model
  follows the evident intent: the processed count is the items kept plus
  the items filtered out, the overall count is the count the page reports,
  and adding data appends the page's items, counts and errors to the slot's
  collector.
 */
module Application {
  import opened Wrappers
  import Strings
  import Values
  import System
  import Task
  import DataCollector
  import WprsException
  import HttpJob
  import HttpUtils

  /** Where the run's own exceptions are raised from. */
  const SourceFile: string := "src/Web/Application.php"

  /** Where the task's exceptions are raised from; their lines are not tracked. */
  const TaskFile: string := "src/Web/Endpoint/Task.php"

  /** The message PHP gives a `DivisionByZeroError`. */
  const DivisionByZero: string := "Division by zero"

  /** How a call ends: with a value, with an exception, or with an `\Error` no `catch` here takes. */
  datatype Outcome<+T> = Done(value: T) | Threw(e: WprsException.Exception) | Fatal(message: string)

  /** The options `setOptions` receives, by name. */
  type Options = map<string, Values.Value>

  /**
    The application's settings: the endpoint's class name, the transport
    options, whether the run is restricted to the first page, the filter,
    and the options last handed to the filter.
   */
  datatype App = App(
    endpoint: string,
    curlOptions: Values.Value,
    restricted: bool,
    filter: Option<DataCollector.Filter>,
    filterOptions: Option<Options>)

  /** The slots of a run: one data collector per URL of the main round. */
  type Slots = Task.Task<DataCollector.Collector>

  /** What the run calls out to: the batch download, the endpoint's parser, and `gzdecode`. */
  datatype Services = Services(
    download: (seq<string>, Values.Value) -> Outcome<seq<HttpJob.Response>>,
    parse: (string, Option<DataCollector.Filter>) -> Outcome<DataCollector.Collector>,
    gunzip: string -> Option<string>)

  /** The constructor's settings: no transport options, unrestricted, nothing handed to the filter. */
  function New(endpoint: string, filter: Option<DataCollector.Filter>): (app: App)
    ensures app.endpoint == endpoint && app.filter == filter
    ensures app.curlOptions == Values.Arr([]) && !app.restricted && app.filterOptions.None?
  {
    App(endpoint, Values.Arr([]), false, filter, None)
  }

  // ---------------------------------------------------------------------------
  // Options
  // ---------------------------------------------------------------------------

  /** `is_array`: records and lists are PHP arrays. */
  predicate IsArray(v: Values.Value) {
    v.Obj? || v.Arr?
  }

  /** Whether the options carry transport options under 'curl'. */
  predicate HasCurl(options: Options) {
    "curl" in options && IsArray(options["curl"])
  }

  /** The options left for the filter: all but an array under 'curl'. */
  function FilterPart(options: Options): (rest: Options)
    ensures HasCurl(options) ==> rest == options - {"curl"}
    ensures !HasCurl(options) ==> rest == options
  {
    if HasCurl(options) then options - {"curl"} else options
  }

  /**
    `setOptions`: an array under 'curl' replaces the transport options and is
    taken out; what is left goes to the filter, when there is one and
    anything is left. Nothing else changes.
   */
  function SetOptions(app: App, options: Options): (r: App)
    ensures HasCurl(options) ==> r.curlOptions == options["curl"]
    ensures !HasCurl(options) ==> r.curlOptions == app.curlOptions
    ensures |FilterPart(options)| != 0 && app.filter.Some? ==> r.filterOptions == Some(FilterPart(options))
    ensures |FilterPart(options)| == 0 || app.filter.None? ==> r.filterOptions == app.filterOptions
    ensures r.endpoint == app.endpoint && r.restricted == app.restricted && r.filter == app.filter
  {
    var app' := if HasCurl(options) then app.(curlOptions := options["curl"]) else app;
    var rest := FilterPart(options);
    if |rest| != 0 && app.filter.Some? then app'.(filterOptions := Some(rest)) else app'
  }

  /** The transport options never reach the filter, and what reaches it is never empty. */
  lemma SetOptionsSeparates(app: App, options: Options)
    ensures var r := SetOptions(app, options);
            r.filterOptions != app.filterOptions ==>
              && r.filterOptions.Some? && |r.filterOptions.value| > 0
              && !HasCurl(r.filterOptions.value)
              && forall k :: k in r.filterOptions.value ==> k in options && r.filterOptions.value[k] == options[k]
  {
  }

  /** Setting the same options twice is setting them once. */
  lemma SetOptionsIdempotent(app: App, options: Options)
    ensures SetOptions(SetOptions(app, options), options) == SetOptions(app, options)
  {
  }

  /** `setRestricted`: only the first page of each URL is fetched from now on. */
  function SetRestricted(app: App): (r: App)
    ensures r.restricted
    ensures r == app.(restricted := r.restricted)
  {
    app.(restricted := true)
  }

  // ---------------------------------------------------------------------------
  // Further pages
  // ---------------------------------------------------------------------------

  /** `isMultiPageEndpoint`: only the pilots list runs over several pages. */
  predicate IsMultiPageEndpoint(app: App) {
    app.endpoint == System.EndpointPilots
  }

  /** The rows of a page the parser went through: those kept and those the filter rejected. */
  function Processed(c: DataCollector.Collector): int {
    c.itemCount + c.filteredCount
  }

  /** `ceil(a / b)` for whole numbers, computed without a fraction. */
  function CeilDiv(a: int, b: int): (q: int)
    requires b != 0
    ensures b > 0 ==> b * q >= a && b * (q - 1) < a
    ensures b < 0 ==> b * q <= a && b * (q - 1) > a
  {
    if b > 0 then CeilDivPositive(a, b); -((-a) / b)
    else CeilDivPositive(-a, -b); -(a / (-b))
  }

  /** Rounding a quotient by a positive divisor up. */
  lemma CeilDivPositive(a: int, b: int)
    requires b > 0
    ensures var q := -((-a) / b);
            b * q >= a && b * (q - 1) < a
  {
    var d := (-a) / b;
    var m := (-a) % b;
    assert -a == b * d + m && 0 <= m < b;
    assert b * (-d) == -(b * d);
    assert b * (-d - 1) == -(b * d) - b;
  }

  /** The number of further pages: `ceil(overall / processed) - 1`, none when that is not positive. */
  function PageCount(overall: int, processed: int): (n: nat)
    requires processed != 0
  {
    var more := CeilDiv(overall, processed) - 1;
    if more > 0 then more else 0
  }

  /** The URLs of pages 2 to n + 1 of a list. */
  function PageUrls(url: string, n: nat): (urls: seq<string>)
    ensures |urls| == n
    ensures forall k :: 0 <= k < n ==> urls[k] == url + "&page=" + Strings.IntToString(k + 2)
  {
    seq(n, k requires 0 <= k < n => url + "&page=" + Strings.IntToString(k + 2))
  }

  /**
    `getRemainingUrls`: none unless this is the pilots list and the run is
    unrestricted; none when the first page held every row; otherwise one URL
    per further page, numbered from 2. A first page that processed nothing
    while reporting rows divides by zero.
   */
  function GetRemainingUrls(app: App, c: DataCollector.Collector, url: string): (r: Outcome<seq<string>>)
    ensures !IsMultiPageEndpoint(app) || app.restricted ==> r == Done([])
    ensures Processed(c) == c.overallCount ==> r == Done([])
    ensures IsMultiPageEndpoint(app) && !app.restricted && Processed(c) == 0 && c.overallCount != 0 ==>
              r == Fatal(DivisionByZero)
    ensures r.Fatal? <==> IsMultiPageEndpoint(app) && !app.restricted && Processed(c) == 0 && c.overallCount != 0
    ensures r.Done? ==> forall k :: 0 <= k < |r.value| ==> r.value[k] == url + "&page=" + Strings.IntToString(k + 2)
    ensures !r.Threw?
  {
    if !IsMultiPageEndpoint(app) || app.restricted then Done([])
    else if Processed(c) == c.overallCount then Done([])
    else if Processed(c) == 0 then Fatal(DivisionByZero)
    else Done(PageUrls(url, PageCount(c.overallCount, Processed(c))))
  }

  /**
    When the first page of the pilots list held p > 0 of its o rows, the
    pages asked for are the fewest that, with the first, hold every row:
    p·(n + 1) ≥ o, and when any are asked for, p·n < o.
   */
  lemma RemainingPagesCover(app: App, c: DataCollector.Collector, url: string)
    requires IsMultiPageEndpoint(app) && !app.restricted
    requires Processed(c) > 0 && Processed(c) != c.overallCount
    ensures GetRemainingUrls(app, c, url).Done?
    ensures var n := |GetRemainingUrls(app, c, url).value|;
            && Processed(c) * (n + 1) >= c.overallCount
            && (n > 0 ==> Processed(c) * n < c.overallCount)
  {
    var p, o := Processed(c), c.overallCount;
    var q := CeilDiv(o, p);
    var n := PageCount(o, p);
    assert |GetRemainingUrls(app, c, url).value| == n;
    if q - 1 > 0 {
      assert n == q - 1;
    } else {
      assert p * q >= o;
      assert p * (n + 1) >= p * q by {
        assert n + 1 >= q;
        MultiplyMonotone(p, q, n + 1);
      }
    }
  }

  /** Multiplying by a positive number keeps order. */
  lemma MultiplyMonotone(p: int, a: int, b: int)
    requires p > 0 && a <= b
    ensures p * a <= p * b
  {
    assert p * b - p * a == p * (b - a);
  }

  /** A restricted run never asks for further pages. */
  lemma RestrictedAsksNoPages(app: App, c: DataCollector.Collector, url: string)
    ensures GetRemainingUrls(SetRestricted(app), c, url) == Done([])
  {
  }

  // ---------------------------------------------------------------------------
  // Responses
  // ---------------------------------------------------------------------------

  /**
    Adding a further page's data to a slot's collector: the page's items
    follow the slot's, the counts and errors add up, and the page's extras
    are laid over the slot's. The slot keeps its overall count.
   */
  function Merge(c: DataCollector.Collector, data: DataCollector.Collector): (r: DataCollector.Collector)
    ensures r.overallCount == c.overallCount
    ensures r.items == c.items + data.items && r.errors == c.errors + data.errors
    ensures Processed(r) == Processed(c) + Processed(data)
    ensures DataCollector.Valid(c) && DataCollector.Valid(data) ==> DataCollector.Valid(r)
    ensures r.extras.Keys == c.extras.Keys + data.extras.Keys
  {
    DataCollector.Collector(
      c.overallCount,
      c.itemCount + data.itemCount,
      c.filteredCount + data.filteredCount,
      c.items + data.items,
      c.extras + data.extras,
      c.errors + data.errors)
  }

  /** A task message as the `\RuntimeException` the task throws. */
  function RuntimeError(message: string): (e: WprsException.Exception)
    ensures !e.isWprs && e.message == message && e.file == TaskFile
  {
    WprsException.Exception(false, message, 0, TaskFile, 0, false)
  }

  /** The slot an index of the current round stands for: itself in the main round, its slot in the extra round. */
  function SlotOf(t: Slots, index: int): int
    requires t.phase == Task.Extra ==> 0 <= index < |t.dataIndexes|
  {
    if t.phase == Task.Extra then t.dataIndexes[index] else index
  }

  /** The data of one response added to a filled slot; the collector the task holds is the one updated. */
  function AddToSlot(t: Slots, index: int, data: DataCollector.Collector): (r: Slots)
    requires Task.GetDataCollector(t, index).Ok? && Task.GetDataCollector(t, index).value.Some?
    ensures var slot := SlotOf(t, index);
            && 0 <= slot < |t.items|
            && r == t.(items := t.items[slot := Some(Merge(t.items[slot].value, data))])
  {
    var slot := SlotOf(t, index);
    t.(items := t.items[slot := Some(Merge(t.items[slot].value, data))])
  }

  /**
    One response of `handleResponses`: read and parse its contents; an
    empty slot takes the data and queues the further pages it calls for,
    and a filled slot has the data added to it.
   */
  function HandleResponse(app: App, svc: Services, t: Slots, response: HttpJob.Response): (r: Outcome<Slots>)
  {
    var contents := HttpUtils.GetResponseContent(response, svc.gunzip);
    match svc.parse(contents, app.filter)
    case Fatal(m) => Fatal(m)
    case Threw(e) => Threw(e)
    case Done(data) =>
      match Task.GetDataCollector(t, response.id)
      case Err(m) => Threw(RuntimeError(m))
      case Ok(Some(_)) => Done(AddToSlot(t, response.id, data))
      case Ok(None) =>
        match Task.SetDataCollector(t, data, response.id)
        case Err(m) => Threw(RuntimeError(m))
        case Ok(t') =>
          match GetRemainingUrls(app, data, response.url)
          case Fatal(m) => Fatal(m)
          case Threw(e) => Threw(e)
          case Done(urls) =>
            if |urls| == 0 then Done(t')
            else
              match Task.AddExtraUrls(t', urls, response.id)
              case Err(m) => Threw(RuntimeError(m))
              case Ok(t'') => Done(t'')
  }

  /** `handleResponses`: the responses in the order the batch hands them out; the first failure ends it. */
  function HandleResponses(app: App, svc: Services, t: Slots, responses: seq<HttpJob.Response>): (r: Outcome<Slots>)
    decreases |responses|
  {
    if responses == [] then Done(t)
    else
      match HandleResponse(app, svc, t, responses[0])
      case Fatal(m) => Fatal(m)
      case Threw(e) => Threw(e)
      case Done(t') => HandleResponses(app, svc, t', responses[1..])
  }

  /**
    Handling one response keeps the task valid, its phase, URLs and number
    of slots; a filled slot stays filled; and in the main round the
    response's own slot, when it has one, ends up filled.
   */
  lemma HandleResponsePreserves(app: App, svc: Services, t: Slots, response: HttpJob.Response)
    requires Task.Valid(t)
    ensures var r := HandleResponse(app, svc, t, response);
            r.Done? ==> && Task.Valid(r.value)
                        && r.value.phase == t.phase && r.value.urls == t.urls
                        && |r.value.items| == |t.items|
                        && (forall k :: 0 <= k < |t.items| && t.items[k].Some? ==> r.value.items[k].Some?)
                        && (t.phase != Task.Extra && 0 <= response.id < |t.items| ==> r.value.items[response.id].Some?)
  {
  }

  /** Handling the responses keeps what handling each keeps, and fills the slot of every response of the main round. */
  lemma {:induction false} HandleResponsesPreserves(app: App, svc: Services, t: Slots, responses: seq<HttpJob.Response>)
    requires Task.Valid(t)
    ensures var r := HandleResponses(app, svc, t, responses);
            r.Done? ==> && Task.Valid(r.value)
                        && r.value.phase == t.phase && r.value.urls == t.urls
                        && |r.value.items| == |t.items|
                        && (forall k :: 0 <= k < |t.items| && t.items[k].Some? ==> r.value.items[k].Some?)
                        && (t.phase != Task.Extra ==>
                              forall j :: 0 <= j < |responses| && 0 <= responses[j].id < |t.items| ==>
                                r.value.items[responses[j].id].Some?)
    decreases |responses|
  {
    if responses != [] {
      HandleResponsePreserves(app, svc, t, responses[0]);
      var h := HandleResponse(app, svc, t, responses[0]);
      if h.Done? {
        HandleResponsesPreserves(app, svc, h.value, responses[1..]);
        var rest := responses[1..];
        assert forall j :: 1 <= j < |responses| ==> responses[j] == rest[j - 1];
      }
    }
  }

  // ---------------------------------------------------------------------------
  // Rounds
  // ---------------------------------------------------------------------------

  /** The library exception that wraps a failure of a round's download or of its responses. */
  function Wrap(message: string, e: WprsException.Exception, line: int): (w: WprsException.Exception)
    ensures w.isWprs && w.message == WprsException.ChainMessage(message, Some(e))
  {
    WprsException.New(message, Some(e), SourceFile, line)
  }

  /** The URLs the task hands out for its next round. */
  function RoundUrls(t: Slots): seq<string> {
    if t.phase == Task.Init then t.urls else t.extraUrls
  }

  /**
    `runTask`: download the URLs of the task's next round with the transport
    options and handle the responses. An exception from either step is
    wrapped as 'Download error:' or 'Response error:'; an `\Error` passes.
    A round that completes leaves the task valid, one phase on, with its
    URLs, its slots, and every filled slot still filled.
   */
  function RunTask(app: App, svc: Services, t: Slots): (r: Outcome<Slots>)
    ensures t.phase == Task.Extra ==> r == Threw(Wrap("Download error:", RuntimeError(Task.PhaseError(Task.Extra)), 115))
    ensures t.phase != Task.Extra && svc.download(RoundUrls(t), app.curlOptions).Threw? ==>
              r == Threw(Wrap("Download error:", svc.download(RoundUrls(t), app.curlOptions).e, 115))
    ensures t.phase != Task.Extra && svc.download(RoundUrls(t), app.curlOptions).Fatal? ==>
              r == Fatal(svc.download(RoundUrls(t), app.curlOptions).message)
    ensures t.phase != Task.Extra && svc.download(RoundUrls(t), app.curlOptions).Done? ==>
              var h := HandleResponses(app, svc, t.(phase := NextPhase(t.phase)), svc.download(RoundUrls(t), app.curlOptions).value);
              h.Threw? ==> r == Threw(Wrap("Response error:", h.e, 121))
    ensures Task.Valid(t) && r.Done? ==>
              && Task.Valid(r.value)
              && Task.PhaseNumber(r.value.phase) == Task.PhaseNumber(t.phase) + 1
              && r.value.urls == t.urls && |r.value.items| == |t.items|
              && (forall k :: 0 <= k < |t.items| && t.items[k].Some? ==> r.value.items[k].Some?)
  {
    match Task.GetUrls(t)
    case Err(m) => Threw(Wrap("Download error:", RuntimeError(m), 115))
    case Ok(next) =>
      match svc.download(next.1, app.curlOptions)
      case Fatal(m) => Fatal(m)
      case Threw(e) => Threw(Wrap("Download error:", e, 115))
      case Done(responses) =>
        match HandleResponses(app, svc, next.0, responses)
        case Fatal(m) => Fatal(m)
        case Threw(e) => Threw(Wrap("Response error:", e, 121))
        case Done(t2) =>
          if Task.Valid(t) then
            HandleResponsesPreserves(app, svc, next.0, responses);
            Done(t2)
          else Done(t2)
  }

  /** The phase after INIT is MAIN, and after MAIN, EXTRA. */
  function NextPhase(p: Task.Phase): Task.Phase {
    if p == Task.Init then Task.Main else Task.Extra
  }

  /** The results of a finished task, or the task's 'Results are incomplete' thrown as it is. */
  function Results(t: Slots): (r: Outcome<seq<DataCollector.Collector>>)
    ensures r.Done? <==> forall k :: 0 <= k < |t.items| ==> t.items[k].Some?
    ensures r.Done? ==> |r.value| == |t.items| && forall k :: 0 <= k < |t.items| ==> t.items[k] == Some(r.value[k])
    ensures !r.Done? ==> r == Threw(RuntimeError("Results are incomplete"))
  {
    match Task.GetResults(t)
    case Err(m) => Threw(RuntimeError(m))
    case Ok(cs) => Done(cs)
  }

  /**
    `run`: no URLs throws '<endpoint>: error, no urls'; otherwise the main
    round, a second round only when the first found further pages, then the
    collectors in URL order, one per URL.
   */
  function Run(app: App, svc: Services, urls: seq<string>): (r: Outcome<seq<DataCollector.Collector>>)
    ensures |urls| == 0 ==>
              r == Threw(WprsException.New(System.FormatMessage(app.endpoint, "error, no urls"), None, SourceFile, 85))
    ensures r.Done? ==> |r.value| == |urls|
    ensures |urls| != 0 && RunTask(app, svc, Task.New(urls)).Done? && !Task.HasExtraUrls(RunTask(app, svc, Task.New(urls)).value) ==>
              r == Results(RunTask(app, svc, Task.New(urls)).value)
  {
    if |urls| == 0 then
      Threw(WprsException.New(System.FormatMessage(app.endpoint, "error, no urls"), None, SourceFile, 85))
    else
      var t0: Slots := Task.New(urls);
      match RunTask(app, svc, t0)
      case Fatal(m) => Fatal(m)
      case Threw(e) => Threw(e)
      case Done(t1) =>
        if !Task.HasExtraUrls(t1) then Results(t1)
        else
          match RunTask(app, svc, t1)
          case Fatal(m) => Fatal(m)
          case Threw(e) => Threw(e)
          case Done(t2) => Results(t2)
  }

  // ---------------------------------------------------------------------------
  // A run that completes
  // ---------------------------------------------------------------------------

  /** The URL indices the responses carry. */
  function ResponseIds(responses: seq<HttpJob.Response>): (ids: set<int>)
    ensures forall k :: 0 <= k < |responses| ==> responses[k].id in ids
  {
    set k | 0 <= k < |responses| :: responses[k].id
  }

  /** A download of n URLs that hands back a response for every index, and only for those. */
  predicate Delivers(o: Outcome<seq<HttpJob.Response>>, n: int) {
    && o.Done?
    && (forall k :: 0 <= k < |o.value| ==> 0 <= o.value[k].id < n)
    && (forall i :: 0 <= i < n ==> i in ResponseIds(o.value))
  }

  /** A parse that gives a page whose processed rows are zero only when it reports none. */
  predicate Parses(o: Outcome<DataCollector.Collector>) {
    o.Done? && (Processed(o.value) == 0 ==> o.value.overallCount == 0)
  }

  /** Services that download every batch whole and parse every page. */
  ghost predicate WellBehaved(app: App, svc: Services) {
    && (forall urls: seq<string> :: Delivers(svc.download(urls, app.curlOptions), |urls|))
    && (forall contents: string :: Parses(svc.parse(contents, app.filter)))
  }

  /** The indices a round's responses may carry: the slots in the main round, the extra URLs in the extra round. */
  predicate InRound(t: Slots, id: int) {
    if t.phase == Task.Extra then 0 <= id < |t.extraUrls| else 0 <= id < |t.items|
  }

  /** With pages that parse, a response of the round in progress is handled without failing. */
  lemma HandleResponseDone(app: App, svc: Services, t: Slots, response: HttpJob.Response)
    requires Task.Valid(t) && t.phase != Task.Init && InRound(t, response.id)
    requires forall contents: string :: Parses(svc.parse(contents, app.filter))
    ensures HandleResponse(app, svc, t, response).Done?
  {
    var contents := HttpUtils.GetResponseContent(response, svc.gunzip);
    assert Parses(svc.parse(contents, app.filter));
    if t.phase == Task.Extra {
      Task.ExtraIndexFindsData(t, response.id);
    }
  }

  /** With pages that parse, the responses of the round in progress are handled without failing. */
  lemma {:induction false} HandleResponsesDone(app: App, svc: Services, t: Slots, responses: seq<HttpJob.Response>)
    requires Task.Valid(t) && t.phase != Task.Init
    requires forall k :: 0 <= k < |responses| ==> InRound(t, responses[k].id)
    requires forall contents: string :: Parses(svc.parse(contents, app.filter))
    ensures HandleResponses(app, svc, t, responses).Done?
    decreases |responses|
  {
    if responses != [] {
      HandleResponseDone(app, svc, t, responses[0]);
      HandleResponsePreserves(app, svc, t, responses[0]);
      var t' := HandleResponse(app, svc, t, responses[0]).value;
      var rest := responses[1..];
      assert forall k :: 0 <= k < |rest| ==> rest[k] == responses[k + 1];
      HandleResponsesDone(app, svc, t', rest);
    }
  }

  /** Every slot of the task is filled. */
  predicate Filled(t: Slots) {
    forall k :: 0 <= k < |t.items| ==> t.items[k].Some?
  }

  /** With services that download every batch whole and parse every page, the main round fills every slot. */
  lemma MainRoundFills(app: App, svc: Services, urls: seq<string>)
    requires WellBehaved(app, svc)
    ensures var r := RunTask(app, svc, Task.New(urls));
            && r.Done? && Task.Valid(r.value) && r.value.phase == Task.Main
            && |r.value.items| == |urls| && Filled(r.value)
  {
    var t0: Slots := Task.New(urls);
    var t1 := t0.(phase := Task.Main);
    var d := svc.download(urls, app.curlOptions);
    assert Delivers(d, |urls|);
    HandleResponsesDone(app, svc, t1, d.value);
    HandleResponsesPreserves(app, svc, t1, d.value);
    var m := HandleResponses(app, svc, t1, d.value).value;
    assert RunTask(app, svc, t0) == Done(m);
    forall k | 0 <= k < |m.items|
      ensures m.items[k].Some?
    {
      assert k in ResponseIds(d.value);
    }
  }

  /** With the same services, the extra round of a task whose slots are filled keeps them filled. */
  lemma ExtraRoundKeeps(app: App, svc: Services, m: Slots)
    requires WellBehaved(app, svc)
    requires Task.Valid(m) && m.phase == Task.Main && Filled(m)
    ensures var r := RunTask(app, svc, m);
            r.Done? && |r.value.items| == |m.items| && Filled(r.value)
  {
    var t2 := m.(phase := Task.Extra);
    var d := svc.download(m.extraUrls, app.curlOptions);
    assert Delivers(d, |m.extraUrls|);
    HandleResponsesDone(app, svc, t2, d.value);
  }

  /**
    With services that download every batch whole and parse every page, a
    run over at least one URL completes with one collector per URL.
   */
  lemma RunCompletes(app: App, svc: Services, urls: seq<string>)
    requires |urls| > 0 && WellBehaved(app, svc)
    ensures Run(app, svc, urls).Done? && |Run(app, svc, urls).value| == |urls|
  {
    MainRoundFills(app, svc, urls);
    var m := RunTask(app, svc, Task.New(urls)).value;
    if Task.HasExtraUrls(m) {
      ExtraRoundKeeps(app, svc, m);
    }
  }
}
