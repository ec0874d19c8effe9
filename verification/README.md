# wprs-api in Dafny

A model of the core of wprs-api, a PHP client for the World Pilot Ranking
System (WPRS) of the FAI. The client downloads ranking pages from the
WPRS web site and turns them into arrays of records. The model covers:

- the run loop every endpoint shares (`Application`, `Task`). A run
  downloads the main URLs in one round. When the first page of the pilots
  list reports more pilots than it holds, the run adds
  `ceil(overall / processed) - 1` further pages as a second round, and
  each page's data goes back to the slot of its first page.
- the batch downloader (`HttpDownloader`, `HttpJob`, `ResponseCollector`).
  It queues one job per URL, waits after every fifty, and keeps at most
  twelve transfers in flight. Responses are collected by URL index, and
  the first failure abandons the batch.
- the transfer worker's decisions (`HttpWorker`). These are how a finished
  transfer is classified, and which curl errors and HTTP statuses are
  retried, with what delay and how many times.
- query building and the URL encoder (`HttpUtils`), and the endpoint URLs
  and query parameters (`Factory`, `PilotsParams`, `NationsParams`,
  `CompetitionParams`, `CompetitionsParams`).
- the lookup tables for disciplines, regions, scorings and endpoints
  (`Lookups`, `Rank`, `Ranking`, `System`), and the ranking date.
- the output shaping (`ApiOutput`, `ApiData`) and the library's exception
  messages (`WprsException`).
- the data collectors (`DataCollector`, `LegacyDataCollector`), and the
  text helpers of the parsers (`EndpointUtils`, `DomUtils`, `XPathDom`).
- the two competition parsers (`CompetitionsParser`, `CompetitionParser`).
  Each works over the cell texts its XPath queries pick out of a page,
  with dates in the site's "Mmm d, yyyy" form (`Dates`).

PHP's strings are Dafny `string`s, its arrays are sequences or maps,
and a thrown exception is an error value. An `\Error` such as a
`TypeError` is kept apart where the source can raise one. The PHP library
functions the core relies on (`trim`, `explode`, `strtolower`, `ucfirst`,
`basename`, `(int)` casts, `sprintf('%d')`) are defined in `Strings`.

## Model

| member | source | states |
|---|---|---|
| Task.New | src/Web/Endpoint/Task.php:28-36 | the task starts valid in phase INIT, keeps the URLs in order, has one empty slot per URL, and has no extra URLs |
| Task.GetUrls | src/Web/Endpoint/Task.php:95-109 | succeeds exactly outside phase EXTRA and otherwise throws the phase error; the phase advances by exactly one and nothing else changes; INIT hands out the URLs and MAIN hands out the extra URLs |
| Task.GetDataCollector | src/Web/Endpoint/Task.php:58-73 | in phase EXTRA the index is an extra index and the slot is looked up through `dataIndexes`, throwing 'Data not found' for an unknown extra index; in other phases the slot is read directly and must exist |
| Task.ExtraIndexFindsData | src/Web/Endpoint/Task.php:46-73 | in phase EXTRA every extra index of a valid task reaches a filled slot |
| Task.AddExtraUrls | src/Web/Endpoint/Task.php:41-56 | throws the phase error in EXTRA and 'Data not set at index' for an empty slot; it succeeds iff the phase is not EXTRA and the slot exists and is filled; the URLs are appended and the same index is recorded once per URL; nothing else changes and validity is kept |
| Task.SetDataCollector | src/Web/Endpoint/Task.php:116-127 | throws in phase EXTRA or for a missing slot; otherwise it fills exactly that slot (overwriting), leaves every other slot and field alone, and keeps validity |
| Task.GetResults | src/Web/Endpoint/Task.php:78-90 | succeeds iff every slot is filled, else 'Results are incomplete'; the results are the slots' collectors in URL order |
| Task.HasExtraUrls | src/Web/Endpoint/Task.php:111-114 | true exactly when extra URLs were registered |
| Task.RunPreserves | src/Web/Endpoint/Task.php:28-127 | over any sequence of calls that does not throw: validity holds (one slot per URL, one slot index per extra URL, every slot index points at a filled slot), the phase never goes back, the URLs and slot count never change, filled slots stay filled, and the extra URLs and their slot indexes are only appended to (the old ones are a prefix of the new) |
| HttpDownloader.Put | src/Http/HttpDownloader.php:79-80 | storing a job under a new id appends it; under a known id it replaces, in place, an entry with that id and changes nothing else |
| HttpDownloader.StartJob | src/Http/HttpDownloader.php:119-129 | only a queued job is started, and starting it raises the in-flight count by one; any other job and the count are unchanged |
| HttpDownloader.WithUserAgent | src/Http/HttpDownloader.php:163-172 | the user agent is added exactly when one is configured and the options lack one; otherwise the options are unchanged |
| HttpDownloader.WithUserAgentIdempotent | src/Http/HttpDownloader.php:163-172 | applying the user agent twice is the same as once |
| HttpDownloader.New | src/Http/HttpDownloader.php:27-37 | a new downloader is idle, and its options hold just the user agent when one is given |
| HttpDownloader.SetCurlOptions | src/Http/HttpDownloader.php:71-75 | the options are replaced, every option given is kept as given, and the user agent is added only when missing |
| HttpDownloader.QueueJob | src/Http/HttpDownloader.php:77-85 | a new job for the id and URL is appended, with the current options, no retries, started exactly when fewer than 12 transfers are in flight and queued otherwise |
| HttpDownloader.QueueJobTracks | src/Http/HttpDownloader.php:77-85 | queueing keeps the cap invariant (in-flight count = number of started jobs ≤ 12) and adds the URL to those accounted for under its index |
| HttpDownloader.Admit | src/Http/HttpDownloader.php:87-95 | admission only starts queued jobs, in list order, never exceeds the cap, and changes nothing when the cap is reached; when room is left no job stays queued |
| HttpDownloader.ApplyHarvest | src/Http/HttpWorker.php:81-144 | one worker tick changes only started jobs, never adds a started one, and keeps every job consistent (a completed job carries its response) |
| HttpDownloader.ApplyOutcome | src/Http/HttpWorker.php:96-142 | one finished transfer changes only its own job; the tick throws exactly when the outcome is not retried and not a success |
| HttpDownloader.Recount | src/Http/HttpDownloader.php:98-116 | exactly the active jobs stay listed; every finished job's response moves to the collector, so no id is lost |
| HttpDownloader.RecountMatches | src/Http/HttpDownloader.php:101-114 | the recount stores only responses for the URL expected under their id |
| HttpDownloader.RecountStarted | src/Http/HttpDownloader.php:98-108 | the recount keeps exactly the started jobs, so the new in-flight count is the number of started jobs |
| HttpDownloader.CountActiveJobs | src/Http/HttpDownloader.php:87-117 | after a tick the active count is the number of remaining jobs, all of which are active, the in-flight count is the number of started jobs, and no stored response is lost |
| HttpDownloader.Settle | src/Http/HttpDownloader.php:98-116 | the state after the recount: the remaining jobs, the grown collector and a redone in-flight count |
| HttpDownloader.CountActiveJobsTracks | src/Http/HttpDownloader.php:82-117 | a poll keeps the cap invariant and the accounting of every expected URL |
| HttpDownloader.AbortJobs | src/Http/HttpDownloader.php:147-161 | the downloader ends idle (no jobs, no in-flight count, no stored responses) and exactly the non-queued jobs are released |
| HttpDownloader.Released | src/Http/HttpDownloader.php:150-154 | the released jobs are exactly the non-queued ones |
| HttpDownloader.Wait | src/Http/HttpDownloader.php:131-145 | a wait that finishes leaves no jobs and keeps every stored response; a throwing tick leaves the downloader idle |
| HttpDownloader.WaitTracks | src/Http/HttpDownloader.php:131-145 | waiting keeps the cap invariant; when it finishes, the stored responses are exactly those of the URLs queued |
| HttpDownloader.Get | src/Http/HttpDownloader.php:39-46 | a single fetch returns the response for id 0 and that URL and leaves the downloader idle, also when it throws |
| HttpDownloader.QueueNextTracks | src/Http/HttpDownloader.php:54-57 | queueing the next URL under its index keeps the batch accounted for |
| HttpDownloader.BatchComplete | src/Http/HttpDownloader.php:68 | with no jobs left, the stored responses are one per URL index, each for that URL |
| HttpDownloader.PauseCountNext | src/Http/HttpDownloader.php:59-64 | a pause follows every completed chunk of 50 except the last |
| HttpDownloader.QueueNext | src/Http/HttpDownloader.php:55-65 | it waits exactly after every 50th URL and after the last; the accounting carries on, and after the last URL no job is left |
| HttpDownloader.GetBatch | src/Http/HttpDownloader.php:48-69 | the result's keys are exactly the URL indices, each mapped to the response for that URL; n URLs give (n−1) div 50 pauses; the downloader ends idle, also when a tick throws |
| HttpWorker.RestartDelay | src/Http/HttpWorker.php:208-214 | no delay after the first retry, 100 ms after the second, 500 ms from the third on |
| HttpWorker.RestartJob | src/Http/HttpWorker.php:206-218 | the retry count goes up by exactly one, and the delay is chosen from the new count |
| HttpWorker.RetryFromCurlError | src/Http/HttpWorker.php:220-238 | a retry happens iff retries < 3 and the errno is 6, 7, 16 or 92, or is 35 with "Connection reset by peer" in the message |
| HttpWorker.RetryFromStatusError | src/Http/HttpWorker.php:240-253 | a retry happens iff retries < 3 and the status is 500, 502, 503 or 504 |
| HttpWorker.Finish | src/Http/HttpWorker.php:104-142 | completed iff errno is OK and the status is 200, with Response(id, url, body); a restart iff the retry rule for the errno (checked first) or else the status allows one; otherwise the job is FAILED and the curl or http error message is thrown |
| HttpWorker.NoRetryAfterMax | src/Http/HttpWorker.php:220-253 | a job that has used its 3 retries is never restarted |
| HttpWorker.DelaySchedule | src/Http/HttpWorker.php:206-218 | the k-th delay of a job is the delay for its (k+1)-th retry |
| HttpWorker.LifecycleBounded | src/Http/HttpWorker.php:104-253 | a job ends within 3 − retries + 1 attempts, the last not a restart, with the delays of its retries in order |
| HttpWorker.AtMostFourAttempts | src/Http/HttpWorker.php:206-253 | a new job makes at most four attempts, sleeping at most 0, 100 ms and 500 ms in turn |
| HttpWorker.CaOptions | src/Http/HttpWorker.php:25-27 | a bundle directory sets CAPATH and a bundle file sets CAINFO |
| HttpWorker.Forced | src/Http/HttpWorker.php:71-76 | the forced options are exactly share, follow-location, file, encoding and content decoding |
| HttpWorker.EffectiveOptions | src/Http/HttpWorker.php:61-76 | the caller's options override the CA/timeout baseline, and the forced options override both |
| HttpWorker.CallerPrecedence | src/Http/HttpWorker.php:61-76 | a caller's timeout survives, but its follow-location setting never does |
| HttpWorker.Download | src/Http/HttpWorker.php:46-59 | the job gets its handle and handle id and is registered under that id |
| HttpWorker.RemoveCurlHandle | src/Http/HttpWorker.php:190-197 | a live handle is detached and forgotten; with no handle nothing changes |
| HttpWorker.RemoveFromJobs | src/Http/HttpWorker.php:199-204 | only the job's own id is unregistered |
| HttpWorker.RemoveCurlHandleIdempotent | src/Http/HttpWorker.php:190-197 | a second removal changes nothing |
| HttpWorker.RemoveFromJobsIdempotent | src/Http/HttpWorker.php:199-204 | a second unregistration changes nothing |
| HttpWorker.AbortRequest | src/Http/HttpWorker.php:146-151 | after an abort the job has no handle and is neither attached nor registered; no other handle is attached or registered anew and no other registration changes |
| HttpWorker.DownloadThenAbort | src/Http/HttpWorker.php:46-59 | aborting a transfer just started on a fresh handle restores the registry exactly; the job keeps only the released handle's id |
| HttpJob.StatusOrder | src/Http/HttpDownloader.php:7-11 | the status codes are ordered QUEUED < STARTED < COMPLETED < FAILED < ABORTED, and "below COMPLETED" means queued or started |
| HttpJob.NewJob | src/Http/Job.php:29-36 | a new job is queued with no retries and stores its id, URL and options unchanged |
| ResponseCollector.Add | src/Http/ResponseCollector.php:10-13 | the response is stored under its id, replacing an earlier one, and other ids are untouched |
| ResponseCollector.GetAll | src/Http/ResponseCollector.php:15-21 | everything stored is handed out and the collector is left empty |
| ResponseCollector.GetAllDrains | src/Http/ResponseCollector.php:15-21 | a second drain yields nothing |
| ResponseCollector.AddIdempotent | src/Http/ResponseCollector.php:10-13 | adding the same response twice is the same as adding it once |
| HttpUtils.HexValue | src/Http/HttpUtils.php:58 | the value of a hex digit is below 16 |
| HttpUtils.HexDigitValue | src/Http/HttpUtils.php:58 | every nibble is written as a lower-case hex digit that reads back as the same nibble, and no other lower-case digit reads as that nibble |
| HttpUtils.EncodeByte | src/Http/HttpUtils.php:53-60 | a byte of the encode set becomes '%' followed by two lower-case hex digits whose value is the byte; any other byte is kept as it is |
| HttpUtils.QueryStringEncode | src/Http/HttpUtils.php:45-65 | the output is 2 bytes longer per byte in the encode set (below 33, above 126, or one of 34, 35, 60, 62), and no output byte is in that set |
| HttpUtils.EncodeAlphabet | src/Http/HttpUtils.php:45-65 | every output byte is a byte of the input, a '%' or a lower-case hex digit; no upper-case hex digit appears that the input did not hold |
| HttpUtils.DecodeEncode | src/Http/HttpUtils.php:45-65 | percent-decoding the output gives back any input that has no `%` |
| HttpUtils.EncodeNotInjective | src/Http/HttpUtils.php:50-61 | `%22` and `"` have the same encoding, because `%` is not encoded |
| HttpUtils.EncodeOfSafe | src/Http/HttpUtils.php:57-61 | an input with no byte in the encode set is returned unchanged |
| HttpUtils.EncodeIdempotent | src/Http/HttpUtils.php:45-65 | encoding twice is the same as encoding once |
| HttpUtils.EncodeKeepsPlainByte | src/Http/HttpUtils.php:57-61 | a byte outside the encode set, other than `%` and hex digits, is in the output iff it is in the input |
| HttpUtils.EncodePairs | src/Http/HttpUtils.php:14-18 | one `name=value` pair per parameter, both halves encoded, in parameter order |
| HttpUtils.BuildQuery | src/Http/HttpUtils.php:10-23 | the result starts with the path followed by `?` |
| HttpUtils.BuildQuerySplits | src/Http/HttpUtils.php:10-23 | when no name or value holds `&` or `=`, splitting the query at `&` gives one piece per parameter, and each piece splits at `=` into the encoded name and the encoded value |
| HttpUtils.GetResponseContent | src/Http/HttpUtils.php:25-35 | the contents are returned unchanged unless they begin with 0x1f 0x8b; then they are gunzipped, with '' on failure |
| DataCollector.New | src/Web/Endpoint/DataCollector.php:22-25 | the overall count is stored, with zero counts, no items, extras or errors |
| DataCollector.Add | src/Web/Endpoint/DataCollector.php:30-43 | without a filter the item is appended and counted; a rejecting filter bumps only the filtered count; an accepting filter appends the filtered item; each call adds exactly one to item count plus filtered count, and the item count stays the number of items |
| DataCollector.Kept | src/Web/Endpoint/DataCollector.php:32-39 | what one `add` keeps: the item itself without a filter, the filter's answer otherwise |
| DataCollector.AddExtra | src/Web/Endpoint/DataCollector.php:48-51 | the record is set under its key, every other key keeps its record, and nothing else changes |
| DataCollector.AddError | src/Web/Endpoint/DataCollector.php:53-56 | exactly one message is appended and nothing else changes |
| DataCollector.IsPlaceholder | src/Web/Endpoint/DataCollector.php:58-61 | true iff the overall count is −1 |
| DataCollector.RunCounts | src/Web/Endpoint/DataCollector.php:30-56 | over any sequence of calls the item count stays the number of items, the items are the old ones followed by those kept by each `add` in order, the overall count is kept, and item count plus filtered count grows by the number of `add` calls |
| DataCollector.FreshCounts | src/Web/Endpoint/DataCollector.php:22-61 | from a new collector, item count plus filtered count is the number of `add` calls, and it is a placeholder iff built with −1 |
| LegacyDataCollector.New | src/Web/DataCollector.php:13-16 | the overall count is stored, with zero counts and no items or extras |
| LegacyDataCollector.Add | src/Web/DataCollector.php:18-31 | without a filter the item is appended and counted; a rejecting filter bumps only the filtered count; an accepting one appends the filtered item; the item count stays the number of items |
| LegacyDataCollector.AddExtra | src/Web/DataCollector.php:33-36 | a single key is set or overwritten and nothing else changes |
| LegacyDataCollector.RunValid | src/Web/DataCollector.php:18-36 | over any sequence of calls the item count stays the number of items, the overall count is kept, and earlier items are never lost |
| Application.New | src/Web/Application.php:35-49 | a new application has no transport options, is unrestricted and has handed nothing to the filter |
| Application.FilterPart | src/Web/Application.php:56-61 | the options left for the filter are all but an array under 'curl' |
| Application.SetOptions | src/Web/Application.php:54-68 | an array under 'curl' becomes the transport options, and anything else there is ignored; the rest reaches the filter only when non-empty and a filter exists; nothing else changes |
| Application.SetOptionsSeparates | src/Web/Application.php:56-65 | what reaches the filter is never empty, never holds the transport options, and holds only options as given |
| Application.SetOptionsIdempotent | src/Web/Application.php:54-68 | setting the same options twice is setting them once |
| Application.SetRestricted | src/Web/Application.php:70-75 | the run becomes restricted and nothing else changes |
| Application.CeilDiv | src/Web/Application.php:167 | the rounded-up quotient of whole numbers: the least q with b·q ≥ a for a positive divisor |
| Application.CeilDivPositive | src/Web/Application.php:167 | rounding up by negating a Euclidean quotient gives that least q |
| Application.PageUrls | src/Web/Application.php:169-172 | n URLs, the k-th being url + "&page=" + (k + 2) |
| Application.GetRemainingUrls | src/Web/Application.php:153-175 | no URLs unless the endpoint is the pilots list and the run is unrestricted; none when the processed count equals the overall count; a division by zero exactly when the other cases pass with nothing processed and a nonzero overall count; otherwise URLs for pages 2, 3, … in order; never a library exception |
| Application.RemainingPagesCover | src/Web/Application.php:161-174 | with p rows processed of o overall, the n further pages are exactly enough: p·(n+1) ≥ o, and p·n < o whenever n > 0, so n = ceil(o/p) − 1 |
| Application.RestrictedAsksNoPages | src/Web/Application.php:70-159 | after `setRestricted` no further pages are asked for |
| Application.Merge | src/Web/Application.php:146 | adding a page's data to a slot keeps the overall count, appends its items and errors, adds up the processed rows, keeps validity and joins the extra keys |
| Application.RuntimeError | src/Web/Endpoint/Task.php:44-123 | a task failure is a plain runtime exception with the task's message |
| Application.AddToSlot | src/Web/Application.php:134-146 | the page's data is merged into the slot the response index stands for (itself in the main round, its slot in the extra round), and nothing else changes |
| Application.HandleResponsePreserves | src/Web/Application.php:130-147 | handling one response keeps the task valid, keeps the phase, URLs and slot count, keeps filled slots filled, and in the main round fills the response's own slot |
| Application.HandleResponsesPreserves | src/Web/Application.php:128-148 | the same over all responses of a round, in the order the batch hands them out; in the main round every response's slot ends filled |
| Application.Wrap | src/Web/Application.php:115-121 | a failure is wrapped as a library exception whose message chains the round's message with the cause |
| Application.RunTask | src/Web/Application.php:110-123 | a round after the extra round fails as 'Download error:' wrapping the task's phase error; a failed download is wrapped as 'Download error:'; a failure while handling the responses is wrapped as 'Response error:'; other errors pass through unwrapped; a round that succeeds advances the phase by one, keeps the task valid, the URLs and slot count, and keeps filled slots filled |
| Application.Results | src/Web/Application.php:95 | the results are the slots' collectors in URL order exactly when every slot is filled, and 'Results are incomplete' otherwise |
| Application.Run | src/Web/Application.php:81-96 | no URLs throws "<endpoint>: error, no urls"; a run that succeeds gives one collector per URL; when the main round registers no extra URLs, the results are those of the main round |
| Application.HandleResponseDone | src/Web/Application.php:130-147 | when every page parses, a response of the round in progress is handled without failing |
| Application.HandleResponsesDone | src/Web/Application.php:128-148 | when every page parses, all the responses of the round in progress are handled without failing |
| Application.MainRoundFills | src/Web/Application.php:88-148 | when every batch downloads whole and every page parses, the main round succeeds and fills every slot |
| Application.ExtraRoundKeeps | src/Web/Application.php:91-148 | under the same conditions, the extra round succeeds and keeps every slot filled |
| Application.RunCompletes | src/Web/Application.php:81-96 | under the same conditions, a run over a non-empty URL list returns one collector per URL |
| EndpointUtils.IsEmptyString | src/Web/Endpoint/Utils.php:12-15 | true iff the value is null or of length zero |
| EndpointUtils.DigitsAreDecimal | src/Web/Endpoint/Utils.php:17-20 | a run of digits passes the decimal grammar the numeric test uses |
| EndpointUtils.NumeralIsNumeric | src/Web/Endpoint/Utils.php:17-20 | every whole number written in decimal is numeric |
| EndpointUtils.Pluralize | src/Web/Endpoint/Utils.php:22-27 | every trailing 's' is dropped, and one 's' ends the result exactly when the number is not 1 |
| EndpointUtils.PluralizeIdempotent | src/Web/Endpoint/Utils.php:22-27 | pluralising twice with the same number changes nothing |
| EndpointUtils.PluralOfWord | src/Web/Endpoint/Utils.php:22-27 | a word not ending in 's' is kept for one and gains one 's' otherwise |
| EndpointUtils.MakeDetailsError | src/Web/Endpoint/Utils.php:48-51 | for a key without '/', the path splits at '/' into "details" and the key |
| EndpointUtils.NumeralHasNoSlash | src/Web/Endpoint/Utils.php:53-56 | no decimal index contains '/' |
| EndpointUtils.MakeItemError | src/Web/Endpoint/Utils.php:53-56 | for a key without '/', the path splits at '/' into "items", the decimal index and the key |
| EndpointUtils.TrimAll | src/Web/Endpoint/Utils.php:64 | every piece is trimmed, in order |
| EndpointUtils.Split | src/Web/Endpoint/Utils.php:62-71 | the trimmed pieces are returned iff there are exactly the expected number of them, and null otherwise; always null when fewer than one is expected |
| EndpointUtils.SplitJoin | src/Web/Endpoint/Utils.php:62-71 | trimmed pieces joined by a one-character separator they do not contain split back into themselves |
| DomUtils.GetElementText | src/Web/Endpoint/DomUtils.php:11-20 | succeeds iff the node has exactly one child and it is a text node, giving that text trimmed; otherwise 'Error getting <type>' |
| DomUtils.AttributeValue | src/Web/Endpoint/DomUtils.php:26 | an attribute's value when the element has it, and '' when it does not |
| DomUtils.GetAttribute | src/Web/Endpoint/DomUtils.php:22-31 | succeeds iff the node is an element, giving the attribute's value trimmed; otherwise the 'Error getting <attr> attribute for <type>.' message |
| DomUtils.GetSingleNodeText | src/Web/Endpoint/DomUtils.php:33-40 | succeeds iff the list has exactly one node whose text can be read, and is then that node's text |
| DomUtils.TextIsTrimmed | src/Web/Endpoint/DomUtils.php:11-40 | the text read is already trimmed |
| DomUtils.Split | src/Web/Endpoint/DomUtils.php:42-57 | succeeds exactly when `Utils::split` does, with the same pieces; otherwise the message gives the expected and the actual count |
| DomUtils.SplitJoin | src/Web/Endpoint/DomUtils.php:42-57 | trimmed pieces joined by a one-character delimiter come back when as many are expected, and any other count throws with both counts |
| XPathDom.ConcatAppend | src/Web/Endpoint/XPathDom.php:84 | concatenating one more part appends it to the expression |
| XPathDom.Start | src/Web/Endpoint/XPathDom.php:41-46 | no parts and an empty expression |
| XPathDom.With | src/Web/Endpoint/XPathDom.php:48-53 | exactly one part is appended, and the expression grows by it |
| XPathDom.WithClassContains | src/Web/Endpoint/XPathDom.php:55-61 | one bracketed class test is appended |
| XPathDom.ClassTests | src/Web/Endpoint/XPathDom.php:68-72 | one class test per name, in order |
| XPathDom.WithClassContainsList | src/Web/Endpoint/XPathDom.php:66-77 | exactly one part is appended: a bracket holding the class tests joined by " and " in list order |
| XPathDom.ClassContainsListOfOne | src/Web/Endpoint/XPathDom.php:55-77 | a list of one class name gives the same part as the single test |
| XPathDom.Expression | src/Web/Endpoint/XPathDom.php:84-93 | empty parts throw 'No expression set for xpath'; without a context the expression is used as it is; with one it starts with '.', which is added only when missing |
| XPathDom.Query | src/Web/Endpoint/XPathDom.php:82-102 | the nodes the evaluator finds for that expression; a rejected expression throws 'Invalid xpath expression: ' and the expression |
| XPathDom.WithExtendsExpression | src/Web/Endpoint/XPathDom.php:48-102 | because a query leaves the parts alone, a later `with` extends the expression just queried |
| XPathDom.GetElementById | src/Web/Endpoint/XPathDom.php:32-39 | the parts become just `//*[@id="<id>"]`; the result is a node exactly when the query finds exactly one |
| XPathDom.IdExpressionWithContext | src/Web/Endpoint/XPathDom.php:34-93 | with a context the id expression is made relative with a leading '.' |
| Lookups.Find | src/Web/System.php:84-93 | a table lookup succeeds iff the key is in the table, giving its entry, and otherwise throws "<what> not recognized: <key>" |
| Lookups.GetDiscipline | src/Web/Rank.php:86-95 | defined exactly on the eight discipline codes, else 'Discipline not recognized: <code>' |
| Lookups.GetEndpoint | src/Web/Rank.php:97-106 | defined exactly on the endpoint codes 101 to 105, else 'Endpoint not recognized: <code>' |
| Lookups.GetRegion | src/Web/Rank.php:121-130 | defined exactly on the region ids 0 to 4, else 'Region id not recognized: <id>' |
| Lookups.GetScoring | src/Web/Rank.php:132-141 | defined exactly on the scoring types 0 to 2, else 'Scoring type not recognized: <type>' |
| Lookups.DisciplineCodes | src/Web/Rank.php:9-29 | the discipline codes are 1, 2, 3, 4, 5, 6, 8 and 10 |
| Lookups.EndpointCodes | src/Web/Rank.php:31-43 | the endpoint codes are exactly 101 to 105 |
| Lookups.RegionAndScoringCodes | src/Web/Rank.php:45-67 | the region ids are 0 to 4 and the scoring types 0 to 2 |
| Lookups.RankingPathInjective | src/Web/Rank.php:71-79 | a ranking path determines its two segments when the first has no '/' |
| Lookups.DisciplineSlugsPlain | src/Web/Rank.php:19-29 | no discipline slug contains '/' |
| Lookups.DisciplineSlugsDistinct | src/Web/Rank.php:19-29 | no two disciplines share a slug |
| Lookups.FirstNamed | src/Web/Rank.php:112-116 | the name search finds a code in declaration order whose name matches, or reports that none does |
| Lookups.GetEndpointFromName | src/Web/Rank.php:108-119 | succeeds iff the lower-cased name is an endpoint name, giving a code with that name; otherwise 'Endpoint not found <name>' |
| Lookups.EndpointNamesLower | src/Web/Rank.php:37-43 | every endpoint name is a non-empty lower-case word |
| Lookups.EndpointNamesPlain | src/Web/Rank.php:37-43 | no endpoint name holds '/' or '\' |
| Lookups.EndpointNamesDistinct | src/Web/Rank.php:37-43 | no two endpoint codes share a name |
| Lookups.EndpointRoundTrip | src/Web/Rank.php:97-119 | looking up the name of any endpoint code gives back that code |
| Lookups.EndpointRoundTripFromName | src/Web/Rank.php:97-119 | the name of the code found for any accepted name is that name in lower case |
| Lookups.EndpointFromNameIgnoresCase | src/Web/Rank.php:108-119 | the name search gives the same answer for a name and its lower-case form |
| System.GetEndpoint | src/Web/System.php:110-119 | defined exactly for the four endpoint class names, else 'Endpoint not recognized: <class>' |
| System.GetPath | src/Web/System.php:69-77 | URL_RANKING/<discipline slug>/<endpoint name>; an unknown discipline throws first, then an unknown endpoint class |
| System.GetPathInjective | src/Web/System.php:69-77 | different disciplines or endpoints never share a path |
| System.GetDisciplineForDisplayAsWritten | src/Web/System.php:95-108 | as written: for known codes other than PG_XC and acro solo whose slug ends in '-xc', the result is '-xc' itself |
| System.GetDisciplineForDisplay | src/Web/System.php:95-108 | as intended: unknown codes throw; 'paragliding-aerobatics' shows as 'paragliding-acro-solo'; PG_XC is kept; any other slug ending in '-xc' loses that suffix; the rest are kept |
| System.HangGlidingDisplayNames | src/Web/System.php:95-108 | the hang-gliding classes show as their slugs without '-xc' |
| System.ParaglidingDisplayNames | src/Web/System.php:95-108 | the paragliding disciplines show as 'paragliding-xc', 'paragliding-accuracy', 'paragliding-acro-solo' and 'paragliding-acro-syncro' |
| System.HangGlidingDisplayCodes | src/Web/System.php:95-108 | each hang-gliding class is recovered from its display name |
| System.ParaglidingDisplayCodes | src/Web/System.php:95-108 | each paragliding discipline is recovered from its display name |
| System.DisplayCodeOfName | src/Web/System.php:95-108 | every discipline is recovered from its display name |
| System.DisplayNamesDistinct | src/Web/System.php:95-108 | as intended, different disciplines have different display names |
| System.DisplayAsWrittenCollides | src/Web/System.php:102-104 | as written, hang-gliding classes 1 and 5 both show as '-xc', which differs from the intended name |
| System.ParseYmd | src/Web/System.php:139 | a parsed date comes from up to four year digits, one or two month digits and one or two day digits separated by '-', read as numbers |
| System.GetRankingDate | src/Web/System.php:132-147 | no date gives the first of today's month; a given date is accepted iff it parses, else 'Invalid rankingDate: <text>'; a result is always the first of a real month |
| System.ExplodeYmd | src/Web/System.php:139 | a dashed date splits into its three digit fields |
| System.ParseYmdOfFields | src/Web/System.php:139 | fields of the right widths are read back as their values |
| System.ParseYmdOfFormat | src/Web/System.php:139-146 | every written date of a four-digit year parses back to itself |
| System.RankingDateOfDate | src/Web/System.php:132-147 | a real date gives the first of its month, e.g. 2023-04-25 gives 2023-04-01 |
| System.FormatMessage | src/Web/System.php:160-165 | a name without '\' or '/', then ': ', then the error |
| System.FormatMessageOfClass | src/Web/System.php:160-165 | a namespaced class name contributes its last segment, and a bare name itself |
| Rank.GetPath | src/Web/Rank.php:71-79 | URL_RANKING/<discipline slug>/<endpoint name>; an unknown discipline throws first, then an unknown endpoint |
| Rank.GetPathInjective | src/Web/Rank.php:71-79 | different disciplines or endpoints never share a path |
| Rank.GetMeta | src/Web/Rank.php:146-155 | the keys endpoint, discipline, ranking_date, count and version in that order, holding the names, null, 0 and '1.0'; an unknown endpoint throws first |
| Rank.MetaKeyLookup | src/Web/Rank.php:148-154 | each meta key looked up by name gives the field at its position |
| Rank.MetaFields | src/Web/Rank.php:146-155 | each meta key, looked up by name, holds its field |
| Rank.MetaEndpointRoundTrip | src/Web/Rank.php:97-155 | the endpoint name in the meta block leads back to the endpoint code |
| Ranking.GetActivity | src/Web/Ranking.php:84-93 | defined exactly on the activity codes, else 'Activity not recognized: <code>' |
| Ranking.ActivityCodes | src/Web/Ranking.php:9-27 | the activity codes are 1 to 8 |
| Ranking.ActivitiesAreDisciplines | src/Web/Ranking.php:18-27 | each activity has the slug of one discipline |
| Ranking.ActivitySlugsDistinct | src/Web/Ranking.php:18-27 | no two activities share a slug |
| Ranking.ActivitySlugsPlain | src/Web/Ranking.php:18-27 | no activity slug contains '/' |
| Ranking.GetPath | src/Web/Ranking.php:69-77 | URL_RANKING/<activity slug>/<endpoint name>; an unknown activity throws first, then an unknown endpoint |
| Ranking.GetPathInjective | src/Web/Ranking.php:69-77 | different activities or endpoints never share a path |
| Ranking.GetMeta | src/Web/Ranking.php:141-150 | the keys endpoint, activity, ranking_date, count and version in that order, holding the names, null, 0 and '1.0'; an unknown endpoint throws first |
| Ranking.MetaKeyLookup | src/Web/Ranking.php:143-149 | each meta key looked up by name gives the field at its position |
| Ranking.MetaFields | src/Web/Ranking.php:141-150 | each meta key, looked up by name, holds its field, under 'activity' rather than 'discipline' |
| Factory.EndpointName | src/Web/Factory.php:37-40 | defined exactly on the endpoint codes, else 'Endpoint not recognized: <code>'; the name starts with an upper-case letter and lower-cases to the endpoint name |
| Factory.Create | src/Web/Factory.php:9-53 | an unknown code throws before any class lookup; otherwise the class `\Wprs\Api\Web\Endpoint\N\N<suffix>` is returned iff it exists, and 'The N endpoint has not been implemented.' is thrown if not |
| Factory.ClassesAgreeWithSystem | src/Web/Factory.php:42-47 | the endpoint classes formed are the ones the first-generation helper names |
| Factory.EndpointNames | src/Web/Factory.php:37-40 | the five endpoint names are 'Pilot', 'Pilots', 'Nations', 'Competition' and 'Competitions' |
| Factory.FactoryClasses | src/Web/Factory.php:9-35 | the pilots and nations endpoints yield their endpoint class and, with suffix 'Params', their parameter class |
| Factory.PilotClassMissing | src/Web/Factory.php:42-47 | the single-pilot endpoint has neither class in the repository |
| Factory.PilotNotImplemented | src/Web/Factory.php:15-35 | creating the single-pilot endpoint or its parameters throws 'The Pilot endpoint has not been implemented.' |
| Factory.EndpointClassInjective | src/Web/Factory.php:42-47 | the class name determines the endpoint name it was formed from |
| Factory.CreateInjective | src/Web/Factory.php:9-47 | different endpoint codes never give the same class |
| PilotsParams.New | src/Web/Endpoint/Pilots/PilotsParams.php:14-19 | succeeds iff the region is known and a given scoring is known; the region is checked first; the nation is not checked |
| PilotsParams.GetQueryParams | src/Web/Endpoint/Pilots/PilotsParams.php:24-40 | always the ranking date and the region id as a decimal string; the nation id as a decimal string when given; the scoring category name when a scoring other than overall is given |
| PilotsParams.QueryKeyPresence | src/Web/Endpoint/Pilots/PilotsParams.php:24-40 | 'search[nation_id]' is present iff a nation was given, and 'search[scoringCategory]' iff a scoring other than overall was given |
| PilotsParams.GetDetails | src/Web/Endpoint/Pilots/PilotsParams.php:45-61 | the region name and id, then nation '' and the nation id when given, then the scoring name, overall when none was given |
| PilotsParams.DefaultScoringIsOverall | src/Web/Endpoint/Pilots/PilotsParams.php:57-58 | without a scoring the details name 'overall' |
| NationsParams.New | src/Web/Endpoint/Nations/NationsParams.php:12-15 | no region means the world (0); a given region must be known, and throws 'Region id not recognized' otherwise |
| NationsParams.GetQueryParams | src/Web/Endpoint/Nations/NationsParams.php:20-26 | exactly the keys 'search[rankingDate]' and 'RankingNationalTotalSearch[continent_id]', holding the date and the region id as a decimal string |
| NationsParams.GetDetails | src/Web/Endpoint/Nations/NationsParams.php:31-37 | exactly the region name and id |
| NationsParams.QueryMatchesDetails | src/Web/Endpoint/Nations/NationsParams.php:12-48 | constructed parameters always have details, and the query's region id is the one in the details |
| NationsParams.DefaultIsWorld | src/Web/Endpoint/Nations/NationsParams.php:39-44 | no region and the world region give the same parameters |
| CompetitionParams.GetQueryParams | src/Web/Endpoint/Competition/CompetitionParams.php:19-27 | exactly 'rankingDate' and 'id', the id as a decimal string |
| CompetitionParams.GetDetails | src/Web/Endpoint/Competition/CompetitionParams.php:32-39 | exactly the id |
| CompetitionParams.QueryDeterminesId | src/Web/Endpoint/Competition/CompetitionParams.php:11-27 | different ids never give the same query |
| CompetitionsParams.GetQueryParams | src/Web/Endpoint/Competitions/CompetitionsParams.php:12-15 | exactly one key, 'rankingDate', holding the date unchanged |
| CompetitionsParams.GetDetails | src/Web/Endpoint/Competitions/CompetitionsParams.php:20-23 | always empty |
| WprsException.FormatMessage | src/Web/WprsException.php:27-35 | the text starts with the message and ends with a line break |
| WprsException.FormatMessageLines | src/Web/WprsException.php:27-35 | for a message and file without line breaks, the text splits into the message, 'File: <file>', 'Line: <line>' and an empty last line |
| WprsException.ChainMessage | src/Web/WprsException.php:10-22 | without a previous exception the message is unchanged; with one, the message without trailing spaces, one space, and then the previous library exception's message without leading spaces, or any other exception's formatted message |
| WprsException.New | src/Web/WprsException.php:10-25 | a library exception with code 0, no previous exception kept, and the chained message |
| WprsException.GetExceptionMessage | src/Web/System.php:167-174 | a library exception gives its own message, any other its formatted message |
| WprsException.TidyTrims | src/Web/WprsException.php:13-16 | a message with no space at either end is left alone by both trims |
| WprsException.ChainAllMessage | src/Web/WprsException.php:10-25 | library exceptions wrapped one inside the other read as their tidy messages joined by single spaces |
| ApiOutput.New | src/Web/Endpoint/ApiOutput.php:22-28 | succeeds iff the endpoint and discipline codes are known, the endpoint checked first, storing their names, the date and version '1.0' |
| ApiOutput.GetMeta | src/Web/Endpoint/ApiOutput.php:53-62 | the stored endpoint, discipline, date and version, with the collector's item count |
| ApiOutput.GetData | src/Web/Endpoint/ApiOutput.php:34-48 | the meta block; details and items passed through unchanged; errors null iff the collector has none, and otherwise its errors |
| ApiOutput.CountIsItems | src/Web/Endpoint/ApiOutput.php:34-62 | for a collector built by its own calls, the count in the meta block is the number of items output |
| ApiOutput.MetaEndpointRoundTrip | src/Web/Endpoint/ApiOutput.php:22-28 | the endpoint name in the meta block leads back to the endpoint code |
| ApiData.New | src/Web/Endpoint/ApiData.php:14-20 | succeeds iff the endpoint and discipline codes are known, the endpoint checked first |
| ApiData.GetOutput | src/Web/Endpoint/ApiData.php:22-44 | the meta block with the item count, and a data block of the details and items only |
| ApiData.SameAsApiOutput | src/Web/Endpoint/ApiData.php:14-44 | the legacy output is the current one without its errors |
| Values.Get | src/Web/Endpoint/Competitions/CompetitionsParser.php:112 | a key's value is absent iff no entry has that key, and is otherwise the value of an entry under it |
| Values.Set | src/Web/Endpoint/DataCollector.php:50 | after setting, the key holds the new value and every other key keeps its value |
| Dates.DaysInMonth | src/Web/Endpoint/Competitions/CompetitionsParser.php:210 | every month of the calendar the date library uses has 28 to 31 days |
| Dates.RollDays | src/Web/Endpoint/Competitions/CompetitionsParser.php:210 | an out-of-range day is rolled into a real date, and a day already in its month is kept |
| Dates.Normalize | src/Web/Endpoint/Competitions/CompetitionsParser.php:210 | whatever month and day are read, the library's roll-over gives a real date, and a real date is left as it is |
| Dates.NormalizeExamples | src/Web/Endpoint/Competitions/CompetitionsParser.php:210 | February 30 of 2023 becomes March 2, month 13 becomes January of the next year, day 0 becomes the last day of the previous month |
| Dates.PadNumber | src/Web/System.php:146 | the zero-padded field of a date format is all digits and at least as wide as asked |
| Dates.ParseIso | src/Web/System.php:139 | a "Y-m-d" text yields year, month and day exactly when it has the four-two-two digit shape |
| Dates.DigitsValueLeadingZeros | src/Web/System.php:139 | zero-padding a numeral keeps its value, so "07" reads as month 7 |
| Dates.PadNumberValue | src/Web/System.php:146 | padding a number that fits gives exactly the field width and reads back as the number |
| Dates.IsoSlices | src/Web/System.php:139 | a text written as four, two and two digits with dashes has the "Y-m-d" shape and its fields are those slices |
| Dates.ParseFormatIso | src/Web/System.php:139-146 | reading back a date written as "Y-m-d" gives the same date, for four-digit years |
| Dates.MonthNameShape | src/Web/Endpoint/Competitions/CompetitionsParser.php:205 | every English month abbreviation fits the `[A-Z][a-z]{2}` part of the site pattern |
| Dates.MonthNumber | src/Web/Endpoint/Competitions/CompetitionsParser.php:210 | the 'M' format reads a three-letter name exactly when it is one of the twelve abbreviations, giving its month, or the roman numeral "Iii", "Vii" or "Xii" from the same table, giving 3, 7 or 12 |
| Dates.RomanIsNoAbbreviation | src/Web/Endpoint/Competitions/CompetitionsParser.php:210 | no three-letter roman numeral is also an abbreviation, so the two kinds of name never compete |
| Dates.RomanMonthNumbers | src/Web/Endpoint/Competitions/CompetitionsParser.php:210 | "Iii", "Vii" and "Xii" read as March, July and December |
| Dates.MonthNumberOfName | src/Web/Endpoint/Competitions/CompetitionsParser.php:210 | the name of month m is read back as m |
| Dates.FormatSiteDate | src/Web/Endpoint/Competitions/CompetitionsParser.php:201-216 | succeeds exactly when the text matches the site pattern and begins with a name the 'M' format reads (an abbreviation, or "Iii", "Vii" or "Xii"), then giving the "Y-m-d" of a real date; otherwise fails with "Unexpected <type> date value: <text>" |
| Dates.SiteSlices | src/Web/Endpoint/Competitions/CompetitionsParser.php:205 | "Mmm d, yyyy" built from three letters of the pattern's shape (a capital and two lower-case letters), a one- or two-digit day and a four-digit year matches the site pattern, with those fields at the expected slices |
| Dates.FormatSiteDateOfSiteText | src/Web/Endpoint/Competitions/CompetitionsParser.php:201-216 | every real date the site shows as "Mmm d, yyyy" converts to its own "Y-m-d" |
| Dates.FormatSiteDateOfRomanText | src/Web/Endpoint/Competitions/CompetitionsParser.php:201-216 | a real date in March, July or December written with the roman numeral of its month is also converted to its own "Y-m-d" |
| Strings.RTrim | src/Web/WprsException.php:13 | `rtrim` removes exactly the longest suffix of characters from the set |
| Strings.LTrim | src/Web/WprsException.php:16 | `ltrim` removes exactly the longest prefix of characters from the set |
| Strings.Trim | src/Web/Endpoint/DomUtils.php:19 | `trim` leaves no whitespace at either end and never lengthens the text |
| Strings.TrimIsSlice | src/Web/Endpoint/DomUtils.php:19 | `trim` returns a slice of its argument, with only whitespace cut off on each side |
| Strings.TrimIdempotent | src/Web/Endpoint/DomUtils.php:19 | trimming twice is trimming once |
| Strings.IndexOf | src/Http/HttpWorker.php:231 | `strpos` finds the first occurrence, and reports none only when there is none |
| Strings.ContainsChar | src/Http/HttpWorker.php:231 | a one-character needle is found exactly when the character occurs |
| Strings.Explode | src/Web/Endpoint/Utils.php:64 | `explode` gives at least one piece, no piece holds the separator, and joining the pieces with it gives back the text |
| Strings.ExplodeJoin | src/Web/Endpoint/Utils.php:64 | exploding pieces joined by a one-character separator they lack gives back the pieces |
| Strings.ReplaceChar | src/Web/System.php:162 | `strtr` with one character each replaces every occurrence and nothing else |
| Strings.LastSegment | src/Web/System.php:162 | the part after the last separator: a suffix without the separator, preceded by one when shorter than the text |
| Strings.Basename | src/Web/System.php:162 | `basename` never contains a slash |
| Strings.BasenameOfPath | src/Web/System.php:162 | the base name of "dir/name", and of "name", is "name" |
| Strings.NatToString | src/Web/Endpoint/Utils.php:33 | the decimal numeral of a natural number has no leading zero and reads back as the number |
| Strings.IntToString | src/Web/Endpoint/Utils.php:33 | `%d` writes a minus sign exactly for a negative number, followed by the numeral of its magnitude |
| Strings.IntToStringInjective | src/Web/Endpoint/Utils.php:33 | different integers are written differently |
| Strings.LeadingDigits | src/Web/Endpoint/Competitions/CompetitionsParser.php:64 | the longest run of digits at the start of a text |
| Strings.IntCast | src/Web/Endpoint/Competitions/CompetitionsParser.php:64 | the `(int)` cast of any string lies within PHP's 64-bit integer range |
| Strings.IntCastOfIntToString | src/Web/Endpoint/Competitions/CompetitionsParser.php:64 | the `(int)` cast of a written integer, whatever non-digit follows, is that integer when it fits in 64 bits and the nearer of PHP_INT_MAX and PHP_INT_MIN otherwise |
| Strings.IntCastOfDigits | src/Web/Endpoint/Competitions/CompetitionsParser.php:64 | the `(int)` cast of digits followed by a non-digit is their value, or PHP_INT_MAX when the value is larger |
| Strings.IntCastOfNegative | src/Web/Endpoint/Competitions/CompetitionsParser.php:64 | the `(int)` cast of a minus sign, digits and a non-digit is the negated value, or PHP_INT_MIN when that is smaller |
| Strings.PadLeft | src/Web/System.php:146 | left-padding keeps the text as a suffix, fills the rest with the pad character and reaches the width |
| Strings.Lower | src/Web/Ranking.php:108 | `strtolower` folds each ASCII letter and keeps everything else |
| Strings.LowerOfLower | src/Web/Ranking.php:108 | folding always yields a lower-case text and leaves a lower-case text unchanged |
| Strings.Ucfirst | src/Web/Factory.php:39 | `ucfirst` upper-cases the first character and keeps the rest |
| Strings.LowerOfUcfirst | src/Web/Factory.php:39 | folding undoes `ucfirst` on a lower-case word starting with a letter, whose first letter becomes upper case |
| CompetitionsParser.NumericText | src/Web/Endpoint/Competitions/CompetitionsParser.php:261-267 | a present numeric cell always reads as a numeric text, and a numeric text is kept as it is |
| CompetitionsParser.GetNumericValue | src/Web/Endpoint/Competitions/CompetitionsParser.php:255-268 | succeeds exactly when the cell exists, with its trimmed text or '0.0'; a missing cell throws "Error getting <key>" |
| CompetitionsParser.IntFieldsAreIntKeys | src/Web/Endpoint/Competitions/CompetitionsParser.php:124-137 | the int-cast fields are exactly tasks, pilots, pilots_last_12_months, comps_last_12_months and days_since_end |
| CompetitionsParser.NumericFieldsError | src/Web/Endpoint/Competitions/CompetitionsParser.php:112-143 | reading cells 3 to 13 fails exactly when a cell is missing, naming the key of the first missing cell |
| CompetitionsParser.NumericFields | src/Web/Endpoint/Competitions/CompetitionsParser.php:112-143 | one value per numeric key, each the cell's numeric text, int-cast for the counting fields |
| CompetitionsParser.GetPeriod | src/Web/Endpoint/Competitions/CompetitionsParser.php:166-199 | a missing cell or one without exactly three children throws the period error; otherwise the first and third children are formatted as the start and end dates |
| CompetitionsParser.GetUpdated | src/Web/Endpoint/Competitions/CompetitionsParser.php:270-284 | a missing cell throws, a blank one gives '', any other text is formatted as an updated date |
| CompetitionsParser.CellAt | src/Web/Endpoint/Competitions/CompetitionsParser.php:102 | `item(i)` gives a node exactly when the index is in range |
| CompetitionsParser.RowRecord | src/Web/Endpoint/Competitions/CompetitionsParser.php:105-148 | the row array has the sixteen keys in source order, holding name, id, start, end, the numeric fields and updated |
| CompetitionsParser.ParseRow | src/Web/Endpoint/Competitions/CompetitionsParser.php:99-149 | a parsed row had at least fifteen cells and an event link, and its record has the sixteen row keys |
| CompetitionsParser.ParseRowFields | src/Web/Endpoint/Competitions/CompetitionsParser.php:99-149 | each field of a parsed row is the value read from its own cell: event name and id, period dates, numeric texts and the updated date |
| CompetitionsParser.NumericFieldsTyping | src/Web/Endpoint/Competitions/CompetitionsParser.php:112-143 | a numeric field is an integer exactly when it is one of the counting fields |
| CompetitionsParser.RowRecordTyping | src/Web/Endpoint/Competitions/CompetitionsParser.php:105-148 | in a row record only the id and the counting fields are integers |
| CompetitionsParser.ParseRowIsRecord | src/Web/Endpoint/Competitions/CompetitionsParser.php:99-149 | a parsed row is the record of its event, period, numeric fields and updated date |
| CompetitionsParser.RowTyping | src/Web/Endpoint/Competitions/CompetitionsParser.php:99-149 | in every parsed row the id and the counting fields are integers and every other field is a string |
| CompetitionsParser.NonNumericCellIsZero | src/Web/Endpoint/Competitions/CompetitionsParser.php:263-265 | a blank or non-numeric cell gives 0 in a counting field and '0.0' in any other |
| CompetitionsParser.TypedZero | src/Web/Endpoint/Competitions/CompetitionsParser.php:125 | the placeholder '0.0' casts to 0 |
| CompetitionsParser.RowsParseCons | src/Web/Endpoint/Competitions/CompetitionsParser.php:46-49 | the rows all parse exactly when the first does and the rest do |
| CompetitionsParser.ParsedItems | src/Web/Endpoint/Competitions/CompetitionsParser.php:46-49 | one record per row, in row order |
| CompetitionsParser.AddOps | src/Web/Endpoint/Competitions/CompetitionsParser.php:46-49 | one `add` per item, in order, each with the same filter |
| CompetitionsParser.AddCountOfAddOps | src/Web/Endpoint/Competitions/CompetitionsParser.php:46-49 | the loop makes as many `add` calls as there are items |
| CompetitionsParser.AddRows | src/Web/Endpoint/Competitions/CompetitionsParser.php:46-49 | adding rows never changes the collector's overall count |
| CompetitionsParser.AddRowsOk | src/Web/Endpoint/Competitions/CompetitionsParser.php:46-49 | the loop completes exactly when every row parses; otherwise the first failing row's exception escapes |
| CompetitionsParser.AddOpsOfParsedCons | src/Web/Endpoint/Competitions/CompetitionsParser.php:46-49 | the `add` calls of parsed rows are the first row's, then the rest's |
| CompetitionsParser.AddRowsRun | src/Web/Endpoint/Competitions/CompetitionsParser.php:46-49 | when every row parses the loop leaves the collector as if each record had been added in order |
| CompetitionsParser.OverallCount | src/Web/Endpoint/Competitions/CompetitionsParser.php:54-65 | succeeds exactly when a single count node is found, with its text int-cast |
| CompetitionsParser.Parse | src/Web/Endpoint/Competitions/CompetitionsParser.php:19-52 | a missing wrapper, a missing table, a column count other than 15 and a row count other than the overall count each throw their message; a zero count gives an empty collector |
| CompetitionsParser.ParseRows | src/Web/Endpoint/Competitions/CompetitionsParser.php:37-51 | with a non-zero count the parse succeeds exactly when the table is there with 15 columns, as many rows as the count and every row parsing, and the result is the rows' records added in order |
| CompetitionsParser.ParseAccountsForRows | src/Web/Endpoint/Competitions/CompetitionsParser.php:30-51 | a successful parse accounts for every row as kept or filtered, and keeps every row's record in order without a filter |
| CompetitionsParser.KeptWithoutFilter | src/Web/Endpoint/Competitions/CompetitionsParser.php:48 | without a filter every added item is kept, in order |
| CompetitionsParser.IntFieldOfNumeral | src/Web/Endpoint/Competitions/CompetitionsParser.php:125 | a cell holding a whole number gives that number in a counting field, cut to PHP's 64-bit limits |
| CompetitionParser.Lift | src/Web/Endpoint/Competition/CompetitionParser.php:83 | a thrown RuntimeException message becomes a failure carrying that message, and a value stays a value |
| CompetitionParser.FieldKeys | src/Web/Endpoint/Competition/CompetitionParser.php:104-194 | the record keys, one per field, in field order |
| CompetitionParser.GetNumericValue | src/Web/Endpoint/Competition/CompetitionParser.php:248-257 | a missing cell is a TypeError; a present cell gives its trimmed text exactly when that is numeric, and otherwise throws "Missing value for <key>" |
| CompetitionParser.GetDateValue | src/Web/Endpoint/Competition/CompetitionParser.php:259-269 | a missing cell is a TypeError, a blank one gives '', any other text is formatted as a date of that key's type |
| CompetitionParser.ReadField | src/Web/Endpoint/Competition/CompetitionParser.php:104-194 | reading a field is a TypeError exactly when its column is missing, and a text field gives the trimmed cell text |
| CompetitionParser.Collect | src/Web/Endpoint/Competition/CompetitionParser.php:104-194 | collecting field values yields one value per field |
| CompetitionParser.CollectDone | src/Web/Endpoint/Competition/CompetitionParser.php:104-194 | the values collect exactly when every read gives a value |
| CompetitionParser.CollectAt | src/Web/Endpoint/Competition/CompetitionParser.php:104-194 | each collected value is the value its own read gave |
| CompetitionParser.CollectFirstFailure | src/Web/Endpoint/Competition/CompetitionParser.php:104-194 | when a read fails after reads that gave values, the row fails with that read's failure |
| CompetitionParser.Reads | src/Web/Endpoint/Competition/CompetitionParser.php:104-194 | one read per field, each of the field's own column |
| CompetitionParser.ReadFields | src/Web/Endpoint/Competition/CompetitionParser.php:104-194 | a row that reads gives one value per field |
| CompetitionParser.ReadFieldsMeaning | src/Web/Endpoint/Competition/CompetitionParser.php:104-194 | the fields read exactly when each does, each value is its own field's, and the first failing field's failure is the row's |
| CompetitionParser.FieldRecord | src/Web/Endpoint/Competition/CompetitionParser.php:167-194 | the record pairs each field's key with its value, in order |
| CompetitionParser.GetPeriod | src/Web/Endpoint/Competition/CompetitionParser.php:208-228 | a missing first cell is a TypeError, one without exactly three children throws the period error, and otherwise the first and third children are formatted as start and end |
| CompetitionParser.HeadedRecord | src/Web/Endpoint/Competition/CompetitionParser.php:109-161 | the details record holds the competition name, id 0, the period's start and end, then each field's value under its key |
| CompetitionParser.ParseHeadedRow | src/Web/Endpoint/Competition/CompetitionParser.php:104-162 | a details row reads exactly when its period and all its fields do, giving the headed record of their values |
| CompetitionParser.DetailsRowFailure | src/Web/Endpoint/Competition/CompetitionParser.php:104-162 | a details row that fails does so with its period's failure, or else with the first failing field's |
| CompetitionParser.ParsePilotRow | src/Web/Endpoint/Competition/CompetitionParser.php:167-194 | a pilot row reads exactly when its seven fields do, giving rank, pp, points, td_points, score, pilot and civil_id; otherwise the first failure |
| CompetitionParser.RowsParseCons | src/Web/Endpoint/Competition/CompetitionParser.php:45-48 | the pilot rows all parse exactly when the first does and the rest do |
| CompetitionParser.ParsedItems | src/Web/Endpoint/Competition/CompetitionParser.php:45-48 | one record per pilot row, in row order |
| CompetitionParser.AddRows | src/Web/Endpoint/Competition/CompetitionParser.php:45-48 | the pilot loop leaves the overall count and the extras as they were |
| CompetitionParser.AddRowsOk | src/Web/Endpoint/Competition/CompetitionParser.php:45-48 | the pilot loop completes exactly when every row parses |
| CompetitionParser.AddOpsOfRowsCons | src/Web/Endpoint/Competition/CompetitionParser.php:45-48 | the `add` calls of parsed rows are the first row's, then the rest's |
| CompetitionParser.AddRowsRun | src/Web/Endpoint/Competition/CompetitionParser.php:45-48 | when every row parses the loop leaves the collector as if each record had been added in order |
| CompetitionParser.OverallCount | src/Web/Endpoint/Competition/CompetitionParser.php:53-64 | succeeds exactly when a single count node is found, with its text int-cast, and otherwise throws the count error |
| CompetitionParser.CheckColumnCount | src/Web/Endpoint/Competition/CompetitionParser.php:75-85 | a missing table is a TypeError, a header count other than expected throws with both counts, and otherwise the table passes |
| CompetitionParser.GetTablesRows | src/Web/Endpoint/Competition/CompetitionParser.php:87-99 | the body rows are returned exactly when there are as many as expected; otherwise the message gives both counts |
| CompetitionParser.Prepare | src/Web/Endpoint/Competition/CompetitionParser.php:18-43 | the steps before the loop succeed exactly when the page is well formed and its details row reads, giving a collector of the overall count with the details as an extra |
| CompetitionParser.Parse | src/Web/Endpoint/Competition/CompetitionParser.php:18-51 | a missing wrapper is a TypeError, and a parsed page reports the page's own overall count |
| CompetitionParser.ParseAccountsForPilots | src/Web/Endpoint/Competition/CompetitionParser.php:18-51 | a page parses exactly when it is well formed, its details read and every pilot row parses; then every pilot is kept or filtered, in order, and the details are kept as an extra |
| CompetitionParser.ParseSteps | src/Web/Endpoint/Competition/CompetitionParser.php:18-51 | parsing is the steps before the loop followed by the pilot loop |
| CompetitionParser.PilotLoopAccounts | src/Web/Endpoint/Competition/CompetitionParser.php:45-48 | after the pilot loop every parsed row is counted as kept or filtered and the extras stand |
| CompetitionParser.ExtrasKept | src/Web/Endpoint/Competition/CompetitionParser.php:47 | `add` calls never change the extras |
| CompetitionParser.NumericValuesCompared | src/Web/Endpoint/Competition/CompetitionParser.php:248-257 | on a numeric cell both parsers read its text; on any other cell this page throws where the competitions list reads '0.0' |
| CompetitionParser.IntegerFieldOfNumeral | src/Web/Endpoint/Competition/CompetitionParser.php:173 | a whole number shown in an integer column reads as that number, cut to PHP's 64-bit limits |
| CompetitionParser.DateFieldOfSiteText | src/Web/Endpoint/Competition/CompetitionParser.php:230-246 | a real date shown in a date column reads as its "Y-m-d" |
| CompetitionParser.DetailsTyping | src/Web/Endpoint/Competition/CompetitionParser.php:104-162 | in a details record only the id and the integer fields are integers |
| CompetitionParser.HeadedTyping | src/Web/Endpoint/Competition/CompetitionParser.php:104-162 | a headed record is typed the way its fields' kinds say |
| CompetitionParser.KindTyping | src/Web/Endpoint/Competition/CompetitionParser.php:104-194 | a field that reads is an integer exactly when its kind is an int-cast number |

## Left out

- The curl transport: the multi and share handles, sockets, `curl_multi_select`, and the temporary stream a body is written to. A poll of the worker is given the transfers that finished during it, and a wait is given the sequence of polls it sees.
- HttpDownloader.GetBatch: the worker's own failures are not modelled. These are `curl_init` failing (src/Http/HttpWorker.php:50-52), the body stream failing to open (src/Http/HttpWorker.php:183-185) and `curl_multi_add_handle` failing (src/Http/HttpWorker.php:78). Starting a job never fails in the model. In the source, a job started by `queueJob` (src/Http/HttpDownloader.php:57) is outside the `try` of `wait`. Such a failure escapes with jobs still listed, and the promise that the downloader ends idle does not cover it.
- HttpDownloader.Get: the same holds for the one job it queues (src/Http/HttpDownloader.php:41).
- HttpDownloader.QueueJob: a job it starts is always started; the worker's failure to take it is not modelled.
- HttpDownloader.Wait: the multi handle's exec and select errors (src/Http/HttpWorker.php:88-89 and 153-168) are not a separate cause of a throwing poll. Like any poll that throws, they end in `abortJobs`, which the model covers.
- Strings.IntCast: PHP reads a numeric string with a fraction or an exponent as a double before the cast. The model reads only the sign and the leading digits, so "1e3" gives 1 rather than 1000. A fractional numeral above 2^53 is also not rounded to a double. Values beyond 64 bits saturate as in PHP.
- Concurrency and timing: `usleep` is not performed. Retry delays and the 50 ms pause between chunks are returned as values.
- `gzdecode` is a parameter. The model decides only whether a body begins with the gzip magic bytes.
- DOM and XPath evaluation: documents are abstract nodes, and evaluating an expression is a parameter. The model builds the XPath expressions as text and reads the nodes a query returns.
- CompetitionsParser.Row.event: the event name and id read from the competition link (`parse_url`, `parse_str`, `html_entity_decode`) are given with each row, as a value or the error "Error getting event id".
- EndpointUtils.IsNumeric: it reads only an optional sign and decimal digits with at most one point, and has no exponent form. PHP's `is_numeric` also accepts "1e3", which the competitions list keeps and the `(int)` casts read as 1000. The model reads that cell as "0.0" and 0.
- Dates.MatchesSitePattern: it takes only a space for each `\s` of the date pattern. A tab or another whitespace character also passes the source's regular expression.
- Dates.Normalize: the date library's handling of years beyond four digits and of its own integer limits is not modelled. Years are unbounded integers.
- System.GetRankingDate: the current date for a missing ranking date is a parameter, not the clock.
- Application.GetRemainingUrls: `ceil` of a float quotient is computed as an exact integer ceiling. The float's precision and the saturation of its `(int)` cast for huge counts are not modelled.
- Application.RunTask: the file and line of an exception raised inside a task are not tracked. The chained message keeps only the text.
- `Application::getJob` is not modelled as one member. Its parts are: the ranking date, the endpoint's query parameters, `buildQuery` and the `ApiOutput`. The constructor's lookup of the path from the class name is modelled by `System.GetPath` alone. What the filter does with the options handed to its `setOptions` is not modelled.
- `ParserManager`, the endpoint glue classes, `EventParser`, `NationsParser` and `PilotsParser` are not part of this model. Neither are the interfaces, `RequestInfo`, the tests and the fixtures.
- Code whose calls do not match the declarations is modelled by its evident intent, with a comment at each place:
  - `HttpWorker` does not declare `WorkerInterface`, and its `download` takes the options as a second argument (src/Http/HttpWorker.php:46). Yet the constructor stores a new `HttpWorker` in a property typed `WorkerInterface` (src/Http/HttpDownloader.php:34), which raises a `TypeError` as written. The call at src/Http/HttpDownloader.php:128 matches the interface. The transfer is not modelled; each started job carries its options.
  - `HttpDownloader::get` and `getBatch` (src/Http/HttpDownloader.php:39 and 48) leave out the `array $options = []` parameter that `DownloaderInterface` declares. PHP rejects that as an incompatible declaration. Were it accepted, the options that `Application` passes at src/Web/Application.php:113 would be ignored and never reach curl. `HttpDownloader.Get` and `HttpDownloader.GetBatch` use the downloader's own options, as the source's bodies do. `Application.RunTask` hands its transport options to the downloader it is given, as `DownloaderInterface` promises, so the model does not show those options being dropped.
  - `$job->options` at src/Http/HttpWorker.php:217 reads an undeclared property.
  - `filter($item)` at src/Web/Endpoint/DataCollector.php:33 has one argument where `FilterInterface` declares two.
  - `ApiOutput` passes a string endpoint to `Rank::getEndpoint(int)`.
  - `Application` calls `addData`, `getProcessedCount` and `getOverallCount`, which the endpoint collector does not declare.

## Findings

| source | as written | input that shows it | evidently intended | confidence | as-written member | corrected member |
|---|---|---|---|---|---|---|
| src/Web/System.php:103 | `substr($result, 0 -3)` is `substr($result, -3)`, so it keeps the last three characters "-xc" | discipline 2 (hang gliding class 1, slug "hang-gliding-class-1-xc") shows as "-xc", and so does every other hang-gliding class | remove the "-xc" suffix, giving "hang-gliding-class-1" | high, not executed | System.GetDisciplineForDisplayAsWritten, System.DisplayAsWrittenCollides | System.GetDisciplineForDisplay, System.DisplayNamesDistinct |
