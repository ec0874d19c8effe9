/**
  The two-round bookkeeping of one endpoint run (src/Web/Endpoint/Task.php).
  A task holds one result slot per URL of the main round; extra URLs found
  during the main round (further pages) each remember the slot they add to.
  The task moves through the phases INIT, MAIN and EXTRA, and each
  operation is valid only in some of them.

  The slot contents (a data collector in the system) are a type parameter.
 */
module Task {
  import opened Wrappers
  import Strings

  datatype Phase = Init | Main | Extra

  /** The constants PHASE_INIT, PHASE_MAIN and PHASE_EXTRA. */
  function PhaseNumber(p: Phase): nat {
    match p
    case Init => 0
    case Main => 1
    case Extra => 2
  }

  /**
    The task state: the phase, the main-round URLs, the extra URLs, one slot
    per main-round URL, and for each extra URL the slot it belongs to.
   */
  datatype Task<T> = Task(
    phase: Phase,
    urls: seq<string>,
    extraUrls: seq<string>,
    items: seq<Option<T>>,
    dataIndexes: seq<int>)

  /**
    One slot per URL; one slot index per extra URL; and every slot an extra
    URL belongs to exists and is already filled.
   */
  predicate Valid<T>(t: Task<T>) {
    && |t.items| == |t.urls|
    && |t.extraUrls| == |t.dataIndexes|
    && forall k :: 0 <= k < |t.dataIndexes| ==>
         0 <= t.dataIndexes[k] < |t.items| && t.items[t.dataIndexes[k]].Some?
  }

  /** The constructor: the URLs in order, one empty slot each, phase INIT. */
  function New<T>(urls: seq<string>): (t: Task<T>)
    ensures Valid(t) && t.phase == Init
    ensures t.urls == urls && |t.items| == |urls|
    ensures forall k :: 0 <= k < |t.items| ==> t.items[k].None?
    ensures t.extraUrls == [] && t.dataIndexes == []
  {
    Task(Init, urls, [], seq(|urls|, _ => None), [])
  }

  function PhaseError(p: Phase): string {
    "Operation not valid in phase " + Strings.IntToString(PhaseNumber(p))
  }

  /**
    `getUrls`: the first call moves INIT to MAIN and hands out the URLs, the
    second moves MAIN to EXTRA and hands out the extra URLs, any further
    call fails. Nothing but the phase changes.
   */
  function GetUrls<T>(t: Task<T>): (r: Result<(Task<T>, seq<string>)>)
    ensures r.Ok? <==> t.phase != Extra
    ensures r.Err? ==> r.error == PhaseError(Extra)
    ensures r.Ok? ==> PhaseNumber(r.value.0.phase) == PhaseNumber(t.phase) + 1
    ensures r.Ok? ==> r.value.0 == t.(phase := r.value.0.phase)
    ensures r.Ok? && t.phase == Init ==> r.value.1 == t.urls
    ensures r.Ok? && t.phase == Main ==> r.value.1 == t.extraUrls
  {
    match t.phase
    case Init => Ok((t.(phase := Main), t.urls))
    case Main => Ok((t.(phase := Extra), t.extraUrls))
    case Extra => Err(PhaseError(t.phase))
  }

  /**
    `getDataCollector`: in phase EXTRA the index is an extra-URL index and is
    translated to its slot; otherwise it is a slot index. An index with no
    entry fails with 'Data not found at index' and the index looked up.
   */
  function GetDataCollector<T>(t: Task<T>, index: int): (r: Result<Option<T>>)
    ensures t.phase == Extra ==>
              (r.Ok? <==> 0 <= index < |t.dataIndexes| && 0 <= t.dataIndexes[index] < |t.items|)
    ensures t.phase == Extra && r.Ok? ==> r.value == t.items[t.dataIndexes[index]]
    ensures t.phase != Extra ==> (r.Ok? <==> 0 <= index < |t.items|)
    ensures t.phase != Extra && r.Ok? ==> r.value == t.items[index]
    ensures t.phase == Extra && !(0 <= index < |t.dataIndexes|) ==>
              r == Err("Data not found at index " + Strings.IntToString(index))
  {
    var slot :- if t.phase == Extra then
                  (if 0 <= index < |t.dataIndexes| then Ok(t.dataIndexes[index])
                   else Err("Data not found at index " + Strings.IntToString(index)))
                else Ok(index);
    if 0 <= slot < |t.items| then Ok(t.items[slot])
    else Err("Data not found at index " + Strings.IntToString(slot))
  }

  /** In phase EXTRA every extra index of a valid task finds a filled slot. */
  lemma ExtraIndexFindsData<T>(t: Task<T>, index: int)
    requires Valid(t) && t.phase == Extra && 0 <= index < |t.extraUrls|
    ensures GetDataCollector(t, index).Ok? && GetDataCollector(t, index).value.Some?
  {
  }

  /**
    `addExtraUrls`: outside phase EXTRA, and for a slot that is filled,
    append the URLs to the extra URLs and the slot index once per URL.
   */
  function AddExtraUrls<T>(t: Task<T>, urls: seq<string>, index: int): (r: Result<Task<T>>)
    ensures t.phase == Extra ==> r == Err(PhaseError(Extra))
    ensures r.Ok? <==> t.phase != Extra && 0 <= index < |t.items| && t.items[index].Some?
    ensures t.phase != Extra && 0 <= index < |t.items| && t.items[index].None? ==>
              r == Err("Data not set at index " + Strings.IntToString(index))
    ensures r.Ok? ==> r.value.extraUrls == t.extraUrls + urls
    ensures r.Ok? ==> |r.value.dataIndexes| == |t.dataIndexes| + |urls|
                      && r.value.dataIndexes[..|t.dataIndexes|] == t.dataIndexes
                      && forall k :: |t.dataIndexes| <= k < |r.value.dataIndexes| ==> r.value.dataIndexes[k] == index
    ensures r.Ok? ==> r.value == t.(extraUrls := r.value.extraUrls, dataIndexes := r.value.dataIndexes)
    ensures Valid(t) && r.Ok? ==> Valid(r.value)
  {
    if PhaseNumber(t.phase) > PhaseNumber(Main) then Err(PhaseError(t.phase))
    else
      var dataCollector :- GetDataCollector(t, index);
      if dataCollector.None? then Err("Data not set at index " + Strings.IntToString(index))
      else Ok(t.(extraUrls := t.extraUrls + urls, dataIndexes := t.dataIndexes + seq(|urls|, _ => index)))
  }

  /**
    `setDataCollector`: before phase EXTRA, fill (or overwrite) one existing
    slot; every other slot and field is left as it was.
   */
  function SetDataCollector<T>(t: Task<T>, c: T, index: int): (r: Result<Task<T>>)
    ensures t.phase == Extra ==> r == Err(PhaseError(Extra))
    ensures r.Ok? <==> t.phase != Extra && 0 <= index < |t.items|
    ensures t.phase != Extra && !(0 <= index < |t.items|) ==>
              r == Err("Data collector not found at index " + Strings.IntToString(index))
    ensures r.Ok? ==> |r.value.items| == |t.items| && r.value.items[index] == Some(c)
                      && (forall k :: 0 <= k < |t.items| && k != index ==> r.value.items[k] == t.items[k])
                      && r.value == t.(items := r.value.items)
    ensures Valid(t) && r.Ok? ==> Valid(r.value)
  {
    if PhaseNumber(t.phase) >= PhaseNumber(Extra) then Err(PhaseError(t.phase))
    else if !(0 <= index < |t.items|) then Err("Data collector not found at index " + Strings.IntToString(index))
    else Ok(t.(items := t.items[index := Some(c)]))
  }

  /**
    `getResults`: the slot contents in URL order, or 'Results are
    incomplete' when any slot is still empty.
   */
  function GetResults<T>(t: Task<T>): (r: Result<seq<T>>)
    ensures r.Ok? <==> forall k :: 0 <= k < |t.items| ==> t.items[k].Some?
    ensures r.Err? ==> r.error == "Results are incomplete"
    ensures r.Ok? ==> |r.value| == |t.items| && forall k :: 0 <= k < |t.items| ==> t.items[k] == Some(r.value[k])
    decreases |t.items|
  {
    if forall k :: 0 <= k < |t.items| ==> t.items[k].Some? then
      Ok(seq(|t.items|, k requires 0 <= k < |t.items| => t.items[k].value))
    else
      Err("Results are incomplete")
  }

  /** `hasExtraUrls`. */
  function HasExtraUrls<T>(t: Task<T>): (b: bool)
    ensures b <==> |t.extraUrls| > 0
  {
    |t.extraUrls| != 0
  }

  // ---------------------------------------------------------------------------
  // Traces
  // ---------------------------------------------------------------------------

  /** A call on a task. */
  datatype Op<T> = GetUrlsOp | AddExtraUrlsOp(urls: seq<string>, index: int) | SetDataCollectorOp(c: T, index: int)

  /** The state after one call, or the message it throws. */
  function Step<T>(t: Task<T>, op: Op<T>): Result<Task<T>> {
    match op
    case GetUrlsOp => (var r :- GetUrls(t); Ok(r.0))
    case AddExtraUrlsOp(urls, index) => AddExtraUrls(t, urls, index)
    case SetDataCollectorOp(c, index) => SetDataCollector(t, c, index)
  }

  /** The state after a sequence of calls, stopping at the first that throws. */
  function Run<T>(t: Task<T>, ops: seq<Op<T>>): Result<Task<T>>
    decreases |ops|
  {
    if ops == [] then Ok(t)
    else
      var t' :- Step(t, ops[0]);
      Run(t', ops[1..])
  }

  /**
    Over any sequence of calls the task stays valid, the phase never goes
    back, the main-round URLs and the number of slots never change, and a
    filled slot never becomes empty again; the extra URLs and their slot
    indexes are only ever appended to.
   */
  lemma {:induction false} RunPreserves<T>(t: Task<T>, ops: seq<Op<T>>)
    requires Valid(t)
    ensures var r := Run(t, ops);
            r.Ok? ==> && Valid(r.value)
                      && PhaseNumber(t.phase) <= PhaseNumber(r.value.phase)
                      && r.value.urls == t.urls
                      && |r.value.items| == |t.items|
                      && (forall k :: 0 <= k < |t.items| && t.items[k].Some? ==> r.value.items[k].Some?)
                      && |t.extraUrls| <= |r.value.extraUrls|
                      && r.value.extraUrls[..|t.extraUrls|] == t.extraUrls
                      && r.value.dataIndexes[..|t.dataIndexes|] == t.dataIndexes
    decreases |ops|
  {
    if ops != [] {
      var s := Step(t, ops[0]);
      if s.Ok? {
        RunPreserves(s.value, ops[1..]);
        var r := Run(s.value, ops[1..]);
        if r.Ok? {
          assert r.value.extraUrls[..|t.extraUrls|] == r.value.extraUrls[..|s.value.extraUrls|][..|t.extraUrls|];
          assert r.value.dataIndexes[..|t.dataIndexes|] == r.value.dataIndexes[..|s.value.dataIndexes|][..|t.dataIndexes|];
        }
      }
    }
  }
}
