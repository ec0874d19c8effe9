/**
  The result accumulator of one endpoint page
  (src/Web/Endpoint/DataCollector.php): the overall count the page reports,
  the items kept, how many items a filter rejected, extra records by key and
  error messages. A filter is a function from an item to the item to keep,
  or to nothing when the item is rejected.
 */
module DataCollector {
  import opened Wrappers
  import Values

  /** PLACE_HOLDER: the overall count of a collector that stands in for a missing page. */
  const PlaceHolder: int := -1

  /**
    The collector calls the filter with the item alone
    (src/Web/Endpoint/DataCollector.php:33), while the endpoint filter
    interface declares a second, by-reference error list
    (src/Web/Endpoint/FilterInterface.php:16); the model follows the call,
    so a filter cannot report errors.
   */
  type Filter = Values.Record -> Option<Values.Record>

  datatype Collector = Collector(
    overallCount: int,
    itemCount: int,
    filteredCount: int,
    items: seq<Values.Record>,
    extras: map<string, Values.Record>,
    errors: seq<string>)

  /** The item count is the number of items kept, and the filtered count is never negative. */
  predicate Valid(c: Collector) {
    c.itemCount == |c.items| && c.filteredCount >= 0
  }

  /** The constructor: the overall count, nothing collected yet. */
  function New(overallCount: int): (c: Collector)
    ensures Valid(c) && c.overallCount == overallCount
    ensures c.itemCount == 0 && c.filteredCount == 0 && c.items == [] && c.extras == map[] && c.errors == []
  {
    Collector(overallCount, 0, 0, [], map[], [])
  }

  /**
    `add`: without a filter, or when the filter keeps the item, append what
    the filter returned and count it; when the filter rejects it, count
    only the rejection. Nothing else changes.
   */
  function Add(c: Collector, item: Values.Record, filter: Option<Filter>): (r: Collector)
    ensures filter.None? ==> r == c.(items := c.items + [item], itemCount := c.itemCount + 1)
    ensures filter.Some? && filter.value(item).None? ==> r == c.(filteredCount := c.filteredCount + 1)
    ensures filter.Some? && filter.value(item).Some? ==>
              r == c.(items := c.items + [filter.value(item).value], itemCount := c.itemCount + 1)
    ensures r.itemCount + r.filteredCount == c.itemCount + c.filteredCount + 1
    ensures Valid(c) ==> Valid(r)
  {
    match Kept(item, filter)
    case None => c.(filteredCount := c.filteredCount + 1)
    case Some(kept) => c.(items := c.items + [kept], itemCount := c.itemCount + 1)
  }

  /** What the collector keeps of one item under an optional filter. */
  function Kept(item: Values.Record, filter: Option<Filter>): (r: Option<Values.Record>)
    ensures filter.None? ==> r == Some(item)
    ensures filter.Some? ==> r == filter.value(item)
  {
    if filter.None? then Some(item) else filter.value(item)
  }

  /** `addExtra`: set or overwrite the record under one key; every other key keeps its record. */
  function AddExtra(c: Collector, key: string, item: Values.Record): (r: Collector)
    ensures key in r.extras && r.extras[key] == item
    ensures r.extras.Keys == c.extras.Keys + {key}
    ensures forall k :: k in c.extras && k != key ==> r.extras[k] == c.extras[k]
    ensures r == c.(extras := r.extras)
  {
    c.(extras := c.extras[key := item])
  }

  /** `addError`: append one message. */
  function AddError(c: Collector, error: string): (r: Collector)
    ensures r.errors == c.errors + [error]
    ensures r == c.(errors := r.errors)
  {
    c.(errors := c.errors + [error])
  }

  /** `isPlaceholder`. */
  function IsPlaceholder(c: Collector): (b: bool)
    ensures b <==> c.overallCount == -1
  {
    c.overallCount == PlaceHolder
  }

  // ---------------------------------------------------------------------------
  // Traces
  // ---------------------------------------------------------------------------

  /** A call on a collector. */
  datatype Op = AddOp(item: Values.Record, filter: Option<Filter>) | AddExtraOp(key: string, extra: Values.Record) | AddErrorOp(error: string)

  function Step(c: Collector, op: Op): Collector {
    match op
    case AddOp(item, filter) => Add(c, item, filter)
    case AddExtraOp(key, extra) => AddExtra(c, key, extra)
    case AddErrorOp(error) => AddError(c, error)
  }

  function Run(c: Collector, ops: seq<Op>): Collector
    decreases |ops|
  {
    if ops == [] then c else Run(Step(c, ops[0]), ops[1..])
  }

  /** The number of `add` calls in a sequence of calls. */
  function AddCount(ops: seq<Op>): nat
    decreases |ops|
  {
    if ops == [] then 0 else (if ops[0].AddOp? then 1 else 0) + AddCount(ops[1..])
  }

  /** The items the `add` calls of a sequence keep, in call order: the reference for `items`. */
  function KeptItems(ops: seq<Op>): seq<Values.Record>
    decreases |ops|
  {
    if ops == [] then []
    else
      var head := if ops[0].AddOp? && Kept(ops[0].item, ops[0].filter).Some? then [Kept(ops[0].item, ops[0].filter).value] else [];
      head + KeptItems(ops[1..])
  }

  /**
    Over any sequence of calls the collector stays valid, keeps its overall
    count, appends exactly the kept items in call order, and counts every
    `add` once: as an item or as a rejection.
   */
  lemma {:induction false} RunCounts(c: Collector, ops: seq<Op>)
    requires Valid(c)
    ensures var r := Run(c, ops);
            && Valid(r)
            && r.overallCount == c.overallCount
            && r.items == c.items + KeptItems(ops)
            && r.itemCount + r.filteredCount == c.itemCount + c.filteredCount + AddCount(ops)
    decreases |ops|
  {
    if ops != [] {
      var s := Step(c, ops[0]);
      RunCounts(s, ops[1..]);
      var head := if ops[0].AddOp? && Kept(ops[0].item, ops[0].filter).Some? then [Kept(ops[0].item, ops[0].filter).value] else [];
      assert s.items == c.items + head;
      assert c.items + head + KeptItems(ops[1..]) == c.items + (head + KeptItems(ops[1..]));
    }
  }

  /** A collector built from scratch has item count plus filtered count equal to the number of `add` calls. */
  lemma FreshCounts(overallCount: int, ops: seq<Op>)
    ensures var r := Run(New(overallCount), ops);
            && r.itemCount == |r.items| == |KeptItems(ops)|
            && r.itemCount + r.filteredCount == AddCount(ops)
            && (IsPlaceholder(r) <==> overallCount == PlaceHolder)
  {
    RunCounts(New(overallCount), ops);
  }
}
