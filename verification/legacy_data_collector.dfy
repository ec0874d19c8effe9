/**
  The first-generation result accumulator (src/Web/DataCollector.php): the
  same counters as the endpoint collector, without error messages, and with
  extras of any value.
 */
module LegacyDataCollector {
  import opened Wrappers
  import Values

  type Filter = Values.Record -> Option<Values.Record>

  datatype Collector = Collector(
    overallCount: int,
    itemCount: int,
    filteredCount: int,
    items: seq<Values.Record>,
    extras: map<string, Values.Value>)

  predicate Valid(c: Collector) {
    c.itemCount == |c.items| && c.filteredCount >= 0
  }

  /** The constructor: the overall count, zero counts, no items. */
  function New(overallCount: int): (c: Collector)
    ensures Valid(c) && c.overallCount == overallCount
    ensures c.itemCount == 0 && c.filteredCount == 0 && c.items == [] && c.extras == map[]
  {
    Collector(overallCount, 0, 0, [], map[])
  }

  /** `add`: append and count the (filtered) item, or count a rejection only. */
  function Add(c: Collector, item: Values.Record, filter: Option<Filter>): (r: Collector)
    ensures filter.None? ==> r == c.(items := c.items + [item], itemCount := c.itemCount + 1)
    ensures filter.Some? && filter.value(item).None? ==> r == c.(filteredCount := c.filteredCount + 1)
    ensures filter.Some? && filter.value(item).Some? ==>
              r == c.(items := c.items + [filter.value(item).value], itemCount := c.itemCount + 1)
    ensures Valid(c) ==> Valid(r)
  {
    if filter.Some? && filter.value(item).None? then c.(filteredCount := c.filteredCount + 1)
    else
      var kept := if filter.Some? then filter.value(item).value else item;
      c.(items := c.items + [kept], itemCount := c.itemCount + 1)
  }

  /** `addExtra`: set or overwrite a single key. */
  function AddExtra(c: Collector, key: string, item: Values.Value): (r: Collector)
    ensures key in r.extras && r.extras[key] == item
    ensures r.extras.Keys == c.extras.Keys + {key}
    ensures forall k :: k in c.extras && k != key ==> r.extras[k] == c.extras[k]
    ensures r == c.(extras := r.extras)
  {
    c.(extras := c.extras[key := item])
  }

  datatype Op = AddOp(item: Values.Record, filter: Option<Filter>) | AddExtraOp(key: string, extra: Values.Value)

  function Run(c: Collector, ops: seq<Op>): Collector
    decreases |ops|
  {
    if ops == [] then c
    else
      var next := match ops[0]
        case AddOp(item, filter) => Add(c, item, filter)
        case AddExtraOp(key, extra) => AddExtra(c, key, extra);
      Run(next, ops[1..])
  }

  /** Over any sequence of calls the item count stays the number of items, and the overall count is kept. */
  lemma {:induction false} RunValid(c: Collector, ops: seq<Op>)
    requires Valid(c)
    ensures Valid(Run(c, ops)) && Run(c, ops).overallCount == c.overallCount
    ensures |Run(c, ops).items| >= |c.items| && Run(c, ops).items[..|c.items|] == c.items
    decreases |ops|
  {
    if ops != [] {
      var next := match ops[0]
        case AddOp(item, filter) => Add(c, item, filter)
        case AddExtraOp(key, extra) => AddExtra(c, key, extra);
      RunValid(next, ops[1..]);
      assert next.items[..|c.items|] == c.items;
      assert Run(c, ops).items[..|next.items|] == next.items;
      assert Run(c, ops).items[..|c.items|] == Run(c, ops).items[..|next.items|][..|c.items|];
    }
  }
}
