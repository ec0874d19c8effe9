/**
  The competitions list page (src/Web/Endpoint/Competitions/CompetitionsParser.php):
  the overall count, then one row per competition, each read into a record
  of sixteen fields. The page is given as the parts the XPath queries pick
  out; finding them in the HTML is not modelled. A cell that holds no
  number reads as '0.0' here, unlike the single-competition page.
 */
module CompetitionsParser {
  import opened Wrappers
  import Strings
  import Values
  import Dates
  import DomUtils
  import EndpointUtils
  import DataCollector

  /** A table row: its cells, and the event name and id read from the link in its second cell. */
  datatype Row = Row(cells: seq<DomUtils.Node>, event: Result<(string, int)>)

  /** The main table: how many header cells it has and its data rows. */
  datatype Table = Table(headerCount: nat, rows: seq<Row>)

  /** The wrapper element: the nodes holding the count, and the main table when it is found. */
  datatype Wrapper = Wrapper(countNodes: seq<DomUtils.Node>, table: Option<Table>)

  /** The page: the wrapper when exactly one element has its id. */
  datatype Page = Page(wrapper: Option<Wrapper>)

  const ColumnCount: nat := 15

  /** The keys of the numeric fields, read from cells 3 to 13. */
  const NumericKeys: seq<string> := [
    "ta", "pn", "pq", "td", "tasks", "pilots",
    "pilots_last_12_months", "comps_last_12_months", "days_since_end", "last_score", "winner_score"]

  /** The record keys in order. */
  const RowKeys: seq<string> := ["name", "id", "start_date", "end_date"] + NumericKeys + ["updated"]

  /** The numeric fields cast to int; the others stay strings. */
  const IntKeys: set<string> := {"tasks", "pilots", "pilots_last_12_months", "comps_last_12_months", "days_since_end"}

  /** The trimmed text of a cell. */
  function CellText(cell: DomUtils.Node): string {
    Strings.Trim(DomUtils.TextContent(cell))
  }

  /** What a present cell reads as: its text when numeric, '0.0' otherwise (blank included). */
  function NumericText(text: string): (r: string)
    ensures EndpointUtils.IsNumeric(r)
    ensures EndpointUtils.IsNumeric(text) ==> r == text
  {
    if |text| == 0 || !EndpointUtils.IsNumeric(text) then "0.0" else text
  }

  /** `getNumericValue`: a missing cell throws; a present one reads as `NumericText` of its text. */
  function GetNumericValue(cells: seq<DomUtils.Node>, index: nat, key: string): (r: Result<string>)
    ensures r.Ok? <==> index < |cells|
    ensures r.Ok? ==> r.value == NumericText(CellText(cells[index])) && EndpointUtils.IsNumeric(r.value)
    ensures r.Err? ==> r.error == "Error getting " + key
  {
    if index >= |cells| then Err("Error getting " + key)
    else Ok(NumericText(CellText(cells[index])))
  }

  /** Whether numeric field `j` (of `NumericKeys`) is int-cast: tasks to days_since_end. */
  predicate IsIntField(j: int) {
    4 <= j < 9
  }

  /** The int-cast fields are exactly those named in `IntKeys`. */
  lemma IntFieldsAreIntKeys()
    ensures forall j :: 0 <= j < |NumericKeys| ==> (IsIntField(j) <==> NumericKeys[j] in IntKeys)
  {
  }

  /** A numeric field as stored: int-cast for the counting fields, the string otherwise. */
  function Typed(j: int, text: string): Values.Value {
    if IsIntField(j) then Values.Int(Strings.IntCast(text)) else Values.Str(text)
  }

  /**
    Reading the numeric fields `keys[j]` from cells `from + j` in order: a
    present cell never throws, so the first missing cell throws for its key.
   */
  function NumericFieldsError(cells: seq<DomUtils.Node>, from: nat, keys: seq<string>): (r: Option<string>)
    ensures r.None? <==> |keys| == 0 || from + |keys| <= |cells|
    ensures r.Some? ==> r.value == "Error getting " + keys[if |cells| <= from then 0 else |cells| - from]
    decreases |keys|
  {
    if keys == [] then None
    else if from >= |cells| then Some(GetNumericValue(cells, from, keys[0]).error)
    else
      var rest := NumericFieldsError(cells, from + 1, keys[1..]);
      assert rest.Some? ==> keys[1..][if |cells| <= from + 1 then 0 else |cells| - from - 1] == keys[|cells| - from];
      rest
  }

  /** The numeric field values of a row whose cells 3 to 13 are present. */
  function NumericFields(cells: seq<DomUtils.Node>): (r: seq<Values.Value>)
    requires |cells| >= 14
    ensures |r| == |NumericKeys|
    ensures forall j :: 0 <= j < |r| ==> r[j] == Typed(j, GetNumericValue(cells, 3 + j, NumericKeys[j]).value)
  {
    seq(|NumericKeys|, j requires 0 <= j < |NumericKeys| => NumericField(cells, j))
  }

  /** Numeric field `j` of a row whose cells 3 to 13 are present. */
  function NumericField(cells: seq<DomUtils.Node>, j: nat): Values.Value
    requires |cells| >= 14 && j < |NumericKeys|
  {
    Typed(j, GetNumericValue(cells, 3 + j, NumericKeys[j]).value)
  }

  const PeriodError: string := "Error getting competitions period"

  /**
    `getPeriod`: the first cell must exist and hold exactly three children
    (start, a line break, end); the two dates are formatted.
   */
  function GetPeriod(cell: Option<DomUtils.Node>): (r: Result<(string, string)>)
    ensures r.Ok? ==> cell.Some? && |DomUtils.ChildNodes(cell.value)| == 3
    ensures cell.None? || |DomUtils.ChildNodes(cell.value)| != 3 ==> r == Err(PeriodError)
    ensures r.Ok? ==> var children := DomUtils.ChildNodes(cell.value);
                      && Dates.FormatSiteDate(CellText(children[0]), "competitions start") == Ok(r.value.0)
                      && Dates.FormatSiteDate(CellText(children[2]), "competitions end ") == Ok(r.value.1)
  {
    if cell.None? || |DomUtils.ChildNodes(cell.value)| != 3 then Err(PeriodError)
    else
      var children := DomUtils.ChildNodes(cell.value);
      var start :- Dates.FormatSiteDate(CellText(children[0]), "competitions start");
      var end :- Dates.FormatSiteDate(CellText(children[2]), "competitions end ");
      Ok((start, end))
  }

  /** `getUpdated`: a missing cell throws; a blank one gives ''; otherwise the formatted date. */
  function GetUpdated(cell: Option<DomUtils.Node>, key: string): (r: Result<string>)
    ensures cell.None? ==> r == Err("Error getting " + key)
    ensures cell.Some? && CellText(cell.value) == "" ==> r == Ok("")
    ensures cell.Some? && CellText(cell.value) != "" ==> r == Dates.FormatSiteDate(CellText(cell.value), "competitions updated")
  {
    if cell.None? then Err("Error getting " + key)
    else
      var value := CellText(cell.value);
      if |value| != 0 then Dates.FormatSiteDate(value, "competitions updated") else Ok(value)
  }

  function CellAt(cells: seq<DomUtils.Node>, index: nat): (r: Option<DomUtils.Node>)
    ensures r.Some? <==> index < |cells|
    ensures r.Some? ==> r.value == cells[index]
  {
    if index < |cells| then Some(cells[index]) else None
  }

  /** The record of a row from the values read out of it. */
  function RowRecord(event: (string, int), period: (string, string), numbers: seq<Values.Value>, updated: string): (r: Values.Record)
    requires |numbers| == |NumericKeys|
    ensures Values.Keys(r) == RowKeys && |r| == 16
    ensures r[0].1 == Values.Str(event.0) && r[1].1 == Values.Int(event.1)
    ensures r[2].1 == Values.Str(period.0) && r[3].1 == Values.Str(period.1)
    ensures forall j :: 0 <= j < |numbers| ==> r[4 + j].1 == numbers[j]
    ensures r[15].1 == Values.Str(updated)
  {
    var head := [Values.Str(event.0), Values.Int(event.1), Values.Str(period.0), Values.Str(period.1)];
    var vals := head + numbers + [Values.Str(updated)];
    assert |vals| == 16 == |RowKeys|;
    assert vals[..4] == head;
    assert forall j :: 0 <= j < |numbers| ==> vals[4 + j] == numbers[j];
    assert vals[15] == Values.Str(updated);
    Values.FromPairs(RowKeys, vals)
  }

  /**
    `parseRow`: the period, the event, the eleven numeric fields from cells
    3 to 13 and the update date from cell 14, read in that order, the first
    failure throwing.
   */
  function ParseRow(row: Row): (r: Result<Values.Record>)
    ensures r.Ok? ==> |row.cells| >= ColumnCount && row.event.Ok?
    ensures r.Ok? ==> Values.Keys(r.value) == RowKeys && |r.value| == 16
  {
    match GetPeriod(CellAt(row.cells, 0))
    case Err(e) => Err(e)
    case Ok(period) =>
      match row.event
      case Err(e) => Err(e)
      case Ok(event) =>
        match NumericFieldsError(row.cells, 3, NumericKeys)
        case Some(e) => Err(e)
        case None =>
          match GetUpdated(CellAt(row.cells, 14), "updated")
          case Err(e) => Err(e)
          case Ok(updated) => Ok(RowRecord(event, period, NumericFields(row.cells), updated))
  }

  /**
    What a parsed row holds: the event name and id; the period dates; each
    numeric field read from its cell, a blank or non-numeric cell reading as
    '0.0' and the counting fields int-cast; and the update date.
   */
  lemma ParseRowFields(row: Row)
    requires ParseRow(row).Ok?
    ensures var r := ParseRow(row).value;
            && r[0].1 == Values.Str(row.event.value.0) && r[1].1 == Values.Int(row.event.value.1)
            && GetPeriod(CellAt(row.cells, 0)).Ok?
            && r[2].1 == Values.Str(GetPeriod(CellAt(row.cells, 0)).value.0)
            && r[3].1 == Values.Str(GetPeriod(CellAt(row.cells, 0)).value.1)
            && (forall k :: 4 <= k < 15 ==> r[k].1 == Typed(k - 4, NumericText(CellText(row.cells[k - 1]))))
            && GetUpdated(CellAt(row.cells, 14), "updated").Ok?
            && r[15].1 == Values.Str(GetUpdated(CellAt(row.cells, 14), "updated").value)
  {
    ParseRowIsRecord(row);
    var numbers := NumericFields(row.cells);
    var r := ParseRow(row).value;
    forall k | 4 <= k < 15
      ensures r[k].1 == Typed(k - 4, NumericText(CellText(row.cells[k - 1])))
    {
      assert r[4 + (k - 4)].1 == numbers[k - 4];
    }
  }

  /** Only the counting fields of the numeric ones are integers. */
  lemma NumericFieldsTyping(cells: seq<DomUtils.Node>)
    requires |cells| >= 14
    ensures forall j :: 0 <= j < |NumericKeys| ==> (NumericFields(cells)[j].Int? <==> IsIntField(j))
  {
  }

  /** A row record carries the id, and the numeric fields that are integers, as integers. */
  lemma RowRecordTyping(event: (string, int), period: (string, string), numbers: seq<Values.Value>, updated: string)
    requires |numbers| == |NumericKeys|
    requires forall j :: 0 <= j < |numbers| ==> (numbers[j].Int? <==> IsIntField(j))
    ensures var r := RowRecord(event, period, numbers, updated);
            forall k :: 0 <= k < |r| ==> (r[k].1.Int? <==> k == 1 || (4 <= k < 15 && IsIntField(k - 4)))
  {
    var r := RowRecord(event, period, numbers, updated);
    forall k | 0 <= k < |r|
      ensures r[k].1.Int? <==> k == 1 || (4 <= k < 15 && IsIntField(k - 4))
    {
      if 4 <= k < 15 {
        assert r[4 + (k - 4)].1 == numbers[k - 4];
      }
    }
  }

  /** The record of a parsed row, from the values read out of it. */
  lemma ParseRowIsRecord(row: Row)
    requires ParseRow(row).Ok?
    ensures |row.cells| >= ColumnCount
    ensures ParseRow(row).value == RowRecord(row.event.value, GetPeriod(CellAt(row.cells, 0)).value,
                                             NumericFields(row.cells), GetUpdated(CellAt(row.cells, 14), "updated").value)
  {
  }

  /** Which fields the rows carry as integers: the id and the counting fields; every other field is a string. */
  lemma RowTyping(row: Row)
    requires ParseRow(row).Ok?
    ensures var r := ParseRow(row).value;
            forall k :: 0 <= k < |r| ==> (r[k].1.Int? <==> k == 1 || (4 <= k < 15 && IsIntField(k - 4)))
  {
    ParseRowIsRecord(row);
    NumericFieldsTyping(row.cells);
    RowRecordTyping(row.event.value, GetPeriod(CellAt(row.cells, 0)).value,
                    NumericFields(row.cells), GetUpdated(CellAt(row.cells, 14), "updated").value);
  }

  /** A blank or non-numeric numeric cell reads as '0.0', so its int-cast field is 0. */
  lemma NonNumericCellIsZero(row: Row, j: int)
    requires ParseRow(row).Ok? && 0 <= j < |NumericKeys|
    requires !EndpointUtils.IsNumeric(CellText(row.cells[3 + j]))
    ensures ParseRow(row).value[4 + j].1 == (if IsIntField(j) then Values.Int(0) else Values.Str("0.0"))
  {
    ParseRowIsRecord(row);
    var numbers := NumericFields(row.cells);
    assert ParseRow(row).value[4 + j].1 == numbers[j];
    assert GetNumericValue(row.cells, 3 + j, NumericKeys[j]).value == "0.0";
    TypedZero(j);
  }

  /** The placeholder '0.0' casts to 0. */
  lemma TypedZero(j: int)
    ensures Typed(j, "0.0") == (if IsIntField(j) then Values.Int(0) else Values.Str("0.0"))
  {
    Strings.IntCastOfIntToString(0, ".0");
    assert Strings.IntToString(0) + ".0" == "0.0";
  }

  /** How a row becomes its record, or the message it throws. */
  type RowParser = Row -> Result<Values.Record>

  /** Every row parses. */
  predicate RowsParse(rows: seq<Row>, parse: RowParser) {
    forall k :: 0 <= k < |rows| ==> parse(rows[k]).Ok?
  }

  /** The rows parse exactly when the first does and the rest do. */
  lemma RowsParseCons(rows: seq<Row>, parse: RowParser)
    requires rows != []
    ensures RowsParse(rows, parse) <==> parse(rows[0]).Ok? && RowsParse(rows[1..], parse)
  {
    assert forall k :: 1 <= k < |rows| ==> rows[1..][k - 1] == rows[k];
  }

  /** The records of rows that all parse, in row order. */
  function ParsedItems(rows: seq<Row>, parse: RowParser): (items: seq<Values.Record>)
    requires RowsParse(rows, parse)
    ensures |items| == |rows| && forall k :: 0 <= k < |rows| ==> items[k] == parse(rows[k]).value
  {
    seq(|rows|, k requires 0 <= k < |rows| => parse(rows[k]).value)
  }

  /** One `add` call per item, all with the same filter. */
  function AddOps(items: seq<Values.Record>, filter: Option<DataCollector.Filter>): (ops: seq<DataCollector.Op>)
    ensures |ops| == |items| && forall k :: 0 <= k < |items| ==> ops[k] == DataCollector.AddOp(items[k], filter)
  {
    seq(|items|, k requires 0 <= k < |items| => DataCollector.AddOp(items[k], filter))
  }

  /** Every call of `AddOps` is an `add`. */
  lemma {:induction false} AddCountOfAddOps(items: seq<Values.Record>, filter: Option<DataCollector.Filter>)
    ensures DataCollector.AddCount(AddOps(items, filter)) == |items|
    decreases |items|
  {
    if items != [] {
      assert AddOps(items, filter)[1..] == AddOps(items[1..], filter);
      AddCountOfAddOps(items[1..], filter);
    }
  }

  /**
    The loop of `parse`: parse each row and add it with the filter; the
    first row that fails to parse throws.
   */
  function AddRows(c: DataCollector.Collector, rows: seq<Row>, parse: RowParser, filter: Option<DataCollector.Filter>): (r: Result<DataCollector.Collector>)
    ensures r.Ok? ==> r.value.overallCount == c.overallCount
    decreases |rows|
  {
    if rows == [] then Ok(c)
    else match parse(rows[0])
      case Err(e) => Err(e)
      case Ok(item) => AddRows(DataCollector.Add(c, item, filter), rows[1..], parse, filter)
  }

  /** The loop succeeds exactly when every row parses. */
  lemma {:induction false} AddRowsOk(c: DataCollector.Collector, rows: seq<Row>, parse: RowParser, filter: Option<DataCollector.Filter>)
    ensures AddRows(c, rows, parse, filter).Ok? <==> RowsParse(rows, parse)
    decreases |rows|
  {
    if rows != [] {
      RowsParseCons(rows, parse);
      var p := parse(rows[0]);
      if p.Ok? {
        AddRowsOk(DataCollector.Add(c, p.value, filter), rows[1..], parse, filter);
      }
    }
  }

  /** The `add` calls of parsed rows: the first row's, then the rest's. */
  lemma AddOpsOfParsedCons(rows: seq<Row>, parse: RowParser, filter: Option<DataCollector.Filter>)
    requires rows != [] && RowsParse(rows, parse)
    ensures RowsParse(rows[1..], parse)
    ensures var ops := AddOps(ParsedItems(rows, parse), filter);
            ops != [] && ops[0] == DataCollector.AddOp(parse(rows[0]).value, filter)
            && ops[1..] == AddOps(ParsedItems(rows[1..], parse), filter)
  {
    RowsParseCons(rows, parse);
    var items := ParsedItems(rows, parse);
    assert items[1..] == ParsedItems(rows[1..], parse);
    assert AddOps(items, filter)[1..] == AddOps(items[1..], filter);
  }

  /**
    When every row parses, the loop leaves the collector the `add` calls of
    the parsed rows, in row order, give.
   */
  lemma {:induction false} AddRowsRun(c: DataCollector.Collector, rows: seq<Row>, parse: RowParser, filter: Option<DataCollector.Filter>)
    requires RowsParse(rows, parse)
    ensures AddRows(c, rows, parse, filter) == Ok(DataCollector.Run(c, AddOps(ParsedItems(rows, parse), filter)))
    decreases |rows|
  {
    if rows != [] {
      AddOpsOfParsedCons(rows, parse, filter);
      var c' := DataCollector.Add(c, parse(rows[0]).value, filter);
      AddRowsRun(c', rows[1..], parse, filter);
    }
  }

  function ColumnCountError(expected: int, got: int): string {
    "expected " + Strings.IntToString(expected) + " competitions table columns, got " + Strings.IntToString(got)
  }

  function RowCountError(expected: int, got: int): string {
    "expected " + Strings.IntToString(expected) + " competitions rows, got " + Strings.IntToString(got)
  }

  /** The overall count the page reports: the single count node's text, int-cast. */
  function OverallCount(w: Wrapper): (r: Result<int>)
    ensures r.Ok? <==> DomUtils.GetSingleNodeText(w.countNodes, "competitions count").Ok?
    ensures r.Ok? ==> r.value == Strings.IntCast(DomUtils.GetSingleNodeText(w.countNodes, "competitions count").value)
  {
    var text :- DomUtils.GetSingleNodeText(w.countNodes, "competitions count");
    Ok(Strings.IntCast(text))
  }

  /**
    `parse`: find the wrapper, read the overall count; a count of zero is an
    empty result; otherwise the main table must exist, have 15 columns and
    exactly as many rows as the count, and every row is added.
   */
  function Parse(page: Page, filter: Option<DataCollector.Filter>): (r: Result<DataCollector.Collector>)
    ensures page.wrapper.None? ==> r == Err("Error getting competitions rankingTableWrapper.")
    ensures r.Ok? ==> page.wrapper.Some? && OverallCount(page.wrapper.value) == Ok(r.value.overallCount)
    ensures r.Ok? && r.value.overallCount == 0 ==> r.value == DataCollector.New(0)
    ensures r.Ok? && r.value.overallCount != 0 ==>
              var table := page.wrapper.value.table;
              table.Some? && table.value.headerCount == ColumnCount && |table.value.rows| == r.value.overallCount
    ensures page.wrapper.Some? && OverallCount(page.wrapper.value).Ok? && OverallCount(page.wrapper.value).value != 0 ==>
              var table := page.wrapper.value.table;
              && (table.None? ==> r == Err("Error getting competitions tableMain."))
              && (table.Some? && table.value.headerCount != ColumnCount ==> r == Err(ColumnCountError(ColumnCount, table.value.headerCount)))
              && (table.Some? && table.value.headerCount == ColumnCount && |table.value.rows| != OverallCount(page.wrapper.value).value ==>
                    r == Err(RowCountError(OverallCount(page.wrapper.value).value, |table.value.rows|)))
  {
    if page.wrapper.None? then Err("Error getting competitions rankingTableWrapper.")
    else
      var wrapper := page.wrapper.value;
      var overallCount :- OverallCount(wrapper);
      var collector := DataCollector.New(overallCount);
      if overallCount == 0 then Ok(collector)
      else if wrapper.table.None? then Err("Error getting competitions tableMain.")
      else
        var table := wrapper.table.value;
        if table.headerCount != ColumnCount then Err(ColumnCountError(ColumnCount, table.headerCount))
        else if |table.rows| != overallCount then Err(RowCountError(overallCount, |table.rows|))
        else AddRows(collector, table.rows, ParseRow, filter)
  }

  /**
    A page with a non-zero count parses exactly when its table has the 15
    columns, one row per competition, and every row parses; the result is
    the fresh collector after the `add` calls of the parsed rows.
   */
  lemma ParseRows(page: Page, filter: Option<DataCollector.Filter>)
    requires page.wrapper.Some? && OverallCount(page.wrapper.value).Ok?
    requires OverallCount(page.wrapper.value).value != 0
    ensures var n := OverallCount(page.wrapper.value).value;
            var table := page.wrapper.value.table;
            Parse(page, filter).Ok? <==>
              && table.Some? && table.value.headerCount == ColumnCount && |table.value.rows| == n
              && RowsParse(table.value.rows, ParseRow)
    ensures Parse(page, filter).Ok? ==>
              var n := OverallCount(page.wrapper.value).value;
              var rows := page.wrapper.value.table.value.rows;
              Parse(page, filter).value == DataCollector.Run(DataCollector.New(n), AddOps(ParsedItems(rows, ParseRow), filter))
  {
    var n := OverallCount(page.wrapper.value).value;
    var table := page.wrapper.value.table;
    if table.Some? && table.value.headerCount == ColumnCount && |table.value.rows| == n {
      var c := DataCollector.New(n);
      assert Parse(page, filter) == AddRows(c, table.value.rows, ParseRow, filter);
      AddRowsOk(c, table.value.rows, ParseRow, filter);
      if RowsParse(table.value.rows, ParseRow) {
        AddRowsRun(c, table.value.rows, ParseRow, filter);
      }
    }
  }

  /**
    A parsed page accounts for every competition it reports: each row is
    either an item or counted as filtered out, and without a filter the
    items are the parsed rows in page order.
   */
  lemma ParseAccountsForRows(page: Page, filter: Option<DataCollector.Filter>)
    requires Parse(page, filter).Ok?
    ensures var c := Parse(page, filter).value;
            && DataCollector.Valid(c)
            && (c.overallCount != 0 ==> c.itemCount + c.filteredCount == c.overallCount)
    ensures var c := Parse(page, filter).value;
            c.overallCount != 0 ==> RowsParse(page.wrapper.value.table.value.rows, ParseRow)
    ensures var c := Parse(page, filter).value;
            c.overallCount != 0 && filter.None? ==> c.items == ParsedItems(page.wrapper.value.table.value.rows, ParseRow)
  {
    var c := Parse(page, filter).value;
    if c.overallCount != 0 {
      ParseRows(page, filter);
      var rows := page.wrapper.value.table.value.rows;
      var ops := AddOps(ParsedItems(rows, ParseRow), filter);
      DataCollector.RunCounts(DataCollector.New(c.overallCount), ops);
      AddCountOfAddOps(ParsedItems(rows, ParseRow), filter);
      if filter.None? {
        KeptWithoutFilter(ParsedItems(rows, ParseRow));
      }
    }
  }

  /** Without a filter every added item is kept. */
  lemma {:induction false} KeptWithoutFilter(items: seq<Values.Record>)
    ensures DataCollector.KeptItems(AddOps(items, None)) == items
    decreases |items|
  {
    if items != [] {
      assert AddOps(items, None)[1..] == AddOps(items[1..], None);
      KeptWithoutFilter(items[1..]);
    }
  }

  /**
    A numeric cell holding a whole number gives that number in an int-cast
    field, cut to PHP's integer limits.
   */
  lemma IntFieldOfNumeral(i: int)
    ensures Typed(4, NumericText(Strings.IntToString(i))) == Values.Int(Strings.Saturate(i))
  {
    EndpointUtils.NumeralIsNumeric(i);
    Strings.IntCastOfIntToString(i, "");
    assert Strings.IntToString(i) + "" == Strings.IntToString(i);
  }
}
