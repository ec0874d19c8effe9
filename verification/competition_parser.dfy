/**
  The single-competition page (src/Web/Endpoint/Competition/CompetitionParser.php):
  the pilot count, the competition name, a details table of seventeen
  columns holding exactly one row, and a pilot table of eight columns
  holding one row per pilot. The page is given as the parts the XPath
  queries pick out; finding them in the HTML is not modelled.

  Unlike the competitions list, this parser checks nothing for null: a
  missing wrapper, table or date cell reaches a parameter typed `DOMNode`,
  which under strict types is a `TypeError` (an `\Error`, not an exception
  the library catches). A missing numeric or text cell is one too, because
  `null->nodeValue` is null and `trim` refuses null under strict types. A blank or
  non-numeric numeric cell throws 'Missing value for <key>', where the
  competitions list reads '0.0'.
 */
module CompetitionParser {
  import opened Wrappers
  import Strings
  import Values
  import Dates
  import DomUtils
  import EndpointUtils
  import DataCollector
  import CompetitionsParser

  /** How a call ends: with a value, with a `RuntimeException` message, or with a `TypeError`. */
  datatype Outcome<+T> = Done(value: T) | Threw(message: string) | TypeFailure {

    predicate IsFailure() {
      !Done?
    }

    function PropagateFailure<U>(): Outcome<U>
      requires !Done?
    {
      match this
      case Threw(m) => Threw(m)
      case TypeFailure => TypeFailure
    }

    function Extract(): T
      requires Done?
    {
      value
    }
  }

  /** A thrown message as an outcome. */
  function Lift<T>(r: Result<T>): (o: Outcome<T>)
    ensures o.Done? <==> r.Ok?
    ensures r.Ok? ==> o.value == r.value
    ensures r.Err? ==> o == Threw(r.error)
  {
    match r
    case Ok(v) => Done(v)
    case Err(e) => Threw(e)
  }

  /** A table: how many header cells it has, and the cells of each body row. */
  datatype Table = Table(headerCount: nat, rows: seq<seq<DomUtils.Node>>)

  /** The wrapper element: the count nodes, the name nodes, and the two tables when found. */
  datatype Wrapper = Wrapper(
    countNodes: seq<DomUtils.Node>,
    nameNodes: seq<DomUtils.Node>,
    details: Option<Table>,
    pilots: Option<Table>)

  /** The page: the wrapper when exactly one element has its id. */
  datatype Page = Page(wrapper: Option<Wrapper>)

  const DetailsColumnCount: nat := 17
  const PilotColumnCount: nat := 8

  /** How a field is read: a decimal kept as text, an int-cast number, a date, or plain text. */
  datatype Kind = Decimal | Integer | Date | Text

  /** A field of a row record: its key, the column it is read from, and how. */
  datatype Field = Field(key: string, column: nat, kind: Kind)

  /** The fields of the details row after the name, id and period, in record order. */
  const DetailsFields: seq<Field> := [
    Field("ta", 2, Decimal), Field("pn", 3, Decimal), Field("pq", 4, Decimal), Field("td", 5, Decimal),
    Field("tasks", 6, Integer), Field("pq_srp", 7, Decimal), Field("pq_srtp", 8, Decimal),
    Field("pilots", 9, Integer), Field("pq_rank_date", 10, Date),
    Field("pilots_last_12-months", 11, Integer), Field("comps_last_12_months", 12, Integer),
    Field("days_since_end", 13, Integer), Field("last_score", 14, Decimal),
    Field("winner_score", 15, Decimal), Field("updated", 16, Date)]

  /** The fields of a pilot row, in record order; column 6 is not read. */
  const PilotFields: seq<Field> := [
    Field("rank", 0, Integer), Field("pp", 1, Decimal), Field("points", 2, Decimal),
    Field("td_points", 3, Decimal), Field("score", 4, Decimal), Field("pilot", 5, Text),
    Field("civil_id", 7, Integer)]

  /** The keys of a list of fields. */
  function FieldKeys(fields: seq<Field>): (ks: seq<string>)
    ensures |ks| == |fields| && forall k :: 0 <= k < |fields| ==> ks[k] == fields[k].key
  {
    seq(|fields|, k requires 0 <= k < |fields| => fields[k].key)
  }

  /**
    `getNumericValue`: a missing cell is a type error, since `trim` under
    strict types refuses the null `nodeValue` of no node; a blank or
    non-numeric text throws; a numeric one is returned as it is.
   */
  function GetNumericValue(cells: seq<DomUtils.Node>, index: nat, key: string): (r: Outcome<string>)
    ensures r == TypeFailure <==> index >= |cells|
    ensures r.Done? <==> index < |cells| && EndpointUtils.IsNumeric(CompetitionsParser.CellText(cells[index]))
    ensures r.Done? ==> r.value == CompetitionsParser.CellText(cells[index])
    ensures r.Threw? ==> r.message == "Missing value for " + key
  {
    if index >= |cells| then TypeFailure
    else
      var value := CompetitionsParser.CellText(cells[index]);
      if |value| == 0 || !EndpointUtils.IsNumeric(value) then Threw("Missing value for " + key) else Done(value)
  }

  /** `getDateValue`: a missing cell is a type error; a blank one reads as ''; otherwise the formatted date. */
  function GetDateValue(cells: seq<DomUtils.Node>, index: nat, key: string): (r: Outcome<string>)
    ensures r == TypeFailure <==> index >= |cells|
    ensures index < |cells| && CompetitionsParser.CellText(cells[index]) == "" ==> r == Done("")
    ensures index < |cells| && CompetitionsParser.CellText(cells[index]) != "" ==>
              r == Lift(Dates.FormatSiteDate(CompetitionsParser.CellText(cells[index]), key))
  {
    if index >= |cells| then TypeFailure
    else
      var value := CompetitionsParser.CellText(cells[index]);
      if |value| != 0 then Lift(Dates.FormatSiteDate(value, key)) else Done(value)
  }

  /** The value of one field of a row, read the way its kind says. */
  function ReadField(cells: seq<DomUtils.Node>, f: Field): (r: Outcome<Values.Value>)
    ensures r == TypeFailure <==> f.column >= |cells|
    ensures f.kind == Text && f.column < |cells| ==> r == Done(Values.Str(CompetitionsParser.CellText(cells[f.column])))
  {
    match f.kind
    case Decimal =>
      (match GetNumericValue(cells, f.column, f.key)
       case Done(v) => Done(Values.Str(v))
       case Threw(m) => Threw(m)
       case TypeFailure => TypeFailure)
    case Integer =>
      (match GetNumericValue(cells, f.column, f.key)
       case Done(v) => Done(Values.Int(Strings.IntCast(v)))
       case Threw(m) => Threw(m)
       case TypeFailure => TypeFailure)
    case Date =>
      (match GetDateValue(cells, f.column, f.key)
       case Done(v) => Done(Values.Str(v))
       case Threw(m) => Threw(m)
       case TypeFailure => TypeFailure)
    case Text =>
      if f.column >= |cells| then TypeFailure else Done(Values.Str(CompetitionsParser.CellText(cells[f.column])))
  }

  /** Collecting outcomes in order: all the values, or the first failure. */
  function Collect<T>(outs: seq<Outcome<T>>): (r: Outcome<seq<T>>)
    ensures r.Done? ==> |r.value| == |outs|
    decreases |outs|
  {
    if outs == [] then Done([])
    else
      match outs[0]
      case Threw(m) => Threw(m)
      case TypeFailure => TypeFailure
      case Done(v) =>
        match Collect(outs[1..])
        case Threw(m) => Threw(m)
        case TypeFailure => TypeFailure
        case Done(rest) => Done([v] + rest)
  }

  /** The outcomes collect exactly when each of them is a value. */
  lemma {:induction false} CollectDone<T>(outs: seq<Outcome<T>>)
    ensures Collect(outs).Done? <==> forall k :: 0 <= k < |outs| ==> outs[k].Done?
    decreases |outs|
  {
    if outs != [] {
      CollectDone(outs[1..]);
      assert forall k :: 1 <= k < |outs| ==> outs[1..][k - 1] == outs[k];
    }
  }

  /** Each collected value is the value of its outcome. */
  lemma {:induction false} CollectAt<T>(outs: seq<Outcome<T>>, k: int)
    requires Collect(outs).Done? && 0 <= k < |outs|
    ensures outs[k].Done? && Collect(outs).value[k] == outs[k].value
    decreases k
  {
    if k > 0 {
      CollectAt(outs[1..], k - 1);
    }
  }

  /** When an outcome fails and every one before it is a value, collecting ends with that failure. */
  lemma {:induction false} CollectFirstFailure<T>(outs: seq<Outcome<T>>, k: int)
    requires 0 <= k < |outs| && !outs[k].Done?
    requires forall j :: 0 <= j < k ==> outs[j].Done?
    ensures Collect(outs) == outs[k].PropagateFailure()
    decreases k
  {
    if k > 0 {
      assert forall j :: 0 <= j < k - 1 ==> outs[1..][j] == outs[j + 1];
      CollectFirstFailure(outs[1..], k - 1);
    }
  }

  /** What each field of a row reads as, in order. */
  function Reads(cells: seq<DomUtils.Node>, fields: seq<Field>): (outs: seq<Outcome<Values.Value>>)
    ensures |outs| == |fields| && forall k :: 0 <= k < |fields| ==> outs[k] == ReadField(cells, fields[k])
  {
    seq(|fields|, k requires 0 <= k < |fields| => ReadField(cells, fields[k]))
  }

  /** Reading the fields in order; the first that fails ends the reading. */
  function ReadFields(cells: seq<DomUtils.Node>, fields: seq<Field>): (r: Outcome<seq<Values.Value>>)
    ensures r.Done? ==> |r.value| == |fields|
  {
    Collect(Reads(cells, fields))
  }

  /**
    The fields read exactly when each of them reads; each value is its
    field's; and otherwise the reading ends with the first field that fails.
   */
  lemma ReadFieldsMeaning(cells: seq<DomUtils.Node>, fields: seq<Field>)
    ensures ReadFields(cells, fields).Done? <==> forall k :: 0 <= k < |fields| ==> ReadField(cells, fields[k]).Done?
    ensures ReadFields(cells, fields).Done? ==>
              forall k :: 0 <= k < |fields| ==> ReadFields(cells, fields).value[k] == ReadField(cells, fields[k]).value
    ensures forall k :: (0 <= k < |fields| && !ReadField(cells, fields[k]).Done?
                         && forall j :: 0 <= j < k ==> ReadField(cells, fields[j]).Done?) ==>
              ReadFields(cells, fields) == ReadField(cells, fields[k]).PropagateFailure()
  {
    var outs := Reads(cells, fields);
    CollectDone(outs);
    if Collect(outs).Done? {
      forall k | 0 <= k < |fields|
        ensures Collect(outs).value[k] == ReadField(cells, fields[k]).value
      {
        CollectAt(outs, k);
      }
    }
    forall k | 0 <= k < |fields| && !ReadField(cells, fields[k]).Done?
               && (forall j :: 0 <= j < k ==> ReadField(cells, fields[j]).Done?)
      ensures Collect(outs) == ReadField(cells, fields[k]).PropagateFailure()
    {
      CollectFirstFailure(outs, k);
    }
  }

  /** The record pairing each field's key with its value. */
  function FieldRecord(fields: seq<Field>, vals: seq<Values.Value>): (r: Values.Record)
    requires |vals| == |fields|
    ensures Values.Keys(r) == FieldKeys(fields)
    ensures |r| == |fields| && forall k :: 0 <= k < |r| ==> r[k].1 == vals[k]
  {
    Values.FromPairs(FieldKeys(fields), vals)
  }

  const PeriodError: string := "Error getting competitions period"

  /**
    `getPeriod`: the first cell must exist (a type error otherwise) and hold
    exactly three children (start, a line break, end); the two dates are
    formatted under the labels the source spells 'competions start' and
    'competions end '.
   */
  function GetPeriod(cells: seq<DomUtils.Node>): (r: Outcome<(string, string)>)
    ensures r == TypeFailure <==> cells == []
    ensures cells != [] && |DomUtils.ChildNodes(cells[0])| != 3 ==> r == Threw(PeriodError)
    ensures r.Done? ==> var children := DomUtils.ChildNodes(cells[0]);
                        && |children| == 3
                        && Dates.FormatSiteDate(CompetitionsParser.CellText(children[0]), "competions start") == Ok(r.value.0)
                        && Dates.FormatSiteDate(CompetitionsParser.CellText(children[2]), "competions end ") == Ok(r.value.1)
  {
    if cells == [] then TypeFailure
    else
      var children := DomUtils.ChildNodes(cells[0]);
      if |children| != 3 then Threw(PeriodError)
      else
        match Dates.FormatSiteDate(CompetitionsParser.CellText(children[0]), "competions start")
        case Err(e) => Threw(e)
        case Ok(start) =>
          match Dates.FormatSiteDate(CompetitionsParser.CellText(children[2]), "competions end ")
          case Err(e) => Threw(e)
          case Ok(end) => Done((start, end))
  }

  /** The keys the details record starts with. */
  const HeadKeys: seq<string> := ["name", "id", "start_date", "end_date"]

  /** A record of the name, id 0 and the period, then the fields with their values. */
  function HeadedRecord(compName: string, period: (string, string), fields: seq<Field>, vals: seq<Values.Value>): (r: Values.Record)
    requires |vals| == |fields|
    ensures Values.Keys(r) == HeadKeys + FieldKeys(fields) && |r| == 4 + |fields|
    ensures && r[0].1 == Values.Str(compName) && r[1].1 == Values.Int(0)
            && r[2].1 == Values.Str(period.0) && r[3].1 == Values.Str(period.1)
    ensures forall k :: 0 <= k < |vals| ==> r[4 + k].1 == vals[k]
  {
    var head := [Values.Str(compName), Values.Int(0), Values.Str(period.0), Values.Str(period.1)];
    var all := head + vals;
    assert forall k :: 0 <= k < |vals| ==> all[4 + k] == vals[k];
    Values.FromPairs(HeadKeys + FieldKeys(fields), all)
  }

  /** Reading a row of the details table: the period, then the fields in order, the first failure ending the read. */
  function ParseHeadedRow(cells: seq<DomUtils.Node>, compName: string, fields: seq<Field>): (r: Outcome<Values.Record>)
    ensures r.Done? <==> GetPeriod(cells).Done? && ReadFields(cells, fields).Done?
    ensures r.Done? ==> r.value == HeadedRecord(compName, GetPeriod(cells).value, fields, ReadFields(cells, fields).value)
  {
    match GetPeriod(cells)
    case Threw(m) => Threw(m)
    case TypeFailure => TypeFailure
    case Done(period) =>
      match ReadFields(cells, fields)
      case Threw(m) => Threw(m)
      case TypeFailure => TypeFailure
      case Done(vals) => Done(HeadedRecord(compName, period, fields, vals))
  }

  /** `parseDetailsRow`: the name, id 0, the period, then the fifteen fields of `DetailsFields`. */
  function ParseDetailsRow(cells: seq<DomUtils.Node>, compName: string): Outcome<Values.Record> {
    ParseHeadedRow(cells, compName, DetailsFields)
  }

  /** A details row that does not read fails with its period's failure, or else with its fields'. */
  lemma DetailsRowFailure(cells: seq<DomUtils.Node>, compName: string, fields: seq<Field>)
    ensures !GetPeriod(cells).Done? ==> ParseHeadedRow(cells, compName, fields) == GetPeriod(cells).PropagateFailure()
    ensures GetPeriod(cells).Done? && !ReadFields(cells, fields).Done? ==>
              ParseHeadedRow(cells, compName, fields) == ReadFields(cells, fields).PropagateFailure()
  {
  }

  /** `parsePilotRow`: the seven fields of `PilotFields` in order, the first failure ending the read. */
  function ParsePilotRow(cells: seq<DomUtils.Node>): (r: Outcome<Values.Record>)
    ensures r.Done? <==> ReadFields(cells, PilotFields).Done?
    ensures !r.Done? ==> r == ReadFields(cells, PilotFields).PropagateFailure()
    ensures r.Done? ==> r.value == FieldRecord(PilotFields, ReadFields(cells, PilotFields).value)
  {
    match ReadFields(cells, PilotFields)
    case Threw(m) => Threw(m)
    case TypeFailure => TypeFailure
    case Done(vals) => Done(FieldRecord(PilotFields, vals))
  }

  /** How a row's cells become its record, or how reading them ends. */
  type RowParser = seq<DomUtils.Node> -> Outcome<Values.Record>

  /** Every row parses. */
  predicate RowsParse(rows: seq<seq<DomUtils.Node>>, parse: RowParser) {
    forall k :: 0 <= k < |rows| ==> parse(rows[k]).Done?
  }

  /** Rows parse exactly when the first does and the rest do. */
  lemma RowsParseCons(rows: seq<seq<DomUtils.Node>>, parse: RowParser)
    requires rows != []
    ensures RowsParse(rows, parse) <==> parse(rows[0]).Done? && RowsParse(rows[1..], parse)
  {
    var tail := rows[1..];
    assert forall k :: 1 <= k < |rows| ==> tail[k - 1] == rows[k];
  }

  /** The records of rows that all parse, in row order. */
  function ParsedItems(rows: seq<seq<DomUtils.Node>>, parse: RowParser): (items: seq<Values.Record>)
    requires RowsParse(rows, parse)
    ensures |items| == |rows| && forall k :: 0 <= k < |rows| ==> items[k] == parse(rows[k]).value
  {
    seq(|rows|, k requires 0 <= k < |rows| => parse(rows[k]).value)
  }

  /** The loop of `parse`: parse each row and add it with the filter; the first failure ends it. */
  function AddRows(c: DataCollector.Collector, rows: seq<seq<DomUtils.Node>>, parse: RowParser, filter: Option<DataCollector.Filter>): (r: Outcome<DataCollector.Collector>)
    ensures r.Done? ==> r.value.overallCount == c.overallCount && r.value.extras == c.extras
    decreases |rows|
  {
    if rows == [] then Done(c)
    else
      match parse(rows[0])
      case Threw(m) => Threw(m)
      case TypeFailure => TypeFailure
      case Done(item) => AddRows(DataCollector.Add(c, item, filter), rows[1..], parse, filter)
  }

  /** The loop succeeds exactly when every row parses. */
  lemma {:induction false} AddRowsOk(c: DataCollector.Collector, rows: seq<seq<DomUtils.Node>>, parse: RowParser, filter: Option<DataCollector.Filter>)
    ensures AddRows(c, rows, parse, filter).Done? <==> RowsParse(rows, parse)
    decreases |rows|
  {
    if rows != [] {
      RowsParseCons(rows, parse);
      var p := parse(rows[0]);
      if p.Done? {
        AddRowsOk(DataCollector.Add(c, p.value, filter), rows[1..], parse, filter);
      }
    }
  }

  /** The `add` calls of parsed rows: the first row's, then the rest's. */
  lemma AddOpsOfRowsCons(rows: seq<seq<DomUtils.Node>>, parse: RowParser, filter: Option<DataCollector.Filter>)
    requires rows != [] && RowsParse(rows, parse)
    ensures RowsParse(rows[1..], parse)
    ensures var ops := CompetitionsParser.AddOps(ParsedItems(rows, parse), filter);
            ops != [] && ops[0] == DataCollector.AddOp(parse(rows[0]).value, filter)
            && ops[1..] == CompetitionsParser.AddOps(ParsedItems(rows[1..], parse), filter)
  {
    RowsParseCons(rows, parse);
    assert ParsedItems(rows, parse)[1..] == ParsedItems(rows[1..], parse);
  }

  /** When every row parses, the loop leaves the collector the `add` calls of the parsed rows, in row order, give. */
  lemma {:induction false} AddRowsRun(c: DataCollector.Collector, rows: seq<seq<DomUtils.Node>>, parse: RowParser, filter: Option<DataCollector.Filter>)
    requires RowsParse(rows, parse)
    ensures AddRows(c, rows, parse, filter) == Done(DataCollector.Run(c, CompetitionsParser.AddOps(ParsedItems(rows, parse), filter)))
    decreases |rows|
  {
    if rows != [] {
      AddOpsOfRowsCons(rows, parse, filter);
      var c' := DataCollector.Add(c, parse(rows[0]).value, filter);
      AddRowsRun(c', rows[1..], parse, filter);
    }
  }

  function ColumnCountError(expected: int, got: int): string {
    "expected " + Strings.IntToString(expected) + " competition criteria table columns, got " + Strings.IntToString(got)
  }

  function RowCountError(expected: int, got: int): string {
    "expected " + Strings.IntToString(expected) + " competitions rows, got " + Strings.IntToString(got)
  }

  /** `getOverallCount`: the single count node's text, int-cast. */
  function OverallCount(w: Wrapper): (r: Result<int>)
    ensures r.Ok? <==> DomUtils.GetSingleNodeText(w.countNodes, "pilots count").Ok?
    ensures r.Ok? ==> r.value == Strings.IntCast(DomUtils.GetSingleNodeText(w.countNodes, "pilots count").value)
    ensures r.Err? ==> r.error == "Error getting pilots count"
  {
    var text :- DomUtils.GetSingleNodeText(w.countNodes, "pilots count");
    Ok(Strings.IntCast(text))
  }

  /** `checkColumnCount`: a missing table is a type error; a wrong header count throws. */
  function CheckColumnCount(table: Option<Table>, expected: nat): (r: Outcome<Table>)
    ensures r.Done? <==> table.Some? && table.value.headerCount == expected
    ensures table.None? ==> r == TypeFailure
    ensures table.Some? && table.value.headerCount != expected ==> r == Threw(ColumnCountError(expected, table.value.headerCount))
    ensures r.Done? ==> r.value == table.value
  {
    if table.None? then TypeFailure
    else if table.value.headerCount != expected then Threw(ColumnCountError(expected, table.value.headerCount))
    else Done(table.value)
  }

  /** `getTablesRows`: the body rows, which must number exactly `expected`. */
  function GetTablesRows(table: Table, expected: int): (r: Result<seq<seq<DomUtils.Node>>>)
    ensures r.Ok? <==> |table.rows| == expected
    ensures r.Ok? ==> r.value == table.rows
    ensures r.Err? ==> r.error == RowCountError(expected, |table.rows|)
  {
    if |table.rows| != expected then Err(RowCountError(expected, |table.rows|)) else Ok(table.rows)
  }

  /** The page parts a successful parse reads. */
  predicate WellFormed(w: Wrapper) {
    && OverallCount(w).Ok?
    && DomUtils.GetSingleNodeText(w.nameNodes, "competition name").Ok?
    && w.details.Some? && w.details.value.headerCount == DetailsColumnCount && |w.details.value.rows| == 1
    && w.pilots.Some? && w.pilots.value.headerCount == PilotColumnCount
    && |w.pilots.value.rows| == OverallCount(w).value
  }

  /** The details record of a well-formed page. */
  function Details(w: Wrapper): Outcome<Values.Record>
    requires WellFormed(w)
  {
    ParseDetailsRow(w.details.value.rows[0], DomUtils.GetSingleNodeText(w.nameNodes, "competition name").value)
  }

  /**
    The steps of `parse` before its loop: the count, the name, both column
    checks, the one details row read into the extra 'details', and the
    pilot rows, of which there must be as many as the count.
   */
  function Prepare(w: Wrapper): (r: Outcome<(DataCollector.Collector, seq<seq<DomUtils.Node>>)>)
    ensures r.Done? <==> WellFormed(w) && Details(w).Done?
    ensures r.Done? ==> r.value == (DataCollector.AddExtra(DataCollector.New(OverallCount(w).value), "details", Details(w).value), w.pilots.value.rows)
    ensures OverallCount(w).Err? ==> r == Threw(OverallCount(w).error)
    ensures OverallCount(w).Ok? && DomUtils.GetSingleNodeText(w.nameNodes, "competition name").Ok? ==>
              && (w.details.None? ==> r == TypeFailure)
              && (w.details.Some? && w.details.value.headerCount != DetailsColumnCount ==>
                    r == Threw(ColumnCountError(DetailsColumnCount, w.details.value.headerCount)))
  {
    match OverallCount(w)
    case Err(e) => Threw(e)
    case Ok(overallCount) =>
      match DomUtils.GetSingleNodeText(w.nameNodes, "competition name")
      case Err(e) => Threw(e)
      case Ok(compName) =>
        match CheckColumnCount(w.details, DetailsColumnCount)
        case Threw(m) => Threw(m)
        case TypeFailure => TypeFailure
        case Done(details) =>
          match CheckColumnCount(w.pilots, PilotColumnCount)
          case Threw(m) => Threw(m)
          case TypeFailure => TypeFailure
          case Done(pilots) =>
            match GetTablesRows(details, 1)
            case Err(e) => Threw(e)
            case Ok(detailsRows) =>
              match ParseDetailsRow(detailsRows[0], compName)
              case Threw(m) => Threw(m)
              case TypeFailure => TypeFailure
              case Done(record) =>
                match GetTablesRows(pilots, overallCount)
                case Err(e) => Threw(e)
                case Ok(rows) => Done((DataCollector.AddExtra(DataCollector.New(overallCount), "details", record), rows))
  }

  /**
    `parse`: read the pilot count and the competition name, check both
    tables' columns, read the one details row into the extra 'details', then
    add every pilot row, of which there must be as many as the count.
   */
  function Parse(page: Page, filter: Option<DataCollector.Filter>): (r: Outcome<DataCollector.Collector>)
    ensures page.wrapper.None? ==> r == TypeFailure
    ensures r.Done? ==> page.wrapper.Some? && OverallCount(page.wrapper.value) == Ok(r.value.overallCount)
  {
    if page.wrapper.None? then TypeFailure
    else
      match Prepare(page.wrapper.value)
      case Threw(m) => Threw(m)
      case TypeFailure => TypeFailure
      case Done(start) => AddRows(start.0, start.1, ParsePilotRow, filter)
  }

  /**
    A page parses exactly when it is well formed, its details row reads and
    every pilot row reads. The result is the fresh collector holding the
    details record under 'details' after the `add` calls of the parsed
    pilot rows; so every pilot is either an item or counted as filtered out.
   */
  lemma ParseAccountsForPilots(page: Page, filter: Option<DataCollector.Filter>)
    ensures Parse(page, filter).Done? <==>
              && page.wrapper.Some? && WellFormed(page.wrapper.value) && Details(page.wrapper.value).Done?
              && RowsParse(page.wrapper.value.pilots.value.rows, ParsePilotRow)
    ensures Parse(page, filter).Done? ==>
              var w := page.wrapper.value;
              var n := OverallCount(w).value;
              var start := DataCollector.AddExtra(DataCollector.New(n), "details", Details(w).value);
              && Parse(page, filter).value == DataCollector.Run(start, CompetitionsParser.AddOps(ParsedItems(w.pilots.value.rows, ParsePilotRow), filter))
              && var c := Parse(page, filter).value;
                 && DataCollector.Valid(c) && c.itemCount + c.filteredCount == n
                 && "details" in c.extras && c.extras["details"] == Details(w).value
  {
    ParseSteps(page, filter);
    if page.wrapper.Some? && Prepare(page.wrapper.value).Done? {
      var w := page.wrapper.value;
      var start := Prepare(w).value.0;
      var rows := w.pilots.value.rows;
      AddRowsOk(start, rows, ParsePilotRow, filter);
      if RowsParse(rows, ParsePilotRow) {
        PilotLoopAccounts(start, rows, filter);
      }
    }
  }

  /** A page parses when its wrapper is there, the steps before the loop succeed and the loop does. */
  lemma ParseSteps(page: Page, filter: Option<DataCollector.Filter>)
    ensures Parse(page, filter).Done? <==>
              && page.wrapper.Some? && Prepare(page.wrapper.value).Done?
              && AddRows(Prepare(page.wrapper.value).value.0, Prepare(page.wrapper.value).value.1, ParsePilotRow, filter).Done?
    ensures Parse(page, filter).Done? ==>
              Parse(page, filter) == AddRows(Prepare(page.wrapper.value).value.0, Prepare(page.wrapper.value).value.1, ParsePilotRow, filter)
  {
  }

  /** After the pilot loop every parsed pilot is an item or counted as filtered out, and the extras stand. */
  lemma PilotLoopAccounts(start: DataCollector.Collector, rows: seq<seq<DomUtils.Node>>, filter: Option<DataCollector.Filter>)
    requires RowsParse(rows, ParsePilotRow) && DataCollector.Valid(start)
    ensures var ops := CompetitionsParser.AddOps(ParsedItems(rows, ParsePilotRow), filter);
            var c := DataCollector.Run(start, ops);
            && AddRows(start, rows, ParsePilotRow, filter) == Done(c)
            && DataCollector.Valid(c)
            && c.itemCount + c.filteredCount == start.itemCount + start.filteredCount + |rows|
            && c.extras == start.extras
  {
    AddRowsRun(start, rows, ParsePilotRow, filter);
    var ops := CompetitionsParser.AddOps(ParsedItems(rows, ParsePilotRow), filter);
    DataCollector.RunCounts(start, ops);
    CompetitionsParser.AddCountOfAddOps(ParsedItems(rows, ParsePilotRow), filter);
    ExtrasKept(start, ops);
  }

  /** `add` calls leave the extras alone. */
  lemma {:induction false} ExtrasKept(c: DataCollector.Collector, ops: seq<DataCollector.Op>)
    requires forall k :: 0 <= k < |ops| ==> ops[k].AddOp?
    ensures DataCollector.Run(c, ops).extras == c.extras
    decreases |ops|
  {
    if ops != [] {
      ExtrasKept(DataCollector.Step(c, ops[0]), ops[1..]);
    }
  }

  /**
    Where the two parsers part: on a cell holding a number both read its
    text; on a blank or non-numeric cell the competitions list reads '0.0'
    and this page throws 'Missing value for <key>'.
   */
  lemma NumericValuesCompared(cells: seq<DomUtils.Node>, index: nat, key: string)
    requires index < |cells|
    ensures var text := CompetitionsParser.CellText(cells[index]);
            EndpointUtils.IsNumeric(text) ==>
              && GetNumericValue(cells, index, key) == Done(text)
              && CompetitionsParser.GetNumericValue(cells, index, key) == Ok(text)
    ensures var text := CompetitionsParser.CellText(cells[index]);
            !EndpointUtils.IsNumeric(text) ==>
              && GetNumericValue(cells, index, key) == Threw("Missing value for " + key)
              && CompetitionsParser.GetNumericValue(cells, index, key) == Ok("0.0")
  {
  }

  /** A whole number shown in an integer column reads as that number, cut to PHP's integer limits. */
  lemma IntegerFieldOfNumeral(cells: seq<DomUtils.Node>, f: Field, i: int)
    requires f.kind == Integer && f.column < |cells|
    requires CompetitionsParser.CellText(cells[f.column]) == Strings.IntToString(i)
    ensures ReadField(cells, f) == Done(Values.Int(Strings.Saturate(i)))
  {
    var text := Strings.IntToString(i);
    EndpointUtils.NumeralIsNumeric(i);
    assert GetNumericValue(cells, f.column, f.key) == Done(text);
    Strings.IntCastOfIntToString(i, "");
    assert text + "" == text;
  }

  /** A date the site shows in a date column reads as its "Y-m-d". */
  lemma DateFieldOfSiteText(cells: seq<DomUtils.Node>, f: Field, d: Dates.Date)
    requires f.kind == Date && f.column < |cells|
    requires Dates.Valid(d) && 0 <= d.year <= 9999
    requires CompetitionsParser.CellText(cells[f.column]) == Dates.SiteText(d)
    ensures ReadField(cells, f) == Done(Values.Str(Dates.FormatYmd(d)))
  {
    Dates.FormatSiteDateOfSiteText(d, f.key);
    assert GetDateValue(cells, f.column, f.key) == Done(Dates.FormatYmd(d));
  }

  /** The details record carries the id and the integer fields as integers; every other field is a string. */
  lemma DetailsTyping(cells: seq<DomUtils.Node>, compName: string, fields: seq<Field>)
    requires ParseHeadedRow(cells, compName, fields).Done?
    ensures var r := ParseHeadedRow(cells, compName, fields).value;
            forall k :: 0 <= k < |r| ==> (r[k].1.Int? <==> k == 1 || (k >= 4 && fields[k - 4].kind == Integer))
  {
    ReadFieldsMeaning(cells, fields);
    HeadedTyping(cells, compName, GetPeriod(cells).value, fields, ReadFields(cells, fields).value);
  }

  /** A headed record of values read from the fields is typed the way its fields' kinds say. */
  lemma HeadedTyping(cells: seq<DomUtils.Node>, compName: string, period: (string, string), fields: seq<Field>, vals: seq<Values.Value>)
    requires |vals| == |fields|
    requires forall k :: 0 <= k < |fields| ==> ReadField(cells, fields[k]) == Done(vals[k])
    ensures var r := HeadedRecord(compName, period, fields, vals);
            forall k :: 0 <= k < |r| ==> (r[k].1.Int? <==> k == 1 || (k >= 4 && fields[k - 4].kind == Integer))
  {
    var r := HeadedRecord(compName, period, fields, vals);
    forall k | 0 <= k < |r|
      ensures r[k].1.Int? <==> k == 1 || (k >= 4 && fields[k - 4].kind == Integer)
    {
      if k >= 4 {
        var f := fields[k - 4];
        assert r[4 + (k - 4)].1 == vals[k - 4];
        assert ReadField(cells, f) == Done(vals[k - 4]);
        KindTyping(cells, f);
      }
    }
  }

  /** A field that reads is an integer exactly when its kind is `Integer`. */
  lemma KindTyping(cells: seq<DomUtils.Node>, f: Field)
    requires ReadField(cells, f).Done?
    ensures ReadField(cells, f).value.Int? <==> f.kind == Integer
  {
  }
}
