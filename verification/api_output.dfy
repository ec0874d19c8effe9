/**
  The shape of the API result (src/Web/Endpoint/ApiOutput.php): a meta block
  naming the endpoint, discipline, ranking date, item count and API
  version, and a data block with the details, the items and the errors.
 */
module ApiOutput {
  import opened Wrappers
  import Strings
  import Lookups
  import Values
  import DataCollector

  /** The meta block, keys endpoint, discipline, ranking_date, count, version. */
  datatype Meta = Meta(endpoint: string, discipline: string, rankingDate: string, count: int, version: string)

  /** The data block; `errors` is null when there are none. */
  datatype Data = Data(details: Option<Values.Record>, items: seq<Values.Record>, errors: Option<seq<string>>)

  datatype Output = Output(meta: Meta, data: Data)

  /** What the constructor stores: the names looked up and the API version. */
  datatype ApiOutput = ApiOutput(endpoint: string, discipline: string, rankingDate: string, version: string)

  /**
    The constructor: the endpoint name, then the discipline slug, each
    looked up and throwing on an unknown code. The source passes the
    endpoint as a string to the integer lookup (src/Web/Endpoint/ApiOutput.php:22-24);
    the code is modelled as the integer the lookup expects.
   */
  function New(endpoint: int, discipline: int, rankingDate: string): (r: Result<ApiOutput>)
    ensures r.Ok? <==> endpoint in Lookups.Endpoints && discipline in Lookups.Disciplines
    ensures endpoint !in Lookups.Endpoints ==> r == Err("Endpoint not recognized: " + Strings.IntToString(endpoint))
    ensures endpoint in Lookups.Endpoints && discipline !in Lookups.Disciplines ==>
              r == Err("Discipline not recognized: " + Strings.IntToString(discipline))
    ensures r.Ok? ==> r.value == ApiOutput(Lookups.Endpoints[endpoint], Lookups.Disciplines[discipline], rankingDate, Lookups.ApiVersion)
  {
    var name :- Lookups.GetEndpoint(endpoint);
    var slug :- Lookups.GetDiscipline(discipline);
    Ok(ApiOutput(name, slug, rankingDate, Lookups.ApiVersion))
  }

  /** `getMeta`: the stored names and date with the collector's item count. */
  function GetMeta(o: ApiOutput, c: DataCollector.Collector): (m: Meta)
    ensures m.count == c.itemCount
    ensures m.endpoint == o.endpoint && m.discipline == o.discipline
    ensures m.rankingDate == o.rankingDate && m.version == o.version
  {
    Meta(o.endpoint, o.discipline, o.rankingDate, c.itemCount, o.version)
  }

  /**
    `getData`: the meta block, the details and items passed through, and
    the errors, or null when the collector has none.
   */
  function GetData(o: ApiOutput, c: DataCollector.Collector, details: Option<Values.Record>): (r: Output)
    ensures r.meta == GetMeta(o, c)
    ensures r.data.details == details && r.data.items == c.items
    ensures r.data.errors.None? <==> c.errors == []
    ensures r.data.errors.Some? ==> r.data.errors.value == c.errors
  {
    Output(GetMeta(o, c), Data(details, c.items, if |c.errors| > 0 then Some(c.errors) else None))
  }

  /** For any collector built by its own calls, the count in the meta block is the number of items output. */
  lemma CountIsItems(o: ApiOutput, overallCount: int, ops: seq<DataCollector.Op>, details: Option<Values.Record>)
    ensures var out := GetData(o, DataCollector.Run(DataCollector.New(overallCount), ops), details);
            out.meta.count == |out.data.items|
  {
    DataCollector.FreshCounts(overallCount, ops);
  }

  /** The endpoint name in the meta block leads back to the endpoint code. */
  lemma MetaEndpointRoundTrip(endpoint: int, discipline: int, rankingDate: string, c: DataCollector.Collector)
    requires New(endpoint, discipline, rankingDate).Ok?
    ensures Lookups.GetEndpointFromName(GetMeta(New(endpoint, discipline, rankingDate).value, c).endpoint) == Ok(endpoint)
  {
    Lookups.EndpointRoundTrip(endpoint);
  }
}
