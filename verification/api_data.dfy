/**
  The first-generation output shape (src/Web/Endpoint/ApiData.php): the
  same meta block, and a data block holding only the details and the items.
 */
module ApiData {
  import opened Wrappers
  import Strings
  import Lookups
  import Values
  import DataCollector
  import ApiOutput

  /** The data block: no errors key. */
  datatype Data = Data(details: Option<Values.Record>, items: seq<Values.Record>)

  datatype Output = Output(meta: ApiOutput.Meta, data: Data)

  datatype ApiData = ApiData(endpoint: string, discipline: string, rankingDate: string, version: string)

  /** The constructor: unknown endpoint or discipline codes throw, the endpoint first. */
  function New(endpoint: int, discipline: int, rankingDate: string): (r: Result<ApiData>)
    ensures r.Ok? <==> endpoint in Lookups.Endpoints && discipline in Lookups.Disciplines
    ensures endpoint !in Lookups.Endpoints ==> r == Err("Endpoint not recognized: " + Strings.IntToString(endpoint))
    ensures endpoint in Lookups.Endpoints && discipline !in Lookups.Disciplines ==>
              r == Err("Discipline not recognized: " + Strings.IntToString(discipline))
    ensures r.Ok? ==> r.value == ApiData(Lookups.Endpoints[endpoint], Lookups.Disciplines[discipline], rankingDate, Lookups.ApiVersion)
  {
    var name :- Lookups.GetEndpoint(endpoint);
    var slug :- Lookups.GetDiscipline(discipline);
    Ok(ApiData(name, slug, rankingDate, Lookups.ApiVersion))
  }

  /** `getOuput` (sic): the meta block with the item count, and the details and items passed through. */
  function GetOutput(a: ApiData, c: DataCollector.Collector, details: Option<Values.Record>): (r: Output)
    ensures r.meta.count == c.itemCount
    ensures r.meta == ApiOutput.Meta(a.endpoint, a.discipline, a.rankingDate, c.itemCount, a.version)
    ensures r.data.details == details && r.data.items == c.items
  {
    Output(ApiOutput.Meta(a.endpoint, a.discipline, a.rankingDate, c.itemCount, a.version), Data(details, c.items))
  }

  /** The legacy output is the current one without its errors. */
  lemma SameAsApiOutput(endpoint: int, discipline: int, rankingDate: string, c: DataCollector.Collector, details: Option<Values.Record>)
    requires New(endpoint, discipline, rankingDate).Ok?
    ensures ApiOutput.New(endpoint, discipline, rankingDate).Ok?
    ensures var legacy := GetOutput(New(endpoint, discipline, rankingDate).value, c, details);
            var current := ApiOutput.GetData(ApiOutput.New(endpoint, discipline, rankingDate).value, c, details);
            legacy.meta == current.meta && legacy.data.details == current.data.details && legacy.data.items == current.data.items
  {
  }
}
