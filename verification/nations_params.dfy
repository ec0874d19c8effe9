/**
  The request parameters of the nations ranking
  (src/Web/Endpoint/Nations/NationsParams.php): a region, the world when
  none is given.
 */
module NationsParams {
  import opened Wrappers
  import Strings
  import Lookups
  import Values

  datatype NationsParams = NationsParams(regionId: int)

  /** The constructor: no region means the world; a given region must be known. */
  function New(regionId: Option<int>): (r: Result<NationsParams>)
    ensures regionId.None? ==> r == Ok(NationsParams(Lookups.RegionWorld))
    ensures regionId.Some? ==> (r.Ok? <==> regionId.value in Lookups.Regions)
    ensures regionId.Some? && r.Ok? ==> r.value.regionId == regionId.value
    ensures r.Err? ==> r.error == "Region id not recognized: " + Strings.IntToString(regionId.value)
    ensures r.Ok? ==> r.value.regionId in Lookups.Regions
  {
    if regionId.None? then Ok(NationsParams(Lookups.RegionWorld))
    else
      var _ :- Lookups.GetRegion(regionId.value);
      Ok(NationsParams(regionId.value))
  }

  /** `getQueryParams`: exactly the ranking date and the region id, as strings. */
  function GetQueryParams(p: NationsParams, rankingDate: string): (r: Values.Record)
    ensures Values.Keys(r) == ["search[rankingDate]", "RankingNationalTotalSearch[continent_id]"]
    ensures r[0].1 == Values.Str(rankingDate) && r[1].1 == Values.Str(Strings.IntToString(p.regionId))
  {
    [("search[rankingDate]", Values.Str(rankingDate)),
     ("RankingNationalTotalSearch[continent_id]", Values.Str(Strings.IntToString(p.regionId)))]
  }

  /** `getDetails`: the region name and id; an unknown region throws. */
  function GetDetails(p: NationsParams): (r: Result<Values.Record>)
    ensures r.Ok? <==> p.regionId in Lookups.Regions
    ensures r.Ok? ==> Values.Keys(r.value) == ["region", "region_id"]
    ensures r.Ok? ==> r.value[0].1 == Values.Str(Lookups.Regions[p.regionId]) && r.value[1].1 == Values.Int(p.regionId)
  {
    var region :- Lookups.GetRegion(p.regionId);
    Ok([("region", Values.Str(region)), ("region_id", Values.Int(p.regionId))])
  }

  /** Constructed parameters always have details, and the query's region id is the one in the details. */
  lemma QueryMatchesDetails(regionId: Option<int>, rankingDate: string)
    requires New(regionId).Ok?
    ensures var p := New(regionId).value;
            && GetDetails(p).Ok?
            && GetQueryParams(p, rankingDate)[1].1 == Values.Str(Strings.IntToString(GetDetails(p).value[1].1.i))
  {
  }

  /** No region and the world region give the same parameters. */
  lemma DefaultIsWorld()
    ensures New(None) == New(Some(Lookups.RegionWorld))
  {
  }
}
