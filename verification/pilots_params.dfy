/**
  The request parameters of the pilots ranking
  (src/Web/Endpoint/Pilots/PilotsParams.php): a region, an optional nation
  and an optional scoring category. The query and the details are PHP
  arrays, modelled as records in key order.
 */
module PilotsParams {
  import opened Wrappers
  import Strings
  import Lookups
  import Values

  datatype PilotsParams = PilotsParams(regionId: int, nationId: Option<int>, scoring: Option<int>)

  /** What the constructor checks: a known region, and a known scoring when one is given. */
  predicate Valid(p: PilotsParams) {
    p.regionId in Lookups.Regions && (p.scoring.Some? ==> p.scoring.value in Lookups.Scorings)
  }

  /** The constructor: the region is checked first, then the scoring when given; the nation is not checked. */
  function New(regionId: int, nationId: Option<int>, scoring: Option<int>): (r: Result<PilotsParams>)
    ensures r.Ok? <==> Valid(PilotsParams(regionId, nationId, scoring))
    ensures r.Ok? ==> r.value == PilotsParams(regionId, nationId, scoring)
    ensures regionId !in Lookups.Regions ==> r == Err("Region id not recognized: " + Strings.IntToString(regionId))
    ensures regionId in Lookups.Regions && scoring.Some? && scoring.value !in Lookups.Scorings ==>
              r == Err("Scoring type not recognized: " + Strings.IntToString(scoring.value))
  {
    var _ :- Lookups.GetRegion(regionId);
    var _ :- if scoring.Some? then Lookups.GetScoring(scoring.value) else Ok("");
    Ok(PilotsParams(regionId, nationId, scoring))
  }

  /** Whether the query names a scoring category: only for a given scoring other than overall. */
  predicate FiltersScoring(p: PilotsParams) {
    p.scoring.Some? && p.scoring.value != Lookups.ScoringOverall
  }

  /** The query keys, in order. */
  function QueryKeys(p: PilotsParams): seq<string> {
    ["search[rankingDate]", "search[continent_id]"]
      + (if p.nationId.Some? then ["search[nation_id]"] else [])
      + (if FiltersScoring(p) then ["search[scoringCategory]"] else [])
  }

  /**
    `getQueryParams`: the ranking date and the region id always; the nation
    id when given; the scoring category name when a scoring other than
    overall is given (an unknown one throws).
   */
  function GetQueryParams(p: PilotsParams, rankingDate: string): (r: Result<Values.Record>)
    ensures r.Ok? <==> !FiltersScoring(p) || p.scoring.value in Lookups.Scorings
    ensures Valid(p) ==> r.Ok?
    ensures r.Ok? ==> Values.Keys(r.value) == QueryKeys(p)
    ensures r.Ok? ==> r.value[0].1 == Values.Str(rankingDate) && r.value[1].1 == Values.Str(Strings.IntToString(p.regionId))
    ensures r.Ok? && p.nationId.Some? ==> r.value[2].1 == Values.Str(Strings.IntToString(p.nationId.value))
    ensures r.Ok? && FiltersScoring(p) ==> r.value[|r.value| - 1].1 == Values.Str(Lookups.Scorings[p.scoring.value])
    ensures !r.Ok? ==> r.error == "Scoring type not recognized: " + Strings.IntToString(p.scoring.value)
  {
    var base := [("search[rankingDate]", Values.Str(rankingDate)),
                 ("search[continent_id]", Values.Str(Strings.IntToString(p.regionId)))];
    var withNation := base + (if p.nationId.Some? then [("search[nation_id]", Values.Str(Strings.IntToString(p.nationId.value)))] else []);
    if FiltersScoring(p) then
      var name :- Lookups.GetScoring(p.scoring.value);
      Ok(withNation + [("search[scoringCategory]", Values.Str(name))])
    else Ok(withNation)
  }

  /** The query holds a nation id exactly when a nation was given, and a scoring category exactly when it filters one. */
  lemma QueryKeyPresence(p: PilotsParams, rankingDate: string)
    requires Valid(p)
    ensures var q := GetQueryParams(p, rankingDate).value;
            && (Values.Get(q, "search[nation_id]").Some? <==> p.nationId.Some?)
            && (Values.Get(q, "search[scoringCategory]").Some? <==> FiltersScoring(p))
            && Values.Get(q, "search[rankingDate]") == Some(Values.Str(rankingDate))
  {
    var q := GetQueryParams(p, rankingDate).value;
    assert Values.Keys(q) == QueryKeys(p);
    if p.nationId.Some? {
      assert q[2].0 == "search[nation_id]";
    }
    if FiltersScoring(p) {
      assert q[|q| - 1].0 == "search[scoringCategory]";
    }
    Values.GetFirst(q, 0);
  }

  /** The detail keys, in order. */
  function DetailKeys(p: PilotsParams): seq<string> {
    ["region", "region_id"] + (if p.nationId.Some? then ["nation", "nation_id"] else []) + ["scoring"]
  }

  /**
    `getDetails`: the region name and id, an empty nation name and the
    nation id when a nation was given, and the scoring name, overall when
    none was given. An unknown region or scoring throws.
   */
  function GetDetails(p: PilotsParams): (r: Result<Values.Record>)
    ensures r.Ok? <==> Valid(p)
    ensures p.regionId !in Lookups.Regions ==> r == Err("Region id not recognized: " + Strings.IntToString(p.regionId))
    ensures r.Ok? ==> Values.Keys(r.value) == DetailKeys(p)
    ensures r.Ok? ==> r.value[0].1 == Values.Str(Lookups.Regions[p.regionId]) && r.value[1].1 == Values.Int(p.regionId)
    ensures r.Ok? && p.nationId.Some? ==> r.value[2].1 == Values.Str("") && r.value[3].1 == Values.Int(p.nationId.value)
    ensures r.Ok? ==> r.value[|r.value| - 1].1 == Values.Str(Lookups.Scorings[p.scoring.GetOr(Lookups.ScoringOverall)])
  {
    var region :- Lookups.GetRegion(p.regionId);
    var base := [("region", Values.Str(region)), ("region_id", Values.Int(p.regionId))]
                + (if p.nationId.Some? then [("nation", Values.Str("")), ("nation_id", Values.Int(p.nationId.value))] else []);
    var scoring :- Lookups.GetScoring(p.scoring.GetOr(Lookups.ScoringOverall));
    Ok(base + [("scoring", Values.Str(scoring))])
  }

  /** Without a scoring the details name the overall ranking. */
  lemma DefaultScoringIsOverall(regionId: int, nationId: Option<int>)
    requires New(regionId, nationId, None).Ok?
    ensures var d := GetDetails(New(regionId, nationId, None).value).value;
            d[|d| - 1] == ("scoring", Values.Str("overall"))
  {
    var d := GetDetails(New(regionId, nationId, None).value).value;
    assert Values.Keys(d)[|d| - 1] == "scoring";
  }
}
