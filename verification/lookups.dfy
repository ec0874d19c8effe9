/**
  The lookup tables of the ranking site and the lookups over them. The
  tables are repeated verbatim in src/Web/System.php, src/Web/Rank.php and
  src/Web/Ranking.php (disciplines in System and Rank; endpoint codes in
  Rank and Ranking; regions and scoring in all three); they are defined
  once here. Each lookup is total on its table and fails outside it with
  "<what> not recognized: <key>".
 */
module Lookups {
  import opened Wrappers
  import Strings

  const UrlRanking: string := "https://civlcomps.org/ranking"
  const ApiVersion: string := "1.0"

  const DisciplineHgClass1 := 2
  const DisciplineHgClass1Sport := 10
  const DisciplineHgClass2 := 8
  const DisciplineHgClass5 := 3
  const DisciplinePgXc := 1
  const DisciplinePgAccuracy := 4
  const DisciplinePgAcroSolo := 5
  const DisciplinePgAcroSyncro := 6

  /** Discipline code to the slug the site uses in paths. */
  const Disciplines: map<int, string> := map[
    DisciplineHgClass1 := "hang-gliding-class-1-xc",
    DisciplineHgClass1Sport := "hang-gliding-class-1-sport-xc",
    DisciplineHgClass2 := "hang-gliding-class-2-xc",
    DisciplineHgClass5 := "hang-gliding-class-5-xc",
    DisciplinePgXc := "paragliding-xc",
    DisciplinePgAccuracy := "paragliding-accuracy",
    DisciplinePgAcroSolo := "paragliding-aerobatics",
    DisciplinePgAcroSyncro := "paragliding-acro-syncro"]

  const EndpointPilot := 101
  const EndpointPilots := 102
  const EndpointNations := 103
  const EndpointCompetition := 104
  const EndpointCompetitions := 105

  /** Endpoint code to endpoint name. */
  const Endpoints: map<int, string> := map[
    EndpointPilot := "pilot",
    EndpointPilots := "pilots",
    EndpointNations := "nations",
    EndpointCompetition := "competition",
    EndpointCompetitions := "competitions"]

  /** The order the endpoint table is declared in, which the name search follows. */
  const EndpointOrder: seq<int> := [EndpointPilot, EndpointPilots, EndpointNations, EndpointCompetition, EndpointCompetitions]

  const RegionWorld := 0

  const Regions: map<int, string> := map[
    RegionWorld := "World", 1 := "Europe", 2 := "Africa", 3 := "Asia-Oceania", 4 := "Pan America"]

  const ScoringOverall := 0

  const Scorings: map<int, string> := map[ScoringOverall := "overall", 1 := "female", 2 := "junior"]

  /** `TABLE[$key] ?? null`, throwing "<what> not recognized: <key>" on a miss; `message` is "<what> not recognized: ". */
  function Find(table: map<int, string>, key: int, message: string): (r: Result<string>)
    ensures r.Ok? <==> key in table
    ensures r.Ok? ==> r.value == table[key]
    ensures r.Err? ==> r.error == message + Strings.IntToString(key)
  {
    if key in table then Ok(table[key]) else Err(message + Strings.IntToString(key))
  }

  /** `getDiscipline`: defined for the eight discipline codes (`DisciplineCodes`). */
  function GetDiscipline(discipline: int): (r: Result<string>)
    ensures r.Ok? <==> discipline in Disciplines
    ensures r.Ok? ==> r.value == Disciplines[discipline]
    ensures r.Err? ==> r.error == "Discipline not recognized: " + Strings.IntToString(discipline)
  {
    Find(Disciplines, discipline, "Discipline not recognized: ")
  }

  /** `getEndpoint` of Rank and Ranking: defined for the codes 101 to 105 (`EndpointCodes`). */
  function GetEndpoint(endpoint: int): (r: Result<string>)
    ensures r.Ok? <==> endpoint in Endpoints
    ensures r.Ok? ==> r.value == Endpoints[endpoint]
    ensures r.Err? ==> r.error == "Endpoint not recognized: " + Strings.IntToString(endpoint)
  {
    Find(Endpoints, endpoint, "Endpoint not recognized: ")
  }

  /** `getRegion`: defined for the region ids 0 to 4 (`RegionAndScoringCodes`). */
  function GetRegion(region: int): (r: Result<string>)
    ensures r.Ok? <==> region in Regions
    ensures r.Ok? ==> r.value == Regions[region]
    ensures r.Err? ==> r.error == "Region id not recognized: " + Strings.IntToString(region)
  {
    Find(Regions, region, "Region id not recognized: ")
  }

  /** `getScoring`: defined for the scoring types 0 to 2 (`RegionAndScoringCodes`). */
  function GetScoring(scoring: int): (r: Result<string>)
    ensures r.Ok? <==> scoring in Scorings
    ensures r.Ok? ==> r.value == Scorings[scoring]
    ensures r.Err? ==> r.error == "Scoring type not recognized: " + Strings.IntToString(scoring)
  {
    Find(Scorings, scoring, "Scoring type not recognized: ")
  }

  /** The discipline codes are the eight the site knows. */
  lemma DisciplineCodes()
    ensures Disciplines.Keys == {1, 2, 3, 4, 5, 6, 8, 10}
  {
  }

  /** The endpoint codes are 101 to 105. */
  lemma EndpointCodes()
    ensures forall e :: e in Endpoints <==> 101 <= e <= 105
  {
  }

  /** The region ids are 0 to 4 and the scoring types 0 to 2. */
  lemma RegionAndScoringCodes()
    ensures forall g :: g in Regions <==> 0 <= g <= 4
    ensures forall s :: s in Scorings <==> 0 <= s <= 2
  {
  }

  /** `sprintf('%s/%s/%s', URL_RANKING, first, endpoint)`: the page of a ranking. */
  function RankingPath(first: string, endpoint: string): string {
    UrlRanking + "/" + first + "/" + endpoint
  }

  /** A path names its two segments uniquely when the first has no '/'. */
  lemma RankingPathInjective(f1: string, e1: string, f2: string, e2: string)
    requires '/' !in f1 && '/' !in f2
    requires RankingPath(f1, e1) == RankingPath(f2, e2)
    ensures f1 == f2 && e1 == e2
  {
    var p := UrlRanking + "/";
    assert RankingPath(f1, e1) == p + (f1 + "/" + e1);
    assert RankingPath(f2, e2) == p + (f2 + "/" + e2);
    assert f1 + "/" + e1 == (p + (f1 + "/" + e1))[|p|..];
    assert f2 + "/" + e2 == (p + (f2 + "/" + e2))[|p|..];
    Strings.SplitAtUnique(f1, e1, f2, e2, '/');
  }

  /** No slug contains '/'. */
  lemma DisciplineSlugsPlain()
    ensures forall d :: d in Disciplines ==> '/' !in Disciplines[d]
  {
  }

  /** No two disciplines share a slug. */
  lemma DisciplineSlugsDistinct()
    ensures forall a, b :: a in Disciplines && b in Disciplines && Disciplines[a] == Disciplines[b] ==> a == b
  {
    forall a, b | a in Disciplines && b in Disciplines && Disciplines[a] == Disciplines[b]
      ensures a == b
    {
      var x, y := Disciplines[a], Disciplines[b];
      assert |x| == |y| && x[0] == y[0] && (|x| > 19 ==> x[19] == y[19]);
    }
  }

  /** The first code in `order` whose endpoint name is `name`. */
  function FirstNamed(order: seq<int>, name: string): (r: Option<int>)
    requires forall k :: 0 <= k < |order| ==> order[k] in Endpoints
    ensures r.Some? ==> r.value in order && Endpoints[r.value] == name
    ensures r.None? ==> forall k :: 0 <= k < |order| ==> Endpoints[order[k]] != name
    decreases |order|
  {
    if order == [] then None
    else if Endpoints[order[0]] == name then Some(order[0])
    else FirstNamed(order[1..], name)
  }

  /**
    `getEndpointFromName`: lower-case the name and return the code whose
    endpoint name it is, or fail with "Endpoint not found <name>".
   */
  function GetEndpointFromName(name: string): (r: Result<int>)
    ensures r.Ok? <==> Strings.Lower(name) in Endpoints.Values
    ensures r.Ok? ==> r.value in Endpoints && Endpoints[r.value] == Strings.Lower(name)
    ensures r.Err? ==> r.error == "Endpoint not found " + Strings.Lower(name)
  {
    var lower := Strings.Lower(name);
    match FirstNamed(EndpointOrder, lower)
    case Some(e) => Ok(e)
    case None =>
      assert forall e :: e in Endpoints ==> e in EndpointOrder;
      Err("Endpoint not found " + lower)
  }

  /** Every endpoint name is a lower-case word. */
  lemma EndpointNamesLower()
    ensures forall e :: e in Endpoints ==> Strings.IsLower(Endpoints[e])
    ensures forall e :: e in Endpoints ==> |Endpoints[e]| > 0 && 'a' <= Endpoints[e][0] <= 'z'
  {
  }

  /** No endpoint name holds a path or namespace separator. */
  lemma EndpointNamesPlain()
    ensures forall e :: e in Endpoints ==> '/' !in Endpoints[e] && '\\' !in Endpoints[e]
  {
  }

  /** No two endpoint codes share a name. */
  lemma EndpointNamesDistinct()
    ensures forall a, b :: a in Endpoints && b in Endpoints && Endpoints[a] == Endpoints[b] ==> a == b
  {
    forall a, b | a in Endpoints && b in Endpoints && Endpoints[a] == Endpoints[b]
      ensures a == b
    {
      assert |Endpoints[a]| == |Endpoints[b]|;
    }
  }

  /** The name search inverts `getEndpoint` on every endpoint code. */
  lemma EndpointRoundTrip(e: int)
    requires e in Endpoints
    ensures GetEndpointFromName(GetEndpoint(e).value) == Ok(e)
  {
    EndpointNamesDistinct();
    EndpointNamesLower();
    Strings.LowerOfLower(Endpoints[e]);
  }

  /** `getEndpoint` inverts the name search on every name it accepts, whatever its case. */
  lemma EndpointRoundTripFromName(name: string)
    requires GetEndpointFromName(name).Ok?
    ensures GetEndpoint(GetEndpointFromName(name).value) == Ok(Strings.Lower(name))
  {
  }

  /** The name search ignores ASCII case. */
  lemma EndpointFromNameIgnoresCase(name: string)
    ensures GetEndpointFromName(name) == GetEndpointFromName(Strings.Lower(name))
  {
    Strings.LowerOfLower(Strings.Lower(name));
  }
}
