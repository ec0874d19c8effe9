/**
  The second-generation site helper (src/Web/Rank.php): endpoints are
  numeric codes, and the helper builds ranking paths and the meta block of
  the API output. The lookups themselves live in `Lookups`.
 */
module Rank {
  import opened Wrappers
  import Strings
  import Lookups
  import Values

  /**
    `getPath`: the ranking URL, the discipline slug and the endpoint name
    joined by '/'; the discipline is looked up first.
   */
  function GetPath(discipline: int, endpoint: int): (r: Result<string>)
    ensures r.Ok? <==> discipline in Lookups.Disciplines && endpoint in Lookups.Endpoints
    ensures r.Ok? ==> r.value == Lookups.UrlRanking + "/" + Lookups.Disciplines[discipline] + "/" + Lookups.Endpoints[endpoint]
    ensures discipline !in Lookups.Disciplines ==> r == Err("Discipline not recognized: " + Strings.IntToString(discipline))
    ensures discipline in Lookups.Disciplines && endpoint !in Lookups.Endpoints ==>
              r == Err("Endpoint not recognized: " + Strings.IntToString(endpoint))
  {
    var slug :- Lookups.GetDiscipline(discipline);
    var name :- Lookups.GetEndpoint(endpoint);
    Ok(Lookups.RankingPath(slug, name))
  }

  /** Different disciplines or endpoints never share a path. */
  lemma GetPathInjective(d1: int, e1: int, d2: int, e2: int)
    requires GetPath(d1, e1).Ok? && GetPath(d1, e1) == GetPath(d2, e2)
    ensures d1 == d2 && e1 == e2
  {
    Lookups.DisciplineSlugsDistinct();
    Lookups.DisciplineSlugsPlain();
    Lookups.EndpointNamesDistinct();
    Lookups.RankingPathInjective(Lookups.Disciplines[d1], Lookups.Endpoints[e1], Lookups.Disciplines[d2], Lookups.Endpoints[e2]);
  }

  const MetaKeys: seq<string> := ["endpoint", "discipline", "ranking_date", "count", "version"]

  /**
    `getMeta`: the endpoint and discipline names, no ranking date yet, a
    zero count and the API version, in that key order. The endpoint is
    looked up first.
   */
  function GetMeta(discipline: int, endpoint: int): (r: Result<Values.Record>)
    ensures r.Ok? <==> discipline in Lookups.Disciplines && endpoint in Lookups.Endpoints
    ensures endpoint !in Lookups.Endpoints ==> r == Err("Endpoint not recognized: " + Strings.IntToString(endpoint))
    ensures r.Ok? ==> Values.Keys(r.value) == MetaKeys
    ensures r.Ok? ==> && r.value[0].1 == Values.Str(Lookups.Endpoints[endpoint])
                      && r.value[1].1 == Values.Str(Lookups.Disciplines[discipline])
                      && r.value[2].1 == Values.Null
                      && r.value[3].1 == Values.Int(0)
                      && r.value[4].1 == Values.Str(Lookups.ApiVersion)
  {
    var name :- Lookups.GetEndpoint(endpoint);
    var slug :- Lookups.GetDiscipline(discipline);
    Ok(Values.FromPairs(MetaKeys, [Values.Str(name), Values.Str(slug), Values.Null, Values.Int(0), Values.Str(Lookups.ApiVersion)]))
  }

  /** In a record with the meta keys, each key looked up by name gives the field at its position. */
  lemma MetaKeyLookup(m: Values.Record, i: int)
    requires Values.Keys(m) == MetaKeys && 0 <= i < |MetaKeys|
    ensures Values.Get(m, MetaKeys[i]) == Some(m[i].1)
  {
    assert forall j :: 0 <= j < i ==> |m[j].0| != |m[i].0| || m[j].0[0] != m[i].0[0];
    Values.GetFirst(m, i);
  }

  /** Each meta key, looked up by name, holds its field. */
  lemma MetaFields(discipline: int, endpoint: int)
    requires GetMeta(discipline, endpoint).Ok?
    ensures var m := GetMeta(discipline, endpoint).value;
            && Values.Get(m, "endpoint") == Some(Values.Str(Lookups.Endpoints[endpoint]))
            && Values.Get(m, "discipline") == Some(Values.Str(Lookups.Disciplines[discipline]))
            && Values.Get(m, "ranking_date") == Some(Values.Null)
            && Values.Get(m, "count") == Some(Values.Int(0))
            && Values.Get(m, "version") == Some(Values.Str(Lookups.ApiVersion))
  {
    var m := GetMeta(discipline, endpoint).value;
    MetaKeyLookup(m, 0);
    MetaKeyLookup(m, 1);
    MetaKeyLookup(m, 2);
    MetaKeyLookup(m, 3);
    MetaKeyLookup(m, 4);
  }

  /** The endpoint name in the meta block (its first field) leads back to the endpoint code. */
  lemma MetaEndpointRoundTrip(discipline: int, endpoint: int)
    requires GetMeta(discipline, endpoint).Ok?
    ensures Lookups.GetEndpointFromName(GetMeta(discipline, endpoint).value[0].1.s) == Ok(endpoint)
  {
    Lookups.EndpointRoundTrip(endpoint);
  }
}
