/**
  The current site helper (src/Web/Ranking.php). It is `Rank` with the
  disciplines renumbered as activities 1 to 8; endpoints, regions and
  scoring are the shared tables in `Lookups`.
 */
module Ranking {
  import opened Wrappers
  import Strings
  import Lookups
  import Values

  const ActivityHgClass1 := 1
  const ActivityHgClass2 := 2
  const ActivityHgClass5 := 3
  const ActivityHgClass1Sport := 4
  const ActivityPgXc := 5
  const ActivityPgAccuracy := 6
  const ActivityPgAcroSolo := 7
  const ActivityPgAcroSyncro := 8

  /** Activity code to the slug the site uses in paths. */
  const Activities: map<int, string> := map[
    ActivityHgClass1 := "hang-gliding-class-1-xc",
    ActivityHgClass2 := "hang-gliding-class-2-xc",
    ActivityHgClass5 := "hang-gliding-class-5-xc",
    ActivityHgClass1Sport := "hang-gliding-class-1-sport-xc",
    ActivityPgXc := "paragliding-xc",
    ActivityPgAccuracy := "paragliding-accuracy",
    ActivityPgAcroSolo := "paragliding-aerobatics",
    ActivityPgAcroSyncro := "paragliding-acro-syncro"]

  /** `getActivity`: defined for the activity codes 1 to 8 (`ActivityCodes`). */
  function GetActivity(activity: int): (r: Result<string>)
    ensures r.Ok? <==> activity in Activities
    ensures r.Ok? ==> r.value == Activities[activity]
    ensures r.Err? ==> r.error == "Activity not recognized: " + Strings.IntToString(activity)
  {
    Lookups.Find(Activities, activity, "Activity not recognized: ")
  }

  /** The activity codes are 1 to 8. */
  lemma ActivityCodes()
    ensures forall a :: a in Activities <==> 1 <= a <= 8
  {
  }

  /** The discipline code of the same slug, for each activity code. */
  const ActivityDiscipline: map<int, int> := map[
    ActivityHgClass1 := Lookups.DisciplineHgClass1,
    ActivityHgClass2 := Lookups.DisciplineHgClass2,
    ActivityHgClass5 := Lookups.DisciplineHgClass5,
    ActivityHgClass1Sport := Lookups.DisciplineHgClass1Sport,
    ActivityPgXc := Lookups.DisciplinePgXc,
    ActivityPgAccuracy := Lookups.DisciplinePgAccuracy,
    ActivityPgAcroSolo := Lookups.DisciplinePgAcroSolo,
    ActivityPgAcroSyncro := Lookups.DisciplinePgAcroSyncro]

  /** The activities renumber the disciplines: each activity has the slug of one discipline. */
  lemma ActivitiesAreDisciplines()
    ensures ActivityDiscipline.Keys == Activities.Keys
    ensures forall a :: a in Activities ==>
              ActivityDiscipline[a] in Lookups.Disciplines && Activities[a] == Lookups.Disciplines[ActivityDiscipline[a]]
  {
  }

  /** No two activities share a slug. */
  lemma ActivitySlugsDistinct()
    ensures forall a, b :: a in Activities && b in Activities && Activities[a] == Activities[b] ==> a == b
  {
    forall a, b | a in Activities && b in Activities && Activities[a] == Activities[b]
      ensures a == b
    {
      var x, y := Activities[a], Activities[b];
      assert |x| == |y| && x[0] == y[0] && (|x| > 19 ==> x[19] == y[19]);
    }
  }

  /** No activity slug contains '/'. */
  lemma ActivitySlugsPlain()
    ensures forall a :: a in Activities ==> '/' !in Activities[a]
  {
    Lookups.DisciplineSlugsPlain();
    ActivitiesAreDisciplines();
  }

  /**
    `getPath`: the ranking URL, the activity slug and the endpoint name
    joined by '/'; the activity is looked up first.
   */
  function GetPath(activity: int, endpoint: int): (r: Result<string>)
    ensures r.Ok? <==> activity in Activities && endpoint in Lookups.Endpoints
    ensures r.Ok? ==> r.value == Lookups.UrlRanking + "/" + Activities[activity] + "/" + Lookups.Endpoints[endpoint]
    ensures activity !in Activities ==> r == Err("Activity not recognized: " + Strings.IntToString(activity))
    ensures activity in Activities && endpoint !in Lookups.Endpoints ==>
              r == Err("Endpoint not recognized: " + Strings.IntToString(endpoint))
  {
    var slug :- GetActivity(activity);
    var name :- Lookups.GetEndpoint(endpoint);
    Ok(Lookups.RankingPath(slug, name))
  }

  /** Different activities or endpoints never share a path. */
  lemma GetPathInjective(a1: int, e1: int, a2: int, e2: int)
    requires GetPath(a1, e1).Ok? && GetPath(a1, e1) == GetPath(a2, e2)
    ensures a1 == a2 && e1 == e2
  {
    ActivitySlugsDistinct();
    ActivitySlugsPlain();
    Lookups.EndpointNamesDistinct();
    Lookups.RankingPathInjective(Activities[a1], Lookups.Endpoints[e1], Activities[a2], Lookups.Endpoints[e2]);
  }

  const MetaKeys: seq<string> := ["endpoint", "activity", "ranking_date", "count", "version"]

  /**
    `getMeta`: as `Rank.GetMeta`, with the key 'activity' in place of
    'discipline'. The endpoint is looked up first.
   */
  function GetMeta(activity: int, endpoint: int): (r: Result<Values.Record>)
    ensures r.Ok? <==> activity in Activities && endpoint in Lookups.Endpoints
    ensures endpoint !in Lookups.Endpoints ==> r == Err("Endpoint not recognized: " + Strings.IntToString(endpoint))
    ensures r.Ok? ==> Values.Keys(r.value) == MetaKeys
    ensures r.Ok? ==> && r.value[0].1 == Values.Str(Lookups.Endpoints[endpoint])
                      && r.value[1].1 == Values.Str(Activities[activity])
                      && r.value[2].1 == Values.Null
                      && r.value[3].1 == Values.Int(0)
                      && r.value[4].1 == Values.Str(Lookups.ApiVersion)
  {
    var name :- Lookups.GetEndpoint(endpoint);
    var slug :- GetActivity(activity);
    Ok(Values.FromPairs(MetaKeys, [Values.Str(name), Values.Str(slug), Values.Null, Values.Int(0), Values.Str(Lookups.ApiVersion)]))
  }

  /** In a record with the meta keys, each key looked up by name gives the field at its position. */
  lemma MetaKeyLookup(m: Values.Record, i: int)
    requires Values.Keys(m) == MetaKeys && 0 <= i < |MetaKeys|
    ensures Values.Get(m, MetaKeys[i]) == Some(m[i].1)
  {
    assert forall j :: 0 <= j < i ==> |m[j].0| != |m[i].0| || m[j].0[0] != m[i].0[0];
    Values.GetFirst(m, i);
  }

  /** Each meta key, looked up by name, holds its field. */
  lemma MetaFields(activity: int, endpoint: int)
    requires GetMeta(activity, endpoint).Ok?
    ensures var m := GetMeta(activity, endpoint).value;
            && Values.Get(m, "endpoint") == Some(Values.Str(Lookups.Endpoints[endpoint]))
            && Values.Get(m, "activity") == Some(Values.Str(Activities[activity]))
            && Values.Get(m, "ranking_date") == Some(Values.Null)
            && Values.Get(m, "count") == Some(Values.Int(0))
            && Values.Get(m, "version") == Some(Values.Str(Lookups.ApiVersion))
  {
    var m := GetMeta(activity, endpoint).value;
    MetaKeyLookup(m, 0);
    MetaKeyLookup(m, 1);
    MetaKeyLookup(m, 2);
    MetaKeyLookup(m, 3);
    MetaKeyLookup(m, 4);
  }
}
