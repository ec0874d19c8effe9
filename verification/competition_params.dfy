/**
  The request parameters of one competition
  (src/Web/Endpoint/Competition/CompetitionParams.php): the competition id,
  stored without any check.
 */
module CompetitionParams {
  import Strings
  import Values

  datatype CompetitionParams = CompetitionParams(id: int)

  /** `getQueryParams`: exactly the ranking date and the id as a decimal string. */
  function GetQueryParams(p: CompetitionParams, rankingDate: string): (r: Values.Record)
    ensures Values.Keys(r) == ["rankingDate", "id"]
    ensures r[0].1 == Values.Str(rankingDate) && r[1].1 == Values.Str(Strings.IntToString(p.id))
  {
    [("rankingDate", Values.Str(rankingDate)), ("id", Values.Str(Strings.IntToString(p.id)))]
  }

  /** `getDetails`: exactly the id. */
  function GetDetails(p: CompetitionParams): (r: Values.Record)
    ensures r == [("id", Values.Int(p.id))]
  {
    [("id", Values.Int(p.id))]
  }

  /** The query names the competition: different ids never give the same query. */
  lemma QueryDeterminesId(a: CompetitionParams, b: CompetitionParams, rankingDate: string)
    requires GetQueryParams(a, rankingDate) == GetQueryParams(b, rankingDate)
    ensures a == b
  {
    assert GetQueryParams(a, rankingDate)[1] == GetQueryParams(b, rankingDate)[1];
    Strings.IntToStringInjective(a.id, b.id);
  }
}
