/**
  The request parameters of the competitions list
  (src/Web/Endpoint/Competitions/CompetitionsParams.php): there is nothing
  to configure, so both results depend only on the ranking date.
 */
module CompetitionsParams {
  import opened Wrappers
  import Values

  /** `getQueryParams`: only the ranking date, unchanged. */
  function GetQueryParams(rankingDate: string): (r: Values.Record)
    ensures Values.Keys(r) == ["rankingDate"]
    ensures Values.Get(r, "rankingDate") == Some(Values.Str(rankingDate))
  {
    [("rankingDate", Values.Str(rankingDate))]
  }

  /** `getDetails`: always empty. */
  function GetDetails(): (r: Values.Record)
    ensures |r| == 0
  {
    []
  }
}
