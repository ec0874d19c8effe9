/**
  The first-generation site helper (src/Web/System.php). It shares the
  discipline, region and scoring tables with the newer helpers, but names
  the endpoints by their class names and offers the display names, the
  ranking-date normalisation and the message format.
 */
module System {
  import opened Wrappers
  import Strings
  import Lookups
  import Dates

  const EndpointNamespace: string := "Wprs\\Api\\Web\\Endpoint\\"
  const EndpointPilots: string := EndpointNamespace + "Pilots\\Pilots"
  const EndpointNations: string := EndpointNamespace + "Nations\\Nations"
  const EndpointCompetition: string := EndpointNamespace + "Competition\\Competition"
  const EndpointCompetitions: string := EndpointNamespace + "Competitions\\Competitions"

  /** Endpoint class name to endpoint name. */
  const Endpoints: map<string, string> := map[
    EndpointPilots := "pilots",
    EndpointNations := "nations",
    EndpointCompetition := "competition",
    EndpointCompetitions := "competitions"]

  /** `getEndpoint`: defined for the four endpoint classes. */
  function GetEndpoint(endpoint: string): (r: Result<string>)
    ensures r.Ok? <==> endpoint in {EndpointPilots, EndpointNations, EndpointCompetition, EndpointCompetitions}
    ensures r.Ok? ==> r.value == Endpoints[endpoint]
    ensures r.Err? ==> r.error == "Endpoint not recognized: " + endpoint
  {
    if endpoint in Endpoints then Ok(Endpoints[endpoint]) else Err("Endpoint not recognized: " + endpoint)
  }

  /**
    `getPath`: the ranking URL, the discipline slug and the endpoint name
    joined by '/'; the discipline is looked up first.
   */
  function GetPath(discipline: int, endpoint: string): (r: Result<string>)
    ensures r.Ok? <==> discipline in Lookups.Disciplines && endpoint in Endpoints
    ensures r.Ok? ==> r.value == Lookups.UrlRanking + "/" + Lookups.Disciplines[discipline] + "/" + Endpoints[endpoint]
    ensures discipline !in Lookups.Disciplines ==> r == Err("Discipline not recognized: " + Strings.IntToString(discipline))
    ensures discipline in Lookups.Disciplines && endpoint !in Endpoints ==> r == Err("Endpoint not recognized: " + endpoint)
  {
    var slug :- Lookups.GetDiscipline(discipline);
    var name :- GetEndpoint(endpoint);
    Ok(Lookups.RankingPath(slug, name))
  }

  /** Different disciplines or endpoints never share a path. */
  lemma GetPathInjective(d1: int, e1: string, d2: int, e2: string)
    requires GetPath(d1, e1).Ok? && GetPath(d1, e1) == GetPath(d2, e2)
    ensures d1 == d2 && e1 == e2
  {
    Lookups.DisciplineSlugsDistinct();
    Lookups.DisciplineSlugsPlain();
    Lookups.RankingPathInjective(Lookups.Disciplines[d1], Endpoints[e1], Lookups.Disciplines[d2], Endpoints[e2]);
  }

  // ---------------------------------------------------------------------------
  // Display names
  // ---------------------------------------------------------------------------

  predicate EndsWithXc(s: string) {
    |s| >= 3 && s[|s| - 3..] == "-xc"
  }

  /** `substr(s, -n)`: the last `n` characters, or all of `s` when it is shorter. */
  function LastChars(s: string, n: nat): string {
    if |s| <= n then s else s[|s| - n..]
  }

  /**
    `getDisciplineForDisplay` as written: the acro-solo slug is renamed and
    PG_XC is kept, but for every other "-xc" slug the expression
    `substr($result, 0 -3)` is `substr($result, -3)`, which keeps the last
    three characters instead of removing them.
   */
  function GetDisciplineForDisplayAsWritten(discipline: int): (r: Result<string>)
    ensures r.Ok? <==> discipline in Lookups.Disciplines
    ensures (r.Ok? && discipline != Lookups.DisciplinePgXc && Lookups.Disciplines[discipline] != "paragliding-aerobatics"
             && EndsWithXc(Lookups.Disciplines[discipline])) ==> r.value == "-xc"
  {
    var result :- Lookups.GetDiscipline(discipline);
    if result == "paragliding-aerobatics" then Ok("paragliding-acro-solo")
    else if discipline != Lookups.DisciplinePgXc && LastChars(result, 3) == "-xc" then Ok(LastChars(result, 3))
    else Ok(result)
  }

  /**
    `getDisciplineForDisplay` as intended: the acro-solo slug is renamed,
    PG_XC is kept, and any other slug loses its "-xc" suffix.
   */
  function GetDisciplineForDisplay(discipline: int): (r: Result<string>)
    ensures r.Ok? <==> discipline in Lookups.Disciplines
    ensures r.Err? ==> r.error == "Discipline not recognized: " + Strings.IntToString(discipline)
    ensures r.Ok? && Lookups.Disciplines[discipline] == "paragliding-aerobatics" ==> r.value == "paragliding-acro-solo"
    ensures r.Ok? && discipline == Lookups.DisciplinePgXc ==> r.value == Lookups.Disciplines[discipline]
    ensures r.Ok? && discipline != Lookups.DisciplinePgXc && Lookups.Disciplines[discipline] != "paragliding-aerobatics" ==>
              if EndsWithXc(Lookups.Disciplines[discipline]) then r.value + "-xc" == Lookups.Disciplines[discipline]
              else r.value == Lookups.Disciplines[discipline]
  {
    var result :- Lookups.GetDiscipline(discipline);
    if result == "paragliding-aerobatics" then Ok("paragliding-acro-solo")
    else if discipline != Lookups.DisciplinePgXc && LastChars(result, 3) == "-xc" then
      assert result[..|result| - 3] + "-xc" == result;
      Ok(result[..|result| - 3])
    else Ok(result)
  }

  /** The display names of the hang-gliding classes: the slug without "-xc". */
  lemma HangGlidingDisplayNames()
    ensures GetDisciplineForDisplay(Lookups.DisciplineHgClass1) == Ok("hang-gliding-class-1")
    ensures GetDisciplineForDisplay(Lookups.DisciplineHgClass1Sport) == Ok("hang-gliding-class-1-sport")
    ensures GetDisciplineForDisplay(Lookups.DisciplineHgClass2) == Ok("hang-gliding-class-2")
    ensures GetDisciplineForDisplay(Lookups.DisciplineHgClass5) == Ok("hang-gliding-class-5")
  {
    assert "hang-gliding-class-1-xc"[..20] == "hang-gliding-class-1";
    assert "hang-gliding-class-1-sport-xc"[..26] == "hang-gliding-class-1-sport";
    assert "hang-gliding-class-2-xc"[..20] == "hang-gliding-class-2";
    assert "hang-gliding-class-5-xc"[..20] == "hang-gliding-class-5";
  }

  /** The display names of the paragliding disciplines: PG_XC kept, acro solo renamed, the rest as they are. */
  lemma ParaglidingDisplayNames()
    ensures GetDisciplineForDisplay(Lookups.DisciplinePgXc) == Ok("paragliding-xc")
    ensures GetDisciplineForDisplay(Lookups.DisciplinePgAccuracy) == Ok("paragliding-accuracy")
    ensures GetDisciplineForDisplay(Lookups.DisciplinePgAcroSolo) == Ok("paragliding-acro-solo")
    ensures GetDisciplineForDisplay(Lookups.DisciplinePgAcroSyncro) == Ok("paragliding-acro-syncro")
  {
  }

  /** The discipline a display name belongs to, told by its length and its last character. */
  function DisplayCode(name: string): int {
    if |name| == 26 then Lookups.DisciplineHgClass1Sport
    else if |name| == 14 then Lookups.DisciplinePgXc
    else if |name| == 21 then Lookups.DisciplinePgAcroSolo
    else if |name| == 23 then Lookups.DisciplinePgAcroSyncro
    else if |name| > 0 && name[|name| - 1] == '1' then Lookups.DisciplineHgClass1
    else if |name| > 0 && name[|name| - 1] == '2' then Lookups.DisciplineHgClass2
    else if |name| > 0 && name[|name| - 1] == '5' then Lookups.DisciplineHgClass5
    else Lookups.DisciplinePgAccuracy
  }

  /** Every hang-gliding class is recovered from its display name. */
  lemma HangGlidingDisplayCodes(d: int)
    requires d in {Lookups.DisciplineHgClass1, Lookups.DisciplineHgClass1Sport, Lookups.DisciplineHgClass2, Lookups.DisciplineHgClass5}
    ensures GetDisciplineForDisplay(d).Ok? && DisplayCode(GetDisciplineForDisplay(d).value) == d
  {
    var x := GetDisciplineForDisplay(d).value;
    if d == Lookups.DisciplineHgClass1 {
      assert x == "hang-gliding-class-1-xc"[..20];
    } else if d == Lookups.DisciplineHgClass1Sport {
      assert x == "hang-gliding-class-1-sport-xc"[..26];
    } else if d == Lookups.DisciplineHgClass2 {
      assert x == "hang-gliding-class-2-xc"[..20];
    } else {
      assert x == "hang-gliding-class-5-xc"[..20];
    }
  }

  /** Every paragliding discipline is recovered from its display name. */
  lemma ParaglidingDisplayCodes(d: int)
    requires d in {Lookups.DisciplinePgXc, Lookups.DisciplinePgAccuracy, Lookups.DisciplinePgAcroSolo, Lookups.DisciplinePgAcroSyncro}
    ensures GetDisciplineForDisplay(d).Ok? && DisplayCode(GetDisciplineForDisplay(d).value) == d
  {
    var x := GetDisciplineForDisplay(d).value;
    if d == Lookups.DisciplinePgXc {
      assert x == "paragliding-xc";
    } else if d == Lookups.DisciplinePgAccuracy {
      assert x == "paragliding-accuracy";
    } else if d == Lookups.DisciplinePgAcroSolo {
      assert x == "paragliding-acro-solo";
    } else {
      assert x == "paragliding-acro-syncro";
    }
  }

  /** Every discipline is recovered from its display name. */
  lemma DisplayCodeOfName(d: int)
    requires d in Lookups.Disciplines
    ensures GetDisciplineForDisplay(d).Ok? && DisplayCode(GetDisciplineForDisplay(d).value) == d
  {
    Lookups.DisciplineCodes();
    if d in {Lookups.DisciplineHgClass1, Lookups.DisciplineHgClass1Sport, Lookups.DisciplineHgClass2, Lookups.DisciplineHgClass5} {
      HangGlidingDisplayCodes(d);
    } else {
      ParaglidingDisplayCodes(d);
    }
  }

  /** The intended display names tell the disciplines apart. */
  lemma DisplayNamesDistinct(a: int, b: int)
    requires GetDisciplineForDisplay(a).Ok? && GetDisciplineForDisplay(a) == GetDisciplineForDisplay(b)
    ensures a == b
  {
    DisplayCodeOfName(a);
    DisplayCodeOfName(b);
  }

  /** As written, every hang-gliding class shows as "-xc", so different disciplines collide. */
  lemma DisplayAsWrittenCollides()
    ensures GetDisciplineForDisplayAsWritten(Lookups.DisciplineHgClass1) == Ok("-xc")
    ensures GetDisciplineForDisplayAsWritten(Lookups.DisciplineHgClass5) == Ok("-xc")
    ensures GetDisciplineForDisplay(Lookups.DisciplineHgClass1) != GetDisciplineForDisplayAsWritten(Lookups.DisciplineHgClass1)
  {
    HangGlidingDisplayNames();
  }

  // ---------------------------------------------------------------------------
  // Ranking date
  // ---------------------------------------------------------------------------

  /**
    `DateTime::createFromFormat('Y-m-d', s)`: up to four year digits, '-',
    one or two month digits, '-', one or two day digits, and nothing more.
    The fields are taken as they stand; `Dates.Normalize` rolls them over.
   */
  function ParseYmd(s: string): (r: Option<Dates.Date>)
    ensures r.Some? ==> exists y, m, d ::
              && 1 <= |y| <= 4 && 1 <= |m| <= 2 && 1 <= |d| <= 2
              && Strings.AllDigits(y) && Strings.AllDigits(m) && Strings.AllDigits(d)
              && s == y + "-" + m + "-" + d
              && r.value == Dates.Date(Strings.DigitsValue(y), Strings.DigitsValue(m), Strings.DigitsValue(d))
  {
    var p := Strings.Explode("-", s);
    if |p| == 3 && 1 <= |p[0]| <= 4 && 1 <= |p[1]| <= 2 && 1 <= |p[2]| <= 2
       && Strings.AllDigits(p[0]) && Strings.AllDigits(p[1]) && Strings.AllDigits(p[2]) then
      Strings.JoinThree("-", p);
      Some(Dates.Date(Strings.DigitsValue(p[0]), Strings.DigitsValue(p[1]), Strings.DigitsValue(p[2])))
    else None
  }

  /**
    `getRankingDate`: the first day of the month of the given date, or of
    today's date (a parameter here) when none is given; a text the parser
    refuses fails with "Invalid rankingDate: <text>". Out-of-range months
    and days roll over before the day is set to the first.
   */
  function GetRankingDate(rankingDate: Option<string>, today: Dates.Date): (r: Result<string>)
    requires Dates.Valid(today)
    ensures rankingDate.None? ==> r == Ok(Dates.FormatYmd(Dates.Date(today.year, today.month, 1)))
    ensures rankingDate.Some? ==> (r.Ok? <==> ParseYmd(rankingDate.value).Some?)
    ensures r.Err? ==> r.error == "Invalid rankingDate: " + rankingDate.GetOr("")
    ensures r.Ok? ==> exists dt :: Dates.Valid(dt) && dt.day == 1 && r.value == Dates.FormatYmd(dt)
  {
    var date :- match rankingDate
      case None => Ok(today)
      case Some(s) =>
        match ParseYmd(s)
        case None => Err("Invalid rankingDate: " + s)
        case Some(d) => Ok(Dates.Normalize(d.year, d.month, d.day));
    Ok(Dates.FormatYmd(Dates.Date(date.year, date.month, 1)))
  }

  /** The text of a written date splits at its two dashes. */
  lemma ExplodeYmd(y: string, m: string, d: string)
    requires Strings.AllDigits(y) && Strings.AllDigits(m) && Strings.AllDigits(d)
    ensures Strings.Explode("-", y + "-" + m + "-" + d) == [y, m, d]
  {
    assert Strings.Join("-", [y, m, d]) == y + "-" + m + "-" + d by {
      assert Strings.Join("-", [y, m, d][1..]) == m + "-" + d;
    }
    assert !Strings.IsDigit('-');
    Strings.ExplodeJoin('-', [y, m, d]);
  }

  /** The parser reads the three fields of a dashed text. */
  lemma ParseYmdOfFields(y: string, m: string, d: string)
    requires 1 <= |y| <= 4 && 1 <= |m| <= 2 && 1 <= |d| <= 2
    requires Strings.AllDigits(y) && Strings.AllDigits(m) && Strings.AllDigits(d)
    ensures ParseYmd(y + "-" + m + "-" + d) == Some(Dates.Date(Strings.DigitsValue(y), Strings.DigitsValue(m), Strings.DigitsValue(d)))
  {
    ExplodeYmd(y, m, d);
  }

  /** The parser reads back every written date in a four-digit year. */
  lemma ParseYmdOfFormat(dt: Dates.Date)
    requires Dates.Valid(dt) && 0 <= dt.year <= 9999
    ensures ParseYmd(Dates.FormatYmd(dt)) == Some(dt)
  {
    Dates.NatToStringShort(dt.year);
    Dates.NatToStringShort(dt.month);
    Dates.NatToStringShort(dt.day);
    Dates.PadNumberValue(dt.year, 4);
    Dates.PadNumberValue(dt.month, 2);
    Dates.PadNumberValue(dt.day, 2);
    var y, m, d := Dates.PadNumber(dt.year, 4), Dates.PadNumber(dt.month, 2), Dates.PadNumber(dt.day, 2);
    assert Dates.FormatYmd(dt) == y + "-" + m + "-" + d;
    ParseYmdOfFields(y, m, d);
  }

  /** A real date in a four-digit year gives the first of its month, e.g. 2023-04-25 gives 2023-04-01. */
  lemma RankingDateOfDate(dt: Dates.Date, today: Dates.Date)
    requires Dates.Valid(dt) && 0 <= dt.year <= 9999 && Dates.Valid(today)
    ensures GetRankingDate(Some(Dates.FormatYmd(dt)), today) == Ok(Dates.FormatYmd(Dates.Date(dt.year, dt.month, 1)))
  {
    ParseYmdOfFormat(dt);
    assert Dates.Normalize(dt.year, dt.month, dt.day) == dt;
  }

  // ---------------------------------------------------------------------------
  // Messages
  // ---------------------------------------------------------------------------

  /**
    `formatMessage`: the short class name (the text after the last
    backslash), ": " and the error.
   */
  function FormatMessage(className: string, error: string): (r: string)
    ensures exists name :: '\\' !in name && '/' !in name && r == name + ": " + error
  {
    var name := Strings.Basename(Strings.ReplaceChar(className, '\\', '/'));
    assert '\\' !in name by {
      var path := Strings.ReplaceChar(className, '\\', '/');
      assert '\\' !in path;
      assert forall i :: 0 <= i < |name| ==> name[i] in path;
    }
    name + ": " + error
  }

  /** A namespaced class name contributes its last segment. */
  lemma FormatMessageOfClass(ns: string, name: string, error: string)
    requires name != [] && '\\' !in name && '/' !in name
    ensures FormatMessage(ns + "\\" + name, error) == name + ": " + error
    ensures FormatMessage(name, error) == name + ": " + error
  {
    var path := Strings.ReplaceChar(ns + "\\" + name, '\\', '/');
    var nsPath := Strings.ReplaceChar(ns, '\\', '/');
    assert path == nsPath + "/" + name;
    assert Strings.ReplaceChar(name, '\\', '/') == name;
    Strings.BasenameOfPath(nsPath, name);
  }
}
