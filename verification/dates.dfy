/**
  The slice of date handling the system relies on: reading "Y-m-d" and the
  site's "Mmm d, Y" dates, the date library's roll-over of out-of-range
  months and days, and writing "Y-m-d".

  The date library accepts a month or day outside its range and rolls it
  over (month 13 is January of the next year, February 30 is March 1 or 2,
  day 0 is the last day of the previous month); `Normalize` does the same.
 */
module Dates {
  import opened Wrappers
  import Strings

  datatype Date = Date(year: int, month: int, day: int)

  predicate IsLeap(y: int) {
    (y % 4 == 0 && y % 100 != 0) || y % 400 == 0
  }

  function DaysInMonth(y: int, m: int): (n: nat)
    requires 1 <= m <= 12
    ensures 28 <= n <= 31
  {
    if m == 2 then (if IsLeap(y) then 29 else 28)
    else if m == 4 || m == 6 || m == 9 || m == 11 then 30
    else 31
  }

  /** A real calendar date. */
  predicate Valid(d: Date) {
    1 <= d.month <= 12 && 1 <= d.day <= DaysInMonth(d.year, d.month)
  }

  /** Day `d` counted from the first of month `m` (1..12) of year `y`, rolled into a real date. */
  function RollDays(y: int, m: int, d: int): (r: Date)
    requires 1 <= m <= 12
    ensures Valid(r)
    ensures 1 <= d <= DaysInMonth(y, m) ==> r == Date(y, m, d)
    decreases if d < 1 then 1 else 0, if d < 1 then 1 - d else d
  {
    if d < 1 then
      var (py, pm) := if m == 1 then (y - 1, 12) else (y, m - 1);
      RollDays(py, pm, d + DaysInMonth(py, pm))
    else if d > DaysInMonth(y, m) then
      var (ny, nm) := if m == 12 then (y + 1, 1) else (y, m + 1);
      RollDays(ny, nm, d - DaysInMonth(y, m))
    else Date(y, m, d)
  }

  /** The real date the library makes of year `y`, month `m`, day `d`: months roll first, then days. */
  function Normalize(y: int, m: int, d: int): (r: Date)
    ensures Valid(r)
    ensures Valid(Date(y, m, d)) ==> r == Date(y, m, d)
  {
    RollDays(y + (m - 1) / 12, (m - 1) % 12 + 1, d)
  }

  /** February 30 of a common year is March 2; month 13 is January of the next year. */
  lemma NormalizeExamples()
    ensures Normalize(2023, 2, 30) == Date(2023, 3, 2)
    ensures Normalize(2023, 13, 5) == Date(2024, 1, 5)
    ensures Normalize(2023, 3, 0) == Date(2023, 2, 28)
  {
  }

  // ---------------------------------------------------------------------------
  // Writing
  // ---------------------------------------------------------------------------

  /** A number written with at least `width` digits, zero-padded. */
  function PadNumber(n: nat, width: nat): (s: string)
    ensures |s| >= width && Strings.AllDigits(s)
  {
    Strings.PadLeft(Strings.NatToString(n), width, '0')
  }

  /** The 'Y' format: at least four digits, with a minus sign before year 0. */
  function FormatYear(y: int): string {
    if y < 0 then "-" + PadNumber(-y, 4) else PadNumber(y, 4)
  }

  /** The 'Y-m-d' format. */
  function FormatYmd(d: Date): string
    requires Valid(d)
  {
    FormatYear(d.year) + "-" + PadNumber(d.month, 2) + "-" + PadNumber(d.day, 2)
  }

  // ---------------------------------------------------------------------------
  // Reading "Y-m-d"
  // ---------------------------------------------------------------------------

  /** Ten characters: four digits, '-', two digits, '-', two digits. */
  predicate IsIsoShape(s: string) {
    && |s| == 10 && s[4] == '-' && s[7] == '-'
    && Strings.AllDigits(s[..4]) && Strings.AllDigits(s[5..7]) && Strings.AllDigits(s[8..])
  }

  /** The year, month and day fields of a "yyyy-mm-dd" text, if it has that shape. */
  function ParseIso(s: string): (r: Option<Date>)
    ensures r.Some? <==> IsIsoShape(s)
  {
    if IsIsoShape(s) then
      Some(Date(Strings.DigitsValue(s[..4]), Strings.DigitsValue(s[5..7]), Strings.DigitsValue(s[8..])))
    else None
  }

  /** Leading zeros do not change the value of a numeral. */
  lemma {:induction false} DigitsValueLeadingZeros(k: nat, s: string)
    requires Strings.AllDigits(s)
    ensures Strings.AllDigits(Strings.Repeat('0', k) + s)
    ensures Strings.DigitsValue(Strings.Repeat('0', k) + s) == Strings.DigitsValue(s)
    decreases |s|, k
  {
    var z := Strings.Repeat('0', k);
    var t := z + s;
    assert Strings.AllDigits(t) by {
      forall i | 0 <= i < |t| ensures Strings.IsDigit(t[i]) {
        if i >= k { assert t[i] == s[i - k]; }
      }
    }
    if s == [] {
      if k > 0 {
        assert t[..|t| - 1] == Strings.Repeat('0', k - 1);
        DigitsValueLeadingZeros(k - 1, []);
        assert Strings.Repeat('0', k - 1) + [] == Strings.Repeat('0', k - 1);
      }
    } else {
      assert t[..|t| - 1] == z + s[..|s| - 1];
      DigitsValueLeadingZeros(k, s[..|s| - 1]);
    }
  }

  /** A number below 10^w is written in at most w digits (for w = 2 and 4). */
  lemma NatToStringShort(n: nat)
    ensures n < 100 ==> |Strings.NatToString(n)| <= 2
    ensures n < 10000 ==> |Strings.NatToString(n)| <= 4
  {
    if n >= 10 {
      var a := n / 10;
      NatToStringStep(n);
      if a >= 10 {
        var b := a / 10;
        NatToStringStep(a);
        if b >= 10 {
          NatToStringStep(b);
          assert n < 10000 ==> b / 10 < 10;
        }
      }
    }
  }

  /** A number of two or more digits is one digit longer than its tenth. */
  lemma NatToStringStep(n: nat)
    requires n >= 10
    ensures |Strings.NatToString(n)| == |Strings.NatToString(n / 10)| + 1
  {
  }

  /** Zero-padding to a width the number fits in keeps its value and gives exactly that width. */
  lemma PadNumberValue(n: nat, width: nat)
    requires |Strings.NatToString(n)| <= width
    ensures |PadNumber(n, width)| == width
    ensures Strings.DigitsValue(PadNumber(n, width)) == n
  {
    var s := Strings.NatToString(n);
    DigitsValueLeadingZeros(width - |s|, s);
  }

  /** The slices of "yyyy-mm-dd" built from its three fields. */
  lemma IsoSlices(y: string, m: string, dd: string)
    requires |y| == 4 && |m| == 2 && |dd| == 2
    requires Strings.AllDigits(y) && Strings.AllDigits(m) && Strings.AllDigits(dd)
    ensures var s := y + "-" + m + "-" + dd;
            IsIsoShape(s) && s[..4] == y && s[5..7] == m && s[8..] == dd
  {
    var s := y + "-" + m + "-" + dd;
    assert s[..4] == y && s[5..7] == m && s[8..] == dd;
  }

  /** Reading back a written date gives the date, for the years four digits can hold. */
  lemma ParseFormatIso(d: Date)
    requires Valid(d) && 0 <= d.year <= 9999
    ensures ParseIso(FormatYmd(d)) == Some(d)
  {
    NatToStringShort(d.year);
    NatToStringShort(d.month);
    NatToStringShort(d.day);
    PadNumberValue(d.year, 4);
    PadNumberValue(d.month, 2);
    PadNumberValue(d.day, 2);
    var y, m, dd := PadNumber(d.year, 4), PadNumber(d.month, 2), PadNumber(d.day, 2);
    assert FormatYmd(d) == y + "-" + m + "-" + dd;
    IsoSlices(y, m, dd);
  }

  // ---------------------------------------------------------------------------
  // Reading the site's "Mmm d, Y" dates
  // ---------------------------------------------------------------------------

  const MonthNames: seq<string> := ["Jan", "Feb", "Mar", "Apr", "May", "Jun", "Jul", "Aug", "Sep", "Oct", "Nov", "Dec"]

  predicate IsUpper(c: char) { 'A' <= c <= 'Z' }
  predicate IsLowerLetter(c: char) { 'a' <= c <= 'z' }

  /**
    The pattern `^[A-Z][a-z]{2}\s\d{1,2},\s\d{4}$` with a space for each
    `\s`: three letters, a space, one or two digits, a comma, a space and
    four digits.
   */
  predicate MatchesSitePattern(s: string) {
    && (|s| == 11 || |s| == 12)
    && IsUpper(s[0]) && IsLowerLetter(s[1]) && IsLowerLetter(s[2]) && s[3] == ' '
    && var n := |s| - 10;
       && Strings.AllDigits(s[4..4 + n]) && s[4 + n] == ',' && s[5 + n] == ' '
       && Strings.AllDigits(s[6 + n..])
  }

  /** Every month name is an upper-case letter and two lower-case ones. */
  lemma MonthNameShape(name: string)
    requires name in MonthNames
    ensures |name| == 3 && IsUpper(name[0]) && IsLowerLetter(name[1]) && IsLowerLetter(name[2])
  {
  }

  /** The position of `name` in `names`, if it occurs. */
  function PositionOf(names: seq<string>, name: string): (r: Option<nat>)
    ensures r.Some? ==> r.value < |names| && names[r.value] == name
    ensures r.None? <==> name !in names
    decreases |names|
  {
    if names == [] then None
    else if names[0] == name then Some(0)
    else match PositionOf(names[1..], name)
      case None => None
      case Some(i) => Some(i + 1)
  }

  /**
    The date library's month table also holds the roman numerals i to xii.
    Its lookup ignores case, so the three-letter ones pass the site pattern
    when written with a capital: "Iii", "Vii" and "Xii". The table's longer
    entries (full names, "Sept") never fit the pattern's three letters.
   */
  predicate IsRomanMonth(name: string) {
    |name| == 3 && (name[0] == 'I' || name[0] == 'V' || name[0] == 'X') && name[1] == 'i' && name[2] == 'i'
  }

  /** The month a three-letter roman numeral stands for. */
  function RomanMonth(name: string): (m: int)
    requires IsRomanMonth(name)
  {
    if name[0] == 'I' then 3 else if name[0] == 'V' then 7 else 12
  }

  /**
    The 1-based month the 'M' format reads from a three-letter name: one of
    the twelve abbreviations, or a roman numeral from the same table.
   */
  function MonthNumber(name: string): (r: Option<int>)
    ensures r.Some? ==> 1 <= r.value <= 12
    ensures name in MonthNames ==> r.Some? && MonthNames[r.value - 1] == name
    ensures name !in MonthNames && IsRomanMonth(name) ==> r == Some(RomanMonth(name))
    ensures r.None? <==> name !in MonthNames && !IsRomanMonth(name)
  {
    match PositionOf(MonthNames, name)
    case None => if IsRomanMonth(name) then Some(RomanMonth(name)) else None
    case Some(i) =>
      assert MonthNames[i] == name;
      Some(i + 1)
  }

  /** No abbreviation is a roman numeral: they begin with different letters. */
  lemma RomanIsNoAbbreviation(name: string)
    requires IsRomanMonth(name)
    ensures name !in MonthNames
  {
    assert forall j :: 0 <= j < |MonthNames| ==> MonthNames[j][0] != name[0];
  }

  /** The three roman numerals read as March, July and December. */
  lemma RomanMonthNumbers()
    ensures MonthNumber("Iii") == Some(3) && MonthNumber("Vii") == Some(7) && MonthNumber("Xii") == Some(12)
  {
    RomanIsNoAbbreviation("Iii");
    RomanIsNoAbbreviation("Vii");
    RomanIsNoAbbreviation("Xii");
  }

  /** Month names are distinct, so the month of the name of month m is m. */
  lemma MonthNumberOfName(m: int)
    requires 1 <= m <= 12
    ensures MonthNumber(MonthNames[m - 1]) == Some(m)
  {
    assert forall i, j :: 0 <= i < j < |MonthNames| ==> MonthNames[i] != MonthNames[j];
  }

  /**
    The `formatDate` of both competition parsers: a text matching the
    pattern and naming a month is read as month, day and year, rolled into a
    real date and written as "Y-m-d"; anything else fails with
    "Unexpected <type> date value: <text>".
   */
  function FormatSiteDate(date: string, dateType: string): (r: Result<string>)
    ensures r.Ok? <==> MatchesSitePattern(date) && MonthNumber(date[..3]).Some?
    ensures r.Err? ==> r.error == "Unexpected " + dateType + " date value: " + date
    ensures r.Ok? ==> exists d :: Valid(d) && r.value == FormatYmd(d)
  {
    var error := "Unexpected " + dateType + " date value: " + date;
    if !MatchesSitePattern(date) then Err(error)
    else match MonthNumber(date[..3])
      case None => Err(error)
      case Some(m) =>
        var n := |date| - 10;
        var d := Normalize(Strings.DigitsValue(date[6 + n..]), m, Strings.DigitsValue(date[4..4 + n]));
        Ok(FormatYmd(d))
  }

  /** How the site shows a date: "Mmm d, yyyy" with the day unpadded. */
  function SiteText(d: Date): string
    requires Valid(d)
  {
    MonthNames[d.month - 1] + " " + Strings.NatToString(d.day) + ", " + FormatYear(d.year)
  }

  /** The slices of "Mmm d, yyyy" built from its three fields. */
  lemma SiteSlices(name: string, day: string, year: string)
    requires |name| == 3 && IsUpper(name[0]) && IsLowerLetter(name[1]) && IsLowerLetter(name[2])
    requires 1 <= |day| <= 2 && |year| == 4
    requires Strings.AllDigits(day) && Strings.AllDigits(year)
    ensures var s := name + " " + day + ", " + year;
            && MatchesSitePattern(s) && s[..3] == name
            && s[4..4 + |day|] == day && s[6 + |day|..] == year
  {
    var s := name + " " + day + ", " + year;
    var n := |day|;
    assert |s| == 10 + n;
    assert s[..3] == name && s[4..4 + n] == day && s[6 + n..] == year;
    assert s[4 + n] == ',' && s[5 + n] == ' ' && s[3] == ' ';
    assert s[0] == name[0] && s[1] == name[1] && s[2] == name[2];
  }

  /** A text matching the pattern whose fields name a real date is converted to that date's "Y-m-d". */
  lemma FormatSiteDateOfSlices(s: string, dateType: string, d: Date)
    requires MatchesSitePattern(s) && MonthNumber(s[..3]) == Some(d.month) && Valid(d)
    requires Strings.DigitsValue(s[6 + (|s| - 10)..]) == d.year
    requires Strings.DigitsValue(s[4..4 + (|s| - 10)]) == d.day
    ensures FormatSiteDate(s, dateType) == Ok(FormatYmd(d))
  {
    assert Normalize(d.year, d.month, d.day) == d;
  }

  /** "Mmm d, yyyy" built from the fields of a real date matches the pattern, names its month, and holds its day and year. */
  lemma SiteFields(name: string, day: string, year: string, d: Date)
    requires Valid(d) && name == MonthNames[d.month - 1] && 1 <= |day| <= 2 && |year| == 4
    requires Strings.AllDigits(day) && Strings.AllDigits(year)
    requires Strings.DigitsValue(day) == d.day && Strings.DigitsValue(year) == d.year
    ensures var s := name + " " + day + ", " + year;
            && MatchesSitePattern(s) && MonthNumber(s[..3]) == Some(d.month)
            && Strings.DigitsValue(s[6 + (|s| - 10)..]) == d.year
            && Strings.DigitsValue(s[4..4 + (|s| - 10)]) == d.day
  {
    var s := name + " " + day + ", " + year;
    MonthNameShape(name);
    SiteSlices(name, day, year);
    MonthNumberOfName(d.month);
    var n := |s| - 10;
    assert n == |day|;
    assert s[6 + n..] == year && s[4..4 + n] == day && s[..3] == name;
  }

  /** A year of at most four digits is written as exactly four digits that read back as the year. */
  lemma YearField(y: int)
    requires 0 <= y <= 9999
    ensures |FormatYear(y)| == 4 && Strings.AllDigits(FormatYear(y)) && Strings.DigitsValue(FormatYear(y)) == y
  {
    NatToStringShort(y);
    PadNumberValue(y, 4);
  }

  /** Every real date the site shows, in a four-digit year, is converted to its "Y-m-d". */
  lemma FormatSiteDateOfSiteText(d: Date, dateType: string)
    requires Valid(d) && 0 <= d.year <= 9999
    ensures FormatSiteDate(SiteText(d), dateType) == Ok(FormatYmd(d))
  {
    YearField(d.year);
    NatToStringShort(d.day);
    var name, day, year := MonthNames[d.month - 1], Strings.NatToString(d.day), FormatYear(d.year);
    var s := SiteText(d);
    assert s == name + " " + day + ", " + year;
    SiteFields(name, day, year, d);
    FormatSiteDateOfSlices(s, dateType, d);
  }

  /** The roman numeral of March, July or December, as it passes the site pattern. */
  function RomanName(m: int): (name: string)
    requires m == 3 || m == 7 || m == 12
    ensures IsRomanMonth(name) && RomanMonth(name) == m
  {
    [if m == 3 then 'I' else if m == 7 then 'V' else 'X', 'i', 'i']
  }

  /**
    A real date of March, July or December written with the roman numeral
    of its month in place of the abbreviation is converted to its "Y-m-d"
    as well.
   */
  lemma FormatSiteDateOfRomanText(d: Date, dateType: string)
    requires Valid(d) && 0 <= d.year <= 9999 && (d.month == 3 || d.month == 7 || d.month == 12)
    ensures FormatSiteDate(RomanName(d.month) + " " + Strings.NatToString(d.day) + ", " + FormatYear(d.year), dateType)
            == Ok(FormatYmd(d))
  {
    YearField(d.year);
    NatToStringShort(d.day);
    var name, day, year := RomanName(d.month), Strings.NatToString(d.day), FormatYear(d.year);
    var s := name + " " + day + ", " + year;
    SiteSlices(name, day, year);
    RomanIsNoAbbreviation(name);
    var n := |s| - 10;
    assert n == |day|;
    assert s[6 + n..] == year && s[4..4 + n] == day && s[..3] == name;
    FormatSiteDateOfSlices(s, dateType, d);
  }
}
