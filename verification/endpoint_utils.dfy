/**
  The small text helpers of the endpoints (src/Web/Endpoint/Utils.php):
  empty and numeric checks, plural words, count messages, error paths and
  splitting a cell text into a fixed number of trimmed pieces.
 */
module EndpointUtils {
  import opened Wrappers
  import Strings

  /** `isEmptyString`: null or of length zero. */
  function IsEmptyString(value: Option<string>): (b: bool)
    ensures b <==> value == None || value == Some("")
  {
    match value
    case None => true
    case Some(s) => |s| == 0
  }

  /**
    Digits, with at most one decimal point among them (`seenPoint` says
    whether one was already read).
   */
  predicate DecimalDigits(t: string, seenPoint: bool)
    decreases |t|
  {
    t == [] || ((Strings.IsDigit(t[0]) || (t[0] == '.' && !seenPoint)) && DecimalDigits(t[1..], seenPoint || t[0] == '.'))
  }

  /**
    `is_numeric` over the trimmed texts the parsers see: an optional sign,
    then digits with at most one decimal point and at least one digit.
   */
  predicate IsNumeric(value: string) {
    var t := if |value| > 0 && (value[0] == '+' || value[0] == '-') then value[1..] else value;
    |t| > 0 && t != "." && DecimalDigits(t, false)
  }

  /** A string of digits is decimal digits. */
  lemma {:induction false} DigitsAreDecimal(t: string, seenPoint: bool)
    requires Strings.AllDigits(t)
    ensures DecimalDigits(t, seenPoint)
    decreases |t|
  {
    if t != [] {
      DigitsAreDecimal(t[1..], seenPoint);
    }
  }

  /** Whole numbers written in decimal are numeric. */
  lemma NumeralIsNumeric(i: int)
    ensures IsNumeric(Strings.IntToString(i))
  {
    var s := Strings.IntToString(i);
    var t := if i < 0 then s[1..] else s;
    assert t == Strings.NatToString(if i < 0 then -i else i);
    DigitsAreDecimal(t, false);
    assert t[0] != '.';
  }

  /** `pluralize`: drop every trailing 's', then add one back unless the number is 1. */
  function Pluralize(value: string, number: int): (r: string)
    ensures number != 1 <==> |r| > 0 && r[|r| - 1] == 's'
    ensures number != 1 ==> r[..|r| - 1] == Strings.RTrim(value, {'s'})
    ensures number == 1 ==> r == Strings.RTrim(value, {'s'})
  {
    var stem := Strings.RTrim(value, {'s'});
    if number != 1 then
      assert (stem + "s")[..|stem|] == stem;
      stem + "s"
    else stem
  }

  /** Pluralising twice with the same number changes nothing. */
  lemma PluralizeIdempotent(value: string, number: int)
    ensures Pluralize(Pluralize(value, number), number) == Pluralize(value, number)
  {
    var stem := Strings.RTrim(value, {'s'});
    assert Strings.RTrim(stem, {'s'}) == stem;
    if number != 1 {
      assert Strings.RTrim(stem + "s", {'s'}) == Strings.RTrim(stem, {'s'}) by {
        assert (stem + "s")[..|stem + "s"| - 1] == stem;
      }
    }
  }

  /** A word differs from its plural only by the final 's'. */
  lemma PluralOfWord(word: string, number: int)
    requires |word| > 0 && word[|word| - 1] != 's'
    ensures Pluralize(word, 1) == word
    ensures number != 1 ==> Pluralize(word, number) == word + "s"
  {
  }

  /** `getCountMessage`: "<expected> <name> <type, plural unless one>, got <got>". */
  function GetCountMessage(expected: int, name: string, countType: string, got: int): string {
    Strings.IntToString(expected) + " " + name + " " + Pluralize(countType, expected) + ", got " + Strings.IntToString(got)
  }

  /** `makeDetailsError`: the path of a details field. */
  function MakeDetailsError(key: string): (r: string)
    ensures '/' !in key ==> Strings.Explode("/", r) == ["details", key]
  {
    var r := "details/" + key;
    if '/' !in key then
      assert Strings.Join("/", ["details", key]) == r;
      Strings.ExplodeJoin('/', ["details", key]);
      r
    else r
  }

  /** No decimal numeral contains '/'. */
  lemma NumeralHasNoSlash(i: int)
    ensures '/' !in Strings.IntToString(i)
  {
    var s := Strings.IntToString(i);
    var digits := Strings.NatToString(if i < 0 then -i else i);
    assert !Strings.IsDigit('/');
    assert forall k :: 0 <= k < |s| ==> s[k] == '-' || s[k] in digits;
  }

  /** `makeItemError`: the path of a field of the item at `index`. */
  function MakeItemError(key: string, index: int): (r: string)
    ensures '/' !in key ==> Strings.Explode("/", r) == ["items", Strings.IntToString(index), key]
  {
    var n := Strings.IntToString(index);
    var r := "items/" + n + "/" + key;
    if '/' !in key then
      NumeralHasNoSlash(index);
      assert r == "items" + "/" + n + "/" + key;
      Strings.ExplodeThree('/', "items", n, key);
      r
    else r
  }

  /** `trim` applied to every piece. */
  function TrimAll(parts: seq<string>): (r: seq<string>)
    ensures |r| == |parts| && forall k :: 0 <= k < |parts| ==> r[k] == Strings.Trim(parts[k])
  {
    seq(|parts|, k requires 0 <= k < |parts| => Strings.Trim(parts[k]))
  }

  /**
    `split`: the trimmed pieces between the separators when there are
    exactly `expected` of them, and null otherwise.
   */
  function Split(separator: string, value: string, expected: int): (r: Option<seq<string>>)
    requires |separator| > 0
    ensures r.Some? <==> |Strings.Explode(separator, value)| == expected
    ensures r.Some? ==> |r.value| == expected
                        && forall k :: 0 <= k < expected ==> r.value[k] == Strings.Trim(Strings.Explode(separator, value)[k])
    ensures expected < 1 ==> r.None?
  {
    var result := TrimAll(Strings.Explode(separator, value));
    if |result| != expected then None else Some(result)
  }

  /** Splitting trimmed pieces joined by a one-character separator gives them back. */
  lemma SplitJoin(c: char, parts: seq<string>)
    requires |parts| >= 1
    requires forall k :: 0 <= k < |parts| ==> c !in parts[k] && Strings.IsTrimmed(parts[k])
    ensures Split([c], Strings.Join([c], parts), |parts|) == Some(parts)
  {
    Strings.ExplodeJoin(c, parts);
    assert TrimAll(parts) == parts by {
      forall k | 0 <= k < |parts| ensures Strings.Trim(parts[k]) == parts[k] {
        Strings.TrimOfTrimmed(parts[k]);
      }
    }
  }
}
