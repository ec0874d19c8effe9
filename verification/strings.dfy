/**
  The PHP string built-ins the system relies on, as pure functions over
  `string`: `trim`/`rtrim`/`ltrim`, `strpos`, `explode`/`implode`, decimal
  formatting of integers (`%d`, `(string)`), `strtolower` and `ucfirst`.
  PHP strings are byte strings; the model keeps them as `string` and only the
  percent-encoder looks at the bytes themselves.
 */
module Strings {
  import opened Wrappers

  /** The characters `trim` strips by default: space, tab, LF, CR, NUL, VT. */
  const PhpWhitespace: set<char> := {' ', '\t', '\n', '\r', '\0', '\U{B}'}

  // ---------------------------------------------------------------------------
  // Trimming
  // ---------------------------------------------------------------------------

  /** `rtrim(s, cs)`: drop the longest suffix made of characters in `cs`. */
  function RTrim(s: string, cs: set<char>): (r: string)
    ensures r <= s
    ensures r == [] || r[|r| - 1] !in cs
    ensures forall i :: |r| <= i < |s| ==> s[i] in cs
    decreases |s|
  {
    if |s| > 0 && s[|s| - 1] in cs then RTrim(s[..|s| - 1], cs) else s
  }

  /** `ltrim(s, cs)`: drop the longest prefix made of characters in `cs`. */
  function LTrim(s: string, cs: set<char>): (r: string)
    ensures |r| <= |s| && r == s[|s| - |r|..]
    ensures r == [] || r[0] !in cs
    ensures forall i :: 0 <= i < |s| - |r| ==> s[i] in cs
    decreases |s|
  {
    if |s| > 0 && s[0] in cs then LTrim(s[1..], cs) else s
  }

  /** No whitespace at either end. */
  predicate IsTrimmed(s: string) {
    s == [] || (s[0] !in PhpWhitespace && s[|s| - 1] !in PhpWhitespace)
  }

  /** `trim(s)`: what is left after removing whitespace at both ends. */
  function Trim(s: string): (r: string)
    ensures IsTrimmed(r)
    ensures |r| <= |s|
  {
    RTrim(LTrim(s, PhpWhitespace), PhpWhitespace)
  }

  /** The result of `trim` is a slice of its argument with only whitespace cut off. */
  lemma TrimIsSlice(s: string)
    ensures exists a, b :: 0 <= a <= b <= |s| && Trim(s) == s[a..b]
                          && (forall i :: 0 <= i < a ==> s[i] in PhpWhitespace)
                          && (forall i :: b <= i < |s| ==> s[i] in PhpWhitespace)
  {
    var l := LTrim(s, PhpWhitespace);
    var r := RTrim(l, PhpWhitespace);
    var a := |s| - |l|;
    var b := a + |r|;
    assert r == s[a..b];
    forall i | b <= i < |s|
      ensures s[i] in PhpWhitespace
    {
      assert s[i] == l[i - a];
    }
  }

  /** Trimming a string that has no whitespace at its ends changes nothing. */
  lemma TrimOfTrimmed(s: string)
    requires IsTrimmed(s)
    ensures Trim(s) == s
  {
  }

  /** `trim` is idempotent. */
  lemma TrimIdempotent(s: string)
    ensures Trim(Trim(s)) == Trim(s)
  {
    TrimOfTrimmed(Trim(s));
  }

  // ---------------------------------------------------------------------------
  // Searching
  // ---------------------------------------------------------------------------

  /** `sub` occurs in `s` starting at position `j`. */
  predicate OccursAt(s: string, sub: string, j: int) {
    0 <= j && j + |sub| <= |s| && s[j..j + |sub|] == sub
  }

  /** The first occurrence of `sub` in `s` at or after `from`. */
  function IndexOfFrom(s: string, sub: string, from: nat): (r: Option<nat>)
    requires from <= |s|
    ensures r.Some? ==> from <= r.value && OccursAt(s, sub, r.value)
    ensures r.Some? ==> forall j :: from <= j < r.value ==> !OccursAt(s, sub, j)
    ensures r.None? ==> forall j :: from <= j ==> !OccursAt(s, sub, j)
    decreases |s| - from
  {
    if OccursAt(s, sub, from) then Some(from)
    else if from == |s| then None
    else IndexOfFrom(s, sub, from + 1)
  }

  /** `strpos(s, sub)`: the first occurrence of `sub` in `s`, if any. */
  function IndexOf(s: string, sub: string): (r: Option<nat>)
    ensures r.Some? ==> OccursAt(s, sub, r.value)
                        && forall j :: 0 <= j < r.value ==> !OccursAt(s, sub, j)
    ensures r.None? ==> forall j :: !OccursAt(s, sub, j)
  {
    IndexOfFrom(s, sub, 0)
  }

  /** `strpos(s, sub) !== false`. */
  predicate Contains(s: string, sub: string) {
    IndexOf(s, sub).Some?
  }

  /** A one-character needle is found exactly when the character occurs. */
  lemma ContainsChar(s: string, c: char)
    ensures Contains(s, [c]) <==> c in s
  {
    if c in s {
      var j :| 0 <= j < |s| && s[j] == c;
      assert OccursAt(s, [c], j);
    }
    if Contains(s, [c]) {
      var j := IndexOf(s, [c]).value;
      assert s[j..j + 1] == [c];
      assert s[j] == c;
    }
  }

  // ---------------------------------------------------------------------------
  // explode / implode
  // ---------------------------------------------------------------------------

  /** `implode(sep, parts)`. */
  function Join(sep: string, parts: seq<string>): string
    decreases |parts|
  {
    if |parts| == 0 then ""
    else if |parts| == 1 then parts[0]
    else parts[0] + sep + Join(sep, parts[1..])
  }

  /** In `a + [c] + b` with `c` absent from `a`, the first `c` is at `|a|`. */
  lemma FirstSeparator(a: string, b: string, c: char)
    requires c !in a
    ensures (a + [c] + b)[|a|] == c
    ensures forall k :: 0 <= k < |a| ==> (a + [c] + b)[k] != c
  {
    assert forall k :: 0 <= k < |a| ==> (a + [c] + b)[k] == a[k];
  }

  /** A separator absent from the first part marks a unique split point. */
  lemma SplitAtUnique(a1: string, b1: string, a2: string, b2: string, c: char)
    requires c !in a1 && c !in a2
    requires a1 + [c] + b1 == a2 + [c] + b2
    ensures a1 == a2 && b1 == b2
  {
    var s := a1 + [c] + b1;
    FirstSeparator(a1, b1, c);
    FirstSeparator(a2, b2, c);
    assert |a1| == |a2|;
    assert a1 == s[..|a1|] == a2;
    assert b1 == s[|a1| + 1..] == b2;
  }

  /** Nothing in the prefix before the first occurrence contains the needle. */
  lemma PrefixBeforeFirstOccurrence(s: string, sep: string, i: nat)
    requires |sep| > 0
    requires OccursAt(s, sep, i)
    requires forall j :: 0 <= j < i ==> !OccursAt(s, sep, j)
    ensures !Contains(s[..i], sep)
  {
    var p := s[..i];
    forall j | OccursAt(p, sep, j)
      ensures j < i && OccursAt(s, sep, j)
    {
      assert p[j..j + |sep|] == s[j..j + |sep|];
    }
  }

  /**
    `explode(sep, s)`: the pieces between the left-to-right occurrences of
    `sep`. Gluing them back with `sep` gives `s`, and no piece contains `sep`.
   */
  function Explode(sep: string, s: string): (r: seq<string>)
    requires |sep| > 0
    ensures |r| >= 1
    ensures Join(sep, r) == s
    ensures forall k :: 0 <= k < |r| ==> !Contains(r[k], sep)
    decreases |s|
  {
    match IndexOf(s, sep)
    case None =>
      [s]
    case Some(i) =>
      var rest := Explode(sep, s[i + |sep|..]);
      PrefixBeforeFirstOccurrence(s, sep, i);
      assert s == s[..i] + sep + s[i + |sep|..];
      [s[..i]] + rest
  }

  /** The first occurrence of a single character lies just after a prefix free of it. */
  lemma IndexOfAfterPrefix(a: string, c: char, b: string)
    requires c !in a
    ensures IndexOf(a + [c] + b, [c]) == Some(|a|)
  {
    var s := a + [c] + b;
    assert OccursAt(s, [c], |a|);
    forall j | 0 <= j < |a|
      ensures !OccursAt(s, [c], j)
    {
      assert s[j] == a[j];
    }
  }

  /** A string free of the character `c` has no occurrence of `[c]`. */
  lemma IndexOfAbsent(a: string, c: char)
    requires c !in a
    ensures IndexOf(a, [c]) == None
  {
    ContainsChar(a, c);
  }

  /**
    Splitting on a one-character separator undoes joining with it, as long as
    no part contains that character.
   */
  lemma {:induction false} ExplodeJoin(c: char, parts: seq<string>)
    requires |parts| >= 1
    requires forall k :: 0 <= k < |parts| ==> c !in parts[k]
    ensures Explode([c], Join([c], parts)) == parts
    decreases |parts|
  {
    if |parts| == 1 {
      IndexOfAbsent(parts[0], c);
    } else {
      var rest := Join([c], parts[1..]);
      assert Join([c], parts) == parts[0] + [c] + rest;
      IndexOfAfterPrefix(parts[0], c, rest);
      var s := parts[0] + [c] + rest;
      assert s[|parts[0]| + 1..] == rest;
      assert s[..|parts[0]|] == parts[0];
      ExplodeJoin(c, parts[1..]);
      assert parts == [parts[0]] + parts[1..];
    }
  }

  /** `strtr(s, from, to)` with one-character arguments: every `from` becomes `to`. */
  function ReplaceChar(s: string, from: char, to: char): (r: string)
    ensures |r| == |s|
    ensures forall i :: 0 <= i < |s| ==> r[i] == (if s[i] == from then to else s[i])
  {
    seq(|s|, i requires 0 <= i < |s| => if s[i] == from then to else s[i])
  }

  /** The part of `s` after its last `c`, or all of `s` when it has none. */
  function LastSegment(s: string, c: char): (r: string)
    ensures c !in r
    ensures |r| <= |s| && r == s[|s| - |r|..]
    ensures |r| < |s| ==> s[|s| - |r| - 1] == c
    decreases |s|
  {
    if s == [] || s[|s| - 1] == c then []
    else LastSegment(s[..|s| - 1], c) + [s[|s| - 1]]
  }

  /** A string without `c` is its own last segment. */
  lemma {:induction false} LastSegmentWhole(b: string, c: char)
    requires c !in b
    ensures LastSegment(b, c) == b
    decreases |b|
  {
    if b != [] {
      var b' := b[..|b| - 1];
      assert b == b' + [b[|b| - 1]];
      assert c !in b';
      LastSegmentWhole(b', c);
    }
  }

  /** What follows the last `c` is exactly the tail after it, when the tail has no `c`. */
  lemma {:induction false} LastSegmentOfTail(a: string, c: char, b: string)
    requires c !in b
    ensures LastSegment(a + [c] + b, c) == b
    decreases |b|
  {
    var s := a + [c] + b;
    if b == [] {
      assert s[|s| - 1] == c;
    } else {
      var b' := b[..|b| - 1];
      assert b == b' + [b[|b| - 1]];
      assert c !in b';
      LastSegmentOfTail(a, c, b');
      assert s[..|s| - 1] == a + [c] + b';
    }
  }

  /** `basename(path)` for '/'-separated paths: the last segment once trailing slashes are dropped. */
  function Basename(path: string): (r: string)
    ensures '/' !in r
  {
    LastSegment(RTrim(path, {'/'}), '/')
  }

  /** The base name of "dir/name", or of "name" alone, is "name" when the name has no slash. */
  lemma BasenameOfPath(dir: string, name: string)
    requires '/' !in name && name != []
    ensures Basename(dir + "/" + name) == name
    ensures Basename(name) == name
  {
    var p := dir + "/" + name;
    assert RTrim(p, {'/'}) == p;
    assert RTrim(name, {'/'}) == name;
    LastSegmentOfTail(dir, '/', name);
    LastSegmentWhole(name, '/');
  }

  /** Three parts joined by a separator. */
  lemma JoinThree(sep: string, parts: seq<string>)
    requires |parts| == 3
    ensures Join(sep, parts) == parts[0] + sep + parts[1] + sep + parts[2]
  {
    assert parts[1..][1..] == parts[2..];
    assert Join(sep, parts[1..]) == parts[1] + sep + parts[2];
  }

  /** Splitting three separator-free pieces joined by a one-character separator. */
  lemma ExplodeThree(c: char, a: string, b: string, d: string)
    requires c !in a && c !in b && c !in d
    ensures Explode([c], a + [c] + b + [c] + d) == [a, b, d]
  {
    assert Join([c], [a, b, d][1..]) == b + [c] + d;
    assert Join([c], [a, b, d]) == a + [c] + b + [c] + d;
    ExplodeJoin(c, [a, b, d]);
  }

  // ---------------------------------------------------------------------------
  // Decimal numbers
  // ---------------------------------------------------------------------------

  predicate IsDigit(c: char) {
    '0' <= c <= '9'
  }

  predicate AllDigits(s: string) {
    forall i :: 0 <= i < |s| ==> IsDigit(s[i])
  }

  /** The value of a string of decimal digits, read most significant first. */
  function DigitsValue(s: string): nat
    requires AllDigits(s)
    decreases |s|
  {
    if s == [] then 0 else DigitsValue(s[..|s| - 1]) * 10 + (s[|s| - 1] as int - '0' as int)
  }

  function DigitChar(d: nat): (c: char)
    requires d < 10
    ensures IsDigit(c) && c as int - '0' as int == d
  {
    (d + '0' as int) as char
  }

  /** `(string) n` for `n >= 0`: the canonical decimal numeral of `n`. */
  function NatToString(n: nat): (r: string)
    ensures |r| >= 1 && AllDigits(r)
    ensures r[0] == '0' ==> r == "0"
    ensures DigitsValue(r) == n
    decreases n
  {
    if n < 10 then [DigitChar(n)]
    else
      var r := NatToString(n / 10) + [DigitChar(n % 10)];
      assert r[..|r| - 1] == NatToString(n / 10);
      r
  }

  /** `(string) i` and `sprintf('%d', i)`: an optional minus sign and the numeral of `|i|`. */
  function IntToString(i: int): (r: string)
    ensures |r| >= 1
    ensures i < 0 <==> r[0] == '-'
    ensures i < 0 ==> r == "-" + NatToString(-i)
    ensures i >= 0 ==> r == NatToString(i)
  {
    if i < 0 then "-" + NatToString(-i) else NatToString(i)
  }

  /** The whitespace PHP skips before a number: space, tab, LF, CR, VT, FF. */
  const NumericWhitespace: set<char> := {' ', '\t', '\n', '\r', '\U{B}', '\U{C}'}

  /** The longest prefix of decimal digits. */
  function LeadingDigits(s: string): (r: string)
    ensures AllDigits(r) && r <= s
    ensures |r| < |s| ==> !IsDigit(s[|r|])
    decreases |s|
  {
    if |s| > 0 && IsDigit(s[0]) then [s[0]] + LeadingDigits(s[1..]) else []
  }

  /** PHP_INT_MAX and PHP_INT_MIN on a 64-bit build. */
  const PhpIntMax: int := 0x7fff_ffff_ffff_ffff
  const PhpIntMin: int := -0x8000_0000_0000_0000

  /** A value beyond PHP's integer range is cut to the nearer limit. */
  function Saturate(v: int): (r: int)
    ensures PhpIntMin <= r <= PhpIntMax
    ensures PhpIntMin <= v <= PhpIntMax ==> r == v
    ensures v > PhpIntMax ==> r == PhpIntMax
    ensures v < PhpIntMin ==> r == PhpIntMin
  {
    if v > PhpIntMax then PhpIntMax else if v < PhpIntMin then PhpIntMin else v
  }

  /**
    `(int) s`: skip leading whitespace, read an optional sign and the
    digits that follow; anything after them (a fraction, text) is ignored,
    and a string with no leading digits is 0. A number too large for a
    64-bit integer gives PHP_INT_MAX, or PHP_INT_MIN when negative.
   */
  function IntCast(s: string): (r: int)
    ensures PhpIntMin <= r <= PhpIntMax
  {
    var t := LTrim(s, NumericWhitespace);
    var unsigned := if |t| > 0 && (t[0] == '-' || t[0] == '+') then t[1..] else t;
    var magnitude: int := DigitsValue(LeadingDigits(unsigned));
    Saturate(if |t| > 0 && t[0] == '-' then -magnitude else magnitude)
  }

  /** The digits of a string of digits are all of it. */
  lemma {:induction false} LeadingDigitsOfDigits(s: string, rest: string)
    requires AllDigits(s) && (rest == [] || !IsDigit(rest[0]))
    ensures LeadingDigits(s + rest) == s
    decreases |s|
  {
    if |s| > 0 {
      assert (s + rest)[1..] == s[1..] + rest;
      LeadingDigitsOfDigits(s[1..], rest);
    } else {
      assert s + rest == rest;
    }
  }

  /**
    Casting a numeral back to an integer gives the integer, whatever follows
    a non-digit, as long as it fits in 64 bits; beyond that, the nearer limit.
   */
  lemma IntCastOfIntToString(i: int, rest: string)
    requires rest == [] || !IsDigit(rest[0])
    ensures IntCast(IntToString(i) + rest) == Saturate(i)
    ensures PhpIntMin <= i <= PhpIntMax ==> IntCast(IntToString(i) + rest) == i
  {
    if i < 0 {
      IntCastOfNegativeNumeral(i, rest);
    } else {
      var n := NatToString(i);
      IntCastOfDigits(n, rest);
      assert DigitsValue(n) == i;
      assert IntToString(i) == n;
    }
  }

  lemma IntCastOfNegativeNumeral(i: int, rest: string)
    requires i < 0 && (rest == [] || !IsDigit(rest[0]))
    ensures IntCast(IntToString(i) + rest) == Saturate(i)
  {
    var n := NatToString(-i);
    assert IntToString(i) == "-" + n;
    assert IntToString(i) + rest == "-" + (n + rest);
    IntCastOfNegative(n, rest);
  }

  /** Casting digits followed by a non-digit gives their value, or PHP_INT_MAX when it is larger. */
  lemma IntCastOfDigits(n: string, rest: string)
    requires |n| > 0 && AllDigits(n) && (rest == [] || !IsDigit(rest[0]))
    ensures DigitsValue(n) <= PhpIntMax ==> IntCast(n + rest) == DigitsValue(n)
    ensures DigitsValue(n) > PhpIntMax ==> IntCast(n + rest) == PhpIntMax
  {
    LeadingDigitsOfDigits(n, rest);
    var s := n + rest;
    assert s[0] == n[0] && IsDigit(n[0]);
    NumericWhitespaceIsControl();
    LTrimStops(s, NumericWhitespace);
  }

  /** The numeric whitespace characters all come at or before the space. */
  lemma NumericWhitespaceIsControl()
    ensures forall c :: c in NumericWhitespace ==> c <= ' '
  {
  }

  /** Trimming stops at once at a character outside the set. */
  lemma LTrimStops(s: string, cs: set<char>)
    requires |s| > 0 && s[0] !in cs
    ensures LTrim(s, cs) == s
  {
  }

  /**
    Casting a minus sign, digits and a non-digit gives the negated value, or
    PHP_INT_MIN when that is smaller.
   */
  lemma IntCastOfNegative(n: string, rest: string)
    requires |n| > 0 && AllDigits(n) && (rest == [] || !IsDigit(rest[0]))
    ensures -(DigitsValue(n) as int) >= PhpIntMin ==> IntCast("-" + (n + rest)) == -(DigitsValue(n) as int)
    ensures -(DigitsValue(n) as int) < PhpIntMin ==> IntCast("-" + (n + rest)) == PhpIntMin
  {
    LeadingDigitsOfDigits(n, rest);
    var s := "-" + (n + rest);
    assert s[0] == '-';
    NumericWhitespaceIsControl();
    LTrimStops(s, NumericWhitespace);
    assert s[1..] == n + rest;
  }

  /** A numeral holds only digits and a leading minus sign, so no other character occurs in it. */
  lemma NumeralLacks(i: int, c: char)
    requires !IsDigit(c) && c != '-'
    ensures c !in IntToString(i)
  {
    var digits := NatToString(if i < 0 then -i else i);
    assert forall k :: 0 <= k < |digits| ==> IsDigit(digits[k]);
  }

  /** Distinct integers have distinct numerals, so a numeral names its integer. */
  lemma IntToStringInjective(a: int, b: int)
    requires IntToString(a) == IntToString(b)
    ensures a == b
  {
    if a < 0 && b < 0 {
      assert NatToString(-a) == IntToString(a)[1..];
      assert NatToString(-b) == IntToString(b)[1..];
    }
  }

  /** `n` copies of `c`. */
  function Repeat(c: char, n: nat): (r: string)
    ensures |r| == n
    ensures forall i :: 0 <= i < n ==> r[i] == c
  {
    seq(n, _ => c)
  }

  /** Left-pad `s` with `c` up to `width` characters (`%02d`, date formats). */
  function PadLeft(s: string, width: nat, c: char): (r: string)
    ensures |r| == if |s| < width then width else |s|
    ensures r[|r| - |s|..] == s
    ensures forall i :: 0 <= i < |r| - |s| ==> r[i] == c
  {
    if |s| < width then Repeat(c, width - |s|) + s else s
  }

  // ---------------------------------------------------------------------------
  // Case
  // ---------------------------------------------------------------------------

  function LowerChar(c: char): char {
    if 'A' <= c <= 'Z' then (c as int + 32) as char else c
  }

  function UpperChar(c: char): char {
    if 'a' <= c <= 'z' then (c as int - 32) as char else c
  }

  /** `strtolower`: ASCII letters folded to lower case, all else kept. */
  function Lower(s: string): (r: string)
    ensures |r| == |s|
    ensures forall i :: 0 <= i < |s| ==> r[i] == LowerChar(s[i])
  {
    seq(|s|, i requires 0 <= i < |s| => LowerChar(s[i]))
  }

  /** No ASCII upper-case letter occurs. */
  predicate IsLower(s: string) {
    forall i :: 0 <= i < |s| ==> !('A' <= s[i] <= 'Z')
  }

  /** Folding leaves a string without upper-case letters unchanged, and always yields one. */
  lemma LowerOfLower(s: string)
    ensures IsLower(Lower(s))
    ensures IsLower(s) ==> Lower(s) == s
  {
  }

  /** `ucfirst`: the first character upper-cased, the rest kept. */
  function Ucfirst(s: string): (r: string)
    ensures |r| == |s|
    ensures |s| > 0 ==> r[0] == UpperChar(s[0]) && r[1..] == s[1..]
  {
    if s == [] then s else [UpperChar(s[0])] + s[1..]
  }

  /** Folding undoes `ucfirst` on a lower-case word, whose first letter `ucfirst` makes upper case. */
  lemma LowerOfUcfirst(s: string)
    requires IsLower(s) && |s| > 0 && 'a' <= s[0] <= 'z'
    ensures 'A' <= Ucfirst(s)[0] <= 'Z'
    ensures Lower(Ucfirst(s)) == s
  {
    var u := Ucfirst(s);
    assert forall i :: 1 <= i < |s| ==> u[i] == s[i];
  }
}
