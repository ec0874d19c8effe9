/**
  URL query construction and response decoding (src/Http/HttpUtils.php).

  `QueryStringEncode` percent-encodes with the query percent-encode set of the
  WHATWG URL Standard (section 1.3, percent-encoded bytes): C0 controls, space,
  bytes above 0x7E and the four bytes `"`, `#`, `<`, `>`. Hex digits are
  lower case.
 */
module HttpUtils {
  import opened Wrappers
  import opened HttpJob
  import Strings

  /** A character of a PHP (byte) string. */
  type Byte = c: char | c as int < 0x100

  /** `"`, `#`, `<` and `>`. */
  const QuerySpecials: set<int> := {34, 35, 60, 62}

  /** The byte belongs to the query percent-encode set. */
  predicate MustEncode(b: char) {
    b as int < 33 || b as int > 126 || b as int in QuerySpecials
  }

  /** Lower-case hex digit of `n`, as `bin2hex` writes it. */
  function HexDigit(n: nat): (c: Byte)
    requires n < 16
    ensures IsLowerHexDigit(c)
  {
    "0123456789abcdef"[n]
  }

  predicate IsHexDigit(c: char) {
    '0' <= c <= '9' || 'a' <= c <= 'f' || 'A' <= c <= 'F'
  }

  /** A hex digit as `bin2hex` writes them: a decimal digit or one of 'a' to 'f'. */
  predicate IsLowerHexDigit(c: char) {
    '0' <= c <= '9' || 'a' <= c <= 'f'
  }

  /** The value of a hex digit of either case. */
  function HexValue(c: char): (n: nat)
    requires IsHexDigit(c)
    ensures n < 16
  {
    if '0' <= c <= '9' then c as int - '0' as int
    else if 'a' <= c <= 'f' then c as int - 'a' as int + 10
    else c as int - 'A' as int + 10
  }

  /**
    The digit written for a nibble is lower case and reads back as that
    nibble, and it is the only lower-case digit that does.
   */
  lemma HexDigitValue(n: nat)
    requires n < 16
    ensures IsLowerHexDigit(HexDigit(n)) && IsHexDigit(HexDigit(n)) && HexValue(HexDigit(n)) == n
    ensures forall c :: IsLowerHexDigit(c) && HexValue(c) == n ==> c == HexDigit(n)
  {
  }

  /**
    One byte of output of the encoder: a byte of the encode set becomes `%`
    and the two lower-case hex digits of its value; any other byte is kept.
   */
  function EncodeByte(b: Byte): (r: seq<Byte>)
    ensures MustEncode(b) ==> && |r| == 3 && r[0] == '%'
                              && IsLowerHexDigit(r[1]) && IsLowerHexDigit(r[2])
                              && HexValue(r[1]) * 16 + HexValue(r[2]) == b as int
    ensures !MustEncode(b) ==> r == [b]
  {
    if MustEncode(b) then
      var hi, lo := b as int / 16, b as int % 16;
      HexDigitValue(hi);
      HexDigitValue(lo);
      ['%', HexDigit(hi), HexDigit(lo)]
    else [b]
  }

  /** How many bytes of `s` belong to the encode set. */
  function EncodedCount(s: seq<Byte>): nat
    decreases |s|
  {
    if s == [] then 0 else (if MustEncode(s[0]) then 1 else 0) + EncodedCount(s[1..])
  }

  /**
    `queryStringEncode`: every byte of the encode set becomes `%` and two
    lower-case hex digits, the others pass through. The output grows by two
    bytes per encoded byte and contains no byte of the encode set.
   */
  function QueryStringEncode(s: seq<Byte>): (r: seq<Byte>)
    ensures |r| == |s| + 2 * EncodedCount(s)
    ensures forall i :: 0 <= i < |r| ==> !MustEncode(r[i])
    decreases |s|
  {
    if s == [] then [] else EncodeByte(s[0]) + QueryStringEncode(s[1..])
  }

  /**
    Every byte of the encoding is a byte of the input, a `%`, or a
    lower-case hex digit.
   */
  lemma {:induction false} EncodeAlphabet(s: seq<Byte>)
    ensures forall i :: 0 <= i < |QueryStringEncode(s)| ==>
              var c := QueryStringEncode(s)[i]; c in s || c == '%' || IsLowerHexDigit(c)
    decreases |s|
  {
    if s != [] {
      EncodeAlphabet(s[1..]);
      var e := EncodeByte(s[0]);
      var rest := QueryStringEncode(s[1..]);
      var r := e + rest;
      assert QueryStringEncode(s) == r;
      forall i | 0 <= i < |r|
        ensures r[i] in s || r[i] == '%' || IsLowerHexDigit(r[i])
      {
        if i >= |e| {
          var c := rest[i - |e|];
          assert r[i] == c;
          if c in s[1..] {
            var k :| 0 <= k < |s[1..]| && s[1..][k] == c;
            assert s[k + 1] == c;
          }
        } else if !MustEncode(s[0]) {
          assert r[i] == s[0];
        } else {
          assert r[i] == e[i] && (i == 0 || i == 1 || i == 2);
        }
      }
    }
  }

  /**
    Percent-decoding (WHATWG URL Standard, section 1.3): `%` followed by two
    hex digits of either case becomes that byte, everything else is kept.
   */
  function PercentDecode(s: seq<Byte>): (r: seq<Byte>)
    decreases |s|
  {
    if |s| >= 3 && s[0] == '%' && IsHexDigit(s[1]) && IsHexDigit(s[2]) then
      [(HexValue(s[1]) * 16 + HexValue(s[2])) as char] + PercentDecode(s[3..])
    else if s == [] then []
    else [s[0]] + PercentDecode(s[1..])
  }

  /** Decoding undoes the encoder on every input that contains no `%`. */
  lemma {:induction false} DecodeEncode(s: seq<Byte>)
    requires '%' !in s
    ensures PercentDecode(QueryStringEncode(s)) == s
    decreases |s|
  {
    if s != [] {
      var b := s[0];
      var rest := QueryStringEncode(s[1..]);
      assert QueryStringEncode(s) == EncodeByte(b) + rest;
      DecodeEncode(s[1..]);
      if MustEncode(b) {
        var e := EncodeByte(b) + rest;
        assert e[0] == '%' && IsHexDigit(e[1]) && IsHexDigit(e[2]);
        assert e[3..] == rest;
        assert (HexValue(e[1]) * 16 + HexValue(e[2])) as char == b;
      } else {
        var e := [b] + rest;
        assert e[1..] == rest;
      }
      assert s == [s[0]] + s[1..];
    }
  }

  /** `%` is outside the encode set, so two different inputs can share an encoding. */
  lemma EncodeNotInjective()
    ensures QueryStringEncode("%22") == QueryStringEncode("\"")
  {
    assert QueryStringEncode("%22") == "%" + QueryStringEncode("22");
    assert QueryStringEncode("22") == "2" + QueryStringEncode("2");
    assert QueryStringEncode("\"") == EncodeByte('"') == "%22";
  }

  /** An input without bytes of the encode set is left unchanged. */
  lemma {:induction false} EncodeOfSafe(s: seq<Byte>)
    requires forall i :: 0 <= i < |s| ==> !MustEncode(s[i])
    ensures QueryStringEncode(s) == s
    decreases |s|
  {
    if s != [] {
      EncodeOfSafe(s[1..]);
      assert s == [s[0]] + s[1..];
    }
  }

  /** Encoding is idempotent: the encoder's output is already safe. */
  lemma EncodeIdempotent(s: seq<Byte>)
    ensures QueryStringEncode(QueryStringEncode(s)) == QueryStringEncode(s)
  {
    EncodeOfSafe(QueryStringEncode(s));
  }

  /**
    A safe byte that is neither `%` nor a hex digit occurs in the encoding
    exactly when it occurs in the input (this covers `&` and `=`).
   */
  lemma {:induction false} EncodeKeepsPlainByte(s: seq<Byte>, c: Byte)
    requires !MustEncode(c) && c != '%' && !IsHexDigit(c)
    ensures c in QueryStringEncode(s) <==> c in s
    decreases |s|
  {
    if s != [] {
      EncodeKeepsPlainByte(s[1..], c);
      assert QueryStringEncode(s) == EncodeByte(s[0]) + QueryStringEncode(s[1..]);
      assert s == [s[0]] + s[1..];
    }
  }

  /** One `name=value` pair with both halves encoded. */
  function EncodePair(p: (seq<Byte>, seq<Byte>)): seq<Byte> {
    QueryStringEncode(p.0) + "=" + QueryStringEncode(p.1)
  }

  /** The encoded pairs, in parameter order. */
  function EncodePairs(params: seq<(seq<Byte>, seq<Byte>)>): (r: seq<string>)
    ensures |r| == |params|
    ensures forall k :: 0 <= k < |params| ==> r[k] == EncodePair(params[k])
  {
    seq(|params|, k requires 0 <= k < |params| => EncodePair(params[k]))
  }

  /** `buildQuery`: the path, `?`, and the encoded pairs joined by `&`. */
  function BuildQuery(params: seq<(seq<Byte>, seq<Byte>)>, path: string): (r: string)
    ensures |r| > |path| && r[..|path|] == path && r[|path|] == '?'
  {
    path + "?" + Strings.Join("&", EncodePairs(params))
  }

  /** The query part of a built URL (everything after the path and `?`). */
  function QueryPart(url: string, path: string): string
    requires |url| > |path|
  {
    url[|path| + 1..]
  }

  /** No parameter name or value contains `&` or `=`. */
  predicate PlainParams(params: seq<(seq<Byte>, seq<Byte>)>) {
    forall k :: 0 <= k < |params| ==> '&' !in params[k].0 && '&' !in params[k].1
                                      && '=' !in params[k].0 && '=' !in params[k].1
  }

  /**
    Reading a built URL back: when no name or value contains `&` or `=`,
    splitting the query on `&` gives one piece per parameter in order, and
    splitting each piece on `=` gives its encoded name and value.
   */
  lemma BuildQuerySplits(params: seq<(seq<Byte>, seq<Byte>)>, path: string)
    requires |params| >= 1
    requires PlainParams(params)
    ensures var pieces := Strings.Explode("&", QueryPart(BuildQuery(params, path), path));
            && |pieces| == |params|
            && forall k :: 0 <= k < |params| ==>
                 Strings.Explode("=", pieces[k]) == [QueryStringEncode(params[k].0), QueryStringEncode(params[k].1)]
  {
    var pairs := EncodePairs(params);
    assert QueryPart(BuildQuery(params, path), path) == Strings.Join("&", pairs);
    forall k | 0 <= k < |params|
      ensures '&' !in pairs[k]
      ensures Strings.Explode("=", pairs[k]) == [QueryStringEncode(params[k].0), QueryStringEncode(params[k].1)]
    {
      EncodeKeepsPlainByte(params[k].0, '&');
      EncodeKeepsPlainByte(params[k].1, '&');
      EncodeKeepsPlainByte(params[k].0, '=');
      EncodeKeepsPlainByte(params[k].1, '=');
      var name, value := QueryStringEncode(params[k].0), QueryStringEncode(params[k].1);
      assert pairs[k] == Strings.Join("=", [name, value]);
      Strings.ExplodeJoin('=', [name, value]);
    }
    Strings.ExplodeJoin('&', pairs);
  }

  /** The gzip magic number `\x1f\x8b`. */
  predicate HasGzipMagic(contents: string) {
    |contents| >= 2 && contents[0] == '\U{1F}' && contents[1] == '\U{8B}'
  }

  /**
    `getResponseContent`: contents that start with the gzip magic number are
    inflated by `gunzip` (a failed inflate gives the empty string, as
    `(string) false` does); anything else is returned unchanged.
   */
  function GetResponseContent(response: Response, gunzip: string -> Option<string>): (r: string)
    ensures !HasGzipMagic(response.contents) ==> r == response.contents
    ensures HasGzipMagic(response.contents) ==> r == gunzip(response.contents).GetOr("")
  {
    var result := response.contents;
    if |result| >= 2 && result[..2] == "\U{1F}\U{8B}" then gunzip(result).GetOr("") else result
  }
}
