/**
  The exception the library throws to its callers (src/Web/WprsException.php)
  and how a message is taken from any exception (src/Web/System.php:167-174).
  An exception here is its kind, message, code, origin and whether it
  chains a previous one.
 */
module WprsException {
  import opened Wrappers
  import Strings

  datatype Exception = Exception(isWprs: bool, message: string, code: int, file: string, line: int, hasPrevious: bool)

  /** `formatMessage`: the message, then the file and line on lines of their own. */
  function FormatMessage(e: Exception): (r: string)
    ensures |r| > |e.message| && r[..|e.message|] == e.message && r[|r| - 1] == '\n'
  {
    e.message + "\nFile: " + e.file + "\nLine: " + Strings.IntToString(e.line) + "\n"
  }

  /** Four lines joined by line breaks. */
  lemma JoinLines(parts: seq<string>)
    requires |parts| == 4
    ensures Strings.Join("\n", parts) == parts[0] + "\n" + parts[1] + "\n" + parts[2] + "\n" + parts[3]
  {
    assert parts[2..][1..] == parts[3..] && parts[1..][1..] == parts[2..];
    assert Strings.Join("\n", parts[3..]) == parts[3];
    assert Strings.Join("\n", parts[2..]) == parts[2] + "\n" + parts[3];
    assert Strings.Join("\n", parts[1..]) == parts[1] + "\n" + (parts[2] + "\n" + parts[3]);
  }

  /** The formatted message is its four lines joined by line breaks, the last one empty. */
  lemma FormatMessageIsJoin(e: Exception)
    ensures FormatMessage(e) == Strings.Join("\n", [e.message, "File: " + e.file, "Line: " + Strings.IntToString(e.line), ""])
  {
    JoinLines([e.message, "File: " + e.file, "Line: " + Strings.IntToString(e.line), ""]);
    assert "\nFile: " == "\n" + "File: " && "\nLine: " == "\n" + "Line: ";
  }

  /** A message and file without line breaks are read back from the formatted text, one per line. */
  lemma FormatMessageLines(e: Exception)
    requires '\n' !in e.message && '\n' !in e.file
    ensures Strings.Explode("\n", FormatMessage(e))
            == [e.message, "File: " + e.file, "Line: " + Strings.IntToString(e.line), ""]
  {
    var line := Strings.IntToString(e.line);
    Strings.NumeralLacks(e.line, '\n');
    var parts := [e.message, "File: " + e.file, "Line: " + line, ""];
    assert '\n' !in parts[1] && '\n' !in parts[2];
    FormatMessageIsJoin(e);
    Strings.ExplodeJoin('\n', parts);
  }

  /**
    The message the constructor settles on: unchanged without a previous
    exception; otherwise the message without trailing spaces, one space, and
    what the previous one contributes: a library exception its message
    without leading spaces, any other its formatted message.
   */
  function ChainMessage(message: string, previous: Option<Exception>): (r: string)
    ensures previous.None? ==> r == message
    ensures previous.Some? ==>
              && |r| > |Strings.RTrim(message, {' '})|
              && r[..|Strings.RTrim(message, {' '})|] == Strings.RTrim(message, {' '})
              && r[|Strings.RTrim(message, {' '})|] == ' '
              && r[|Strings.RTrim(message, {' '})| + 1..] ==
                   if previous.value.isWprs then Strings.LTrim(previous.value.message, {' '})
                   else FormatMessage(previous.value)

  {
    match previous
    case None => message
    case Some(e) =>
      var head := Strings.RTrim(message, {' '});
      var extra := if e.isWprs then Strings.LTrim(e.message, {' '}) else FormatMessage(e);
      var r := head + " " + extra;
      assert r[..|head|] == head && r[|head| + 1..] == extra;
      r
  }

  /** The constructor: a library exception with code 0 and no previous exception kept. */
  function New(message: string, previous: Option<Exception>, file: string, line: int): (e: Exception)
    ensures e.isWprs && e.code == 0 && !e.hasPrevious
    ensures e.message == ChainMessage(message, previous)
  {
    Exception(true, ChainMessage(message, previous), 0, file, line, false)
  }

  /** `System::getExceptionMessage`: a library exception's own message, any other formatted. */
  function GetExceptionMessage(e: Exception): (r: string)
    ensures e.isWprs ==> r == e.message
    ensures !e.isWprs ==> r == FormatMessage(e) && |r| > |e.message|
  {
    if e.isWprs then e.message else FormatMessage(e)
  }

  /** A message with no space at either end. */
  predicate Tidy(m: string) {
    |m| > 0 && m[0] != ' ' && m[|m| - 1] != ' '
  }

  /** Wrapping the messages one inside the other, innermost last. */
  function ChainAll(messages: seq<string>): (e: Exception)
    requires |messages| > 0
    decreases |messages|
  {
    if |messages| == 1 then New(messages[0], None, "", 0)
    else New(messages[0], Some(ChainAll(messages[1..])), "", 0)
  }

  /** A tidy message is left alone by trimming spaces at either end. */
  lemma TidyTrims(m: string)
    requires Tidy(m)
    ensures Strings.RTrim(m, {' '}) == m && Strings.LTrim(m, {' '}) == m
  {
  }

  /** Library exceptions wrapped inside each other read as their messages joined by single spaces. */
  lemma {:induction false} ChainAllMessage(messages: seq<string>)
    requires |messages| > 0
    requires forall k :: 0 <= k < |messages| ==> Tidy(messages[k])
    ensures ChainAll(messages).message == Strings.Join(" ", messages)
    ensures Tidy(ChainAll(messages).message)
    decreases |messages|
  {
    var m := messages[0];
    TidyTrims(m);
    if |messages| > 1 {
      var rest := messages[1..];
      ChainAllMessage(rest);
      var inner := ChainAll(rest);
      TidyTrims(inner.message);
      assert ChainMessage(m, Some(inner)) == m + " " + inner.message;
      assert Strings.Join(" ", messages) == m + " " + Strings.Join(" ", rest);
    }
  }
}
