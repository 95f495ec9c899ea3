/** A diagnostic record (src/error.rs): the line, a location text and a
    message. Equality of `Error` values is field-wise, as the derived
    `PartialEq` is. */
module Errors {
  import opened Outcomes
  import Numerals

  datatype Error = Error(line: int, location: string, message: string)

  /** `Error::new`: stores its arguments verbatim. */
  function NewError(line: int, location: string, message: string): (e: Error)
    ensures e.line == line && e.location == location && e.message == message
  {
    Error(line, location, message)
  }

  /** `impl Display for Error`. */
  function ErrorDisplay(e: Error): string {
    "[line " + Numerals.IntToString(e.line) + "] Error" + e.location + ": " + e.message
  }

  /** Reads the line number back out of a rendered diagnostic: the text
      between the `[line ` prefix and the first `]`. */
  function RenderedLine(s: string): Option<int> {
    if |s| < 6 || s[..6] != "[line " then None
    else
      var i := CloseBracket(s[6..]);
      if 6 + i < |s| then Some(Numerals.StringToInt(s[6..6 + i])) else None
  }

  /** Index of the first `]` in `t`, or `|t|` when there is none. */
  function CloseBracket(t: string): (i: nat)
    ensures i <= |t|
  {
    if |t| == 0 || t[0] == ']' then 0 else 1 + CloseBracket(t[1..])
  }

  lemma {:induction false} CloseBracketAfterNumber(n: string, rest: string)
    requires forall i :: 0 <= i < |n| ==> n[i] == '-' || '0' <= n[i] <= '9'
    ensures CloseBracket(n + "]" + rest) == |n|
  {
    if |n| > 0 {
      assert (n + "]" + rest)[1..] == n[1..] + "]" + rest;
      CloseBracketAfterNumber(n[1..], rest);
    }
  }

  /** The rendered diagnostic names the error's line: reading it back gives
      the line again, whatever the location and message. */
  lemma RenderedLineRoundTrip(e: Error)
    ensures RenderedLine(ErrorDisplay(e)) == Some(e.line)
  {
    var n := Numerals.IntToString(e.line);
    var rest := " Error" + e.location + ": " + e.message;
    var s := ErrorDisplay(e);
    assert s == "[line " + (n + "]" + rest);
    assert s[6..] == n + "]" + rest;
    Numerals.IntToStringChars(e.line);
    CloseBracketAfterNumber(n, rest);
    assert s[6..6 + |n|] == n;
    Numerals.IntToStringRoundTrip(e.line);
  }

  /** With an empty location (`error_line`), the rendering is
      `[line N] Error: message`; otherwise the location sits between
      `Error` and the colon. */
  lemma ErrorDisplayShape(e: Error)
    ensures var s := ErrorDisplay(e);
            var n := Numerals.IntToString(e.line);
            && s[..6 + |n| + 7] == "[line " + n + "] Error"
            && s[6 + |n| + 7..] == e.location + ": " + e.message
            && (e.location == [] ==> s == "[line " + n + "] Error: " + e.message)
  {
  }
}
