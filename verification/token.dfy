/** One lexical unit (src/token.rs): its kind, the source text it was scanned
    from, an optional literal text, and the source line. */
module Tokens {
  import opened Outcomes
  import opened TokenTypes
  import Numerals

  /** `line` is an `i64` in the source; see README for why no wrap-around
      is modelled. */
  datatype Token = Token(kind: TokenKind, lexeme: string, literal: Option<string>, line: int)

  /** `Token::new`: copies every argument into the record. */
  function NewToken(kind: TokenKind, lexeme: string, literal: Option<string>, line: int): (t: Token)
    ensures t.kind == kind && t.lexeme == lexeme && t.line == line
    ensures literal.None? ==> t.literal.None?
    ensures literal.Some? ==> t.literal == Some(literal.value)
  {
    Token(kind, lexeme, match literal { case None => None case Some(s) => Some(s) }, line)
  }

  // ---------------------------------------------------------------------
  // Rust's `{:?}` rendering of a string: quoted, with escapes.
  // ---------------------------------------------------------------------

  /** How `{:?}` writes one character inside a quoted string. Printable ASCII
      stands for itself; the other ASCII control characters become `\u{hex}`. */
  function EscapeChar(c: char): (e: string)
    ensures |e| > 0
  {
    if c == '\0' then "\\0"
    else if c == '\t' then "\\t"
    else if c == '\r' then "\\r"
    else if c == '\n' then "\\n"
    else if c == '\\' then "\\\\"
    else if c == '"' then "\\\""
    else if c < ' ' || c == 127 as char then "\\u{" + Numerals.NatToDigits(c as int, 16) + "}"
    else [c]
  }

  function Escape(s: string): string {
    if |s| == 0 then "" else EscapeChar(s[0]) + Escape(s[1..])
  }

  /** `{:?}` of a `String`. */
  function DebugString(s: string): string {
    "\"" + Escape(s) + "\""
  }

  /** `{:?}` of an `Option<String>`. */
  function DebugLiteral(lit: Option<string>): string {
    match lit
    case None => "None"
    case Some(s) => "Some(" + DebugString(s) + ")"
  }

  /** Index of the first `}` in `t`, or `|t|` when there is none. */
  function BraceIndex(t: string): (i: nat)
    ensures i <= |t|
    ensures forall j :: 0 <= j < i ==> t[j] != '}'
    ensures i < |t| ==> t[i] == '}'
  {
    if |t| == 0 || t[0] == '}' then 0 else 1 + BraceIndex(t[1..])
  }

  /** Reads escaped text back into the characters it denotes; `None` when it
      is not something `Escape` produces. */
  function Unescape(t: string): Option<string>
    decreases |t|
  {
    if |t| == 0 then Some("")
    else if t[0] != '\\' then
      match Unescape(t[1..])
      case None => None
      case Some(rest) => Some([t[0]] + rest)
    else if |t| < 2 then None
    else
      var c: Option<char> :=
        if t[1] == '0' then Some('\0')
        else if t[1] == 't' then Some('\t')
        else if t[1] == 'r' then Some('\r')
        else if t[1] == 'n' then Some('\n')
        else if t[1] == '\\' then Some('\\')
        else if t[1] == '"' then Some('"')
        else None;
      if c.Some? then
        match Unescape(t[2..])
        case None => None
        case Some(rest) => Some([c.value] + rest)
      else if t[1] == 'u' && |t| >= 3 && t[2] == '{' then
        var i := BraceIndex(t[3..]);
        var v := Numerals.DigitsValue(t[3..3 + i], 16);
        if 3 + i < |t| && 0 <= v < 128 then
          match Unescape(t[4 + i..])
          case None => None
          case Some(rest) => Some([v as char] + rest)
        else None
      else None
  }

  lemma {:induction false} UnescapeEscapeChar(c: char, rest: string)
    requires c as int < 128
    ensures Unescape(EscapeChar(c) + rest) ==
              match Unescape(rest) { case None => None case Some(r) => Some([c] + r) }
  {
    var e := EscapeChar(c);
    var t := e + rest;
    if c != '\0' && c != '\t' && c != '\r' && c != '\n' && (c < ' ' || c == 127 as char) {
      var h := Numerals.NatToDigits(c as int, 16);
      assert e == "\\u{" + h + "}";
      assert t[3..] == h + "}" + rest;
      BraceAfterHex(h, rest);
      assert t[3..3 + |h|] == h;
      Numerals.DigitsRoundTrip(c as int, 16);
      assert t[4 + |h|..] == rest;
    } else if e == [c] {
      assert t[1..] == rest;
    } else {
      assert t[2..] == rest;
    }
  }

  lemma {:induction false} BraceAfterHex(h: string, rest: string)
    requires forall i :: 0 <= i < |h| ==> Numerals.IsDigitIn(h[i], 16)
    ensures BraceIndex(h + "}" + rest) == |h|
  {
    if |h| > 0 {
      assert (h + "}" + rest)[1..] == h[1..] + "}" + rest;
      BraceAfterHex(h[1..], rest);
    }
  }

  /** Escaping ASCII text and reading it back gives the text again. */
  lemma {:induction false} EscapeRoundTrip(s: string)
    requires forall i :: 0 <= i < |s| ==> s[i] as int < 128
    ensures Unescape(Escape(s)) == Some(s)
  {
    if |s| > 0 {
      EscapeRoundTrip(s[1..]);
      UnescapeEscapeChar(s[0], Escape(s[1..]));
      assert [s[0]] + s[1..] == s;
    }
  }

  /** Reads the `{:?}` rendering of an `Option<String>` back. */
  function ReadDebugLiteral(t: string): Option<Option<string>> {
    if t == "None" then Some(None)
    else if |t| >= 8 && t[..6] == "Some(\"" && t[|t| - 2..] == "\")" then
      match Unescape(t[6..|t| - 2])
      case None => None
      case Some(s) => Some(Some(s))
    else None
  }

  // ---------------------------------------------------------------------
  // Display and Debug.
  // ---------------------------------------------------------------------

  /** `impl Display for Token`. */
  function TokenDisplay(t: Token): string {
    KindName(t.kind) + " " + t.lexeme + " " + DebugLiteral(t.literal)
  }

  /** `impl Debug for Token`, written separately in the source. */
  function TokenDebug(t: Token): string {
    KindName(t.kind) + " " + t.lexeme + " " + DebugLiteral(t.literal)
  }

  lemma DisplayIsDebug(t: Token)
    ensures TokenDisplay(t) == TokenDebug(t)
  {
  }

  predicate IsAsciiText(s: string) {
    forall i :: 0 <= i < |s| ==> s[i] as int < 128
  }

  /** The rendering can be split back into the kind (up to the first space),
      the lexeme, and the literal, when the literal is ASCII. */
  lemma TokenDisplayReadsBack(t: Token)
    requires t.literal.Some? ==> IsAsciiText(t.literal.value)
    ensures var s := TokenDisplay(t);
            var n := |KindName(t.kind)|;
            && n < |s| && s[n] == ' '
            && (forall i :: 0 <= i < n ==> s[i] != ' ')
            && KindFromName(s[..n]) == Some(t.kind)
            && s[n + 1..n + 1 + |t.lexeme|] == t.lexeme
            && s[n + 1 + |t.lexeme|] == ' '
            && ReadDebugLiteral(s[n + 2 + |t.lexeme|..]) == Some(t.literal)
  {
    var s := TokenDisplay(t);
    var k := KindName(t.kind);
    var n := |k|;
    var d := DebugLiteral(t.literal);
    assert s == k + " " + t.lexeme + " " + d;
    assert s[..n] == k;
    KindNameRoundTrip(t.kind);
    assert s[n + 1..n + 1 + |t.lexeme|] == t.lexeme;
    assert s[n + 2 + |t.lexeme|..] == d;
    match t.literal
    case None =>
    case Some(v) =>
      var e := Escape(v);
      assert d == "Some(\"" + e + "\")";
      assert d[..6] == "Some(\"";
      assert d[6..|d| - 2] == e;
      assert d != "None" by { assert d[0] == 'S'; }
      EscapeRoundTrip(v);
  }
}
