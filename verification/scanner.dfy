/** The lexical scanner (src/scanner.rs): one left-to-right pass over the
    source text with a `start`/`current` cursor pair and a line counter.
    Each Rust method that mutates the scanner becomes a function from the
    scanner state to the next state; each `while` loop becomes a recursive
    function on the remaining input. */
module Scanning {
  import opened Outcomes
  import opened TokenTypes
  import opened Tokens
  import opened Errors
  import opened ErrorReporters

  /** The scanner's state. The reporter is the one `scan_tokens` is given. */
  datatype Scanner = Scanner(
    source: string,
    tokens: seq<Token>,
    start: nat,
    current: nat,
    line: int,
    reporter: ErrorReporter)

  predicate Valid(s: Scanner) {
    s.start <= s.current <= |s.source|
  }

  /** The model covers ASCII source text only. */
  predicate IsAscii(source: string) {
    forall i :: 0 <= i < |source| ==> source[i] as int < 128
  }

  /** Number of newline characters in `source[a..b]`. */
  function NewlinesIn(source: string, a: nat, b: nat): nat
    requires a <= b <= |source|
    decreases b - a
  {
    if a == b then 0 else (if source[a] == '\n' then 1 else 0) + NewlinesIn(source, a + 1, b)
  }

  /** `Scanner::new`. */
  function NewScanner(source: string, reporter: ErrorReporter): (s: Scanner)
    ensures Valid(s) && s.tokens == [] && s.current == 0 && s.line == 1
  {
    Scanner(source, [], 0, 0, 1, reporter)
  }

  // ---------------------------------------------------------------------
  // Character classes (ASCII).
  // ---------------------------------------------------------------------

  predicate IsDigit(c: char) { '0' <= c <= '9' }

  predicate IsAlpha(c: char) { 'a' <= c <= 'z' || 'A' <= c <= 'Z' }

  /** `is_alphanumeric() || == '_'`, restricted to ASCII. */
  predicate IsIdentChar(c: char) { IsAlpha(c) || IsDigit(c) || c == '_' }

  // ---------------------------------------------------------------------
  // Cursor helpers.
  // ---------------------------------------------------------------------

  predicate IsAtEnd(s: Scanner) {
    s.current >= |s.source|
  }

  /** The current character, or `'\0'` at the end. */
  function Peek(s: Scanner): (c: char)
    ensures !IsAtEnd(s) ==> c == s.source[s.current]
    ensures IsAtEnd(s) ==> c == '\0'
  {
    if IsAtEnd(s) then '\0' else s.source[s.current]
  }

  /** The character after the current one, or `'\0'` past the end. */
  function PeekNext(s: Scanner): (c: char)
    ensures s.current + 1 < |s.source| ==> c == s.source[s.current + 1]
    ensures s.current + 1 >= |s.source| ==> c == '\0'
  {
    if s.current + 1 >= |s.source| then '\0' else s.source[s.current + 1]
  }

  /** Consumes the current character (the Rust method also returns it; it is
      `s.source[s.current]`). */
  function Advance(s: Scanner): (s': Scanner)
    requires Valid(s) && !IsAtEnd(s)
    ensures Valid(s') && s'.current == s.current + 1
    ensures s'.source == s.source && s'.tokens == s.tokens && s'.start == s.start
    ensures s'.line == s.line && s'.reporter == s.reporter
  {
    s.(current := s.current + 1)
  }

  /** Consumes the current character only when it is `expected`. */
  function MatchChar(s: Scanner, expected: char): (r: (Scanner, bool))
    requires Valid(s)
    ensures Valid(r.0)
    ensures r.1 <==> !IsAtEnd(s) && s.source[s.current] == expected
    ensures r.0 == if r.1 then s.(current := s.current + 1) else s
  {
    if IsAtEnd(s) then (s, false)
    else if s.source[s.current] != expected then (s, false)
    else (s.(current := s.current + 1), true)
  }

  /** Appends a token whose lexeme is the text between the two cursors. */
  function AddToken(s: Scanner, kind: TokenKind): (s': Scanner)
    requires Valid(s)
  {
    s.(tokens := s.tokens + [NewToken(kind, s.source[s.start..s.current], None, s.line)])
  }

  /** Records an `error_line` diagnostic at the current line. */
  function ReportLine(s: Scanner, message: string): (s': Scanner) {
    s.(reporter := ErrorLine(s.reporter, s.line, message).0)
  }

  // ---------------------------------------------------------------------
  // What every step promises.
  // ---------------------------------------------------------------------

  /** `s'` follows `s` in one scan: same text and lexeme start, the cursor
      only moves forward, the line counter grows by exactly the newlines
      passed, and diagnostics are only appended. */
  predicate Stepped(s: Scanner, s': Scanner) {
    && s'.source == s.source
    && s'.start == s.start
    && s.current <= s'.current <= |s.source|
    && s'.line == s.line + NewlinesIn(s.source, s.current, s'.current)
    && Extends(s.reporter, s'.reporter)
  }

  /** The token list is unchanged, or has exactly one new token: a non-EOF
      token without literal, whose lexeme is the text from `start` to the
      final cursor and whose line is the final line. */
  predicate AddsAtMostOne(s: Scanner, s': Scanner)
    requires s'.start <= s'.current <= |s'.source|
  {
    || s'.tokens == s.tokens
    || (&& |s'.tokens| == |s.tokens| + 1
        && s'.tokens[..|s.tokens|] == s.tokens
        && s'.tokens[|s.tokens|].kind != EOF
        && s'.tokens[|s.tokens|].lexeme == s'.source[s'.start..s'.current]
        && s'.tokens[|s.tokens|].literal == None
        && s'.tokens[|s.tokens|].line == s'.line)
  }

  // ---------------------------------------------------------------------
  // Comments, identifiers, strings and numbers.
  // ---------------------------------------------------------------------

  /** Only the cursor moved, over characters that are not newlines. */
  predicate MovedOver(s: Scanner, s': Scanner)
    requires Valid(s)
  {
    && s'.source == s.source && s'.start == s.start && s'.tokens == s.tokens
    && s'.reporter == s.reporter && s'.line == s.line
    && s.current <= s'.current <= |s.source|
    && forall i :: s.current <= i < s'.current ==> s.source[i] != '\n'
  }

  /** The rest of a `//` comment: stops before the newline, which the next
      step consumes. */
  function SkipComment(s: Scanner): (s': Scanner)
    requires Valid(s)
    ensures Valid(s') && MovedOver(s, s')
    ensures IsAtEnd(s') || s.source[s'.current] == '\n'
    decreases |s.source| - s.current
  {
    if Peek(s) != '\n' && !IsAtEnd(s) then SkipComment(Advance(s)) else s
  }

  /** Consumes identifier characters. */
  function IdentifierRun(s: Scanner): (s': Scanner)
    requires Valid(s)
    ensures Valid(s') && MovedOver(s, s')
    ensures forall i :: s.current <= i < s'.current ==> IsIdentChar(s.source[i])
    ensures !IsIdentChar(Peek(s'))
    decreases |s.source| - s.current
  {
    if IsIdentChar(Peek(s)) then IdentifierRun(Advance(s)) else s
  }

  /** The keyword table: the kind of an identifier-shaped lexeme. */
  function KeywordKind(text: string): TokenKind {
    match text
    case "and" => And
    case "class" => Class
    case "else" => Else
    case "false" => False
    case "for" => For
    case "fun" => Fun
    case "if" => If
    case "null" => Null
    case "not" => Not
    case "or" => Or
    case "print" => Print
    case "return" => Return
    case "super" => Super
    case "this" => This
    case "true" => True
    case "var" => Var
    case "while" => While
    case _ => Identifier
  }

  /** One step from `s` to `s'`: the cursor moved forward, newlines were
      counted, and at most one token was added. */
  predicate StepFrom(s: Scanner, s': Scanner) {
    && Valid(s') && Stepped(s, s') && AddsAtMostOne(s, s')
  }

  /** `identifier`: the rest of the word, then its kind from the table. */
  function IdentifierToken(s: Scanner): (s': Scanner)
    requires Valid(s)
    ensures StepFrom(s, s')
  {
    var s1 := IdentifierRun(s);
    MovedOverIsStep(s, s1);
    AddToken(s1, KeywordKind(s1.source[s1.start..s1.current]))
  }

  /** A string body: characters other than `"`, with `""` standing for one
      quote. */
  predicate QuoteFree(t: string)
    decreases |t|
  {
    || |t| == 0
    || (t[0] != '"' && QuoteFree(t[1..]))
    || (|t| >= 2 && t[0] == '"' && t[1] == '"' && QuoteFree(t[2..]))
  }

  /** The loop of `string`: runs to the closing quote (a `"` not followed by
      another `"`) or to the end, counting the newlines it passes. */
  function StringBody(s: Scanner): (s': Scanner)
    requires Valid(s)
    ensures Valid(s')
    ensures s'.source == s.source && s'.start == s.start && s'.tokens == s.tokens && s'.reporter == s.reporter
    ensures s.current <= s'.current
    ensures s'.line == s.line + NewlinesIn(s.source, s.current, s'.current)
    ensures QuoteFree(s.source[s.current..s'.current])
    ensures IsAtEnd(s') || (s.source[s'.current] == '"' && PeekNext(s') != '"')
    decreases |s.source| - s.current
  {
    if IsAtEnd(s) then s
    else
      var c := Peek(s);
      if c == '"' && PeekNext(s) != '"' then s
      else
        var s1 := if c == '\n' then s.(line := s.line + 1)
                  else if c == '"' then Advance(s)
                  else s;
        var s2 := Advance(s1);
        var s' := StringBody(s2);
        StringBodyStep(s.source, s.current, s2.current, s.line, s2.line, s'.current, s'.line);
        s'
  }

  /** One turn of the string loop: a character other than a closing quote
      (a doubled quote counts as one turn of two characters) keeps the
      body quote-free and the line count exact. */
  lemma StringBodyStep(src: string, i: nat, i2: nat, line: int, line2: int, j: nat, line': int)
    requires i < |src| && i2 <= j <= |src|
    requires src[i] == '"' ==> i + 1 < |src| && src[i + 1] == '"' && i2 == i + 2
    requires src[i] != '"' ==> i2 == i + 1
    requires line2 == line + (if src[i] == '\n' then 1 else 0)
    requires line' == line2 + NewlinesIn(src, i2, j)
    requires QuoteFree(src[i2..j])
    ensures i <= j && line' == line + NewlinesIn(src, i, j)
    ensures QuoteFree(src[i..j])
  {
    assert src[i..j][1..] == src[i + 1..j];
    if src[i] == '"' {
      assert src[i..j][2..] == src[i + 2..j];
      assert NewlinesIn(src, i + 1, j) == NewlinesIn(src, i + 2, j);
    }
  }

  /** `string`, called after the opening quote. An unterminated string
      reports "Unterminated string." at the line reached and adds no token. */
  function StringToken(s: Scanner): (s': Scanner)
    requires Valid(s)
    ensures StepFrom(s, s')
  {
    var s1 := StringBody(s);
    ExtendsRefl(s.reporter);
    if IsAtEnd(s1) then
      ReportLineIsStep(s1, "Unterminated string.");
      SteppedTransitive(s, s1, ReportLine(s1, "Unterminated string."));
      ReportLine(s1, "Unterminated string.")
    else
      AdvanceIsStep(s1);
      SteppedTransitive(s, s1, Advance(s1));
      AddToken(Advance(s1), String)
  }

  /** Consumes ASCII digits. */
  function DigitRun(s: Scanner): (s': Scanner)
    requires Valid(s)
    ensures Valid(s') && MovedOver(s, s')
    ensures forall i :: s.current <= i < s'.current ==> IsDigit(s.source[i])
    ensures !IsDigit(Peek(s'))
    decreases |s.source| - s.current
  {
    if IsDigit(Peek(s)) then DigitRun(Advance(s)) else s
  }

  /** `number`: a digit run unless the next character is `.`, then a
      fraction when a `.` is followed by a digit. */
  function NumberToken(s: Scanner): (s': Scanner)
    requires Valid(s)
    ensures StepFrom(s, s')
  {
    var s1 := if Peek(s) != '.' then DigitRun(s) else s;
    var s2 := if Peek(s1) == '.' && IsDigit(PeekNext(s1)) then DigitRun(Advance(s1)) else s1;
    MovedOverIsStep(s, s1);
    if Peek(s1) == '.' && IsDigit(PeekNext(s1)) then
      AdvanceIsStep(s1);
      MovedOverIsStep(Advance(s1), s2);
      SteppedTransitive(s1, Advance(s1), s2);
      SteppedTransitive(s, s1, s2);
      AddToken(s2, Number)
    else
      SteppedTransitive(s, s1, s2);
      AddToken(s2, Number)
  }

  /** `=`, `<` or `>` (already consumed): the two-character kind when the
      next character is `=`, the one-character kind otherwise. */
  function OneOrTwoChar(s: Scanner, two: TokenKind, one: TokenKind): (s': Scanner)
    requires Valid(s) && two != EOF && one != EOF
    ensures StepFrom(s, s')
  {
    var (s1, m) := MatchChar(s, '=');
    AdvanceOrStay(s, s1);
    AddToken(s1, if m then two else one)
  }

  /** `/` (already consumed): a `//` comment, or a Slash token. */
  function SlashOrComment(s: Scanner): (s': Scanner)
    requires Valid(s)
    ensures StepFrom(s, s')
  {
    var (s1, m) := MatchChar(s, '/');
    AdvanceOrStay(s, s1);
    if m then
      var s2 := SkipComment(s1);
      MovedOverIsStep(s1, s2);
      SteppedTransitive(s, s1, s2);
      s2
    else AddToken(s1, Slash)
  }

  /** `.` (already consumed): a number when a digit follows, else Dot. */
  function DotOrNumber(s: Scanner): (s': Scanner)
    requires Valid(s)
    ensures StepFrom(s, s')
  {
    if IsDigit(Peek(s)) then NumberToken(s) else AddToken(s, Dot)
  }

  /** `!` (already consumed): BangEqual when `=` follows; otherwise an
      "Unexpected character" diagnostic and no token. */
  function BangToken(s: Scanner): (s': Scanner)
    requires Valid(s)
    ensures StepFrom(s, s')
  {
    if Peek(s) == '=' then
      AdvanceIsStep(s);
      AddToken(Advance(s), BangEqual)
    else
      ReportLineIsStep(s, "Unexpected character: !");
      ReportLine(s, "Unexpected character: !")
  }

  /** The remaining characters: a number, an identifier, or an "Unexpected
      character" diagnostic. */
  function OtherChar(s: Scanner, c: char): (s': Scanner)
    requires Valid(s)
    ensures StepFrom(s, s')
  {
    if IsDigit(c) then NumberToken(s)
    else if IsAlpha(c) || c == '_' then IdentifierToken(s)
    else
      ReportLineIsStep(s, "Unexpected character: " + [c]);
      ReportLine(s, "Unexpected character: " + [c])
  }

  // ---------------------------------------------------------------------
  // One step and the whole scan.
  // ---------------------------------------------------------------------

  /** `scan_token`: consumes at least one character, counts the newlines it
      passes, only appends diagnostics, and adds at most one token: a
      non-EOF token whose lexeme is the text it consumed. */
  function ScanToken(s: Scanner): (s': Scanner)
    requires Valid(s) && !IsAtEnd(s)
    ensures StepFrom(s, s')
    ensures s'.current > s.current
  {
    var s' := StepOn(Advance(s), s.source[s.current]);
    AdvanceThenStep(s, s');
    s'
  }

  /** The `match` of `scan_token`, after the character `c` was consumed:
      a newline only counts a line, other blanks do nothing, and every
      other character makes a step. */
  function StepOn(s: Scanner, c: char): (s': Scanner)
    requires Valid(s)
    ensures c == '\n' ==> s' == s.(line := s.line + 1)
    ensures IsBlank(c) ==> s' == s
    ensures c != '\n' && !IsBlank(c) ==> StepFrom(s, s')
  {
    match c
      case ' ' => s
      case '\r' => s
      case '\t' => s
      case '\n' => s.(line := s.line + 1)
      case _ => TokenStep(s, c)
  }

  /** The arms of the `match` of `scan_token` for the characters that are
      not blanks. */
  function TokenStep(s: Scanner, c: char): (s': Scanner)
    requires Valid(s) && c != '\n' && !IsBlank(c)
    ensures StepFrom(s, s')
  {
    match c
      case '(' => AddTokenIsStep(s, LeftParen); AddToken(s, LeftParen)
      case ')' => AddTokenIsStep(s, RightParen); AddToken(s, RightParen)
      case '{' => AddTokenIsStep(s, LeftBrace); AddToken(s, LeftBrace)
      case '}' => AddTokenIsStep(s, RightBrace); AddToken(s, RightBrace)
      case ',' => AddTokenIsStep(s, Comma); AddToken(s, Comma)
      case '-' => AddTokenIsStep(s, Minus); AddToken(s, Minus)
      case '+' => AddTokenIsStep(s, Plus); AddToken(s, Plus)
      case ';' => AddTokenIsStep(s, SemiColon); AddToken(s, SemiColon)
      case '*' => AddTokenIsStep(s, Star); AddToken(s, Star)
      case '=' => OneOrTwoChar(s, EqualEqual, Equal)
      case '<' => OneOrTwoChar(s, LessEqual, Less)
      case '>' => OneOrTwoChar(s, GreaterEqual, Greater)
      case '/' => SlashOrComment(s)
      case '"' => StringToken(s)
      case '.' => DotOrNumber(s)
      case '!' => BangToken(s)
      case _ => OtherChar(s, c)
  }

  /** Space, carriage return and tab. */
  predicate IsBlank(c: char) {
    c == ' ' || c == '\r' || c == '\t'
  }

  /** The `while` loop of `scan_tokens`: each step starts a new lexeme at
      the cursor. */
  function ScanLoop(s: Scanner): (s': Scanner)
    requires Valid(s)
    ensures Valid(s') && IsAtEnd(s') && s'.source == s.source
    decreases |s.source| - s.current
  {
    if IsAtEnd(s) then s else ScanLoop(ScanToken(s.(start := s.current)))
  }

  /** `scan_tokens`: scans the whole text, then appends an EOF token with an
      empty lexeme and the final line. The line counter starts at 1 and
      counts every newline, so the EOF line is one more than the number of
      newlines in the text; no other token is an EOF token. */
  function ScanTokens(source: string, reporter: ErrorReporter): (s: Scanner)
    requires IsAscii(source)
    ensures |s.tokens| > 0
    ensures s.tokens[|s.tokens| - 1] == Token(EOF, "", None, 1 + NewlinesIn(source, 0, |source|))
    ensures forall i :: 0 <= i < |s.tokens| - 1 ==> s.tokens[i].kind != EOF
    ensures Extends(reporter, s.reporter)
  {
    var s0 := NewScanner(source, reporter);
    var s1 := ScanLoop(s0);
    LoopFacts(s0);
    EofFacts(source, reporter, s1);
    WithEof(s1)
  }

  /** The end of `scan_tokens`: an EOF token with an empty lexeme on the
      scanner's current line. */
  function WithEof(s: Scanner): (s': Scanner)
    ensures s'.tokens == s.tokens + [Token(EOF, "", None, s.line)]
    ensures s'.reporter == s.reporter
  {
    s.(tokens := s.tokens + [NewToken(EOF, "", None, s.line)])
  }

  /** What the loop's facts give for the finished token list. */
  lemma EofFacts(source: string, reporter: ErrorReporter, s1: Scanner)
    requires s1.current == |source|
    requires s1.line == 1 + NewlinesIn(source, 0, s1.current)
    requires Extends(reporter, s1.reporter)
    requires NoNewEof(NewScanner(source, reporter), s1)
    ensures var t := WithEof(s1).tokens;
            && t[|t| - 1] == Token(EOF, "", None, 1 + NewlinesIn(source, 0, |source|))
            && (forall i :: 0 <= i < |t| - 1 ==> t[i].kind != EOF)
    ensures Extends(reporter, WithEof(s1).reporter)
  {
  }

  // ---------------------------------------------------------------------
  // Facts about steps.
  // ---------------------------------------------------------------------

  lemma {:induction false} NewlinesSplit(source: string, a: nat, b: nat, c: nat)
    requires a <= b <= c <= |source|
    ensures NewlinesIn(source, a, c) == NewlinesIn(source, a, b) + NewlinesIn(source, b, c)
    decreases b - a
  {
    if a < b {
      NewlinesSplit(source, a + 1, b, c);
    }
  }

  lemma {:induction false} NoNewlines(source: string, a: nat, b: nat)
    requires a <= b <= |source|
    requires forall i :: a <= i < b ==> source[i] != '\n'
    ensures NewlinesIn(source, a, b) == 0
    decreases b - a
  {
    if a < b {
      NoNewlines(source, a + 1, b);
    }
  }

  lemma SteppedTransitive(a: Scanner, b: Scanner, c: Scanner)
    requires Stepped(a, b) && Stepped(b, c)
    ensures Stepped(a, c)
  {
    NewlinesSplit(a.source, a.current, b.current, c.current);
    ExtendsTransitive(a.reporter, b.reporter, c.reporter);
  }

  /** A cursor move over non-newline characters is a step. */
  lemma MovedOverIsStep(s: Scanner, s': Scanner)
    requires Valid(s) && MovedOver(s, s')
    ensures Stepped(s, s')
  {
    NoNewlines(s.source, s.current, s'.current);
  }

  lemma ReportLineIsStep(s: Scanner, message: string)
    requires Valid(s)
    ensures Stepped(s, ReportLine(s, message)) && ReportLine(s, message).tokens == s.tokens
  {
    ReportingAppends(s.reporter, Token(EOF, "", None, 0), s.line, "", message);
  }

  lemma AdvanceIsStep(s: Scanner)
    requires Valid(s) && !IsAtEnd(s) && s.source[s.current] != '\n'
    ensures Stepped(s, Advance(s))
  {
  }

  /** `add_token` appends one token: the given kind, the text between the
      two cursors as its lexeme, no literal, on the current line. The
      cursors, the line and the reporter stay as they were. */
  lemma AddTokenAppends(s: Scanner, kind: TokenKind)
    requires Valid(s)
    ensures AddToken(s, kind).tokens == s.tokens + [Token(kind, s.source[s.start..s.current], None, s.line)]
    ensures AddToken(s, kind) == s.(tokens := AddToken(s, kind).tokens)
  {
  }

  /** The scanner is at its end exactly when the cursor has reached the end
      of the text; there, both lookaheads give `'\0'`. */
  lemma AtEndIsEndOfText(s: Scanner)
    requires Valid(s)
    ensures IsAtEnd(s) <==> s.current == |s.source|
    ensures IsAtEnd(s) ==> Peek(s) == '\0' && PeekNext(s) == '\0'
  {
  }

  lemma AddTokenIsStep(s: Scanner, kind: TokenKind)
    requires Valid(s) && kind != EOF
    ensures StepFrom(s, AddToken(s, kind))
  {
  }

  /** `match_char` either stays or steps over a non-newline character. */
  lemma AdvanceOrStay(s: Scanner, s1: Scanner)
    requires Valid(s) && Valid(s1)
    requires s1 == s || (!IsAtEnd(s) && s.source[s.current] != '\n' && s1 == Advance(s))
    ensures Stepped(s, s1)
  {
    ExtendsRefl(s.reporter);
  }

  /** The character `scan_token` consumed first, followed by the step of its
      branch, is one step. */
  lemma AdvanceThenStep(s: Scanner, s': Scanner)
    requires Valid(s) && !IsAtEnd(s)
    requires var s1 := Advance(s);
             if s.source[s.current] == '\n' then s' == s1.(line := s1.line + 1)
             else if IsBlank(s.source[s.current]) then s' == s1
             else StepFrom(s1, s')
    ensures StepFrom(s, s') && s'.current > s.current
  {
    var s1 := Advance(s);
    ExtendsRefl(s.reporter);
    if s.source[s.current] == '\n' {
      assert NewlinesIn(s.source, s.current, s.current + 1) == 1;
    } else if !IsBlank(s.source[s.current]) {
      AdvanceIsStep(s);
      SteppedTransitive(s, s1, s');
    }
  }

  /** The new tokens a loop from `s` to `s'` appended are not EOF tokens. */
  predicate NoNewEof(s: Scanner, s': Scanner) {
    && |s.tokens| <= |s'.tokens| && s'.tokens[..|s.tokens|] == s.tokens
    && forall i :: |s.tokens| <= i < |s'.tokens| ==> s'.tokens[i].kind != EOF
  }

  /** What the loop promises: it reaches the end, counts every newline it
      passes, only appends diagnostics, and appends only non-EOF tokens. */
  lemma {:induction false} LoopFacts(s: Scanner)
    requires Valid(s)
    ensures s.current <= ScanLoop(s).current
    ensures ScanLoop(s).line == s.line + NewlinesIn(s.source, s.current, ScanLoop(s).current)
    ensures Extends(s.reporter, ScanLoop(s).reporter)
    ensures NoNewEof(s, ScanLoop(s))
    decreases |s.source| - s.current
  {
    if IsAtEnd(s) {
      ExtendsRefl(s.reporter);
    } else {
      var s0 := s.(start := s.current);
      var s1 := ScanToken(s0);
      var s' := ScanLoop(s1);
      assert s' == ScanLoop(s);
      LoopFacts(s1);
      NewlinesSplit(s.source, s.current, s1.current, s'.current);
      ExtendsTransitive(s.reporter, s1.reporter, s'.reporter);
      NoNewEofStep(s, s1, s');
    }
  }

  lemma NoNewEofStep(s: Scanner, s1: Scanner, s': Scanner)
    requires s1.start <= s1.current <= |s1.source|
    requires AddsAtMostOne(s, s1) && NoNewEof(s1, s')
    ensures NoNewEof(s, s')
  {
    assert s'.tokens[..|s.tokens|] == s'.tokens[..|s1.tokens|][..|s.tokens|];
    forall i | |s.tokens| <= i < |s'.tokens|
      ensures s'.tokens[i].kind != EOF
    {
      if i < |s1.tokens| {
        assert s'.tokens[i] == s'.tokens[..|s1.tokens|][i];
      }
    }
  }
}
