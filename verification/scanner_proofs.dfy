/** Properties of the scanner (src/scanner.rs): where lexemes come from,
    how lines are counted, and what one step does for each kind of
    character. */
module ScanningProofs {
  import opened Outcomes
  import opened TokenTypes
  import opened Tokens
  import opened Errors
  import opened ErrorReporters
  import opened Scanning

  // ---------------------------------------------------------------------
  // Lexemes are ordered, non-overlapping slices of the source.
  // ---------------------------------------------------------------------

  /** A source range `[lo, hi)`. */
  datatype Span = Span(lo: nat, hi: nat)

  /** Token `t` was scanned from `source[sp.lo..sp.hi]`: that text is its
      lexeme, and its line is one more than the newlines before `sp.hi`. */
  predicate ScannedFrom(source: string, t: Token, sp: Span) {
    && sp.lo < sp.hi <= |source|
    && t.lexeme == source[sp.lo..sp.hi]
    && t.line == 1 + NewlinesIn(source, 0, sp.hi)
    && t.kind != EOF
    && t.literal == None
  }

  /** Spans that appear in source order and do not overlap. */
  predicate InOrder(spans: seq<Span>) {
    forall k :: 0 < k < |spans| ==> spans[k - 1].hi <= spans[k].lo
  }

  /** The line counter always equals one plus the newlines before the
      cursor. */
  predicate LineInvariant(s: Scanner)
    requires Valid(s)
  {
    s.line == 1 + NewlinesIn(s.source, 0, s.current)
  }

  /** The spans of the tokens a loop from `s` appends. */
  predicate SpansOfNewTokens(s: Scanner, t: Scanner, spans: seq<Span>)
    requires |s.tokens| <= |t.tokens|
  {
    && |spans| == |t.tokens| - |s.tokens|
    && (forall k :: 0 <= k < |spans| ==>
          s.current <= spans[k].lo && ScannedFrom(s.source, t.tokens[|s.tokens| + k], spans[k]))
    && InOrder(spans)
  }

  lemma {:induction false} LoopSpans(s: Scanner) returns (spans: seq<Span>)
    requires Valid(s) && LineInvariant(s)
    ensures LoopFactsHold(s) && SpansOfNewTokens(s, ScanLoop(s), spans)
    decreases |s.source| - s.current
  {
    LoopFacts(s);
    if IsAtEnd(s) {
      return [];
    }
    var s1 := ScanToken(s.(start := s.current));
    assert ScanLoop(s) == ScanLoop(s1);
    NewlinesSplit(s.source, 0, s.current, s1.current);
    var rest := LoopSpans(s1);
    spans := ExtendSpans(s, s1, ScanLoop(s1), rest);
  }

  /** `LoopFacts` as a predicate, so that other statements can mention it. */
  predicate LoopFactsHold(s: Scanner)
    requires Valid(s)
  {
    && s.current <= ScanLoop(s).current
    && ScanLoop(s).line == s.line + NewlinesIn(s.source, s.current, ScanLoop(s).current)
    && NoNewEof(s, ScanLoop(s))
  }

  /** One step in front of a loop: the step's token (if any) comes first. */
  lemma ExtendSpans(s: Scanner, s1: Scanner, t: Scanner, rest: seq<Span>) returns (spans: seq<Span>)
    requires Valid(s) && LineInvariant(s) && !IsAtEnd(s)
    requires StepFrom(s.(start := s.current), s1) && s1.current > s.current
    requires Valid(s1) && LineInvariant(s1)
    requires NoNewEof(s1, t) && SpansOfNewTokens(s1, t, rest)
    ensures |s.tokens| <= |t.tokens| && SpansOfNewTokens(s, t, spans)
  {
    if s1.tokens == s.tokens {
      spans := rest;
    } else {
      spans := SpanInFront(s, s1, t, rest);
    }
  }

  /** The step added a token: its span goes in front of the loop's. */
  lemma SpanInFront(s: Scanner, s1: Scanner, t: Scanner, rest: seq<Span>) returns (spans: seq<Span>)
    requires Valid(s) && s.current < s1.current <= |s.source|
    requires s1.source == s.source && s1.start == s.current && LineInvariant(s1)
    requires |s1.tokens| == |s.tokens| + 1 && s1.tokens[..|s.tokens|] == s.tokens
    requires ScannedFrom(s.source, s1.tokens[|s.tokens|], Span(s.current, s1.current))
    requires NoNewEof(s1, t) && SpansOfNewTokens(s1, t, rest)
    ensures |s.tokens| <= |t.tokens| && SpansOfNewTokens(s, t, spans)
  {
    var sp := Span(s.current, s1.current);
    assert t.tokens[|s.tokens|] == t.tokens[..|s1.tokens|][|s.tokens|] == s1.tokens[|s.tokens|];
    spans := [sp] + rest;
    forall k | 1 <= k < |spans|
      ensures ScannedFrom(s.source, t.tokens[|s.tokens| + k], spans[k])
    {
      assert spans[k] == rest[k - 1];
    }
  }

  /** Every token but the final EOF was scanned from a non-empty slice of
      the source; the slices appear in source order and never overlap. */
  lemma ScanSpans(source: string, reporter: ErrorReporter) returns (spans: seq<Span>)
    requires IsAscii(source)
    ensures var toks := ScanTokens(source, reporter).tokens;
            && |spans| == |toks| - 1
            && (forall k :: 0 <= k < |spans| ==> ScannedFrom(source, toks[k], spans[k]))
            && InOrder(spans)
  {
    var s0 := NewScanner(source, reporter);
    assert LineInvariant(s0);
    spans := LoopSpans(s0);
    var s1 := ScanLoop(s0);
    assert ScanTokens(source, reporter).tokens == s1.tokens + [Token(EOF, "", None, s1.line)];
  }

  lemma {:induction false} NewlinesMonotone(source: string, a: nat, b: nat)
    requires a <= b <= |source|
    ensures NewlinesIn(source, 0, a) <= NewlinesIn(source, 0, b)
  {
    NewlinesSplit(source, 0, a, b);
  }

  lemma {:induction false} SpansIncrease(spans: seq<Span>, j: nat, k: nat)
    requires InOrder(spans) && j <= k < |spans|
    requires forall i :: 0 <= i < |spans| ==> spans[i].lo < spans[i].hi
    ensures spans[j].hi <= spans[k].hi
    decreases k - j
  {
    if j < k {
      SpansIncrease(spans, j, k - 1);
    }
  }

  /** Token lines start at 1, never decrease along the token list, and the
      final EOF line, one more than the number of newlines in the text, is
      the largest. */
  lemma TokenLinesNonDecreasing(source: string, reporter: ErrorReporter)
    requires IsAscii(source)
    ensures var toks := ScanTokens(source, reporter).tokens;
            && (forall i :: 0 <= i < |toks| ==> 1 <= toks[i].line <= 1 + NewlinesIn(source, 0, |source|))
            && (forall i, j :: 0 <= i <= j < |toks| ==> toks[i].line <= toks[j].line)
  {
    var toks := ScanTokens(source, reporter).tokens;
    var spans := ScanSpans(source, reporter);
    forall i | 0 <= i < |toks| - 1
      ensures toks[i].line <= 1 + NewlinesIn(source, 0, |source|)
    {
      NewlinesMonotone(source, spans[i].hi, |source|);
    }
    forall i, j | 0 <= i <= j < |toks|
      ensures toks[i].line <= toks[j].line
    {
      if j == |toks| - 1 {
        if i < j {
          NewlinesMonotone(source, spans[i].hi, |source|);
        }
      } else {
        SpansIncrease(spans, i, j);
        NewlinesMonotone(source, spans[i].hi, spans[j].hi);
      }
    }
  }

  // ---------------------------------------------------------------------
  // One step, by the character that starts it.
  // ---------------------------------------------------------------------

  /** A scanner about to start a lexeme at the cursor. */
  predicate Ready(s: Scanner) {
    Valid(s) && !IsAtEnd(s) && s.start == s.current
  }

  /** The kinds of the one-character tokens. */
  const SingleCharKinds: map<char, TokenKind> :=
    map['(' := LeftParen, ')' := RightParen, '{' := LeftBrace, '}' := RightBrace,
        ',' := Comma, '-' := Minus, '+' := Plus, ';' := SemiColon, '*' := Star]

  lemma SingleCharStep(s: Scanner)
    requires Ready(s) && s.source[s.current] in SingleCharKinds
    ensures var c := s.source[s.current];
            var r := ScanToken(s);
            && r.tokens == s.tokens + [Token(SingleCharKinds[c], [c], None, s.line)]
            && r.current == s.current + 1 && r.line == s.line && r.reporter == s.reporter
  {
    assert s.source[s.current..s.current + 1] == [s.source[s.current]];
  }

  /** The kind `=`, `<` or `>` gets, with (`two`) or without a following
      `=`. */
  function ComparisonKind(c: char, two: bool): TokenKind {
    if c == '=' then (if two then EqualEqual else Equal)
    else if c == '<' then (if two then LessEqual else Less)
    else (if two then GreaterEqual else Greater)
  }

  /** `=`, `<` and `>` take a following `=` into a two-character token;
      otherwise they are one-character tokens. */
  lemma OneOrTwoCharStep(s: Scanner)
    requires Ready(s) && (s.source[s.current] == '=' || s.source[s.current] == '<' || s.source[s.current] == '>')
    ensures var c := s.source[s.current];
            var r := ScanToken(s);
            var two := s.current + 1 < |s.source| && s.source[s.current + 1] == '=';
            && r.tokens == s.tokens + [Token(ComparisonKind(c, two), if two then [c, '='] else [c], None, s.line)]
            && r.current == s.current + (if two then 2 else 1)
            && r.line == s.line && r.reporter == s.reporter
  {
    var c := s.source[s.current];
    var s1 := Advance(s);
    ComparisonDispatch(s);
    OneOrTwoCharResult(s1, ComparisonKind(c, true), ComparisonKind(c, false));
    if s.current + 1 < |s.source| && s.source[s.current + 1] == '=' {
      assert s.source[s.current..s.current + 2] == [c, '='];
    } else {
      assert s.source[s.current..s.current + 1] == [c];
    }
  }

  /** A character other than a blank or a newline makes a token step. */
  lemma StepDispatch(s: Scanner)
    requires Valid(s) && !IsAtEnd(s) && s.source[s.current] != '\n' && !IsBlank(s.source[s.current])
    ensures ScanToken(s) == TokenStep(Advance(s), s.source[s.current])
  {
  }

  lemma ComparisonDispatch(s: Scanner)
    requires Valid(s) && !IsAtEnd(s)
    requires s.source[s.current] == '=' || s.source[s.current] == '<' || s.source[s.current] == '>'
    ensures ScanToken(s) == OneOrTwoChar(Advance(s), ComparisonKind(s.source[s.current], true),
                                         ComparisonKind(s.source[s.current], false))
  {
    StepDispatch(s);
  }

  /** `OneOrTwoChar` after the first character: the token takes the `=`
      when it is there. */
  lemma OneOrTwoCharResult(s: Scanner, two: TokenKind, one: TokenKind)
    requires Valid(s) && two != EOF && one != EOF
    ensures OneOrTwoChar(s, two, one) ==
              if !IsAtEnd(s) && s.source[s.current] == '=' then
                s.(current := s.current + 1,
                   tokens := s.tokens + [Token(two, s.source[s.start..s.current + 1], None, s.line)])
              else s.(tokens := s.tokens + [Token(one, s.source[s.start..s.current], None, s.line)])
  {
  }

  /** `!` is only valid as `!=`; a lone `!` is reported and adds no token. */
  lemma BangStep(s: Scanner)
    requires Ready(s) && s.source[s.current] == '!'
    ensures var r := ScanToken(s);
            if s.current + 1 < |s.source| && s.source[s.current + 1] == '=' then
              && r.tokens == s.tokens + [Token(BangEqual, "!=", None, s.line)]
              && r.current == s.current + 2 && r.reporter == s.reporter
            else
              && r.tokens == s.tokens && r.current == s.current + 1
              && r.reporter.errors == s.reporter.errors + [Error(s.line, "", "Unexpected character: !")]
  {
    if s.current + 1 < |s.source| && s.source[s.current + 1] == '=' {
      assert s.source[s.current..s.current + 2] == "!=";
    }
  }

  /** `//` starts a comment: no token, and the step stops right before the
      next newline (or at the end), leaving the newline for the next step. */
  lemma CommentStep(s: Scanner)
    requires Ready(s) && s.current + 1 < |s.source|
    requires s.source[s.current] == '/' && s.source[s.current + 1] == '/'
    ensures var r := ScanToken(s);
            && r.tokens == s.tokens && r.reporter == s.reporter && r.line == s.line
            && s.current + 2 <= r.current
            && (forall i :: s.current <= i < r.current ==> s.source[i] != '\n')
            && (r.current == |s.source| || s.source[r.current] == '\n')
  {
  }

  /** A `/` not followed by `/` is a Slash token. */
  lemma SlashStep(s: Scanner)
    requires Ready(s) && s.source[s.current] == '/'
    requires s.current + 1 == |s.source| || s.source[s.current + 1] != '/'
    ensures var r := ScanToken(s);
            && r.tokens == s.tokens + [Token(Slash, "/", None, s.line)]
            && r.current == s.current + 1
  {
    assert s.source[s.current..s.current + 1] == "/";
  }

  /** Spaces, tabs and carriage returns add nothing; a newline adds nothing
      but counts one line. */
  lemma BlankStep(s: Scanner)
    requires Ready(s) && s.source[s.current] in " \r\t\n"
    ensures var r := ScanToken(s);
            && r.tokens == s.tokens && r.reporter == s.reporter
            && r.current == s.current + 1
            && r.line == s.line + (if s.source[s.current] == '\n' then 1 else 0)
  {
  }

  /** The characters that start something in `scan_token`. */
  predicate Recognized(c: char) {
    c in "(){},-+;*=<>/\".! \r\t\n" || IsDigit(c) || IsAlpha(c) || c == '_'
  }

  /** Any other character is reported and skipped; scanning goes on. */
  lemma UnexpectedCharStep(s: Scanner)
    requires Ready(s) && !Recognized(s.source[s.current])
    ensures var r := ScanToken(s);
            && r.tokens == s.tokens && r.current == s.current + 1 && r.line == s.line
            && r.reporter.errors == s.reporter.errors
                 + [Error(s.line, "", "Unexpected character: " + [s.source[s.current]])]
  {
  }

  // ---------------------------------------------------------------------
  // Strings.
  // ---------------------------------------------------------------------

  /** A body that is quote-free up to a `"` not followed by another `"`
      cannot be quote-free as a whole: that quote closes the string. */
  lemma {:induction false} ClosingQuote(t: string, p: nat)
    requires p < |t| && QuoteFree(t[..p]) && t[p] == '"'
    requires p + 1 == |t| || t[p + 1] != '"'
    ensures !QuoteFree(t)
    decreases p
  {
    if p > 0 {
      var u := t[..p];
      if u[0] != '"' {
        assert u[1..] == t[1..][..p - 1];
        ClosingQuote(t[1..], p - 1);
      } else {
        assert u[2..] == t[2..][..p - 2];
        ClosingQuote(t[2..], p - 2);
      }
    }
  }

  lemma QuoteDispatch(s: Scanner)
    requires Valid(s) && !IsAtEnd(s) && s.source[s.current] == '"'
    ensures ScanToken(s) == StringToken(Advance(s))
  {
    StepDispatch(s);
  }

  /** A string is terminated exactly when the text after its opening quote
      is not a quote-free body. */
  lemma StringStep(s: Scanner)
    requires Ready(s) && s.source[s.current] == '"'
    ensures if QuoteFree(s.source[s.current + 1..]) then Unterminated(s, ScanToken(s))
            else Terminated(s, ScanToken(s))
  {
    QuoteDispatch(s);
    if IsAtEnd(StringBody(Advance(s))) {
      UnterminatedOutcome(s);
    } else {
      TerminatedOutcome(s);
    }
  }

  /** An unterminated string: the rest of the text is consumed (counting
      its newlines), "Unterminated string." is reported at the final line,
      and no token is added. */
  predicate Unterminated(s: Scanner, r: Scanner)
    requires Valid(s)
  {
    && r.tokens == s.tokens && r.current == |s.source| && r.source == s.source
    && r.line == s.line + NewlinesIn(s.source, s.current, |s.source|)
    && r.reporter.errors == s.reporter.errors + [Error(r.line, "", "Unterminated string.")]
  }

  /** A terminated string: one String token whose lexeme runs from the
      opening quote to the closing quote inclusive, with a quote-free body
      in between and no `"` right after it; its line is the line reached. */
  predicate Terminated(s: Scanner, r: Scanner)
    requires Valid(s)
  {
    var src := s.source;
    && r.source == src && s.current + 2 <= r.current <= |src|
    && r.line == s.line + NewlinesIn(src, s.current, r.current)
    && r.tokens == s.tokens + [Token(String, src[s.current..r.current], None, r.line)]
    && src[r.current - 1] == '"'
    && QuoteFree(src[s.current + 1..r.current - 1])
    && (r.current == |src| || src[r.current] != '"')
    && r.reporter == s.reporter
  }

  lemma UnterminatedOutcome(s: Scanner)
    requires Ready(s) && s.source[s.current] == '"'
    requires IsAtEnd(StringBody(Advance(s)))
    ensures QuoteFree(s.source[s.current + 1..]) && Unterminated(s, StringToken(Advance(s)))
  {
    var src := s.source;
    var s1 := Advance(s);
    var b := StringBody(s1);
    NewlinesSplit(src, s.current, s1.current, b.current);
    assert b.current == |src|;
    assert src[s.current + 1..] == src[s1.current..b.current];
  }

  lemma TerminatedOutcome(s: Scanner)
    requires Ready(s) && s.source[s.current] == '"'
    requires !IsAtEnd(StringBody(Advance(s)))
    ensures !QuoteFree(s.source[s.current + 1..]) && Terminated(s, StringToken(Advance(s)))
  {
    var b := StringBody(Advance(s));
    assert StringToken(Advance(s)) == AddToken(Advance(b), String);
    TerminatedShape(s, b);
  }

  /** The terminated case, stated over the state `b` the string loop stops in. */
  lemma TerminatedShape(s: Scanner, b: Scanner)
    requires Valid(s) && s.start == s.current && s.current < |s.source| && s.source[s.current] == '"'
    requires b.source == s.source && b.start == s.start && b.tokens == s.tokens && b.reporter == s.reporter
    requires s.current + 1 <= b.current < |s.source|
    requires b.line == s.line + NewlinesIn(s.source, s.current + 1, b.current)
    requires QuoteFree(s.source[s.current + 1..b.current])
    requires s.source[b.current] == '"' && PeekNext(b) != '"'
    ensures !QuoteFree(s.source[s.current + 1..]) && Terminated(s, AddToken(Advance(b), String))
  {
    ClosedBody(s.source, s.current, b.current);
    LineThroughQuotes(s.source, s.current, b.current, s.line, b.line);
    TerminatedOf(s, b.current + 1, AddToken(Advance(b), String));
  }

  /** `Terminated` from the fields of the final state `r`, whose closing
      quote is at `j - 1`. */
  lemma TerminatedOf(s: Scanner, j: nat, r: Scanner)
    requires Valid(s) && s.current + 2 <= j <= |s.source|
    requires r.source == s.source && r.current == j && r.reporter == s.reporter
    requires r.line == s.line + NewlinesIn(s.source, s.current, j)
    requires r.tokens == s.tokens + [Token(String, s.source[s.current..j], None, r.line)]
    requires s.source[j - 1] == '"' && QuoteFree(s.source[s.current + 1..j - 1])
    requires j == |s.source| || s.source[j] != '"'
    ensures Terminated(s, r)
  {
  }

  /** A quote-free body between the opening quote at `i` and a closing
      quote at `j` makes the rest of the text after `i` not quote-free. */
  lemma ClosedBody(src: string, i: nat, j: nat)
    requires i < j < |src| && src[j] == '"' && (j + 1 == |src| || src[j + 1] != '"')
    requires QuoteFree(src[i + 1..j])
    ensures !QuoteFree(src[i + 1..])
  {
    var t := src[i + 1..];
    assert t[..j - (i + 1)] == src[i + 1..j];
    ClosingQuote(t, j - (i + 1));
  }

  /** The two quotes at `i` and `j` are no newlines. */
  lemma LineThroughQuotes(src: string, i: nat, j: nat, line0: int, line: int)
    requires i < j < |src| && src[i] == '"' && src[j] == '"'
    requires line == line0 + NewlinesIn(src, i + 1, j)
    ensures line == line0 + NewlinesIn(src, i, j + 1)
  {
    NewlinesSplit(src, i, i + 1, j);
    NewlinesSplit(src, i, j, j + 1);
  }

  /** The string body a value `u` needs: every `"` written twice. */
  function DoubleQuotes(u: string): (t: string)
    ensures QuoteFree(t)
    ensures IsAscii(u) ==> IsAscii(t)
  {
    if |u| == 0 then ""
    else
      var rest := DoubleQuotes(u[1..]);
      if u[0] == '"' then
        assert ("\"\"" + rest)[2..] == rest;
        "\"\"" + rest
      else
        assert ([u[0]] + rest)[1..] == rest;
        [u[0]] + rest
  }

  lemma {:induction false} DoubleQuotesBody(u: string, s: Scanner)
    requires Valid(s) && s.source[s.current..] == DoubleQuotes(u) + "\""
    ensures StringBody(s).current == |s.source| - 1
    decreases |u|
  {
    var src := s.source;
    if |u| == 0 {
      assert src[s.current] == '"' && s.current + 1 == |src|;
    } else {
      var rest := DoubleQuotes(u[1..]);
      if u[0] == '"' {
        assert src[s.current..][..2] == "\"\"";
        assert src[s.current + 2..] == src[s.current..][2..] == rest + "\"";
        DoubleQuotesBody(u[1..], Advance(Advance(s)));
      } else {
        assert src[s.current + 1..] == src[s.current..][1..] == rest + "\"";
        DoubleQuotesBody(u[1..], Advance(s.(line := if u[0] == '\n' then s.line + 1 else s.line)));
      }
    }
  }

  /** A string literal for the value `u`: its body between two quotes. */
  function Quoted(u: string): (src: string)
    ensures |src| >= 2 && src[0] == '"' && src[1..] == DoubleQuotes(u) + "\""
    ensures IsAscii(u) ==> IsAscii(src)
  {
    var body := DoubleQuotes(u);
    assert forall i :: 1 <= i < |body| + 1 ==> ("\"" + body + "\"")[i] == body[i - 1];
    "\"" + body + "\""
  }

  /** Round trip: quoting any ASCII text with doubled inner quotes scans to
      exactly one String token, whose lexeme is the whole literal, followed
      by EOF. */
  lemma QuotedStringScansBack(u: string, reporter: ErrorReporter)
    requires IsAscii(u)
    ensures ScanTokens(Quoted(u), reporter).tokens ==
              [Token(String, Quoted(u), None, 1 + NewlinesIn(Quoted(u), 0, |Quoted(u)|)),
               Token(EOF, "", None, 1 + NewlinesIn(Quoted(u), 0, |Quoted(u)|))]
  {
    QuotedSourceScans(u, Quoted(u), reporter);
  }

  lemma QuotedSourceScans(u: string, src: string, reporter: ErrorReporter)
    requires IsAscii(src) && |src| > 0 && src[0] == '"' && src[1..] == DoubleQuotes(u) + "\""
    ensures ScanTokens(src, reporter).tokens ==
              [Token(String, src, None, 1 + NewlinesIn(src, 0, |src|)),
               Token(EOF, "", None, 1 + NewlinesIn(src, 0, |src|))]
  {
    var s0 := NewScanner(src, reporter);
    var r := QuotedStringStep(u, s0);
    SingleStepScan(src, reporter);
  }

  /** A text that one step scans completely yields that step's tokens and EOF. */
  lemma SingleStepScan(src: string, reporter: ErrorReporter)
    requires IsAscii(src) && |src| > 0 && IsAtEnd(ScanToken(NewScanner(src, reporter)))
    ensures ScanTokens(src, reporter).tokens ==
              ScanToken(NewScanner(src, reporter)).tokens + [Token(EOF, "", None, 1 + NewlinesIn(src, 0, |src|))]
  {
    var s0 := NewScanner(src, reporter);
    LoopOnce(s0);
    ScanTokensLoop(src, reporter);
  }

  /** The token list of `scan_tokens` is the loop's, then EOF. */
  lemma ScanTokensLoop(src: string, reporter: ErrorReporter)
    requires IsAscii(src)
    ensures ScanTokens(src, reporter).tokens ==
              ScanLoop(NewScanner(src, reporter)).tokens + [Token(EOF, "", None, 1 + NewlinesIn(src, 0, |src|))]
  {
    ScanTokensIsLoop(src, reporter);
    LoopEndLine(src, reporter);
  }

  lemma ScanTokensIsLoop(src: string, reporter: ErrorReporter)
    requires IsAscii(src)
    ensures ScanTokens(src, reporter) == WithEof(ScanLoop(NewScanner(src, reporter)))
  {
  }

  /** The loop from a fresh scanner ends on line 1 plus the newlines. */
  lemma LoopEndLine(src: string, reporter: ErrorReporter)
    ensures ScanLoop(NewScanner(src, reporter)).line == 1 + NewlinesIn(src, 0, |src|)
  {
    LoopFacts(NewScanner(src, reporter));
  }

  /** A loop whose first step reaches the end is that step. */
  lemma LoopOnce(s: Scanner)
    requires Valid(s) && !IsAtEnd(s) && s.start == s.current && IsAtEnd(ScanToken(s))
    ensures ScanLoop(s) == ScanToken(s)
  {
    assert s.(start := s.current) == s;
  }

  lemma QuotedStringStep(u: string, s0: Scanner) returns (r: Scanner)
    requires Ready(s0) && s0.current == 0 && s0.line == 1 && s0.tokens == []
    requires s0.source[0] == '"' && s0.source[1..] == DoubleQuotes(u) + "\""
    ensures r == ScanToken(s0) && IsAtEnd(r)
    ensures r.tokens == [Token(String, s0.source, None, 1 + NewlinesIn(s0.source, 0, |s0.source|))]
  {
    var src := s0.source;
    var s1 := Advance(s0);
    DoubleQuotesBody(u, s1);
    QuoteDispatch(s0);
    r := StringToken(s1);
    assert r.current == |src|;
    StringStep(s0);
    assert src[0..|src|] == src;
    assert !QuoteFree(src[1..]) by {
      assert src[1..][..|src| - 2] == DoubleQuotes(u);
      ClosingQuote(src[1..], |src| - 2);
    }
  }

  // ---------------------------------------------------------------------
  // Numbers.
  // ---------------------------------------------------------------------

  /** `source[d..hi]` (after whatever starts the lexeme) is a numeral read
      greedily: digits up to `whole`, then a `.digits` fraction exactly when
      a digit follows a `.` there, and no digit right after `hi`. */
  predicate NumeralAt(source: string, d: nat, whole: nat, hi: nat) {
    && d <= whole <= hi <= |source|
    && (forall i :: d <= i < whole ==> IsDigit(source[i]))
    && (if whole + 1 < |source| && source[whole] == '.' && IsDigit(source[whole + 1])
        then whole + 1 < hi && forall i :: whole < i < hi ==> IsDigit(source[i])
        else hi == whole)
    && (hi == |source| || !IsDigit(source[hi]))
  }

  /** What `number` consumes from `s` and the Number token it adds. */
  lemma NumberBody(s: Scanner) returns (whole: nat)
    requires Valid(s)
    ensures var r := NumberToken(s);
            && NumeralAt(s.source, s.current, whole, r.current)
            && (Peek(s) != '.' ==> whole == |s.source| || !IsDigit(s.source[whole]))
            && r.tokens == s.tokens + [Token(Number, s.source[s.start..r.current], None, s.line)]
            && r.line == s.line && r.reporter == s.reporter
  {
    var s1 := if Peek(s) != '.' then DigitRun(s) else s;
    var s2 := if Peek(s1) == '.' && IsDigit(PeekNext(s1)) then DigitRun(Advance(s1)) else s1;
    whole := s1.current;
    assert NumberToken(s) == AddToken(s2, Number);
    NumeralOf(s, s1, s2);
  }

  /** The two digit runs of `number` read a numeral. */
  lemma NumeralOf(s: Scanner, s1: Scanner, s2: Scanner)
    requires Valid(s)
    requires s1 == if Peek(s) != '.' then DigitRun(s) else s
    requires s2 == if Peek(s1) == '.' && IsDigit(PeekNext(s1)) then DigitRun(Advance(s1)) else s1
    ensures NumeralAt(s.source, s.current, s1.current, s2.current)
    ensures Peek(s) != '.' ==> s1.current == |s.source| || !IsDigit(s.source[s1.current])
    ensures s2.source == s.source && s2.start == s.start && s2.tokens == s.tokens
    ensures s2.line == s.line && s2.reporter == s.reporter
  {
  }

  /** A digit starts a Number token: a digit run with an optional fraction. */
  lemma NumberStep(s: Scanner) returns (whole: nat)
    requires Ready(s) && IsDigit(s.source[s.current])
    ensures var r := ScanToken(s);
            && s.current < whole && NumeralAt(s.source, s.current, whole, r.current)
            && r.tokens == s.tokens + [Token(Number, s.source[s.current..r.current], None, s.line)]
            && r.line == s.line && r.reporter == s.reporter
  {
    var s1 := Advance(s);
    StepDispatch(s);
    assert TokenStep(s1, s.source[s.current]) == NumberToken(s1);
    whole := NumberBody(s1);
  }

  /** `.` starts a Number token when a digit follows (the fraction-only
      numeral `.5`, itself followed by another fraction as in `.5.3`);
      otherwise it is a Dot token. */
  lemma DotStep(s: Scanner) returns (whole: nat)
    requires Ready(s) && s.source[s.current] == '.'
    ensures var r := ScanToken(s);
            if s.current + 1 < |s.source| && IsDigit(s.source[s.current + 1]) then
              && s.current + 1 < whole && NumeralAt(s.source, s.current + 1, whole, r.current)
              && r.tokens == s.tokens + [Token(Number, s.source[s.current..r.current], None, s.line)]
              && r.line == s.line && r.reporter == s.reporter
            else
              && r.tokens == s.tokens + [Token(Dot, ".", None, s.line)]
              && r.current == s.current + 1 && r.reporter == s.reporter
  {
    var s1 := Advance(s);
    StepDispatch(s);
    assert TokenStep(s1, s.source[s.current]) == DotOrNumber(s1);
    if s.current + 1 < |s.source| && IsDigit(s.source[s.current + 1]) {
      whole := NumberBody(s1);
    } else {
      whole := s.current + 1;
      assert s.source[s.current..s.current + 1] == ".";
    }
  }

  // ---------------------------------------------------------------------
  // Identifiers and keywords.
  // ---------------------------------------------------------------------

  /** The keyword table of `identifier`, as a map. */
  const Keywords: map<string, TokenKind> :=
    map["and" := And, "class" := Class, "else" := Else, "false" := False,
        "for" := For, "fun" := Fun, "if" := If, "null" := Null, "not" := Not,
        "or" := Or, "print" := Print, "return" := Return, "super" := Super,
        "this" := This, "true" := True, "var" := Var, "while" := While]

  /** The keyword match agrees with the table: a listed word gets its kind,
      every other text is an Identifier. */
  lemma KeywordKindTable(text: string)
    ensures KeywordKind(text) == if text in Keywords then Keywords[text] else Identifier
  {
    if text in Keywords {
      ListedKeyword(text);
    } else {
      UnlistedWord(text);
    }
  }

  lemma ListedKeyword(text: string)
    requires text in Keywords
    ensures KeywordKind(text) == Keywords[text]
  {
    assert text in Keywords.Keys;
  }

  lemma UnlistedWord(text: string)
    requires text !in Keywords
    ensures KeywordKind(text) == Identifier
  {
  }

  /** A letter or `_` starts an identifier: the longest run of letters,
      digits and `_`, whose kind the keyword table decides. */
  lemma IdentifierStep(s: Scanner)
    requires Ready(s) && (IsAlpha(s.source[s.current]) || s.source[s.current] == '_')
    ensures var r := ScanToken(s);
            var text := s.source[s.current..r.current];
            && (forall i :: s.current <= i < r.current ==> IsIdentChar(s.source[i]))
            && (r.current == |s.source| || !IsIdentChar(s.source[r.current]))
            && r.tokens == s.tokens + [Token(KeywordKind(text), text, None, s.line)]
            && r.line == s.line && r.reporter == s.reporter
  {
    var s1 := Advance(s);
    StepDispatch(s);
    assert TokenStep(s1, s.source[s.current]) == IdentifierToken(s1);
  }
}
