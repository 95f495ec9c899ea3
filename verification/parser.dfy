/** The recursive-descent expression parser (src/parser.rs): cursor helpers,
    the precedence levels equality > comparison > term > factor > unary >
    primary, `consume`, and `synchronize`.

    The parser is a value: every operation takes a `Parser` and returns the
    parser it leaves behind. The `ErrorReporter` that `consume` writes to is
    carried inside the parser state. */
module Parsing {
  import opened Outcomes
  import opened TokenTypes
  import opened Tokens
  import opened ErrorReporters
  import opened Expressions

  /** `ParseError`. */
  datatype ParseError = UnexpectedToken(token: Token)

  /** `Parser`: the tokens, the cursor (an `i64` in the source; it never
      leaves the token list, see `Valid`), and the diagnostics. */
  datatype Parser = Parser(tokens: seq<Token>, current: nat, reporter: ErrorReporter)

  /** The token list ends with an EOF token (as every scan does) and the
      cursor is on a token. */
  predicate Valid(p: Parser) {
    && |p.tokens| > 0 && p.tokens[|p.tokens| - 1].kind == EOF
    && p.current < |p.tokens|
  }

  /** `Parser::new`: the cursor starts on the first token. */
  function NewParser(tokens: seq<Token>, reporter: ErrorReporter): (p: Parser)
    ensures p.tokens == tokens && p.current == 0 && p.reporter == reporter
    ensures |tokens| > 0 && tokens[|tokens| - 1].kind == EOF ==> Valid(p)
  {
    Parser(tokens, 0, reporter)
  }

  // ---------------------------------------------------------------------
  // Cursor helpers.
  // ---------------------------------------------------------------------

  function Peek(p: Parser): Token
    requires Valid(p)
  {
    p.tokens[p.current]
  }

  predicate IsAtEnd(p: Parser)
    requires Valid(p)
  {
    Peek(p).kind == EOF
  }

  /** `peek` is the token under the cursor. The last token is EOF, so the
      cursor on it is at the end, and a cursor not at the end has a token
      after it. */
  lemma CursorToken(p: Parser)
    requires Valid(p)
    ensures Peek(p) == p.tokens[p.current]
    ensures IsAtEnd(p) <==> p.tokens[p.current].kind == EOF
    ensures p.current == |p.tokens| - 1 ==> IsAtEnd(p)
    ensures !IsAtEnd(p) ==> p.current + 1 < |p.tokens|
  {
  }

  /** After the cursor moves off a token that is not EOF, `previous` is
      that token. */
  lemma PreviousIsPassed(p: Parser)
    requires Valid(p) && !IsAtEnd(p)
    ensures Valid(p.(current := p.current + 1))
    ensures Previous(p.(current := p.current + 1)) == Peek(p)
  {
  }

  /** `check`: never true at EOF, so never true for the EOF kind. */
  function Check(p: Parser, kind: TokenKind): (b: bool)
    requires Valid(p)
    ensures b ==> !IsAtEnd(p) && kind != EOF && p.tokens[p.current].kind == kind
    ensures !IsAtEnd(p) && p.tokens[p.current].kind == kind ==> b
  {
    if IsAtEnd(p) then false else Peek(p).kind == kind
  }

  /** `previous`: the source indexes `current - 1` unsigned, which underflows
      at 0; callers must have moved the cursor. */
  function Previous(p: Parser): Token
    requires Valid(p) && p.current >= 1
  {
    p.tokens[p.current - 1]
  }

  /** `advance`: moves one token forward unless the cursor is on EOF, and
      returns the token just passed (the one before the cursor). The cursor
      never moves past the EOF token. */
  function Advance(p: Parser): (r: (Parser, Token))
    requires Valid(p) && (p.current >= 1 || !IsAtEnd(p))
    ensures Valid(r.0) && r.0.tokens == p.tokens && r.0.reporter == p.reporter
    ensures r.0.current == if IsAtEnd(p) then p.current else p.current + 1
    ensures r.0.current >= 1 && r.1 == p.tokens[r.0.current - 1]
  {
    var q := if !IsAtEnd(p) then p.(current := p.current + 1) else p;
    (q, Previous(q))
  }

  /** `match_token`: tries each kind in turn; consumes one token exactly
      when the current token is not EOF and its kind is listed. */
  function MatchToken(p: Parser, kinds: seq<TokenKind>): (r: (Parser, bool))
    requires Valid(p)
    ensures Valid(r.0) && r.0.tokens == p.tokens && r.0.reporter == p.reporter
    ensures r.1 <==> !IsAtEnd(p) && p.tokens[p.current].kind in kinds
    ensures r.0.current == p.current + (if r.1 then 1 else 0)
    decreases |kinds|
  {
    if |kinds| == 0 then (p, false)
    else if Check(p, kinds[0]) then (Advance(p).0, true)
    else MatchToken(p, kinds[1..])
  }

  /** `error`: reports `token` through `error_token` and fails with it. */
  function Fail(p: Parser, token: Token, message: string): (r: (Parser, Result<(), ParseError>))
    ensures r.0 == p.(reporter := ErrorToken(p.reporter, token, message).0)
    ensures r.1 == Err(UnexpectedToken(token))
  {
    (p.(reporter := ErrorToken(p.reporter, token, message).0), Err(UnexpectedToken(token)))
  }

  /** `consume`: succeeds exactly when `check` does, and never moves the
      cursor, on success or failure; a failure reports the current token. */
  function Consume(p: Parser, kind: TokenKind, message: string): (r: (Parser, Result<(), ParseError>))
    requires Valid(p)
    ensures r.0.tokens == p.tokens && r.0.current == p.current
    ensures r.1.Ok? <==> !IsAtEnd(p) && p.tokens[p.current].kind == kind
    ensures r.1.Ok? ==> r.0.reporter == p.reporter
    ensures r.1.Err? ==> r.1.error == UnexpectedToken(p.tokens[p.current])
                         && r.0.reporter == ErrorToken(p.reporter, p.tokens[p.current], message).0
  {
    if Check(p, kind) then (p, Ok(())) else Fail(p, Peek(p), message)
  }

  // ---------------------------------------------------------------------
  // Precedence levels.
  // ---------------------------------------------------------------------

  /** The four binary levels; `equality`, `comparison`, `term` and `factor`
      share one loop shape and differ only in their operators and in the
      level they call for operands. */
  datatype Level = EqualityLevel | ComparisonLevel | TermLevel | FactorLevel

  /** The operator kinds each level's loop matches. */
  function Operators(lvl: Level): seq<TokenKind> {
    match lvl
    case EqualityLevel => [BangEqual, EqualEqual]
    case ComparisonLevel => [Greater, GreaterEqual, Less, LessEqual]
    case TermLevel => [Minus, Plus]
    case FactorLevel => [Slash, Star]
  }

  /** How loosely a level binds. */
  function Rank(lvl: Level): nat {
    match lvl
    case EqualityLevel => 3
    case ComparisonLevel => 2
    case TermLevel => 1
    case FactorLevel => 0
  }

  /** The level that parses a level's operands; `None` for factor, whose
      operands are unary expressions. */
  function Tighter(lvl: Level): (t: Option<Level>)
    ensures t.Some? <==> Rank(lvl) > 0
    ensures t.Some? ==> Rank(t.value) == Rank(lvl) - 1
  {
    match lvl
    case EqualityLevel => Some(ComparisonLevel)
    case ComparisonLevel => Some(TermLevel)
    case TermLevel => Some(FactorLevel)
    case FactorLevel => None
  }

  /** The kinds that start a literal or a group in `primary`. */
  predicate StartsPrimary(k: TokenKind)
  {
    k.False? || k.True? || k.Nil? || k.Number? || k.String? || k.LeftParen?
  }

  /** The kinds `unary` consumes as prefix operators. */
  const PrefixOperators: seq<TokenKind> := [Bang, Minus]

  /** `previous` cannot underflow: the cursor has moved, or the current
      token will be consumed by `unary` or `primary` before any `previous`
      call. */
  predicate NoUnderflow(p: Parser)
    requires Valid(p)
  {
    p.current >= 1 || OpensOperand(Peek(p).kind)
  }

  /** A prefix operator or the start of a `primary`. */
  predicate OpensOperand(k: TokenKind)
  {
    k.Bang? || k.Minus? || StartsPrimary(k)
  }

  /** What every parsing function keeps: the same tokens, a cursor that
      only moves forward, and diagnostics that are only appended. */
  predicate Progress(p: Parser, q: Parser) {
    && Valid(q) && q.tokens == p.tokens && p.current <= q.current
    && Extends(p.reporter, q.reporter)
  }

  /** `expression`. */
  function ParseExpression(p: Parser): (r: (Parser, Result<Expr, ParseError>))
    requires Valid(p) && NoUnderflow(p)
    ensures Progress(p, r.0)
    decreases |p.tokens| - p.current, 16
  {
    ParseLevel(p, EqualityLevel)
  }

  /** `equality`, `comparison`, `term`, `factor`: one operand, then the
      loop. */
  function ParseLevel(p: Parser, lvl: Level): (r: (Parser, Result<Expr, ParseError>))
    requires Valid(p) && NoUnderflow(p)
    ensures Progress(p, r.0)
    decreases |p.tokens| - p.current, 2 * Rank(lvl) + 9
  {
    var left := Operand(p, lvl);
    if left.1.Ok? then LevelLoop(left.0, lvl, left.1.value) else left
  }

  /** An operand of `lvl`: the next tighter level, or `unary` for factor. */
  function Operand(p: Parser, lvl: Level): (r: (Parser, Result<Expr, ParseError>))
    requires Valid(p) && NoUnderflow(p)
    ensures Progress(p, r.0)
    decreases |p.tokens| - p.current, 2 * Rank(lvl) + 8
  {
    match Tighter(lvl)
    case Some(t) => ParseLevel(p, t)
    case None => ParseUnary(p)
  }

  /** The `while` loop of a level: each matched operator and the operand
      after it extend the tree to the left, as `Binary(expr, op, right)`. */
  function LevelLoop(p: Parser, lvl: Level, expr: Expr): (r: (Parser, Result<Expr, ParseError>))
    requires Valid(p)
    ensures Progress(p, r.0)
    decreases |p.tokens| - p.current, 2 * Rank(lvl) + 8
  {
    var m := MatchToken(p, Operators(lvl));
    if !m.1 then (m.0, Ok(expr))
    else
      var operator := Previous(m.0);
      var right := Operand(m.0, lvl);
      if right.1.Ok? then LevelLoop(right.0, lvl, Binary(expr, operator, right.1.value)) else right
  }

  /** `unary`: a prefix operator applies to the unary expression after it. */
  function ParseUnary(p: Parser): (r: (Parser, Result<Expr, ParseError>))
    requires Valid(p) && NoUnderflow(p)
    ensures Progress(p, r.0)
    decreases |p.tokens| - p.current, 6
  {
    var m := MatchToken(p, PrefixOperators);
    if m.1 then
      var operator := Previous(m.0);
      var right := ParseUnary(m.0);
      if right.1.Ok? then (right.0, Ok(Unary(operator, right.1.value))) else right
    else ParsePrimary(m.0)
  }

  /** `primary`: a literal token, or a parenthesised expression followed by
      a `)` that is checked but not consumed; anything else fails with the
      token before the cursor. The source tries `false`, `true`, `nil`,
      then a number or string, then `(`, one `match_token` each; each try
      is one function here. */
  function ParsePrimary(p: Parser): (r: (Parser, Result<Expr, ParseError>))
    requires Valid(p) && (p.current >= 1 || StartsPrimary(Peek(p).kind))
    ensures Progress(p, r.0)
    decreases |p.tokens| - p.current, 5
  {
    var m := MatchToken(p, [False]);
    if m.1 then (m.0, Ok(Literal(Previous(m.0)))) else PrimaryAfterFalse(m.0)
  }

  function PrimaryAfterFalse(p: Parser): (r: (Parser, Result<Expr, ParseError>))
    requires Valid(p)
    requires p.current >= 1 || (StartsPrimary(Peek(p).kind) && !Peek(p).kind.False?)
    ensures Progress(p, r.0)
    decreases |p.tokens| - p.current, 4
  {
    var m := MatchToken(p, [True]);
    if m.1 then (m.0, Ok(Literal(Previous(m.0)))) else PrimaryAfterTrue(m.0)
  }

  function PrimaryAfterTrue(p: Parser): (r: (Parser, Result<Expr, ParseError>))
    requires Valid(p)
    requires p.current >= 1 || Peek(p).kind.Nil? || Peek(p).kind.Number? || Peek(p).kind.String? || Peek(p).kind.LeftParen?
    ensures Progress(p, r.0)
    decreases |p.tokens| - p.current, 3
  {
    var m := MatchToken(p, [Nil]);
    if m.1 then (m.0, Ok(Literal(Previous(m.0)))) else PrimaryAfterNil(m.0)
  }

  function PrimaryAfterNil(p: Parser): (r: (Parser, Result<Expr, ParseError>))
    requires Valid(p)
    requires p.current >= 1 || Peek(p).kind.Number? || Peek(p).kind.String? || Peek(p).kind.LeftParen?
    ensures Progress(p, r.0)
    decreases |p.tokens| - p.current, 2
  {
    var m := MatchToken(p, [Number, String]);
    if m.1 then (m.0, Ok(Literal(Previous(m.0)))) else PrimaryGroupOrFail(m.0)
  }

  /** The last two branches of `primary`: a `(` starts a group; anything
      else fails with the token before the cursor. */
  function PrimaryGroupOrFail(p: Parser): (r: (Parser, Result<Expr, ParseError>))
    requires Valid(p) && (p.current >= 1 || Peek(p).kind == LeftParen)
    ensures Progress(p, r.0)
    decreases |p.tokens| - p.current, 1
  {
    var isGroup := MatchToken(p, [LeftParen]);
    if isGroup.1 then ParseGroup(isGroup.0)
    else (isGroup.0, Err(UnexpectedToken(Previous(isGroup.0))))
  }

  /** The rest of `primary` after a `(`: the inner expression, then the
      `)` check of `consume`, which leaves the cursor on the `)`. */
  function ParseGroup(p: Parser): (r: (Parser, Result<Expr, ParseError>))
    requires Valid(p) && p.current >= 1
    ensures Progress(p, r.0)
    decreases |p.tokens| - p.current, 17
  {
    var inner := ParseExpression(p);
    if inner.1.Err? then inner
    else
      var closed := Consume(inner.0, RightParen, "Expect ')' after expression.");
      ExtendsRefl(inner.0.reporter);
      ReportingAppends(inner.0.reporter, Peek(inner.0), 0, "", "Expect ')' after expression.");
      ExtendsTransitive(p.reporter, inner.0.reporter, closed.0.reporter);
      if closed.1.Ok? then (closed.0, Ok(Grouping(inner.1.value)))
      else (closed.0, Err(closed.1.error))
  }

  /** `parse`: the expression, or `None` when parsing failed. */
  function Parse(p: Parser): (r: (Parser, Option<Expr>))
    requires Valid(p) && NoUnderflow(p)
    ensures Progress(p, r.0)
    ensures r.1.Some? <==> ParseExpression(p).1.Ok?
    ensures r.1.Some? ==> r.1.value == ParseExpression(p).1.value
    ensures r.0 == ParseExpression(p).0
  {
    var r := ParseExpression(p);
    (r.0, if r.1.Ok? then Some(r.1.value) else None)
  }

  // ---------------------------------------------------------------------
  // Error recovery.
  // ---------------------------------------------------------------------

  /** The kinds that start a statement. */
  const StatementStarts: seq<TokenKind> := [Class, Fun, Var, For, If, While, Print, Return]

  /** Where `synchronize` may stop: at EOF, right after a `;`, or right
      before a statement keyword. */
  predicate SyncPoint(tokens: seq<Token>, i: nat)
    requires 1 <= i < |tokens|
  {
    tokens[i].kind == EOF || tokens[i - 1].kind == SemiColon || tokens[i].kind in StatementStarts
  }

  /** The `while` loop of `synchronize`. */
  function SyncLoop(p: Parser): (q: Parser)
    requires Valid(p) && p.current >= 1
    ensures Valid(q) && q.tokens == p.tokens && q.reporter == p.reporter
    ensures p.current <= q.current && SyncPoint(q.tokens, q.current)
    ensures forall j :: p.current <= j < q.current ==> !SyncPoint(p.tokens, j)
    decreases |p.tokens| - p.current
  {
    if IsAtEnd(p) then p
    else if Previous(p).kind == SemiColon then p
    else if Peek(p).kind in StatementStarts then p
    else SyncLoop(Advance(p).0)
  }

  /** `synchronize`: skips one token, then stops at the first synchronisation
      point. */
  function Synchronize(p: Parser): (q: Parser)
    requires Valid(p) && (p.current >= 1 || !IsAtEnd(p))
    ensures Valid(q) && q.tokens == p.tokens && q.reporter == p.reporter
    ensures q.current >= 1 && q.current >= p.current && SyncPoint(q.tokens, q.current)
    ensures forall j :: Advance(p).0.current <= j < q.current ==> !SyncPoint(p.tokens, j)
  {
    SyncLoop(Advance(p).0)
  }
}
