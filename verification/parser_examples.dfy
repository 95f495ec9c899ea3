/** Whole expressions worked through the parser (src/parser.rs): the
    precedence example `-123 * (45.67)`, and a parenthesised expression at
    the start, whose `)` — checked by `consume` but not passed — ends the
    expression early, as in `(1) + 2`. */
module ParsingExamples {
  import opened Outcomes
  import opened TokenTypes
  import opened Tokens
  import opened ErrorReporters
  import opened Expressions
  import opened Parsing
  import opened ParsingProofs

  /** Tokens shaped like `-123 * (45.67)` — a prefix minus, a literal, `*`,
      `(`, a literal, `)` — parse to `Binary(Unary(-, 123), *,
      Grouping(45.67))`: the prefix minus binds tighter than `*`. The cursor
      ends on the `)`. */
  lemma PrecedenceExample(p: Parser)
    requires Valid(p) && p.current + 5 < |p.tokens|
    requires p.tokens[p.current].kind == Minus && LiteralKind(p.tokens[p.current + 1].kind)
    requires p.tokens[p.current + 2].kind == Star && p.tokens[p.current + 3].kind == LeftParen
    requires LiteralKind(p.tokens[p.current + 4].kind) && p.tokens[p.current + 5].kind == RightParen
    ensures NoUnderflow(p)
    ensures ParseExpression(p) ==
              (At(p, p.current + 5),
               Ok(Binary(Unary(p.tokens[p.current], Literal(p.tokens[p.current + 1])),
                         p.tokens[p.current + 2],
                         Grouping(Literal(p.tokens[p.current + 4])))))
  {
    PrecedenceThrough(p, FactorLevel);
  }

  /** `PrecedenceExample` with the tightest level `f` left abstract. */
  lemma PrecedenceThrough(p: Parser, f: Level)
    requires Tighter(f).None?
    requires Valid(p) && p.current + 5 < |p.tokens|
    requires p.tokens[p.current].kind == Minus && LiteralKind(p.tokens[p.current + 1].kind)
    requires p.tokens[p.current + 2].kind == Star && p.tokens[p.current + 3].kind == LeftParen
    requires LiteralKind(p.tokens[p.current + 4].kind) && p.tokens[p.current + 5].kind == RightParen
    ensures NoUnderflow(p)
    ensures ParseExpression(p) ==
              (At(p, p.current + 5),
               Ok(Binary(Unary(p.tokens[p.current], Literal(p.tokens[p.current + 1])),
                         p.tokens[p.current + 2],
                         Grouping(Literal(p.tokens[p.current + 4])))))
  {
    var i := p.current;
    PrecedenceFactor(p, f);
    ExpressionIsFactor(p, f, At(p, i + 5),
                       Binary(Unary(p.tokens[i], Literal(p.tokens[i + 1])), p.tokens[i + 2],
                              Grouping(Literal(p.tokens[i + 4]))));
  }

  /** The factor level of the precedence example. */
  lemma PrecedenceFactor(p: Parser, f: Level)
    requires Tighter(f).None?
    requires Valid(p) && p.current + 5 < |p.tokens|
    requires p.tokens[p.current].kind == Minus && LiteralKind(p.tokens[p.current + 1].kind)
    requires p.tokens[p.current + 2].kind == Star && p.tokens[p.current + 3].kind == LeftParen
    requires LiteralKind(p.tokens[p.current + 4].kind) && p.tokens[p.current + 5].kind == RightParen
    ensures NoUnderflow(p)
    ensures Valid(At(p, p.current + 5)) && Peek(At(p, p.current + 5)).kind == RightParen
    ensures ParseLevel(p, f) ==
              (At(p, p.current + 5),
               Ok(Binary(Unary(p.tokens[p.current], Literal(p.tokens[p.current + 1])),
                         p.tokens[p.current + 2],
                         Grouping(Literal(p.tokens[p.current + 4])))))
  {
    var i := p.current;
    NegatedStart(p, f);
    TimesGroup(p, f, i + 2, Unary(p.tokens[i], Literal(p.tokens[i + 1])));
  }

  /** A level that starts on a prefix minus and a literal continues after
      them with their unary tree. */
  lemma NegatedStart(p: Parser, f: Level)
    requires Tighter(f).None?
    requires Valid(p) && p.current + 1 < |p.tokens|
    requires p.tokens[p.current].kind == Minus && LiteralKind(p.tokens[p.current + 1].kind)
    ensures NoUnderflow(p)
    ensures ParseLevel(p, f) ==
              LevelLoop(At(p, p.current + 2), f, Unary(p.tokens[p.current], Literal(p.tokens[p.current + 1])))
  {
    NegatedLiteral(p, f);
    LevelStart(p, f, At(p, p.current + 2), Unary(p.tokens[p.current], Literal(p.tokens[p.current + 1])));
  }

  /** `* (literal)` at index `j` after the tree `u`, then a `)`: one turn of
      the tightest loop, which stops on the `)`. */
  lemma TimesGroup(p: Parser, f: Level, j: nat, u: Expr)
    requires Tighter(f).None?
    requires Valid(p) && j + 3 < |p.tokens|
    requires p.tokens[j].kind == Star && p.tokens[j + 1].kind == LeftParen
    requires LiteralKind(p.tokens[j + 2].kind) && p.tokens[j + 3].kind == RightParen
    ensures LevelLoop(At(p, j), f, u) ==
              (At(p, j + 3), Ok(Binary(u, p.tokens[j], Grouping(Literal(p.tokens[j + 2])))))
  {
    Tightest(f);
    ParenthesisedLiteralAt(p, f, j + 1);
    StepOperandStop(p, f, j, u, At(p, j + 3), Grouping(Literal(p.tokens[j + 2])));
  }

  /** A prefix minus and a literal form one factor operand. */
  lemma NegatedLiteral(p: Parser, f: Level)
    requires Tighter(f).None?
    requires Valid(p) && p.current + 1 < |p.tokens|
    requires p.tokens[p.current].kind == Minus && LiteralKind(p.tokens[p.current + 1].kind)
    ensures NoUnderflow(p)
    ensures Operand(p, f) ==
              (At(p, p.current + 2), Ok(Unary(p.tokens[p.current], Literal(p.tokens[p.current + 1]))))
  {
    UnaryNesting(p, 1);
    NestOne(p.tokens[p.current..p.current + 1], Literal(p.tokens[p.current + 1]));
    FactorOperand(p, f);
  }

  /** One prefix operator. */
  lemma NestOne(ops: seq<Token>, e: Expr)
    requires |ops| == 1
    ensures Nest(ops, e) == Unary(ops[0], e)
  {
    assert ops[1..] == [];
  }

  /** The tightest level takes `/` and `*` and nothing looser. */
  lemma Tightest(f: Level)
    requires Tighter(f).None?
    ensures Operators(f) == [Slash, Star] && Rank(f) == 0
  {
  }

  /** A factor operand is a unary expression. */
  lemma FactorOperand(p: Parser, f: Level)
    requires Tighter(f).None?
    requires Valid(p) && NoUnderflow(p)
    ensures Operand(p, f) == ParseUnary(p)
  {
  }

  /** A literal in parentheses at index `j` is one factor operand; the
      cursor stops on the `)`. */
  lemma ParenthesisedLiteralAt(p: Parser, f: Level, j: nat)
    requires Tighter(f).None?
    requires Valid(p) && j + 2 < |p.tokens|
    requires p.tokens[j].kind == LeftParen && LiteralKind(p.tokens[j + 1].kind)
    requires p.tokens[j + 2].kind == RightParen
    ensures Operand(At(p, j), f) == (At(p, j + 2), Ok(Grouping(Literal(p.tokens[j + 1]))))
  {
    GroupedLiteralAt(p, j);
    PrimaryGroup(At(p, j));
    UnaryPlain(At(p, j));
    FactorOperand(At(p, j), f);
  }

  /** The group after the `(` at index `j`: the literal, with the cursor
      left on the `)`. */
  lemma GroupedLiteralAt(p: Parser, j: nat)
    requires Valid(p) && j + 2 < |p.tokens|
    requires p.tokens[j].kind == LeftParen && LiteralKind(p.tokens[j + 1].kind)
    requires p.tokens[j + 2].kind == RightParen
    ensures Valid(At(p, j)) && Next(At(p, j)) == At(p, j + 1)
    ensures ParseGroup(At(p, j + 1)) == (At(p, j + 2), Ok(Grouping(Literal(p.tokens[j + 1]))))
  {
    ExpressionLiteralAt(p, j + 1);
    GroupClosed(At(p, j + 1), At(p, j + 2), Literal(p.tokens[j + 1]));
  }

  /** A literal at index `i` followed by a `)` is a whole expression. */
  lemma ExpressionLiteralAt(p: Parser, i: nat)
    requires Valid(p) && i + 1 < |p.tokens|
    requires LiteralKind(p.tokens[i].kind) && p.tokens[i + 1].kind == RightParen
    ensures Valid(At(p, i)) && NoUnderflow(At(p, i))
    ensures ParseExpression(At(p, i)) == (At(p, i + 1), Ok(Literal(p.tokens[i])))
  {
    LiteralBeforeParen(p, i, EqualityLevel);
  }

  /** A literal at index `i` followed by a `)` parses at any level to the
      literal alone. */
  lemma LiteralBeforeParen(p: Parser, i: nat, lvl: Level)
    requires Valid(p) && i + 1 < |p.tokens|
    requires LiteralKind(p.tokens[i].kind) && p.tokens[i + 1].kind == RightParen
    ensures ParseLevel(At(p, i), lvl) == (At(p, i + 1), Ok(Literal(p.tokens[i])))
  {
    NotTakenAt(At(p, i + 1), lvl);
    LevelLiteral(At(p, i), lvl);
  }

  /** A `)` is no operator of any level. */
  lemma NotTakenAt(q: Parser, lvl: Level)
    requires Valid(q) && Peek(q).kind == RightParen
    ensures IsAtEnd(q) || !TakenUpTo(Peek(q).kind, Rank(lvl))
    ensures !TakenUpTo(Peek(q).kind, Rank(lvl))
  {
  }

  /** A factor-level result that stops at a `)` is the whole expression. */
  lemma ExpressionIsFactor(p: Parser, f: Level, q: Parser, e: Expr)
    requires Tighter(f).None?
    requires Valid(p) && NoUnderflow(p) && ParseLevel(p, f) == (q, Ok(e))
    requires Valid(q) && Peek(q).kind == RightParen
    ensures ParseExpression(p) == (q, Ok(e))
  {
    assert f == FactorLevel;
    NotTakenAt(q, EqualityLevel);
    LiftFactor(p, EqualityLevel);
  }

  /** An expression that starts with a parenthesised expression ends at
      that group's `)`: `consume` checks the `)` but leaves the cursor on
      it, and no level takes a `)` as its operator, so whatever follows —
      the `+ 2` of `(1) + 2` — is never reached, and nothing is
      reported. */
  lemma GroupEndsExpression(p: Parser, q: Parser, inner: Expr)
    requires Valid(p) && Peek(p).kind == LeftParen
    requires ParseExpression(Next(p)) == (q, Ok(inner))
    requires Valid(q) && Peek(q).kind == RightParen
    ensures NoUnderflow(p)
    ensures ParseExpression(p) == (q, Ok(Grouping(inner)))
    ensures Parse(p) == (q, Some(Grouping(inner)))
  {
    GroupThrough(p, FactorLevel, q, inner);
  }

  /** `GroupEndsExpression` with the tightest level `f` left abstract. */
  lemma GroupThrough(p: Parser, f: Level, q: Parser, inner: Expr)
    requires Tighter(f).None?
    requires Valid(p) && Peek(p).kind == LeftParen
    requires ParseExpression(Next(p)) == (q, Ok(inner))
    requires Valid(q) && Peek(q).kind == RightParen
    ensures NoUnderflow(p)
    ensures ParseExpression(p) == (q, Ok(Grouping(inner)))
  {
    GroupFactor(p, f, q, inner);
    ExpressionIsFactor(p, f, q, Grouping(inner));
  }

  /** The factor level of `GroupEndsExpression`. */
  lemma GroupFactor(p: Parser, f: Level, q: Parser, inner: Expr)
    requires Tighter(f).None?
    requires Valid(p) && Peek(p).kind == LeftParen
    requires ParseExpression(Next(p)) == (q, Ok(inner))
    requires Valid(q) && Peek(q).kind == RightParen
    ensures NoUnderflow(p)
    ensures ParseLevel(p, f) == (q, Ok(Grouping(inner)))
  {
    Tightest(f);
    GroupOperand(p, f, q, inner);
    LevelStart(p, f, q, Grouping(inner));
    LoopStop(q, f, Grouping(inner));
  }

  /** A parenthesised expression is a factor operand. */
  lemma GroupOperand(p: Parser, f: Level, q: Parser, inner: Expr)
    requires Tighter(f).None?
    requires Valid(p) && Peek(p).kind == LeftParen
    requires ParseExpression(Next(p)) == (q, Ok(inner))
    requires Valid(q) && Peek(q).kind == RightParen
    ensures NoUnderflow(p)
    ensures Operand(p, f) == (q, Ok(Grouping(inner)))
  {
    GroupPrimary(p, q, inner);
    UnaryPlain(p);
    FactorOperand(p, f);
  }

  /** A parenthesised expression is a `primary`. */
  lemma GroupPrimary(p: Parser, q: Parser, inner: Expr)
    requires Valid(p) && Peek(p).kind == LeftParen
    requires ParseExpression(Next(p)) == (q, Ok(inner))
    requires Valid(q) && Peek(q).kind == RightParen
    ensures ParsePrimary(p) == (q, Ok(Grouping(inner)))
  {
    GroupClosed(Next(p), q, inner);
    PrimaryGroup(p);
  }

  /** `(1) + 2`, or any literal in parentheses followed by anything:
      the expression is the group alone and the cursor stays on the `)`. */
  lemma EarlyCloseExample(p: Parser)
    requires Valid(p) && p.current + 2 < |p.tokens|
    requires p.tokens[p.current].kind == LeftParen && LiteralKind(p.tokens[p.current + 1].kind)
    requires p.tokens[p.current + 2].kind == RightParen
    ensures NoUnderflow(p)
    ensures Parse(p) == (At(p, p.current + 2), Some(Grouping(Literal(p.tokens[p.current + 1]))))
  {
    var q := At(p, p.current + 2);
    NotTakenAt(q, EqualityLevel);
    LevelLiteral(Next(p), EqualityLevel);
    GroupEndsExpression(p, q, Literal(p.tokens[p.current + 1]));
  }
}
