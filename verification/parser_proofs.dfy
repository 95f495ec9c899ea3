/** Properties of the parser (src/parser.rs): what `primary` and `unary`
    build, left associativity of the binary levels, precedence, and the
    behaviour of a parenthesised group. */
module ParsingProofs {
  import opened Outcomes
  import opened TokenTypes
  import opened Tokens
  import opened ErrorReporters
  import opened Expressions
  import opened Parsing

  /** The kinds `primary` turns into a Literal. */
  predicate LiteralKind(k: TokenKind) {
    k.False? || k.True? || k.Nil? || k.Number? || k.String?
  }

  /** `p` with its cursor moved to `i`. */
  function At(p: Parser, i: nat): Parser {
    p.(current := i)
  }

  /** `p` one token on. */
  function Next(p: Parser): (q: Parser)
    requires Valid(p) && !IsAtEnd(p)
    ensures Valid(q) && q == At(p, p.current + 1)
  {
    At(p, p.current + 1)
  }

  /** `match_token` as a value: the parser one token on, or unchanged. */
  lemma MatchTokenResult(p: Parser, kinds: seq<TokenKind>)
    requires Valid(p)
    ensures MatchToken(p, kinds) ==
              if !IsAtEnd(p) && Peek(p).kind in kinds then (At(p, p.current + 1), true) else (p, false)
  {
    var r := MatchToken(p, kinds);
    if r.1 {
      assert r.0 == At(p, p.current + 1);
    } else {
      assert r.0 == p;
    }
  }

  /** A literal token becomes a Literal, and the cursor moves past it. */
  lemma PrimaryLiteral(p: Parser)
    requires Valid(p) && LiteralKind(Peek(p).kind)
    ensures ParsePrimary(p) == (At(p, p.current + 1), Ok(Literal(Peek(p))))
  {
    var k := Peek(p).kind;
    if k == False {
      MatchTokenResult(p, [False]);
    } else if k == True {
      PrimaryTrue(p);
    } else if k == Nil {
      PrimaryNil(p);
    } else {
      PrimaryValue(p);
    }
  }

  lemma PrimaryTrue(p: Parser)
    requires Valid(p) && Peek(p).kind == True
    ensures ParsePrimary(p) == (At(p, p.current + 1), Ok(Literal(Peek(p))))
  {
    PastFalse(p);
    TakeTrue(p);
  }

  lemma TakeTrue(p: Parser)
    requires Valid(p) && Peek(p).kind == True
    ensures PrimaryAfterFalse(p) == (At(p, p.current + 1), Ok(Literal(Peek(p))))
  {
    MatchTokenResult(p, [True]);
  }

  lemma PrimaryNil(p: Parser)
    requires Valid(p) && Peek(p).kind == Nil
    ensures ParsePrimary(p) == (At(p, p.current + 1), Ok(Literal(Peek(p))))
  {
    PastFalse(p);
    PastTrue(p);
    TakeNil(p);
  }

  lemma TakeNil(p: Parser)
    requires Valid(p) && Peek(p).kind == Nil
    ensures PrimaryAfterTrue(p) == (At(p, p.current + 1), Ok(Literal(Peek(p))))
  {
    MatchTokenResult(p, [Nil]);
  }

  lemma PrimaryValue(p: Parser)
    requires Valid(p) && (Peek(p).kind == Number || Peek(p).kind == String)
    ensures ParsePrimary(p) == (At(p, p.current + 1), Ok(Literal(Peek(p))))
  {
    PastFalse(p);
    PastTrue(p);
    PastNil(p);
    TakeValue(p);
  }

  lemma TakeValue(p: Parser)
    requires Valid(p) && (Peek(p).kind == Number || Peek(p).kind == String)
    ensures PrimaryAfterNil(p) == (At(p, p.current + 1), Ok(Literal(Peek(p))))
  {
    MatchTokenResult(p, [Number, String]);
  }

  /** A token that is not `false` passes the first try unchanged. */
  lemma PastFalse(p: Parser)
    requires Valid(p) && (p.current >= 1 || StartsPrimary(Peek(p).kind)) && !Peek(p).kind.False?
    ensures ParsePrimary(p) == PrimaryAfterFalse(p)
  {
    NoMatch(p, [False]);
  }

  lemma PastTrue(p: Parser)
    requires Valid(p) && (p.current >= 1 || StartsPrimary(Peek(p).kind))
    requires !Peek(p).kind.False? && !Peek(p).kind.True?
    ensures PrimaryAfterFalse(p) == PrimaryAfterTrue(p)
  {
    NoMatch(p, [True]);
  }

  lemma PastNil(p: Parser)
    requires Valid(p) && (p.current >= 1 || StartsPrimary(Peek(p).kind))
    requires !Peek(p).kind.False? && !Peek(p).kind.True? && !Peek(p).kind.Nil?
    ensures PrimaryAfterTrue(p) == PrimaryAfterNil(p)
  {
    NoMatch(p, [Nil]);
  }

  /** A token that is no literal passes every literal try unchanged. */
  lemma PastLiterals(p: Parser)
    requires Valid(p) && (p.current >= 1 || Peek(p).kind == LeftParen) && !LiteralKind(Peek(p).kind)
    ensures ParsePrimary(p) == PrimaryGroupOrFail(p)
  {
    PastFalse(p);
    PastTrue(p);
    PastNil(p);
    NoMatch(p, [Number, String]);
  }

  /** `(` starts a group: the rest is parsed by `ParseGroup`. */
  lemma PrimaryGroup(p: Parser)
    requires Valid(p) && Peek(p).kind == LeftParen
    ensures ParsePrimary(p) == ParseGroup(Next(p))
  {
    PastLiterals(p);
    GroupOpens(p);
  }

  lemma GroupOpens(p: Parser)
    requires Valid(p) && Peek(p).kind == LeftParen
    ensures PrimaryGroupOrFail(p) == ParseGroup(Next(p))
  {
    MatchTokenResult(p, [LeftParen]);
  }

  /** `match_token` leaves the parser as it is when the current token is not
      one of `kinds`. */
  lemma NoMatch(p: Parser, kinds: seq<TokenKind>)
    requires Valid(p) && Peek(p).kind !in kinds
    ensures MatchToken(p, kinds) == (p, false)
  {
    MatchTokenResult(p, kinds);
  }

  /** Any other token fails, naming the token before the cursor, without
      moving the cursor or reporting anything. */
  lemma PrimaryOther(p: Parser)
    requires Valid(p) && p.current >= 1 && !StartsPrimary(Peek(p).kind)
    ensures ParsePrimary(p) == (p, Err(UnexpectedToken(p.tokens[p.current - 1])))
  {
    PastLiterals(p);
    NoMatch(p, [LeftParen]);
  }

  /** A group whose inner expression parsed and is followed by `)`: the
      result is a Grouping and the cursor stays on the `)`. A group not
      followed by `)` reports "Expect ')' after expression." at the token
      found there. */
  lemma GroupClosed(p: Parser, q: Parser, inner: Expr)
    requires Valid(p) && p.current >= 1 && ParseExpression(p) == (q, Ok(inner))
    requires Valid(q) && Peek(q).kind == RightParen
    ensures ParseGroup(p) == (q, Ok(Grouping(inner)))
  {
    ConsumeMatches(q, RightParen, CloseMessage);
  }

  lemma GroupUnclosed(p: Parser, q: Parser, inner: Expr)
    requires Valid(p) && p.current >= 1 && ParseExpression(p) == (q, Ok(inner))
    requires Valid(q) && Peek(q).kind != RightParen
    ensures ParseGroup(p) == (q.(reporter := ErrorToken(q.reporter, Peek(q), CloseMessage).0),
                              Err(UnexpectedToken(Peek(q))))
  {
    ConsumeFails(q, RightParen, CloseMessage);
  }

  /** The message `primary` passes to `consume`. */
  const CloseMessage: string := "Expect ')' after expression."

  lemma ConsumeMatches(q: Parser, kind: TokenKind, message: string)
    requires Valid(q) && !IsAtEnd(q) && Peek(q).kind == kind
    ensures Consume(q, kind, message) == (q, Ok(()))
  {
  }

  lemma ConsumeFails(q: Parser, kind: TokenKind, message: string)
    requires Valid(q) && (IsAtEnd(q) || Peek(q).kind != kind)
    ensures Consume(q, kind, message) ==
              (q.(reporter := ErrorToken(q.reporter, Peek(q), message).0), Err(UnexpectedToken(Peek(q))))
  {
  }

  /** A literal token with no prefix operator is a unary expression on its
      own. */
  lemma UnaryLiteral(p: Parser)
    requires Valid(p) && LiteralKind(Peek(p).kind)
    ensures ParseUnary(p) == (At(p, p.current + 1), Ok(Literal(Peek(p))))
  {
    UnaryPlain(p);
    PrimaryLiteral(p);
  }

  /** Without a prefix operator, `unary` is `primary`. */
  lemma UnaryPlain(p: Parser)
    requires Valid(p) && NoUnderflow(p) && (IsAtEnd(p) || Peek(p).kind !in PrefixOperators)
    ensures ParseUnary(p) == ParsePrimary(p)
  {
    MatchTokenResult(p, PrefixOperators);
  }

  /** A parse result with `op` applied to its expression, if any. */
  function ApplyPrefix(op: Token, r: (Parser, Result<Expr, ParseError>)): (Parser, Result<Expr, ParseError>) {
    (r.0, if r.1.Ok? then Ok(Unary(op, r.1.value)) else r.1)
  }

  /** `unary` on a prefix operator: the operator applies to the unary
      expression parsed after it. */
  lemma UnaryPrefix(p: Parser)
    requires Valid(p) && Peek(p).kind in PrefixOperators
    ensures ParseUnary(p) == ApplyPrefix(Peek(p), ParseUnary(At(p, p.current + 1)))
  {
    var p1 := At(p, p.current + 1);
    MatchTokenResult(p, PrefixOperators);
    assert MatchToken(p, PrefixOperators) == (p1, true);
    assert Previous(p1) == Peek(p);
  }

  /** Prefix operators `ops` applied in order around `e`: the first operator
      is outermost. */
  function Nest(ops: seq<Token>, e: Expr): (r: Expr)
    ensures |ops| > 0 ==> r.Unary? && r.op == ops[0]
  {
    if |ops| == 0 then e else Unary(ops[0], Nest(ops[1..], e))
  }

  /** Stacked prefix operators nest innermost-last: `- ! - x` is
      `Unary(-, Unary(!, Unary(-, x)))`. */
  lemma UnaryNesting(p: Parser, k: nat)
    requires Valid(p) && p.current + k < |p.tokens|
    requires forall i :: p.current <= i < p.current + k ==> p.tokens[i].kind in PrefixOperators
    requires LiteralKind(p.tokens[p.current + k].kind)
    ensures ParseUnary(p) ==
              (At(p, p.current + k + 1),
               Ok(Nest(p.tokens[p.current..p.current + k], Literal(p.tokens[p.current + k]))))
  {
    UnaryNestingAt(p, p.current, p.current + k);
    assert At(p, p.current) == p;
  }

  /** Prefix operators from index `j` up to the literal at index `e`. */
  lemma {:induction false} UnaryNestingAt(p: Parser, j: nat, e: nat)
    requires Valid(p) && j <= e < |p.tokens|
    requires forall i :: j <= i < e ==> p.tokens[i].kind in PrefixOperators
    requires LiteralKind(p.tokens[e].kind)
    ensures ParseUnary(At(p, j)) == (At(p, e + 1), Ok(Nest(p.tokens[j..e], Literal(p.tokens[e]))))
    decreases e - j
  {
    if j == e {
      UnaryLiteral(At(p, j));
      assert p.tokens[j..j] == [];
    } else {
      UnaryNestingAt(p, j + 1, e);
      NestingStepAt(p, j, e);
    }
  }

  /** One more prefix operator in front of a nest. */
  lemma NestingStepAt(p: Parser, j: nat, e: nat)
    requires Valid(p) && j < e < |p.tokens| && p.tokens[j].kind in PrefixOperators
    requires ParseUnary(At(p, j + 1)) == (At(p, e + 1), Ok(Nest(p.tokens[j + 1..e], Literal(p.tokens[e]))))
    ensures ParseUnary(At(p, j)) == (At(p, e + 1), Ok(Nest(p.tokens[j..e], Literal(p.tokens[e]))))
  {
    UnaryPrefixAt(p, j);
    NestSlice(p.tokens, j, e, Literal(p.tokens[e]));
  }

  /** `UnaryPrefix` with the cursor at `j`. */
  lemma UnaryPrefixAt(p: Parser, j: nat)
    requires Valid(p) && j < |p.tokens| && p.tokens[j].kind in PrefixOperators
    ensures ParseUnary(At(p, j)) == ApplyPrefix(p.tokens[j], ParseUnary(At(p, j + 1)))
  {
    UnaryPrefix(At(p, j));
    assert At(At(p, j), j + 1) == At(p, j + 1);
  }

  /** Peeling the first operator off a slice of prefix operators. */
  lemma NestSlice(tokens: seq<Token>, j: nat, e: nat, x: Expr)
    requires j < e <= |tokens|
    ensures Nest(tokens[j..e], x) == Unary(tokens[j], Nest(tokens[j + 1..e], x))
  {
    assert tokens[j..e][1..] == tokens[j + 1..e];
  }

  // ---------------------------------------------------------------------
  // The binary levels.
  // ---------------------------------------------------------------------

  /** The rank of the level whose loop takes `k` as its operator, if any. */
  function OperatorRank(k: TokenKind): Option<nat> {
    if k == BangEqual || k == EqualEqual then Some(3)
    else if k == Greater || k == GreaterEqual || k == Less || k == LessEqual then Some(2)
    else if k == Minus || k == Plus then Some(1)
    else if k == Slash || k == Star then Some(0)
    else None
  }

  /** `k` is an operator of some level of rank at most `r`: parsing at
      rank `r` takes it. */
  predicate TakenUpTo(k: TokenKind, r: int) {
    OperatorRank(k).Some? && OperatorRank(k).value <= r
  }

  /** Each kind is an operator of at most one level, the one its rank names. */
  lemma OperatorsRanked(lvl: Level, k: TokenKind)
    ensures k in Operators(lvl) <==> OperatorRank(k) == Some(Rank(lvl))
  {
  }

  /** A literal followed by something no level of rank at most `lvl`'s
      takes parses at `lvl` to that Literal alone. */
  lemma {:induction false} LevelLiteral(p: Parser, lvl: Level)
    requires Valid(p) && LiteralKind(Peek(p).kind)
    requires !TakenUpTo(p.tokens[p.current + 1].kind, Rank(lvl))
    ensures ParseLevel(p, lvl) == (At(p, p.current + 1), Ok(Literal(Peek(p))))
    decreases Rank(lvl), 1
  {
    OperandLiteral(p, lvl);
    NotOwn(lvl, p.tokens[p.current + 1].kind);
    LevelStart(p, lvl, At(p, p.current + 1), Literal(Peek(p)));
    LoopStop(At(p, p.current + 1), lvl, Literal(Peek(p)));
  }

  /** A literal followed by something no tighter level takes is an operand
      of `lvl` on its own. */
  lemma {:induction false} OperandLiteral(p: Parser, lvl: Level)
    requires Valid(p) && LiteralKind(Peek(p).kind)
    requires !TakenUpTo(p.tokens[p.current + 1].kind, Rank(lvl) - 1)
    ensures Operand(p, lvl) == (At(p, p.current + 1), Ok(Literal(Peek(p))))
    decreases Rank(lvl), 0
  {
    match Tighter(lvl)
    case Some(t) =>
      LevelLiteral(p, t);
    case None =>
      UnaryLiteral(p);
  }

  /** A level is its first operand followed by its loop. */
  lemma LevelStart(p: Parser, lvl: Level, q: Parser, e: Expr)
    requires Valid(p) && NoUnderflow(p) && Operand(p, lvl) == (q, Ok(e))
    ensures ParseLevel(p, lvl) == LevelLoop(q, lvl, e)
  {
  }

  /** The level loop ends, unchanged, at a token that is not its operator. */
  lemma LoopStop(p: Parser, lvl: Level, expr: Expr)
    requires Valid(p) && (IsAtEnd(p) || Peek(p).kind !in Operators(lvl))
    ensures LevelLoop(p, lvl, expr) == (p, Ok(expr))
  {
    MatchTokenResult(p, Operators(lvl));
  }

  /** One turn of the level loop: the operator and the operand after it
      become the right side of a Binary whose left side is the tree so far. */
  lemma LoopStep(p: Parser, lvl: Level, expr: Expr, q: Parser, right: Expr)
    requires Valid(p) && !IsAtEnd(p) && Peek(p).kind in Operators(lvl)
    requires Operand(Next(p), lvl) == (q, Ok(right))
    ensures LevelLoop(p, lvl, expr) == LevelLoop(q, lvl, Binary(expr, Peek(p), right))
  {
    MatchTokenResult(p, Operators(lvl));
    assert Previous(Next(p)) == Peek(p);
  }

  /** Left associativity: `a o1 b o2 c` with both operators of `lvl` parses
      as `Binary(Binary(a, o1, b), o2, c)`. */
  lemma LeftAssociative(p: Parser, lvl: Level)
    requires Valid(p) && p.current + 5 < |p.tokens|
    requires LiteralKind(p.tokens[p.current].kind) && p.tokens[p.current + 1].kind in Operators(lvl)
    requires LiteralKind(p.tokens[p.current + 2].kind) && p.tokens[p.current + 3].kind in Operators(lvl)
    requires LiteralKind(p.tokens[p.current + 4].kind) && !TakenUpTo(p.tokens[p.current + 5].kind, Rank(lvl))
    ensures ParseLevel(p, lvl) ==
              (At(p, p.current + 5),
               Ok(Binary(Binary(Literal(p.tokens[p.current]), p.tokens[p.current + 1], Literal(p.tokens[p.current + 2])),
                         p.tokens[p.current + 3], Literal(p.tokens[p.current + 4]))))
  {
    var t := p.tokens;
    var i := p.current;
    var a := Literal(t[i]);
    NotTighter(lvl, t[i + 1].kind);
    OperandLiteralAt(p, lvl, i);
    LevelStart(p, lvl, At(p, i + 1), a);
    StepThenStep(p, lvl, i + 1, a);
  }

  /** Left associativity for any operands: when the level's operand parse
      yields `a`, then an operator `o1` of `lvl` and an operand `b`, then an
      operator `o2` of `lvl` and an operand `c`, and the token after `c` is
      no operator of `lvl`, the level parses `Binary(Binary(a, o1, b), o2,
      c)` and stops after `c`. */
  lemma LeftAssociativeOperands(p: Parser, lvl: Level, q0: Parser, a: Expr,
                                q1: Parser, b: Expr, q2: Parser, c: Expr)
    requires Valid(p) && NoUnderflow(p) && Operand(p, lvl) == (q0, Ok(a))
    requires !IsAtEnd(q0) && Peek(q0).kind in Operators(lvl)
    requires Operand(Next(q0), lvl) == (q1, Ok(b))
    requires !IsAtEnd(q1) && Peek(q1).kind in Operators(lvl)
    requires Operand(Next(q1), lvl) == (q2, Ok(c))
    requires IsAtEnd(q2) || Peek(q2).kind !in Operators(lvl)
    ensures ParseLevel(p, lvl) == (q2, Ok(Binary(Binary(a, Peek(q0), b), Peek(q1), c)))
  {
    LevelStart(p, lvl, q0, a);
    LoopStep(q0, lvl, a, q1, b);
    LoopStep(q1, lvl, Binary(a, Peek(q0), b), q2, c);
    LoopStop(q2, lvl, Binary(Binary(a, Peek(q0), b), Peek(q1), c));
  }

  /** Two turns of the level loop from index `j`, each taking an operator
      of `lvl` and a literal, then the stop. */
  lemma StepThenStep(p: Parser, lvl: Level, j: nat, a: Expr)
    requires Valid(p) && j + 4 < |p.tokens|
    requires p.tokens[j].kind in Operators(lvl) && LiteralKind(p.tokens[j + 1].kind)
    requires p.tokens[j + 2].kind in Operators(lvl) && LiteralKind(p.tokens[j + 3].kind)
    requires !TakenUpTo(p.tokens[j + 4].kind, Rank(lvl))
    ensures LevelLoop(At(p, j), lvl, a) ==
              (At(p, j + 4),
               Ok(Binary(Binary(a, p.tokens[j], Literal(p.tokens[j + 1])),
                         p.tokens[j + 2], Literal(p.tokens[j + 3]))))
  {
    var t := p.tokens;
    var ab := Binary(a, t[j], Literal(t[j + 1]));
    NotTighter(lvl, t[j + 2].kind);
    OperandLiteralAt(p, lvl, j + 1);
    LoopStepAt(p, lvl, j, a, At(p, j + 2), Literal(t[j + 1]));
    StepThenStop(p, lvl, j + 2, ab);
  }

  /** One turn of the level loop from index `j` (an operator of `lvl` and a
      literal), then the stop at a token no level up to `lvl` takes. */
  lemma StepThenStop(p: Parser, lvl: Level, j: nat, e: Expr)
    requires Valid(p) && j + 2 < |p.tokens|
    requires p.tokens[j].kind in Operators(lvl) && LiteralKind(p.tokens[j + 1].kind)
    requires !TakenUpTo(p.tokens[j + 2].kind, Rank(lvl))
    ensures LevelLoop(At(p, j), lvl, e) == (At(p, j + 2), Ok(Binary(e, p.tokens[j], Literal(p.tokens[j + 1]))))
  {
    OperandLiteralAt(p, lvl, j + 1);
    StepOperandStop(p, lvl, j, e, At(p, j + 2), Literal(p.tokens[j + 1]));
  }

  /** One turn of the level loop from the operator at index `j`, whose
      operand ends at `q`, then the stop at `q`. */
  lemma StepOperandStop(p: Parser, lvl: Level, j: nat, e: Expr, q: Parser, right: Expr)
    requires Valid(p) && j + 1 < |p.tokens| && p.tokens[j].kind in Operators(lvl)
    requires Operand(At(p, j + 1), lvl) == (q, Ok(right))
    requires Valid(q) && (IsAtEnd(q) || !TakenUpTo(Peek(q).kind, Rank(lvl)))
    ensures LevelLoop(At(p, j), lvl, e) == (q, Ok(Binary(e, p.tokens[j], right)))
  {
    if !IsAtEnd(q) {
      NotOwn(lvl, Peek(q).kind);
    }
    LoopStepAt(p, lvl, j, e, q, right);
    LoopStop(q, lvl, Binary(e, p.tokens[j], right));
  }

  /** `LoopStep` with the operator at index `j`. */
  lemma LoopStepAt(p: Parser, lvl: Level, j: nat, expr: Expr, q: Parser, right: Expr)
    requires Valid(p) && j + 1 < |p.tokens| && p.tokens[j].kind in Operators(lvl)
    requires Operand(At(p, j + 1), lvl) == (q, Ok(right))
    ensures LevelLoop(At(p, j), lvl, expr) == LevelLoop(q, lvl, Binary(expr, p.tokens[j], right))
  {
    assert Next(At(p, j)) == At(p, j + 1);
    LoopStep(At(p, j), lvl, expr, q, right);
  }

  /** A level's operator is not taken by its operands. */
  lemma NotTighter(lvl: Level, k: TokenKind)
    requires k in Operators(lvl)
    ensures !TakenUpTo(k, Rank(lvl) - 1)
  {
    OperatorsRanked(lvl, k);
  }

  /** What no level up to `lvl` takes is not `lvl`'s operator. */
  lemma NotOwn(lvl: Level, k: TokenKind)
    requires !TakenUpTo(k, Rank(lvl))
    ensures k !in Operators(lvl)
  {
    OperatorsRanked(lvl, k);
  }

  /** `OperandLiteral` with the cursor at `j`. */
  lemma OperandLiteralAt(p: Parser, lvl: Level, j: nat)
    requires Valid(p) && j + 1 < |p.tokens|
    requires LiteralKind(p.tokens[j].kind) && !TakenUpTo(p.tokens[j + 1].kind, Rank(lvl) - 1)
    ensures Operand(At(p, j), lvl) == (At(p, j + 1), Ok(Literal(p.tokens[j])))
  {
    OperandLiteral(At(p, j), lvl);
  }

  /** A factor-level result that no looser operator follows is also the
      result of every looser level. */
  lemma {:induction false} LiftFactor(p: Parser, lvl: Level)
    requires Valid(p) && NoUnderflow(p) && ParseLevel(p, FactorLevel).1.Ok?
    requires var q := ParseLevel(p, FactorLevel).0;
             IsAtEnd(q) || !TakenUpTo(Peek(q).kind, Rank(lvl))
    ensures ParseLevel(p, lvl) == ParseLevel(p, FactorLevel)
    decreases Rank(lvl)
  {
    match Tighter(lvl)
    case None =>
    case Some(t) =>
      LiftFactor(p, t);
      var r := ParseLevel(p, FactorLevel);
      if !IsAtEnd(r.0) {
        NotOwn(lvl, Peek(r.0).kind);
      }
      LevelStart(p, lvl, r.0, r.1.value);
      LoopStop(r.0, lvl, r.1.value);
  }
}
