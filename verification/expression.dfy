/** Expression trees and their prefix-notation rendering
    (src/expression.rs). */
module Expressions {
  import opened TokenTypes
  import opened Outcomes
  import opened Tokens

  /** `Expr`: the boxes of the source are plain recursive fields here. */
  datatype Expr =
    | Binary(left: Expr, op: Token, right: Expr)
    | Grouping(inner: Expr)
    | Literal(value: Token)
    | Unary(op: Token, operand: Expr)

  /** `format_ast`: a Literal is its lexeme; every other node is a
      parenthesised prefix form — the operator lexeme (or `group`) followed
      by its operands, separated by single spaces. */
  function FormatAst(e: Expr): (s: string)
    ensures e.Literal? ==> s == e.value.lexeme
    ensures !e.Literal? ==> |s| >= 2 && s[0] == '(' && s[|s| - 1] == ')'
  {
    match e
    case Binary(left, op, right) => "(" + op.lexeme + " " + FormatAst(left) + " " + FormatAst(right) + ")"
    case Grouping(inner) => "(group " + FormatAst(inner) + ")"
    case Literal(value) => value.lexeme
    case Unary(op, operand) => "(" + op.lexeme + " " + FormatAst(operand) + ")"
  }

  /** The `Display` impl writes `format_ast`. */
  function Display(e: Expr): (s: string)
    ensures s == FormatAst(e)
  {
    FormatAst(e)
  }

  // ---------------------------------------------------------------------
  // Parentheses.
  // ---------------------------------------------------------------------

  /** Occurrences of `c` in `s`. */
  function Count(s: string, c: char): nat {
    if |s| == 0 then 0 else (if s[0] == c then 1 else 0) + Count(s[1..], c)
  }

  /** Opening minus closing parentheses. */
  function Depth(s: string): int {
    Count(s, '(') - Count(s, ')')
  }

  /** Parentheses that match: no prefix closes more than it opened, and the
      whole text closes everything. */
  predicate Balanced(s: string) {
    && Depth(s) == 0
    && forall k :: 0 <= k <= |s| ==> Depth(s[..k]) >= 0
  }

  predicate ParenFree(s: string) {
    forall i :: 0 <= i < |s| ==> s[i] != '(' && s[i] != ')'
  }

  /** No token in the tree has a parenthesis in its lexeme. */
  predicate NoParenLexemes(e: Expr) {
    match e
    case Binary(left, op, right) => ParenFree(op.lexeme) && NoParenLexemes(left) && NoParenLexemes(right)
    case Grouping(inner) => NoParenLexemes(inner)
    case Literal(value) => ParenFree(value.lexeme)
    case Unary(op, operand) => ParenFree(op.lexeme) && NoParenLexemes(operand)
  }

  /** The nodes that are not Literals. */
  function NonLiterals(e: Expr): nat {
    match e
    case Binary(left, _, right) => 1 + NonLiterals(left) + NonLiterals(right)
    case Grouping(inner) => 1 + NonLiterals(inner)
    case Literal(_) => 0
    case Unary(_, operand) => 1 + NonLiterals(operand)
  }

  lemma {:induction false} CountConcat(a: string, b: string, c: char)
    ensures Count(a + b, c) == Count(a, c) + Count(b, c)
    decreases |a|
  {
    if |a| > 0 {
      assert (a + b)[0] == a[0] && (a + b)[1..] == a[1..] + b;
      CountConcat(a[1..], b, c);
    } else {
      assert a + b == b;
    }
  }

  lemma {:induction false} ParenFreeCounts(s: string)
    requires ParenFree(s)
    ensures Count(s, '(') == 0 && Count(s, ')') == 0
    decreases |s|
  {
    if |s| > 0 {
      ParenFreeCounts(s[1..]);
    }
  }

  lemma ParenFreeBalanced(s: string)
    requires ParenFree(s)
    ensures Balanced(s)
  {
    ParenFreeCounts(s);
    forall k | 0 <= k <= |s|
      ensures Depth(s[..k]) >= 0
    {
      ParenFreeCounts(s[..k]);
    }
  }

  lemma BalancedConcat(a: string, b: string)
    requires Balanced(a) && Balanced(b)
    ensures Balanced(a + b)
  {
    CountConcat(a, b, '(');
    CountConcat(a, b, ')');
    forall k | 0 <= k <= |a + b|
      ensures Depth((a + b)[..k]) >= 0
    {
      if k <= |a| {
        assert (a + b)[..k] == a[..k];
      } else {
        assert (a + b)[..k] == a + b[..k - |a|];
        CountConcat(a, b[..k - |a|], '(');
        CountConcat(a, b[..k - |a|], ')');
      }
    }
  }

  lemma BalancedWrap(s: string)
    requires Balanced(s)
    ensures Balanced("(" + s + ")")
  {
    var w := "(" + s + ")";
    CountConcat("(", s, '(');
    CountConcat("(", s, ')');
    CountConcat("(" + s, ")", '(');
    CountConcat("(" + s, ")", ')');
    forall k | 0 <= k <= |w|
      ensures Depth(w[..k]) >= 0
    {
      if 0 < k <= |s| + 1 {
        assert w[..k] == "(" + s[..k - 1];
        CountConcat("(", s[..k - 1], '(');
        CountConcat("(", s[..k - 1], ')');
      } else if k == |w| {
        assert w[..k] == w;
      }
    }
  }

  /** With parenthesis-free lexemes, the rendering is balanced and has one
      pair of parentheses per non-Literal node. */
  lemma {:induction false} FormatAstBalanced(e: Expr)
    requires NoParenLexemes(e)
    ensures Balanced(FormatAst(e))
    ensures Count(FormatAst(e), '(') == NonLiterals(e)
  {
    match e
    case Literal(value) =>
      ParenFreeBalanced(value.lexeme);
      ParenFreeCounts(value.lexeme);
    case Grouping(inner) =>
      FormatAstBalanced(inner);
      GroupingBalanced(FormatAst(inner));
    case Unary(op, operand) =>
      FormatAstBalanced(operand);
      UnaryBalanced(op.lexeme, FormatAst(operand));
    case Binary(left, op, right) =>
      FormatAstBalanced(left);
      FormatAstBalanced(right);
      BinaryBalanced(op.lexeme, FormatAst(left), FormatAst(right));
  }

  lemma GroupingBalanced(inner: string)
    requires Balanced(inner)
    ensures Balanced("(group " + inner + ")")
    ensures Count("(group " + inner + ")", '(') == 1 + Count(inner, '(')
  {
    WrappedBalanced("group ", inner, "");
    assert "(group " + inner + ")" == "(" + "group " + inner + "" + ")";
  }

  lemma UnaryBalanced(op: string, operand: string)
    requires ParenFree(op) && Balanced(operand)
    ensures Balanced("(" + op + " " + operand + ")")
    ensures Count("(" + op + " " + operand + ")", '(') == 1 + Count(operand, '(')
  {
    WrappedBalanced(op + " ", operand, "");
    assert "(" + op + " " + operand + ")" == "(" + (op + " ") + operand + "" + ")";
  }

  lemma BinaryBalanced(op: string, l: string, r: string)
    requires ParenFree(op) && Balanced(l) && Balanced(r)
    ensures Balanced("(" + op + " " + l + " " + r + ")")
    ensures Count("(" + op + " " + l + " " + r + ")", '(') == 1 + Count(l, '(') + Count(r, '(')
  {
    ParenFreeBalanced(" ");
    ParenFreeCounts(" ");
    BalancedConcat(l, " ");
    BalancedConcat(l + " ", r);
    CountConcat(l, " ", '(');
    CountConcat(l + " ", r, '(');
    WrappedBalanced(op + " ", l + " " + r, "");
    assert "(" + op + " " + l + " " + r + ")" == "(" + (op + " ") + (l + " " + r) + "" + ")";
  }

  /** `"(" + head + body + tail + ")"` with parenthesis-free `head` and
      `tail`: balanced when `body` is, with one more `(` than `body`. */
  lemma WrappedBalanced(head: string, body: string, tail: string)
    requires ParenFree(head) && ParenFree(tail) && Balanced(body)
    ensures Balanced("(" + head + body + tail + ")")
    ensures Count("(" + head + body + tail + ")", '(') == 1 + Count(body, '(')
  {
    ParenFreeBalanced(head);
    ParenFreeBalanced(tail);
    ParenFreeCounts(head);
    ParenFreeCounts(tail);
    BalancedConcat(head, body);
    BalancedConcat(head + body, tail);
    BalancedWrap(head + body + tail);
    assert "(" + head + body + tail + ")" == "(" + (head + body + tail) + ")";
    CountConcat(head, body, '(');
    CountConcat(head + body, tail, '(');
    CountConcat("(", head + body + tail, '(');
    CountConcat("(" + (head + body + tail), ")", '(');
  }

  /** The tree of `-123 * (45.67)` renders as `(* (- 123) (group 45.67))`. */
  lemma PrintAstExample()
    ensures FormatAst(Binary(
              Unary(Token(Minus, "-", None, 1), Literal(Token(Number, "123", None, 1))),
              Token(Star, "*", None, 1),
              Grouping(Literal(Token(Number, "45.67", None, 1)))))
            == "(* (- 123) (group 45.67))"
  {
  }
}
