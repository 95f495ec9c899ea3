/** Statements and their two renderings (src/statement.rs). */
module Statements {
  import opened Outcomes
  import opened Expressions

  datatype Stmt = Expression(expr: Expr) | Print(expr: Expr)

  /** `Display`: an expression statement is its expression's text; a print
      statement puts `print ` in front of it. */
  function StmtDisplay(s: Stmt): (t: string)
    ensures s.Expression? ==> t == Display(s.expr)
    ensures s.Print? ==> |t| >= 6 && t[..6] == "print " && t[6..] == Display(s.expr)
  {
    match s
    case Expression(e) => Display(e)
    case Print(e) => "print " + Display(e)
  }

  /** `Debug`: the variant name with the expression's text in parentheses. */
  function StmtDebug(s: Stmt): (t: string)
    ensures s.Expression? ==> |t| >= 12 && t[..11] == "Expression(" && t[11..|t| - 1] == Display(s.expr)
    ensures s.Print? ==> |t| >= 7 && t[..6] == "Print(" && t[6..|t| - 1] == Display(s.expr)
    ensures t[|t| - 1] == ')'
  {
    match s
    case Expression(e) => "Expression(" + Display(e) + ")"
    case Print(e) => "Print(" + Display(e) + ")"
  }

  /** Reads a `Debug` rendering back into whether it is a print statement
      and the expression text it carries. */
  function ReadDebug(t: string): (r: Option<(bool, string)>)
    ensures r.Some? ==> |t| > 0 && t[|t| - 1] == ')'
  {
    if |t| >= 12 && t[..11] == "Expression(" && t[|t| - 1] == ')' then Some((false, t[11..|t| - 1]))
    else if |t| >= 7 && t[..6] == "Print(" && t[|t| - 1] == ')' then Some((true, t[6..|t| - 1]))
    else None
  }

  /** The `Debug` form determines the statement kind and its expression
      text, so two statements with equal `Debug` forms have equal `Display`
      forms. */
  lemma DebugReadsBack(s: Stmt)
    ensures ReadDebug(StmtDebug(s)) == Some((s.Print?, Display(s.expr)))
  {
    var t := StmtDebug(s);
    if s.Print? {
      assert t[0] == 'P' && (|t| >= 12 ==> t[..11][0] == 'P');
    }
  }

  lemma SameDebugSameDisplay(s1: Stmt, s2: Stmt)
    requires StmtDebug(s1) == StmtDebug(s2)
    ensures StmtDisplay(s1) == StmtDisplay(s2)
    ensures s1.Print? == s2.Print?
  {
    DebugReadsBack(s1);
    DebugReadsBack(s2);
  }
}
