/** The diagnostic collector (src/error_reporter.rs): an append-only list of
    `Error` records. */
module ErrorReporters {
  import opened TokenTypes
  import opened Tokens
  import opened Errors

  /** `had_errors` is set by `new` and never written again; `had_error()`
      reads the list instead. */
  datatype ErrorReporter = ErrorReporter(hadErrors: bool, errors: seq<Error>)

  /** `ErrorReporter::new`. */
  function NewReporter(): (r: ErrorReporter)
    ensures r.errors == []
    ensures !HadError(r)
  {
    ErrorReporter(false, [])
  }

  /** `had_error`: whether any diagnostic has been recorded. */
  predicate HadError(r: ErrorReporter) {
    |r.errors| > 0
  }

  /** `report`: appends one error and hands back a copy of it. */
  function Report(r: ErrorReporter, line: int, location: string, message: string): (res: (ErrorReporter, Error))
    ensures res.1 == Error(line, location, message)
    ensures res.0.errors == r.errors + [res.1]
    ensures res.0.hadErrors == r.hadErrors
    ensures HadError(res.0)
  {
    var e := NewError(line, location, message);
    (r.(errors := r.errors + [e]), e)
  }

  /** `error_line`: a diagnostic with an empty location. */
  function ErrorLine(r: ErrorReporter, line: int, message: string): (res: (ErrorReporter, Error))
    ensures res.1 == Error(line, "", message)
    ensures res.0.errors == r.errors + [res.1]
  {
    Report(r, line, "", message)
  }

  /** `error_token`: an EOF token is reported twice, first " at end" and
      then " at '<lexeme>'", because the second report is not in an `else`.
      Every other token is reported once. */
  function ErrorToken(r: ErrorReporter, token: Token, message: string): (res: (ErrorReporter, Error))
    ensures res.1 == Error(token.line, " at '" + token.lexeme + "'", message)
    ensures token.kind == EOF ==>
              res.0.errors == r.errors + [Error(token.line, " at end", message), res.1]
    ensures token.kind != EOF ==> res.0.errors == r.errors + [res.1]
  {
    var r1 := if token.kind == EOF then Report(r, token.line, " at end", message).0 else r;
    Report(r1, token.line, " at '" + token.lexeme + "'", message)
  }

  /** Errors are only appended: the old list is a prefix of the new one. */
  predicate Extends(before: ErrorReporter, after: ErrorReporter) {
    before.errors <= after.errors
  }

  lemma ExtendsRefl(r: ErrorReporter)
    ensures Extends(r, r)
  {
  }

  lemma ExtendsTransitive(a: ErrorReporter, b: ErrorReporter, c: ErrorReporter)
    requires Extends(a, b) && Extends(b, c)
    ensures Extends(a, c)
  {
    assert c.errors[..|a.errors|] == c.errors[..|b.errors|][..|a.errors|];
  }

  /** `had_error` is false only while nothing is recorded, and once true it
      stays true through any later reporting, which only appends. */
  lemma HadErrorPersists(r: ErrorReporter, r': ErrorReporter)
    requires Extends(r, r')
    ensures !HadError(r) <==> r.errors == []
    ensures HadError(r) ==> HadError(r')
  {
  }

  /** Every reporting operation only appends, and leaves `had_error` true. */
  lemma ReportingAppends(r: ErrorReporter, t: Token, line: int, location: string, message: string)
    ensures Extends(r, Report(r, line, location, message).0)
    ensures Extends(r, ErrorLine(r, line, message).0)
    ensures Extends(r, ErrorToken(r, t, message).0)
    ensures HadError(ErrorLine(r, line, message).0) && HadError(ErrorToken(r, t, message).0)
  {
    var r2 := ErrorToken(r, t, message).0;
    assert r2.errors[..|r.errors|] == r.errors;
  }

  /** Whether `dump` prints the error at index `i`: its line differs from
      the line of the error before it, or from the initial `-1` when it is
      the first. */
  predicate IsRunHead(errors: seq<Error>, i: nat)
    requires i < |errors|
  {
    errors[i].line != (if i == 0 then -1 else errors[i - 1].line)
  }

  /** The selection `dump` makes: walks the list once with the line of the
      last printed error, printing an error only when its line differs.
      Returns the printed errors and their indices. */
  method DumpSelection(errors: seq<Error>) returns (shown: seq<Error>, indices: seq<nat>)
    ensures |shown| == |indices|
    ensures forall k :: 0 <= k < |indices| ==> indices[k] < |errors| && shown[k] == errors[indices[k]]
    ensures forall k, l :: 0 <= k < l < |indices| ==> indices[k] < indices[l]
    ensures forall i :: 0 <= i < |errors| ==> (i in indices <==> IsRunHead(errors, i))
  {
    shown, indices := [], [];
    var currentLine := -1;
    var i := 0;
    while i < |errors|
      invariant 0 <= i <= |errors|
      invariant currentLine == if i == 0 then -1 else errors[i - 1].line
      invariant |shown| == |indices|
      invariant forall k :: 0 <= k < |indices| ==> indices[k] < i && shown[k] == errors[indices[k]]
      invariant forall k, l :: 0 <= k < l < |indices| ==> indices[k] < indices[l]
      invariant forall j :: 0 <= j < i ==> (j in indices <==> IsRunHead(errors, j))
    {
      if errors[i].line != currentLine {
        shown, indices := shown + [errors[i]], indices + [i];
        currentLine := errors[i].line;
      }
      i := i + 1;
    }
  }

  /** No two consecutive printed errors share a line. */
  lemma ShownLinesDiffer(errors: seq<Error>, indices: seq<nat>)
    requires forall k :: 0 <= k < |indices| ==> indices[k] < |errors|
    requires forall k, l :: 0 <= k < l < |indices| ==> indices[k] < indices[l]
    requires forall i :: 0 <= i < |errors| ==> (i in indices <==> IsRunHead(errors, i))
    requires forall i :: 0 < i < |errors| ==> errors[i - 1].line <= errors[i].line
    ensures forall k :: 0 < k < |indices| ==> errors[indices[k - 1]].line < errors[indices[k]].line
  {
    forall k | 0 < k < |indices|
      ensures errors[indices[k - 1]].line < errors[indices[k]].line
    {
      var a, b := indices[k - 1], indices[k];
      assert a in indices && b in indices;
      assert IsRunHead(errors, b);
      NonDecreasingBetween(errors, a, b - 1);
    }
  }

  lemma {:induction false} NonDecreasingBetween(errors: seq<Error>, a: nat, b: nat)
    requires a <= b < |errors|
    requires forall i :: 0 < i < |errors| ==> errors[i - 1].line <= errors[i].line
    ensures errors[a].line <= errors[b].line
    decreases b - a
  {
    if a < b {
      NonDecreasingBetween(errors, a, b - 1);
    }
  }
}
