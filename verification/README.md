# MiniScript front end, in Dafny

A model of the front end of the MiniScript interpreter (a Rust, Lox-style
scripting language):

- the scanner that turns source text into tokens;
- the recursive-descent expression parser with its precedence levels,
  `consume` and `synchronize`;
- the AST printer `format_ast`, and the `Display`/`Debug` renderings of
  statements, tokens and diagnostics;
- the scope chain `Environment`;
- the `ErrorReporter` that collects diagnostics, and the selection its
  `dump` prints.

The Rust `&mut self` methods become pure functions. Each takes the state
(`Scanner`, `Parser`, `ErrorReporter`, `Env`) and returns the new state.
The scanner's and parser's `while` loops become recursive functions.
Diagnostics are collected in an `ErrorReporter` value carried inside the
scanner and parser states.

Files, one module each:

- `outcomes.dfy`: `Option` and `Result`.
- `token_type.dfy`: the token kinds and their `{:?}` names.
- `error_stage.dfy`: the error stage.
- `numerals.dfy`: decimal and hex digit strings.
- `token.dfy`: the `Token` record and its rendering.
- `error.dfy`: the `Error` record and its rendering.
- `error_reporter.dfy`: the diagnostic collector.
- `scanner.dfy` with `scanner_proofs.dfy`.
- `expression.dfy` and `statement.dfy`.
- `parser.dfy`, with `parser_proofs.dfy` and `parser_examples.dfy`.
- `environment.dfy`.

## Behaviour of the code that the model keeps

- **`consume` never advances the cursor.** After `(expr)` the cursor stays
  on the `)`, and no level takes a `)` as an operator. So `(1) + 2` parses
  to the group alone, and the `+ 2` is never looked at
  (`ParsingExamples.EarlyCloseExample`). Precedence inside the group is
  still right: `-123 * (45.67)` parses as in the repository's test.
- **`null` and `not` do not parse.** The scanner emits the kinds `Null`
  and `Not` for these words. `primary` looks for `Nil` and `unary` looks
  for `Bang`, and no scanned text produces either kind. The token kinds
  therefore include `Null` and `Not`, which `token_type.rs` does not
  list. A lone `!` is a scan error.
- **An unterminated string is reported at the last line.** The error
  names the line the scanner has reached at the end of the text. For a
  string that spans newlines, this is later than the line of its opening
  quote.
- **A string body keeps doubled quotes.** `""` inside a string stands for
  one quote. The lexeme keeps both quotes, and no literal value is
  stored: the scanner calls a three-argument `Token::new`, modelled with
  literal `None`.
- **`Environment::set` binds locally.** It writes to the innermost scope
  only, and never updates the enclosing scope that already binds the name.
- **`previous()` underflow is a precondition.** `previous()` at cursor 0
  would underflow. The parsing functions therefore require `NoUnderflow`:
  the cursor has moved, or the first token is one that `unary` or
  `primary` consumes before calling `previous`.

## Model

| member | source | states |
|---|---|---|
| TokenTypes.KindNameRoundTrip | src/token_type.rs:1-28 | the derived `{:?}` name of every token kind reads back to that kind |
| TokenTypes.KindNameInjective | src/token_type.rs:1-28 | distinct kinds have distinct `{:?}` names |
| ErrorStages.StageNameInjective | src/error_stage.rs:9-16 | distinct stages render differently |
| Numerals.IntToStringRoundTrip | src/error.rs:20 | the decimal rendering of a line number (sign included) reads back to the number |
| Tokens.NewToken | src/token.rs:17-27 | the token holds exactly the kind, lexeme, literal and line it was given |
| Tokens.EscapeRoundTrip | src/token.rs:30-37 | the escaped `{:?}` form of an ASCII literal string unescapes back to the string |
| Tokens.DisplayIsDebug | src/token.rs:30-48 | `Display` and `Debug` of a token render the same text |
| Tokens.TokenDisplayReadsBack | src/token.rs:30-38 | the rendering splits at its first space into the kind's name, then the lexeme, then the literal, and each part reads back to the token's field |
| Errors.NewError | src/error.rs:9-15 | the error holds its line, location and message verbatim |
| Errors.RenderedLineRoundTrip | src/error.rs:18-22 | the line number read back from a rendered diagnostic is the error's line, for any location and message |
| Errors.ErrorDisplayShape | src/error.rs:18-22 | the rendering is `[line N] Error` followed by the location, `: ` and the message; an empty location gives `[line N] Error: message` |
| ErrorReporters.NewReporter | src/error_reporter.rs:9-14 | a new reporter holds no errors and reports no error |
| ErrorReporters.Report | src/error_reporter.rs:28-41 | appends exactly one error with the given line, location and message, returns that error, and afterwards `had_error` holds |
| ErrorReporters.ErrorLine | src/error_reporter.rs:24-26 | appends one error with an empty location |
| ErrorReporters.ErrorToken | src/error_reporter.rs:16-22 | appends an error located ` at '<lexeme>'` and returns it; at an EOF token, an ` at end` error is appended first, so two are recorded |
| ErrorReporters.HadErrorPersists | src/error_reporter.rs:43-45 | `had_error` is false exactly while no error is recorded, and once true it stays true through any reporting that follows |
| ErrorReporters.ReportingAppends | src/error_reporter.rs:16-45 | every reporting call keeps the earlier errors as a prefix, and `had_error` holds afterwards |
| ErrorReporters.DumpSelection | src/error_reporter.rs:47-57 | `dump` prints, in order, exactly the errors whose line differs from the previous error's line (the first is compared with -1) |
| ErrorReporters.ShownLinesDiffer | src/error_reporter.rs:47-57 | when error lines never decrease, the printed errors have strictly increasing lines |
| Scanning.NewScanner | src/scanner.rs:13-21 | a new scanner is at offset 0, on line 1, with no tokens |
| Scanning.Peek | src/scanner.rs:190-195 | the current character when not at the end, and `'\0'` at the end |
| Scanning.PeekNext | src/scanner.rs:197-202 | the character after the current one when there is one, and `'\0'` otherwise |
| Scanning.AtEndIsEndOfText | src/scanner.rs:33-35 | on a valid scanner, the end is reached exactly when the cursor equals the text's length; there both lookaheads give `'\0'` |
| Scanning.Advance | src/scanner.rs:204-208 | moves the cursor forward by exactly one character; the text, tokens, start, line and reporter are unchanged |
| Scanning.AddTokenAppends | src/scanner.rs:222-225 | `add_token` appends one token: the given kind, the text between `start` and `current` as lexeme, no literal, the current line; nothing else changes |
| Scanning.MatchChar | src/scanner.rs:210-220 | consumes one character exactly when it is the expected one; otherwise the scanner is unchanged |
| Scanning.SkipComment | src/scanner.rs:70-74 | consumes up to the next newline or the end; every character it passes is not a newline |
| Scanning.IdentifierRun | src/scanner.rs:114-118 | consumes the longest run of identifier characters |
| Scanning.StringBody | src/scanner.rs:144-157 | stops at the end or at a `"` not followed by another `"`; what it passes is quote-free; lines are counted |
| Scanning.DigitRun | src/scanner.rs:172-174 | consumes the longest run of digits |
| Scanning.StringToken | src/scanner.rs:144-168 | a single step: the cursor moves forward, newlines are counted, at most one non-EOF token is added, errors are only appended |
| Scanning.NumberToken | src/scanner.rs:170-188 | a single step; the token it adds is stated by `ScanningProofs.NumberBody` |
| Scanning.OneOrTwoChar | src/scanner.rs:53-67 | a single step: the cursor moves forward, newlines are counted, at most one non-EOF token is added, errors are only appended |
| Scanning.SlashOrComment | src/scanner.rs:70-77 | a single step: the cursor moves forward, newlines are counted, at most one non-EOF token is added, errors are only appended |
| Scanning.DotOrNumber | src/scanner.rs:85-89 | a single step: the cursor moves forward, newlines are counted, at most one non-EOF token is added, errors are only appended |
| Scanning.BangToken | src/scanner.rs:91-96 | a single step: the cursor moves forward, newlines are counted, at most one non-EOF token is added, errors are only appended |
| Scanning.IdentifierToken | src/scanner.rs:114-142 | a single step: the cursor moves forward, newlines are counted, at most one non-EOF token is added, errors are only appended |
| Scanning.OtherChar | src/scanner.rs:83-110 | a single step: the cursor moves forward, newlines are counted, at most one non-EOF token is added, errors are only appended |
| Scanning.ScanToken | src/scanner.rs:37-112 | consumes at least one character, keeps the line counter in step with the newlines passed, adds at most one token (never EOF), and only appends errors |
| Scanning.TokenStep | src/scanner.rs:41-110 | the arm for a character that is neither blank nor a newline is a single step: the cursor moves forward, newlines are counted, at most one non-EOF token is added, errors are only appended |
| Scanning.ScanLoop | src/scanner.rs:24-28 | the loop runs to the end of the text |
| Scanning.ScanTokens | src/scanner.rs:23-31 | the token list ends with one EOF token whose line is one more than the number of newlines; no other token is EOF; earlier errors are kept |
| ScanningProofs.ScanSpans | src/scanner.rs:23-31 | every token but the EOF was scanned from a non-empty slice of the text that is its lexeme, with no literal, on the line reached at the end of that slice (a string spanning lines takes the line of its closing quote); the slices are in order and do not overlap |
| ScanningProofs.TokenLinesNonDecreasing | src/scanner.rs:23-31 | token lines lie between 1 and the EOF line and never decrease along the list |
| ScanningProofs.SingleCharStep | src/scanner.rs:42-50 | each of `(){},-+;*` adds its one-character token |
| ScanningProofs.OneOrTwoCharStep | src/scanner.rs:53-67 | `=`, `<`, `>` take a following `=` into a two-character token; otherwise they are one-character tokens |
| ScanningProofs.CommentStep | src/scanner.rs:70-74 | `//` adds nothing and stops before the next newline, which the next step counts |
| ScanningProofs.SlashStep | src/scanner.rs:75-77 | a `/` not followed by `/` is a Slash token |
| ScanningProofs.StringStep | src/scanner.rs:144-168 | a string is terminated exactly when the text after its opening quote is not quote-free |
| ScanningProofs.UnterminatedOutcome | src/scanner.rs:159-162 | an unterminated string consumes the rest of the text, adds no token and reports "Unterminated string." at the last line |
| ScanningProofs.TerminatedOutcome | src/scanner.rs:164-167 | a terminated string adds one String token whose lexeme runs from the opening quote to the closing quote |
| ScanningProofs.QuotedStringScansBack | src/scanner.rs:144-168 | quoting any ASCII text, with its inner quotes doubled, scans back to one String token spanning the whole literal, then EOF |
| ScanningProofs.NumberBody | src/scanner.rs:170-188 | `number` consumes a greedy digit run and a `.digits` fraction exactly when a digit follows the `.` |
| ScanningProofs.NumberStep | src/scanner.rs:83 | a digit starts a Number token whose lexeme is the numeral |
| ScanningProofs.DotStep | src/scanner.rs:85-89 | `.` starts a Number token when a digit follows; otherwise it is a Dot token |
| ScanningProofs.BangStep | src/scanner.rs:91-96 | `!=` is a BangEqual token; a lone `!` adds no token and reports "Unexpected character: !" |
| ScanningProofs.IdentifierStep | src/scanner.rs:114-142 | a letter or `_` starts the longest identifier run, whose kind the keyword table decides |
| ScanningProofs.KeywordKindTable | src/scanner.rs:120-139 | the 17 listed words get their keyword kinds; every other text is an Identifier |
| ScanningProofs.BlankStep | src/scanner.rs:101-105 | blanks add nothing; a newline counts one line |
| ScanningProofs.UnexpectedCharStep | src/scanner.rs:107-110 | any other character is reported as "Unexpected character: c" on the current line and skipped |
| Expressions.FormatAst | src/expression.rs:12-22 | a literal prints as its lexeme; every other node prints in parentheses |
| Expressions.Display | src/expression.rs:24-28 | `Display` of an expression writes exactly the `format_ast` text |
| Expressions.FormatAstBalanced | src/expression.rs:12-22 | when no lexeme holds a parenthesis, the printed tree is balanced and has one `(` per non-literal node |
| Expressions.PrintAstExample | src/expression.rs:40-57 | the tree of `-123 * (45.67)` prints as `(* (- 123) (group 45.67))` |
| Statements.StmtDisplay | src/statement.rs:21-29 | an expression statement displays as its expression; a print statement puts `print ` in front |
| Statements.StmtDebug | src/statement.rs:31-39 | the variant name, then the expression text in parentheses |
| Statements.DebugReadsBack | src/statement.rs:31-39 | the `Debug` text determines the statement kind and the expression text |
| Statements.SameDebugSameDisplay | src/statement.rs:21-39 | statements with equal `Debug` texts have equal `Display` texts and the same kind |
| Parsing.NewParser | src/parser.rs:16-21 | the cursor starts on the first token |
| Parsing.CursorToken | src/parser.rs:23-29 | `peek` is the token under the cursor; `is_at_end` holds exactly on an EOF token, so on the last token; a cursor not at the end has a token after it |
| Parsing.PreviousIsPassed | src/parser.rs:39-48 | after the cursor moves off a token that is not EOF, `previous` returns that token |
| Parsing.Check | src/parser.rs:31-37 | true exactly when the current token is not EOF and has the given kind |
| Parsing.Advance | src/parser.rs:43-48 | moves one token forward unless on EOF, and returns the token just before the cursor |
| Parsing.MatchToken | src/parser.rs:52-61 | consumes one token exactly when it is not EOF and its kind is listed |
| Parsing.Fail | src/parser.rs:166-169 | reports the token through `error_token` and fails with it |
| Parsing.Consume | src/parser.rs:158-164 | succeeds exactly when `check` does; the cursor never moves; a failure reports the current token and fails with it |
| Parsing.Tighter | src/parser.rs:76-122 | each binary level takes its operands from the next tighter level; factor takes unary expressions |
| Parsing.ParseExpression | src/parser.rs:72-74 | keeps the tokens, never moves the cursor back, and only appends errors |
| Parsing.ParseLevel | src/parser.rs:76-122 | each binary level keeps the tokens, never moves the cursor back, and only appends errors |
| Parsing.ParseUnary | src/parser.rs:124-132 | `unary` keeps the tokens, never moves the cursor back, and only appends errors |
| Parsing.ParsePrimary | src/parser.rs:134-156 | `primary` keeps the tokens, never moves the cursor back, and only appends errors |
| Parsing.Parse | src/parser.rs:63-70 | returns a tree exactly when `expression` succeeds, and then the tree `expression` produced; the parser state is the one `expression` leaves |
| Parsing.SyncLoop | src/parser.rs:175-186 | stops at the first point that is EOF, follows a `;`, or starts a statement keyword |
| Parsing.Synchronize | src/parser.rs:172-187 | skips one token, then stops at the first synchronisation point; the reporter is untouched |
| ParsingProofs.MatchTokenResult | src/parser.rs:52-61 | `match_token` moves one token on, or leaves the parser unchanged |
| ParsingProofs.PrimaryLiteral | src/parser.rs:135-147 | `false`, `true`, `nil`, a number or a string token becomes a Literal, and the cursor moves past it |
| ParsingProofs.PrimaryGroup | src/parser.rs:149-152 | a `(` starts a group |
| ParsingProofs.PrimaryOther | src/parser.rs:153-155 | any other token fails with the token before the cursor; the cursor does not move and nothing is reported |
| ParsingProofs.GroupClosed | src/parser.rs:149-152 | a parsed inner expression followed by `)` becomes a Grouping; the cursor stays on the `)` |
| ParsingProofs.GroupUnclosed | src/parser.rs:149-169 | otherwise "Expect ')' after expression." is reported at the token found, and parsing fails with that token |
| ParsingProofs.ConsumeMatches | src/parser.rs:158-161 | `consume` on the expected kind succeeds and changes nothing |
| ParsingProofs.ConsumeFails | src/parser.rs:158-169 | `consume` on another token, or at EOF, reports it and fails with it |
| ParsingProofs.UnaryPlain | src/parser.rs:124-132 | without a prefix operator, `unary` is `primary` |
| ParsingProofs.UnaryPrefix | src/parser.rs:125-128 | a prefix operator applies to the unary expression parsed after it |
| ParsingProofs.UnaryNesting | src/parser.rs:124-132 | k stacked prefix operators before a literal nest with the first outermost |
| ParsingProofs.OperatorsRanked | src/parser.rs:76-122 | each operator kind belongs to exactly one level, the one of its rank |
| ParsingProofs.LevelLiteral | src/parser.rs:76-122 | a literal followed by no operator of that level or a tighter one parses to the Literal alone |
| ParsingProofs.LoopStop | src/parser.rs:79-121 | a level's loop ends, unchanged, at a token that is not its operator |
| ParsingProofs.LoopStep | src/parser.rs:79-84 | one turn of a level's loop makes the tree so far the left side of a Binary |
| ParsingProofs.LeftAssociativeOperands | src/parser.rs:76-122 | `a o b o c`, for any operands the tighter level parses and both operators of one level, parses as `(a o b) o c` and stops after `c` |
| ParsingProofs.LeftAssociative | src/parser.rs:76-122 | the single-literal instance: tokens `a o b o c` with literal operands parse as `(a o b) o c` |
| ParsingProofs.LiftFactor | src/parser.rs:76-122 | a factor-level result followed by no looser operator is also the result of every looser level |
| ParsingExamples.PrecedenceExample | src/parser.rs:196 | tokens shaped like `-123 * (45.67)` parse to `Binary(Unary(-, 123), *, Grouping(45.67))` |
| ParsingExamples.GroupEndsExpression | src/parser.rs:149-152 | an expression that starts with a closed group ends at that group's `)` |
| ParsingExamples.EarlyCloseExample | src/parser.rs:149-152 | `(1) + 2` parses to the group alone, with the cursor on the `)` |
| Environments.NewRoot | src/environment.rs:14-20 | a root has no parent and nothing is visible in it |
| Environments.NewChild | src/environment.rs:22-28 | a child has the given parent and sees exactly what the parent sees |
| Environments.Set | src/environment.rs:30-32 | binds the name locally and leaves every other local binding and the parent chain as they were |
| Environments.Get | src/environment.rs:34-44 | succeeds exactly when some scope of the chain binds the name, with the innermost binding; otherwise the error is "Undefined Identifier: 'name' is unknown in this context." |
| Environments.Contains | src/environment.rs:34-48 | when the local scope binds the name, `get` returns that binding; otherwise `get` returns the enclosing chain's answer |
| Environments.Remove | src/environment.rs:50-52 | drops only the local binding of the name |
| Environments.Clear | src/environment.rs:54-56 | drops every local binding and keeps the parent chain |
| Environments.LocalShadows | src/environment.rs:35-36 | a local binding shadows every enclosing binding of the same name |
| Environments.LocalMissDelegates | src/environment.rs:37-41 | without a local binding, `get` answers what the enclosing chain answers |
| Environments.GetAfterSet | src/environment.rs:30-44 | after `set(n, v)`, `get(n)` is `v` |
| Environments.SetLeavesOthers | src/environment.rs:30-44 | `set` does not change the lookup of any other name |
| Environments.SetInChild | src/environment.rs:22-32 | `set` on a child leaves the parent as it was and shadows it |
| Environments.ChildSeesParent | src/environment.rs:22-44 | every lookup in a new child is the parent's lookup |
| Environments.RootMisses | src/environment.rs:14-44 | every lookup in a new root fails with the undefined-identifier message |
| Environments.MissMeansUnboundEverywhere | src/environment.rs:34-44 | a lookup fails exactly when no scope of the chain binds the name |
| Environments.ContainsIsLocal | src/environment.rs:46-48 | `contains` looks only at the local scope: a name bound in the parent is found by `get` but not by `contains` |
| Environments.GetAfterRemove | src/environment.rs:50-52 | after `remove(n)`, looking up `n` falls through to the enclosing chain; other names are unaffected |
| Environments.GetAfterClear | src/environment.rs:54-56 | after `clear`, every lookup is the enclosing chain's answer |

## Left out

- The driver (`main.rs`, `lib.rs`), the evaluator (`eval_stmts`) and
  `EvalResult`, which works on floating-point values. `Env` is generic in
  its value type for this reason.
- `impl Debug for Expr`: it formats itself with `{:?}` and so recurses
  forever. It has no result to model.
- Printing. `dump` is modelled as the selection of errors it prints
  (`DumpSelection`); the `Begin dump.`/`End dump.` lines and the printing
  itself are left out.
- `ErrorReporter`'s `had_errors` field: only `new` ever sets it, and
  `had_error` reads the error list instead. The field is carried through
  unchanged.
- The scanner and parser call `ErrorReporter::error_line` and
  `error_token` as associated functions, with no receiver. `lib.rs`
  passes a reporter to `scan_tokens` and `parse`. The model threads one
  reporter value through the scanner and parser states, which is what the
  calls evidently mean.
- The `#[derive(Debug)]` rendering of `ParseError`, and the `Clone` and
  `PartialEq` derives, which Dafny's datatype equality already gives.
- Scanning.ScanTokens: requires ASCII text. The source indexes characters
  with `chars().nth` but slices lexemes by byte offset. The two differ on
  multi-byte text, and that case is not modelled.
- Scanning.IdentifierRun: `is_alphanumeric` is modelled for ASCII only,
  because of the ASCII restriction above.
- Tokens.Token: lines, and the scanner's and parser's cursors, are `i64`
  in the source. They are unbounded here, because no text reaches 2^63
  characters or lines.
- Parsing.ParseExpression: requires `NoUnderflow`, because `previous()`
  at cursor 0 panics in the source. The parsing functions are stated
  only where the source does not panic.
- Parsing.Synchronize: requires the cursor to have moved or not to be at
  EOF, for the same reason.
- Parsing.Advance: requires the cursor to have moved or not to be at EOF,
  for the same reason.
- Tokens.TokenDisplayReadsBack: holds for ASCII literal strings only. The
  `{:?}` escaping of non-ASCII characters (`\u{…}` for non-printable
  code points) is modelled for the ASCII range only.
- ParsingExamples.PrecedenceExample: stated over token kinds (any literal
  in place of `123` and `45.67`) rather than over a concrete scanned token
  list. The scan of `-123 * (45.67)` is covered step by step by the
  scanner lemmas.
- Token kinds: the `{:?}` names of the kinds and the ErrorStage
  `Display` are written out by hand, following the derives.
