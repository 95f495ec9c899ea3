/** The closed set of token kinds (src/token_type.rs), widened with the two
    keyword kinds `Null` and `Not` that the scanner's keyword table produces. */
module TokenTypes {
  import opened Outcomes

  datatype TokenKind =
    // Single-character tokens.
    | LeftParen | RightParen | LeftBrace | RightBrace
    | Comma | Dot | Minus | Plus | SemiColon | Slash | Star
    // One or two character tokens.
    | Bang | BangEqual
    | Equal | EqualEqual
    | Greater | GreaterEqual
    | Less | LessEqual
    // Literals.
    | Identifier | String | Number
    // Keywords.
    | Class | Fun | True | False | Nil | This | Var | Print
    | And | Else | For | If | Or | Return | Super | While
    // Keyword kinds the scanner emits for `null` and `not`.
    | Null | Not
    | EOF

  /** The `{:?}` rendering of a kind: its variant name. */
  function KindName(k: TokenKind): (name: string)
    ensures |name| > 0
    ensures ' ' !in name
  {
    match k
    case LeftParen => "LeftParen"
    case RightParen => "RightParen"
    case LeftBrace => "LeftBrace"
    case RightBrace => "RightBrace"
    case Comma => "Comma"
    case Dot => "Dot"
    case Minus => "Minus"
    case Plus => "Plus"
    case SemiColon => "SemiColon"
    case Slash => "Slash"
    case Star => "Star"
    case Bang => "Bang"
    case BangEqual => "BangEqual"
    case Equal => "Equal"
    case EqualEqual => "EqualEqual"
    case Greater => "Greater"
    case GreaterEqual => "GreaterEqual"
    case Less => "Less"
    case LessEqual => "LessEqual"
    case Identifier => "Identifier"
    case String => "String"
    case Number => "Number"
    case Class => "Class"
    case Fun => "Fun"
    case True => "True"
    case False => "False"
    case Nil => "Nil"
    case This => "This"
    case Var => "Var"
    case Print => "Print"
    case And => "And"
    case Else => "Else"
    case For => "For"
    case If => "If"
    case Or => "Or"
    case Return => "Return"
    case Super => "Super"
    case While => "While"
    case Null => "Null"
    case Not => "Not"
    case EOF => "EOF"
  }

  /** Reads a variant name back into its kind; the inverse of `KindName`. */
  function KindFromName(name: string): Option<TokenKind> {
    match name
    case "LeftParen" => Some(LeftParen)
    case "RightParen" => Some(RightParen)
    case "LeftBrace" => Some(LeftBrace)
    case "RightBrace" => Some(RightBrace)
    case "Comma" => Some(Comma)
    case "Dot" => Some(Dot)
    case "Minus" => Some(Minus)
    case "Plus" => Some(Plus)
    case "SemiColon" => Some(SemiColon)
    case "Slash" => Some(Slash)
    case "Star" => Some(Star)
    case "Bang" => Some(Bang)
    case "BangEqual" => Some(BangEqual)
    case "Equal" => Some(Equal)
    case "EqualEqual" => Some(EqualEqual)
    case "Greater" => Some(Greater)
    case "GreaterEqual" => Some(GreaterEqual)
    case "Less" => Some(Less)
    case "LessEqual" => Some(LessEqual)
    case "Identifier" => Some(Identifier)
    case "String" => Some(String)
    case "Number" => Some(Number)
    case "Class" => Some(Class)
    case "Fun" => Some(Fun)
    case "True" => Some(True)
    case "False" => Some(False)
    case "Nil" => Some(Nil)
    case "This" => Some(This)
    case "Var" => Some(Var)
    case "Print" => Some(Print)
    case "And" => Some(And)
    case "Else" => Some(Else)
    case "For" => Some(For)
    case "If" => Some(If)
    case "Or" => Some(Or)
    case "Return" => Some(Return)
    case "Super" => Some(Super)
    case "While" => Some(While)
    case "Null" => Some(Null)
    case "Not" => Some(Not)
    case "EOF" => Some(EOF)
    case _ => None
  }

  /** Every kind's name reads back to that kind, so distinct kinds render
      distinctly. */
  lemma KindNameRoundTrip(k: TokenKind)
    ensures KindFromName(KindName(k)) == Some(k)
  {
    if IsOperatorKind(k) {
      OperatorNamesRoundTrip(k);
    } else if IsLeadingWordKind(k) {
      LeadingWordNamesRoundTrip(k);
    } else {
      TrailingWordNamesRoundTrip(k);
    }
  }

  /** The literal kinds and the first keyword kinds. */
  predicate IsLeadingWordKind(k: TokenKind) {
    || k.Identifier? || k.String? || k.Number?
    || k.Class? || k.Fun? || k.True? || k.False? || k.Nil? || k.This? || k.Var? || k.Print?
  }

  /** The punctuation and operator kinds. */
  predicate IsOperatorKind(k: TokenKind) {
    || k.LeftParen? || k.RightParen? || k.LeftBrace? || k.RightBrace?
    || k.Comma? || k.Dot? || k.Minus? || k.Plus? || k.SemiColon? || k.Slash? || k.Star?
    || k.Bang? || k.BangEqual? || k.Equal? || k.EqualEqual?
    || k.Greater? || k.GreaterEqual? || k.Less? || k.LessEqual?
  }

  lemma OperatorNamesRoundTrip(k: TokenKind)
    requires IsOperatorKind(k)
    ensures KindFromName(KindName(k)) == Some(k)
  {
  }

  lemma LeadingWordNamesRoundTrip(k: TokenKind)
    requires IsLeadingWordKind(k)
    ensures KindFromName(KindName(k)) == Some(k)
  {
  }

  lemma TrailingWordNamesRoundTrip(k: TokenKind)
    requires !IsOperatorKind(k) && !IsLeadingWordKind(k)
    ensures KindFromName(KindName(k)) == Some(k)
  {
  }

  lemma KindNameInjective(a: TokenKind, b: TokenKind)
    ensures KindName(a) == KindName(b) ==> a == b
  {
    KindNameRoundTrip(a);
    KindNameRoundTrip(b);
  }
}
