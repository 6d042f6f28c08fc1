/// The formula language: operators, tokens, trees and functions.

module FormulaSyntax {
  import opened Basics

  /// Operators and punctuation; `Precedence` says how operators bind.
  datatype Op =
    | Or | And | Eq | Ne | Lt | Le | Gt | Ge | Amp
    | Plus | Minus | Star | Slash | Percent | Bang
    | LParen | RParen | Comma

  datatype Token =
    | NumTok(v: string)
    | StrTok(v: string)
    | IdTok(v: string)
    | OpTok(op: Op)
    | Eof

  /// A number keeps its literal text; what `Number` makes of it is not part of this model.
  /// The truth values and null are kept as the word that was read.
  datatype Node =
    | Num(v: string)
    | Str(v: string)
    | Const(w: Word)
    | Field(name: string)
    | Unary(op: Op, arg: Node)
    | Binary(op: Op, left: Node, right: Node)
    | Call(fn: Fn, args: seq<Node>)

  datatype Fn =
    | IF | AND | OR | NOT | COALESCE | ROUND | FLOOR | CEIL | ABS | MIN | MAX | SUM | AVG
    | COUNT | CONCAT | UPPER | LOWER | TRIM | LEN | LEFT | RIGHT | TODAY | YEAR | MONTH | DAY
    | DAYS_BETWEEN | ADD_DAYS | IS_EMPTY | CONTAINS | CHANGED | HAS_ROLE | IN_UNIT | STATUS

  /// What an identifier means once upper-cased: a literal, a function name, or neither.
  datatype Word = TrueWord | FalseWord | NullWord | FnWord(fn: Fn) | Plain

  const MAX_DEPTH: nat := 50

  /// Binding strength; 0 for tokens that are not binary operators.
  function Precedence(op: Op): nat {
    match op
    case Or => 1
    case And => 2
    case Eq | Ne => 3
    case Lt | Le | Gt | Ge => 4
    case Amp => 5
    case Plus | Minus => 6
    case Star | Slash | Percent => 7
    case Bang | LParen | RParen | Comma => 0
  }

  function OpText(op: Op): string {
    match op
    case Or => "||" case And => "&&" case Eq => "==" case Ne => "!="
    case Lt => "<" case Le => "<=" case Gt => ">" case Ge => ">="
    case Amp => "&" case Plus => "+" case Minus => "-" case Star => "*"
    case Slash => "/" case Percent => "%" case Bang => "!"
    case LParen => "(" case RParen => ")" case Comma => ","
  }

  function FnText(fn: Fn): string {
    match fn
    case IF => "IF" case AND => "AND" case OR => "OR" case NOT => "NOT"
    case COALESCE => "COALESCE" case ROUND => "ROUND" case FLOOR => "FLOOR"
    case CEIL => "CEIL" case ABS => "ABS" case MIN => "MIN" case MAX => "MAX"
    case SUM => "SUM" case AVG => "AVG" case COUNT => "COUNT" case CONCAT => "CONCAT"
    case UPPER => "UPPER" case LOWER => "LOWER" case TRIM => "TRIM" case LEN => "LEN"
    case LEFT => "LEFT" case RIGHT => "RIGHT" case TODAY => "TODAY" case YEAR => "YEAR"
    case MONTH => "MONTH" case DAY => "DAY" case DAYS_BETWEEN => "DAYS_BETWEEN"
    case ADD_DAYS => "ADD_DAYS" case IS_EMPTY => "IS_EMPTY" case CONTAINS => "CONTAINS"
    case CHANGED => "CHANGED" case HAS_ROLE => "HAS_ROLE" case IN_UNIT => "IN_UNIT"
    case STATUS => "STATUS"
  }

  const ALL_FUNCTIONS: seq<Fn> := [
    IF, AND, OR, NOT, COALESCE, ROUND, FLOOR, CEIL, ABS, MIN, MAX, SUM, AVG, COUNT, CONCAT,
    UPPER, LOWER, TRIM, LEN, LEFT, RIGHT, TODAY, YEAR, MONTH, DAY, DAYS_BETWEEN, ADD_DAYS,
    IS_EMPTY, CONTAINS, CHANGED, HAS_ROLE, IN_UNIT, STATUS
  ]

  /// Fewest and most arguments.
  function Arity(fn: Fn): (r: (nat, nat)) {
    match fn
    case IF => (2, 3)
    case AND | OR | COALESCE | MIN | MAX | SUM | AVG | COUNT | CONCAT => (1, 20)
    case ROUND => (1, 2)
    case NOT | FLOOR | CEIL | ABS | UPPER | LOWER | TRIM | LEN => (1, 1)
    case YEAR | MONTH | DAY | IS_EMPTY | CHANGED | HAS_ROLE | IN_UNIT => (1, 1)
    case LEFT | RIGHT | DAYS_BETWEEN | ADD_DAYS | CONTAINS => (2, 2)
    case TODAY | STATUS => (0, 0)
  }

  function LookupFn(s: string, fns: seq<Fn>): Word
    decreases fns, s
  {
    if fns == [] then Plain
    else if FnText(fns[0]) == s then FnWord(fns[0])
    else LookupFn(s, fns[1..])
  }

  function Meaning(id: string): Word {
    var u := Upper(id);
    if u == "TRUE" then TrueWord
    else if u == "FALSE" then FalseWord
    else if u == "NULL" then NullWord
    else LookupFn(u, ALL_FUNCTIONS)
  }

  /// Token values are compared as text, without looking at the kind of token, so a string
  /// literal that spells a punctuation mark reads as that mark. Number and name tokens
  /// never spell one.
  predicate Reads(t: Token, op: Op) {
    t == OpTok(op) || t == StrTok(OpText(op))
  }

  predicate IsLiteralWord(w: Word) {
    w.TrueWord? || w.FalseWord? || w.NullWord?
  }

  function WordText(w: Word): string { if w.TrueWord? then "TRUE" else if w.FalseWord? then "FALSE" else "NULL" }

  /// Trees the language can express.
  predicate WellFormed(n: Node) {
    match n
    case Num(_) => true
    case Str(_) => true
    case Const(w) => IsLiteralWord(w)
    case Field(name) => !IsLiteralWord(Meaning(name))
    case Unary(op, arg) => (op == Minus || op == Bang) && WellFormed(arg)
    case Binary(op, l, r) => Precedence(op) > 0 && WellFormed(l) && WellFormed(r)
    case Call(fn, args) => GoodArgs(fn, args) && forall a <- args :: WellFormed(a)
  }

  predicate GoodArgs(fn: Fn, args: seq<Node>) {
    && Arity(fn).0 <= |args| <= Arity(fn).1
    && (fn == CHANGED ==> |args| == 1 && args[0].Field?)
  }
}
