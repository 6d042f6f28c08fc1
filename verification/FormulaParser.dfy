/// The recursive grammar that the parser follows.

module FormulaParser {
  import opened FormulaSyntax

  datatype Error =
    | TooDeep
    | Expected(op: Op)
    | Unexpected(t: Token)
    | EndsUnexpectedly
    | UnknownFunction(name: string)
    | ChangedNeedsField
    | WrongArity(fn: Fn)

  datatype Parsed<+T> = Ok(value: T, next: nat) | Fail(error: Error)

  function Peek(ts: seq<Token>, i: nat): Token {
    if i < |ts| then ts[i] else Eof
  }

  function Expr(ts: seq<Token>, i: nat, minPrec: nat, depth: nat): (r: Parsed<Node>)
    ensures r.Ok? ==> i < r.next <= |ts|
    decreases |ts| - i, 3
  {
    if depth > MAX_DEPTH then Fail(TooDeep)
    else
      match Unary_(ts, i, depth)
      case Fail(e) => Fail(e)
      case Ok(left, next) => Loop(ts, next, left, minPrec, depth)
  }

  /// The loop of `expr`: operators binding at least as tightly as `minPrec` extend `left`.
  function Loop(ts: seq<Token>, i: nat, left: Node, minPrec: nat, depth: nat): (r: Parsed<Node>)
    requires i <= |ts|
    ensures r.Ok? ==> i <= r.next <= |ts|
    decreases |ts| - i, 4
  {
    var t := Peek(ts, i);
    if !t.OpTok? || Precedence(t.op) == 0 || Precedence(t.op) < minPrec then Ok(left, i)
    else
      match Expr(ts, i + 1, Precedence(t.op) + 1, depth + 1)
      case Fail(e) => Fail(e)
      case Ok(right, next) => Loop(ts, next, Binary(t.op, left, right), minPrec, depth)
  }

  function Unary_(ts: seq<Token>, i: nat, depth: nat): (r: Parsed<Node>)
    ensures r.Ok? ==> i < r.next <= |ts|
    decreases |ts| - i, 2
  {
    var t := Peek(ts, i);
    if t == OpTok(Minus) || t == OpTok(Bang) then
      match Unary_(ts, i + 1, depth + 1)
      case Fail(e) => Fail(e)
      case Ok(arg, next) => Ok(Unary(t.op, arg), next)
    else Primary(ts, i, depth)
  }

  function Primary(ts: seq<Token>, i: nat, depth: nat): (r: Parsed<Node>)
    ensures r.Ok? ==> i < r.next <= |ts|
    decreases |ts| - i, 1
  {
    match Peek(ts, i)
    case NumTok(v) => Ok(Num(v), i + 1)
    case StrTok(v) => Ok(Str(v), i + 1)
    case OpTok(op) =>
      if op != LParen then Fail(Unexpected(OpTok(op)))
      else
        match Expr(ts, i + 1, 0, depth + 1) {
          case Fail(e) => Fail(e)
          case Ok(e, next) =>
            if Reads(Peek(ts, next), RParen) then Ok(e, next + 1) else Fail(Expected(RParen))
        }
    case IdTok(v) =>
      var w := Meaning(v);
      if IsLiteralWord(w) then Ok(Const(w), i + 1)
      else if Reads(Peek(ts, i + 1), LParen) then CallRest(ts, i + 2, v, w, depth)
      else Ok(Field(v), i + 1)
    case Eof => Fail(EndsUnexpectedly)
  }

  /// After `name(`: the arguments, the closing mark, and only then the checks on the name.
  function CallRest(ts: seq<Token>, i: nat, name: string, w: Word, depth: nat): (r: Parsed<Node>)
    ensures r.Ok? ==> i < r.next <= |ts|
    decreases |ts| - i, 5
  {
    match (if Reads(Peek(ts, i), RParen) then Ok([], i) else ArgList(ts, i, depth))
    case Fail(e) => Fail(e)
    case Ok(args, next) =>
      if !Reads(Peek(ts, next), RParen) then Fail(Expected(RParen))
      else
        match CheckCall(name, w, args)
        case Fail(e) => Fail(e)
        case Ok(call, _) => Ok(call, next + 1)
  }

  function CheckCall(name: string, w: Word, args: seq<Node>): Parsed<Node> {
    if !w.FnWord? then Fail(UnknownFunction(name))
    else if w.fn == CHANGED && (|args| != 1 || !args[0].Field?) then Fail(ChangedNeedsField)
    else if |args| < Arity(w.fn).0 || |args| > Arity(w.fn).1 then Fail(WrongArity(w.fn))
    else Ok(Call(w.fn, args), 0)
  }

  function ArgList(ts: seq<Token>, i: nat, depth: nat): (r: Parsed<seq<Node>>)
    ensures r.Ok? ==> i < r.next <= |ts|
    decreases |ts| - i, 4
  {
    match Expr(ts, i, 0, depth + 1)
    case Fail(e) => Fail(e)
    case Ok(a, next) =>
      if !Reads(Peek(ts, next), Comma) then Ok([a], next)
      else
        match ArgList(ts, next + 1, depth)
        case Fail(e) => Fail(e)
        case Ok(rest, last) => Ok([a] + rest, last)
  }

  function ParseAll(ts: seq<Token>): Parsed<Node> {
    match Expr(ts, 0, 0, 0)
    case Fail(e) => Fail(e)
    case Ok(n, next) =>
      if Peek(ts, next) == Eof then Ok(n, next) else Fail(Unexpected(Peek(ts, next)))
  }
}
