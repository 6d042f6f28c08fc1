/// The parser as written: an object with a cursor into the token list.

module FormulaCursor {
  import opened FormulaSyntax
  import P = FormulaParser

  datatype Outcome<+T> = Value(value: T) | Error(error: P.Error)

  class Parser {
    const tokens: seq<Token>
    var i: nat

    constructor (tokens: seq<Token>)
      ensures this.tokens == tokens && i == 0
    {
      this.tokens := tokens;
      i := 0;
    }

    /// The outcome is what the grammar function says, and on success the cursor stands
    /// right behind the tokens read.
    ghost predicate Did<T>(spec: P.Parsed<T>, r: Outcome<T>)
      reads this`i
    {
      match spec
      case Ok(v, next) => r == Value(v) && i == next
      case Fail(e) => r == Error(e)
    }

    method Parse() returns (r: Outcome<Node>)
      requires i == 0
      modifies this`i
      ensures Did(P.ParseAll(tokens), r)
    {
      r := Expr(0, 0);
      if r.Value? && P.Peek(tokens, i) != Eof {
        r := Error(P.Unexpected(P.Peek(tokens, i)));
      }
    }

    method Expr(minPrec: nat, depth: nat) returns (r: Outcome<Node>)
      modifies this`i
      ensures Did(P.Expr(tokens, old(i), minPrec, depth), r)
      decreases |tokens| - i, 3
    {
      if depth > MAX_DEPTH {
        return Error(P.TooDeep);
      }
      ghost var spec := P.Expr(tokens, i, minPrec, depth);
      r := ReadUnary(depth);
      if r.Error? {
        return;
      }
      var left := r.value;
      while true
        invariant old(i) < i <= |tokens|
        invariant spec == P.Loop(tokens, i, left, minPrec, depth)
        decreases |tokens| - i
      {
        var t := P.Peek(tokens, i);
        if !t.OpTok? || Precedence(t.op) == 0 || Precedence(t.op) < minPrec {
          return Value(left);
        }
        i := i + 1;
        var right := Expr(Precedence(t.op) + 1, depth + 1);
        if right.Error? {
          return right;
        }
        left := Binary(t.op, left, right.value);
      }
    }

    method ReadUnary(depth: nat) returns (r: Outcome<Node>)
      modifies this`i
      ensures Did(P.Unary_(tokens, old(i), depth), r)
      decreases |tokens| - i, 2
    {
      var t := P.Peek(tokens, i);
      if t == OpTok(Minus) || t == OpTok(Bang) {
        i := i + 1;
        r := ReadUnary(depth + 1);
        if r.Value? {
          r := Value(Unary(t.op, r.value));
        }
      } else {
        r := Primary(depth);
      }
    }

    method Expect(op: Op) returns (ok: bool)
      modifies this`i
      ensures ok == Reads(P.Peek(tokens, old(i)), op)
      ensures ok ==> i == old(i) + 1
    {
      ok := Reads(P.Peek(tokens, i), op);
      i := i + 1;
    }

    method Primary(depth: nat) returns (r: Outcome<Node>)
      modifies this`i
      ensures Did(P.Primary(tokens, old(i), depth), r)
      decreases |tokens| - i, 1
    {
      var t := P.Peek(tokens, i);
      i := i + 1;
      match t
      case NumTok(v) => r := Value(Num(v));
      case StrTok(v) => r := Value(Str(v));
      case Eof => r := Error(P.EndsUnexpectedly);
      case OpTok(op) =>
        if op != LParen {
          return Error(P.Unexpected(t));
        }
        r := Group(depth);
      case IdTok(v) =>
        r := Named(v, depth);
    }

    /// After an opening mark: an expression and the closing one.
    method Group(depth: nat) returns (r: Outcome<Node>)
      modifies this`i
      ensures Did(Grouped(tokens, P.Expr(tokens, old(i), 0, depth + 1)), r)
      decreases |tokens| - i, 4
    {
      r := Expr(0, depth + 1);
      if r.Value? {
        var closed := Expect(RParen);
        if !closed {
          r := Error(P.Expected(RParen));
        }
      }
    }

    /// After a name: a word with a meaning of its own, a call or a field.
    method Named(v: string, depth: nat) returns (r: Outcome<Node>)
      requires 0 < i <= |tokens| && tokens[i - 1] == IdTok(v)
      modifies this`i
      ensures Did(P.Primary(tokens, old(i) - 1, depth), r)
      decreases |tokens| - i, 6
    {
      var w := Meaning(v);
      if IsLiteralWord(w) {
        return Value(Const(w));
      }
      if !Reads(P.Peek(tokens, i), LParen) {
        return Value(Field(v));
      }
      i := i + 1;
      r := CallRest(v, w, depth);
    }

    /// The arguments of a call, read one after another until no comma follows.
    method CallRest(name: string, w: Word, depth: nat) returns (r: Outcome<Node>)
      requires i <= |tokens|
      modifies this`i
      ensures Did(P.CallRest(tokens, old(i), name, w, depth), r)
      decreases |tokens| - i, 5
    {
      var args: seq<Node> := [];
      if !Reads(P.Peek(tokens, i), RParen) {
        ghost var spec := P.ArgList(tokens, i, depth);
        var more := true;
        BeforeNothing(spec);
        while more
          invariant old(i) <= i <= |tokens|
          invariant more ==> spec == Before(args, P.ArgList(tokens, i, depth))
          invariant !more ==> spec == P.Ok(args, i)
          decreases |tokens| - i, more
        {
          var a := Expr(0, depth + 1);
          if a.Error? {
            return Error(a.error);
          }
          BeforeOne(args, a.value, P.ArgList(tokens, i + 1, depth));
          args := args + [a.value];
          more := Reads(P.Peek(tokens, i), Comma);
          if more {
            i := i + 1;
          }
        }
      }
      var closed := Expect(RParen);
      if !closed {
        return Error(P.Expected(RParen));
      }
      match P.CheckCall(name, w, args)
      case Fail(e) => r := Error(e);
      case Ok(call, _) => r := Value(call);
    }
  }

  function Grouped(ts: seq<Token>, inner: P.Parsed<Node>): P.Parsed<Node> {
    match inner
    case Fail(e) => P.Fail(e)
    case Ok(e, next) =>
      if Reads(P.Peek(ts, next), RParen) then P.Ok(e, next + 1) else P.Fail(P.Expected(RParen))
  }

  lemma BeforeNothing<T>(rest: P.Parsed<seq<T>>)
    ensures Before([], rest) == rest
  {
    if rest.Ok? { assert [] + rest.value == rest.value; }
  }

  lemma BeforeOne<T>(done: seq<T>, a: T, rest: P.Parsed<seq<T>>)
    ensures Before(done + [a], rest) == Before(done, Before([a], rest))
  {
    if rest.Ok? { assert done + [a] + rest.value == done + ([a] + rest.value); }
  }

  function Before<T>(done: seq<T>, rest: P.Parsed<seq<T>>): P.Parsed<seq<T>> {
    match rest
    case Ok(more, next) => P.Ok(done + more, next)
    case Fail(e) => P.Fail(e)
  }
}
