/// How operators bind: of a chain of operands and operators, the last of the loosest
/// operators is the root of the tree.

module FormulaBinding {
  import opened FormulaSyntax
  import opened FormulaParser
  import opened FormulaPrinter

  // ---- the order of the operators ----

  /// The binary operators from the loosest to the tightest.
  const CLASSES: seq<set<Op>> := [
    {Or}, {And}, {Eq, Ne}, {Lt, Le, Gt, Ge}, {Amp}, {Plus, Minus}, {Star, Slash, Percent}
  ]

  predicate IsOperator(op: Op) { exists i :: 0 <= i < |CLASSES| && op in CLASSES[i] }

  /// The first stands in a later class than the second.
  predicate Tighter(op: Op, than: Op) {
    exists i, j :: 0 <= i < j < |CLASSES| && than in CLASSES[i] && op in CLASSES[j]
  }

  lemma {:induction false} ClassIsPrecedence(op: Op, i: nat)
    requires i < |CLASSES|
    ensures op in CLASSES[i] <==> Precedence(op) == i + 1
  {
  }

  lemma {:induction false} OperatorsHaveClasses(op: Op)
    ensures IsOperator(op) <==> Precedence(op) > 0
    ensures Precedence(op) <= |CLASSES|
  {
    if i :| 0 <= i < |CLASSES| && op in CLASSES[i] { ClassIsPrecedence(op, i); }
    if Precedence(op) > 0 { ClassIsPrecedence(op, Precedence(op) - 1); }
  }

  lemma {:induction false} TighterIsHigher(op: Op, than: Op)
    requires IsOperator(op) && IsOperator(than)
    ensures Tighter(op, than) <==> Precedence(op) > Precedence(than)
  {
    if Tighter(op, than) { HigherWhenTighter(op, than); }
    if Precedence(op) > Precedence(than) { TighterWhenHigher(op, than, Precedence(op) - 1, Precedence(than) - 1); }
  }

  lemma {:induction false} HigherWhenTighter(op: Op, than: Op)
    requires Tighter(op, than)
    ensures Precedence(op) > Precedence(than)
  {
    var i, j :| 0 <= i < j < |CLASSES| && than in CLASSES[i] && op in CLASSES[j];
    ClassIsPrecedence(than, i);
    ClassIsPrecedence(op, j);
  }

  lemma {:induction false} TighterWhenHigher(op: Op, than: Op, j: int, i: int)
    requires IsOperator(op) && IsOperator(than) && j > i
    requires Precedence(op) == j + 1 && Precedence(than) == i + 1
    ensures Tighter(op, than)
  {
    OperatorsHaveClasses(op);
    OperatorsHaveClasses(than);
    ClassIsPrecedence(than, i);
    ClassIsPrecedence(op, j);
  }

  // ---- three operands ----

  /// A token that is an operand on its own, and its tree.
  predicate IsOperand(t: Token) { t.NumTok? || t.StrTok? || t.IdTok? }

  function Operand(t: Token): Node
    requires IsOperand(t)
  {
    match t
    case NumTok(v) => Num(v)
    case StrTok(v) => Str(v)
    case IdTok(v) => if IsLiteralWord(Meaning(v)) then Const(Meaning(v)) else Field(v)
  }

  lemma {:induction false} ReadOperand(ts: seq<Token>, i: nat, d: nat)
    requires i < |ts| && IsOperand(ts[i]) && !Reads(Peek(ts, i + 1), LParen)
    ensures Unary_(ts, i, d) == Ok(Operand(ts[i]), i + 1)
  {
  }

  lemma {:induction false} LoopStops(ts: seq<Token>, i: nat, left: Node, m: nat, d: nat)
    requires i <= |ts| && (Peek(ts, i) == Eof || (Peek(ts, i).OpTok? && Precedence(Peek(ts, i).op) < m))
    ensures Loop(ts, i, left, m, d) == Ok(left, i)
  {
  }

  lemma {:induction false} LoopGoes(ts: seq<Token>, i: nat, left: Node, m: nat, d: nat, right: Node, next: nat)
    requires i <= |ts| && Peek(ts, i).OpTok?
    requires 0 < Precedence(Peek(ts, i).op) && m <= Precedence(Peek(ts, i).op)
    requires Expr(ts, i + 1, Precedence(Peek(ts, i).op) + 1, d + 1) == Ok(right, next)
    ensures next <= |ts| && Loop(ts, i, left, m, d) == Loop(ts, next, Binary(Peek(ts, i).op, left, right), m, d)
  {
  }

  lemma {:induction false} ExprStarts(ts: seq<Token>, i: nat, m: nat, d: nat)
    requires d <= MAX_DEPTH && i < |ts| && IsOperand(ts[i]) && !Reads(Peek(ts, i + 1), LParen)
    ensures Expr(ts, i, m, d) == Loop(ts, i + 1, Operand(ts[i]), m, d)
  {
    ReadOperand(ts, i, d);
  }

  /// `a op1 b op2 c` is `a op1 (b op2 c)` when `op2` stands in a later class, `(a op1 b) op2 c`
  /// otherwise.
  lemma {:induction false} ThreeOperands(a: Token, op1: Op, b: Token, op2: Op, c: Token)
    requires IsOperand(a) && IsOperand(b) && IsOperand(c) && IsOperator(op1) && IsOperator(op2)
    ensures ParseAll([a, OpTok(op1), b, OpTok(op2), c, Eof]) == Ok(
              if Tighter(op2, op1) then Binary(op1, Operand(a), Binary(op2, Operand(b), Operand(c)))
              else Binary(op2, Binary(op1, Operand(a), Operand(b)), Operand(c)), 5)
  {
    var ts := [a, OpTok(op1), b, OpTok(op2), c, Eof];
    OperatorsHaveClasses(op1);
    OperatorsHaveClasses(op2);
    TighterIsHigher(op2, op1);
    if Tighter(op2, op1) { RightFirst(ts, op1, op2); } else { LeftFirst(ts, op1, op2); }
  }

  predicate FiveTokens(ts: seq<Token>, op1: Op, op2: Op) {
    && |ts| == 6 && IsOperand(ts[0]) && IsOperand(ts[2]) && IsOperand(ts[4])
    && ts[1] == OpTok(op1) && ts[3] == OpTok(op2) && ts[5] == Eof
    && 0 < Precedence(op1) && 0 < Precedence(op2)
  }

  lemma {:induction false} RightFirst(ts: seq<Token>, op1: Op, op2: Op)
    requires FiveTokens(ts, op1, op2) && Precedence(op2) > Precedence(op1)
    ensures ParseAll(ts) == Ok(Binary(op1, Operand(ts[0]), Binary(op2, Operand(ts[2]), Operand(ts[4]))), 5)
  {
    var p1, p2, a, b, c := Precedence(op1), Precedence(op2), Operand(ts[0]), Operand(ts[2]), Operand(ts[4]);
    ExprStarts(ts, 0, 0, 0);
    ExprStarts(ts, 2, p1 + 1, 1);
    ExprStarts(ts, 4, p2 + 1, 2);
    LoopStops(ts, 5, c, p2 + 1, 2);
    LoopGoes(ts, 3, b, p1 + 1, 1, c, 5);
    LoopStops(ts, 5, Binary(op2, b, c), p1 + 1, 1);
    LoopGoes(ts, 1, a, 0, 0, Binary(op2, b, c), 5);
    LoopStops(ts, 5, Binary(op1, a, Binary(op2, b, c)), 0, 0);
  }

  lemma {:induction false} LeftFirst(ts: seq<Token>, op1: Op, op2: Op)
    requires FiveTokens(ts, op1, op2) && Precedence(op2) <= Precedence(op1)
    ensures ParseAll(ts) == Ok(Binary(op2, Binary(op1, Operand(ts[0]), Operand(ts[2])), Operand(ts[4])), 5)
  {
    var p1, p2, a, b, c := Precedence(op1), Precedence(op2), Operand(ts[0]), Operand(ts[2]), Operand(ts[4]);
    ExprStarts(ts, 0, 0, 0);
    ExprStarts(ts, 2, p1 + 1, 1);
    LoopStops(ts, 3, b, p1 + 1, 1);
    LoopGoes(ts, 1, a, 0, 0, b, 3);
    ExprStarts(ts, 4, p2 + 1, 1);
    LoopStops(ts, 5, c, p2 + 1, 1);
    LoopGoes(ts, 3, Binary(op1, a, b), 0, 0, c, 5);
    LoopStops(ts, 5, Binary(op2, Binary(op1, a, b), c), 0, 0);
  }

  /// A sign belongs to the operand after it, however tightly the next operator binds.
  lemma {:induction false} SignBindsTightest(sign: Op, a: Token, op: Op, b: Token)
    requires IsOperand(a) && IsOperand(b) && (sign == Minus || sign == Bang) && IsOperator(op)
    ensures ParseAll([OpTok(sign), a, OpTok(op), b, Eof]) == Ok(Binary(op, Unary(sign, Operand(a)), Operand(b)), 4)
  {
    var ts, left := [OpTok(sign), a, OpTok(op), b, Eof], Unary(sign, Operand(a));
    OperatorsHaveClasses(op);
    ReadOperand(ts, 1, 1);
    assert Unary_(ts, 0, 0) == Ok(left, 2);
    ExprStarts(ts, 3, Precedence(op) + 1, 1);
    LoopStops(ts, 4, Operand(b), Precedence(op) + 1, 1);
    LoopGoes(ts, 2, left, 0, 0, Operand(b), 4);
    LoopStops(ts, 4, Binary(op, left, Operand(b)), 0, 0);
  }

  // ---- chains ----

  /// Operands may be any trees but binary ones, which would need parentheses.
  predicate GoodChain(xs: seq<Node>, ops: seq<Op>) {
    && |xs| == |ops| + 1
    && (forall x <- xs :: WellFormed(x) && !x.Binary?)
    && (forall op <- ops :: IsOperator(op))
  }

  function Chain(xs: seq<Node>, ops: seq<Op>): seq<Token>
    requires |xs| == |ops| + 1
  {
    if ops == [] then Bare(xs[0]) else Bare(xs[0]) + [OpTok(ops[0])] + Chain(xs[1..], ops[1..])
  }

  /// No operator binds less tightly than the one at `k`, and those after it bind more tightly.
  predicate IsLastLoosest(ops: seq<Op>, k: nat) {
    && k < |ops|
    && (forall j :: 0 <= j < k ==> !Tighter(ops[k], ops[j]))
    && (forall j :: k < j < |ops| ==> Tighter(ops[j], ops[k]))
  }

  function LastLoosest(ops: seq<Op>): (k: nat)
    requires ops != [] && forall op <- ops :: IsOperator(op)
    ensures IsLastLoosest(ops, k)
  {
    var k := Loosest(ops);
    assert IsLastLoosest(ops, k) by {
      forall j | 0 <= j < |ops| ensures Tighter(ops[j], ops[k]) <==> Precedence(ops[j]) > Precedence(ops[k]) {
        TighterIsHigher(ops[j], ops[k]);
      }
      forall j | 0 <= j < |ops| ensures Tighter(ops[k], ops[j]) <==> Precedence(ops[k]) > Precedence(ops[j]) {
        TighterIsHigher(ops[k], ops[j]);
      }
    }
    k
  }

  function Loosest(ops: seq<Op>): (k: nat)
    requires ops != []
    ensures k < |ops|
    ensures forall j :: 0 <= j < k ==> Precedence(ops[j]) >= Precedence(ops[k])
    ensures forall j :: k < j < |ops| ==> Precedence(ops[j]) > Precedence(ops[k])
  {
    var last := |ops| - 1;
    if last == 0 then 0
    else
      var k := Loosest(ops[..last]);
      if Precedence(ops[last]) <= Precedence(ops[k]) then last else k
  }

  /// The chain split at the last of its loosest operators, and the parts likewise.
  function Grouped(xs: seq<Node>, ops: seq<Op>): (n: Node)
    requires GoodChain(xs, ops)
    ensures ops == [] ==> n == xs[0]
    decreases |ops|
  {
    if ops == [] then xs[0]
    else
      var k := LastLoosest(ops);
      Binary(ops[k], Grouped(xs[..k + 1], ops[..k]), Grouped(xs[k + 1..], ops[k + 1..]))
  }

  lemma {:induction false} ChainSplits(xs: seq<Node>, ops: seq<Op>, k: nat)
    requires |xs| == |ops| + 1 && k < |ops|
    ensures Chain(xs, ops) == Chain(xs[..k + 1], ops[..k]) + [OpTok(ops[k])] + Chain(xs[k + 1..], ops[k + 1..])
    decreases k
  {
    var here := Bare(xs[0]) + [OpTok(ops[0])];
    if k > 0 {
      ChainSplits(xs[1..], ops[1..], k - 1);
      assert xs[1..][..k] == xs[..k + 1][1..] && ops[1..][..k - 1] == ops[..k][1..];
      assert xs[1..][k..] == xs[k + 1..] && ops[1..][k..] == ops[k + 1..];
    }
  }

  predicate AtLeast(ops: seq<Op>, q: nat) { forall op <- ops :: Precedence(op) >= q }

  lemma {:induction false} GroupedLevel(xs: seq<Node>, ops: seq<Op>, q: nat)
    requires GoodChain(xs, ops) && q <= TIGHTEST
    requires AtLeast(ops, q)
    ensures Level(Grouped(xs, ops)) >= q
  {
    if ops == [] { assert xs[0] in xs; }
  }

  lemma {:induction false} PartsAreGood(xs: seq<Node>, ops: seq<Op>, k: nat)
    requires GoodChain(xs, ops) && k < |ops|
    ensures GoodChain(xs[..k + 1], ops[..k]) && GoodChain(xs[k + 1..], ops[k + 1..])
  {
  }

  /// The grouped tree is printed without parentheses.
  lemma {:induction false} GroupedPrints(xs: seq<Node>, ops: seq<Op>)
    requires GoodChain(xs, ops)
    ensures Bare(Grouped(xs, ops)) == Chain(xs, ops) && WellFormed(Grouped(xs, ops))
    decreases |ops|, 1
  {
    if ops == [] {
      assert xs[0] in xs;
    } else {
      var k := LastLoosest(ops);
      PartsAreGood(xs, ops, k);
      ChainSplits(xs, ops, k);
      assert ops[k] in ops;
      SidesHold(ops, k);
      SplitPrints(ops[k], xs[..k + 1], ops[..k], xs[k + 1..], ops[k + 1..]);
    }
  }

  lemma {:induction false} SplitPrints(op: Op, xs: seq<Node>, ops: seq<Op>, ys: seq<Node>, more: seq<Op>)
    requires GoodChain(xs, ops) && GoodChain(ys, more) && IsOperator(op)
    requires AtLeast(ops, Precedence(op)) && AtLeast(more, Precedence(op) + 1)
    ensures Bare(Binary(op, Grouped(xs, ops), Grouped(ys, more)))
         == Chain(xs, ops) + [OpTok(op)] + Chain(ys, more)
    ensures WellFormed(Binary(op, Grouped(xs, ops), Grouped(ys, more)))
    decreases |ops| + |more| + 1, 0
  {
    OperatorsHaveClasses(op);
    GroupedPrints(xs, ops);
    GroupedPrints(ys, more);
    GroupedLevel(xs, ops, Precedence(op));
    GroupedLevel(ys, more, Precedence(op) + 1);
    NoParentheses(op, Grouped(xs, ops), Grouped(ys, more));
  }

  lemma {:induction false} NoParentheses(op: Op, l: Node, r: Node)
    requires Level(l) >= Precedence(op) && Level(r) >= Precedence(op) + 1
    ensures Bare(Binary(op, l, r)) == Bare(l) + [OpTok(op)] + Bare(r)
    ensures Nesting(Binary(op, l, r)) == Max(Nesting(l), 1 + Nesting(r))
  {
  }

  lemma {:induction false} SidesHold(ops: seq<Op>, k: nat)
    requires IsLastLoosest(ops, k) && forall op <- ops :: IsOperator(op)
    ensures AtLeast(ops[..k], Precedence(ops[k])) && AtLeast(ops[k + 1..], Precedence(ops[k]) + 1)
  {
    forall j | 0 <= j < k ensures Precedence(ops[j]) >= Precedence(ops[k]) { TighterIsHigher(ops[k], ops[j]); }
    forall j | k < j < |ops| ensures Precedence(ops[j]) > Precedence(ops[k]) { TighterIsHigher(ops[j], ops[k]); }
  }

  /// A chain is read as grouped, unless its operands nest too deeply.
  lemma {:induction false} ChainIsGrouped(xs: seq<Node>, ops: seq<Op>)
    requires GoodChain(xs, ops)
    ensures ParseAll(Chain(xs, ops) + [Eof])
         == if Nesting(Grouped(xs, ops)) <= MAX_DEPTH then Ok(Grouped(xs, ops), |Chain(xs, ops)|) else Fail(TooDeep)
  {
    GroupedPrints(xs, ops);
    ParsePrint(Grouped(xs, ops));
  }

  predicate Flat(xs: seq<Node>) { forall x <- xs :: Nesting(x) == 0 }

  /// The part after a loosest operator binds tighter, so single tokens never nest too deeply.
  lemma {:induction false} ChainNesting(xs: seq<Node>, ops: seq<Op>, q: nat)
    requires GoodChain(xs, ops) && q <= TIGHTEST && AtLeast(ops, q) && Flat(xs)
    ensures Nesting(Grouped(xs, ops)) <= TIGHTEST - q
    decreases |ops|, 1
  {
    if ops == [] {
      assert xs[0] in xs;
    } else {
      var k := LastLoosest(ops);
      PartsAreGood(xs, ops, k);
      assert ops[k] in ops;
      SidesHold(ops, k);
      SplitNesting(ops[k], xs[..k + 1], ops[..k], xs[k + 1..], ops[k + 1..], q);
    }
  }

  lemma {:induction false} SplitNesting(op: Op, xs: seq<Node>, ops: seq<Op>, ys: seq<Node>, more: seq<Op>, q: nat)
    requires GoodChain(xs, ops) && GoodChain(ys, more) && Flat(xs) && Flat(ys) && IsOperator(op)
    requires AtLeast(ops, Precedence(op)) && AtLeast(more, Precedence(op) + 1) && q <= Precedence(op)
    ensures Nesting(Binary(op, Grouped(xs, ops), Grouped(ys, more))) <= TIGHTEST - q
    decreases |ops| + |more| + 1, 0
  {
    OperatorsHaveClasses(op);
    GroupedLevel(xs, ops, Precedence(op));
    GroupedLevel(ys, more, Precedence(op) + 1);
    ChainNesting(xs, ops, Precedence(op));
    ChainNesting(ys, more, Precedence(op) + 1);
    NoParentheses(op, Grouped(xs, ops), Grouped(ys, more));
  }

  /// Chains of operands that do not nest, of any length, are read as grouped.
  lemma {:induction false} LongChains(xs: seq<Node>, ops: seq<Op>)
    requires GoodChain(xs, ops) && Flat(xs)
    ensures ParseAll(Chain(xs, ops) + [Eof]) == Ok(Grouped(xs, ops), |Chain(xs, ops)|)
  {
    forall op | op in ops ensures Precedence(op) >= 0 { OperatorsHaveClasses(op); }
    ChainNesting(xs, ops, 0);
    ChainIsGrouped(xs, ops);
  }
}
