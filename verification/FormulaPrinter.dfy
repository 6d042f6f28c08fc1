/// A printer that puts parentheses only around operands that bind less tightly than their
/// place asks for, or that would be taken for an empty argument list; and the proof that the
/// parser reads its output back as the same tree whenever the nesting limit allows, and
/// rejects it as too deep otherwise.

module FormulaPrinter {
  import opened Basics
  import opened FormulaSyntax
  import opened FormulaParser

  /// Unary operators and operands bind tighter than every binary operator.
  const TIGHTEST: nat := 8

  function Level(n: Node): nat {
    if n.Binary? then Precedence(n.op) else TIGHTEST
  }

  /// How tightly the printed operand holds together.
  function Strength(n: Node, q: nat): nat {
    if Level(n) < q then TIGHTEST else Level(n)
  }

  function Parens(inner: seq<Token>): seq<Token> {
    [OpTok(LParen)] + inner + [OpTok(RParen)]
  }

  function Print(n: Node, minPrec: nat): (p: seq<Token>)
    ensures p != []
    decreases n, 1
  {
    if Level(n) < minPrec then Parens(Bare(n)) else Bare(n)
  }

  function Bare(n: Node): (p: seq<Token>)
    ensures p != []
    decreases n, 0
  {
    match n
    case Num(v) => [NumTok(v)]
    case Str(v) => [StrTok(v)]
    case Const(w) => [IdTok(WordText(w))]
    case Field(name) => [IdTok(name)]
    case Unary(op, arg) => [OpTok(op)] + Print(arg, TIGHTEST)
    case Binary(op, l, r) =>
      Print(l, Precedence(op)) + [OpTok(op)] + Print(r, Precedence(op) + 1)
    case Call(fn, args) =>
      [IdTok(FnText(fn)), OpTok(LParen)]
      + (if args == [] then [] else PrintArgs(args, true)) + [OpTok(RParen)]
  }

  /// The parser would take a first argument that starts with the text ")" for an empty
  /// argument list, so such an argument keeps its parentheses.
  predicate NeedsGuard(a: Node)
    decreases a, 2
  {
    Print(a, 0)[0] == StrTok(")")
  }

  function PrintArg(a: Node, first: bool): (p: seq<Token>)
    ensures p != []
    decreases a, 3
  {
    if first && NeedsGuard(a) then Parens(Bare(a)) else Print(a, 0)
  }

  function PrintArgs(args: seq<Node>, first: bool): (p: seq<Token>)
    requires args != []
    ensures p != []
    decreases args
  {
    if |args| == 1 then PrintArg(args[0], first)
    else PrintArg(args[0], first) + [OpTok(Comma)] + PrintArgs(args[1..], false)
  }

  // ---- how deep the parser nests on the printed form ----

  function Max(a: nat, b: nat): nat { if a < b then b else a }

  /// The deepest level, counted from the node's own, at which the parser re-enters `expr`
  /// while reading `Bare(n)`; 0 when it does not re-enter at all.
  function Nesting(n: Node): nat
    decreases n, 0
  {
    match n
    case Num(_) => 0
    case Str(_) => 0
    case Const(_) => 0
    case Field(_) => 0
    case Unary(_, arg) =>
      var k := PrintNesting(arg, TIGHTEST);
      if k == 0 then 0 else k + 1
    case Binary(op, l, r) =>
      Max(PrintNesting(l, Precedence(op)), 1 + PrintNesting(r, Precedence(op) + 1))
    case Call(_, args) => if args == [] then 0 else ArgsNesting(args, true)
  }

  function PrintNesting(n: Node, minPrec: nat): nat
    decreases n, 1
  {
    if Level(n) < minPrec then 1 + Nesting(n) else Nesting(n)
  }

  function ArgNesting(a: Node, first: bool): nat
    decreases a, 2
  {
    if first && NeedsGuard(a) then 2 + Nesting(a) else 1 + Nesting(a)
  }

  function ArgsNesting(args: seq<Node>, first: bool): (k: nat)
    requires args != []
    ensures k > 0
    decreases args
  {
    if |args| == 1 then ArgNesting(args[0], first)
    else Max(ArgNesting(args[0], first), ArgsNesting(args[1..], false))
  }

  /// Starting at depth `d`, a form that nests `k` levels stays within the limit.
  predicate Fits(d: nat, k: nat) {
    k == 0 || d + k <= MAX_DEPTH
  }

  // ---- reading printed tokens ----

  ghost predicate At(ts: seq<Token>, i: nat, p: seq<Token>) {
    i + |p| <= |ts| && forall k :: 0 <= k < |p| ==> ts[i + k] == p[k]
  }

  lemma AtSplit(ts: seq<Token>, i: nat, a: seq<Token>, b: seq<Token>)
    requires At(ts, i, a + b)
    ensures At(ts, i, a) && At(ts, i + |a|, b)
    ensures (a != [] ==> ts[i] == a[0]) && (b != [] ==> ts[i + |a|] == b[0])
  {
    forall k | 0 <= k < |a| ensures ts[i + k] == a[k] { assert (a + b)[k] == a[k]; }
    forall k | 0 <= k < |b| ensures ts[i + |a| + k] == b[k] {
      assert (a + b)[|a| + k] == b[k];
      assert i + |a| + k == i + (|a| + k);
    }
  }

  /// What may follow an operand of binding strength `level` without being drawn into it.
  predicate Stops(t: Token, level: nat) {
    t == Eof || (t.OpTok? && t.op != LParen && Precedence(t.op) <= level)
  }

  /// Reading an operand that is a single unary-level form.
  ghost predicate ReadsUnary(ts: seq<Token>, i: nat, j: nat, d: nat, n: Node, k: nat) {
    Unary_(ts, i, d) == if Fits(d, k) then Ok(n, j) else Fail(TooDeep)
  }

  /// Reading an operand and then handing over to the loop with it on the left.
  ghost predicate ReadsExpr(ts: seq<Token>, i: nat, j: nat, m: nat, d: nat, n: Node, k: nat) {
    j <= |ts| && Expr(ts, i, m, d) == if Fits(d, k) then Loop(ts, j, n, m, d) else Fail(TooDeep)
  }

  /// Reading one argument, and reading the rest of an argument list.
  ghost predicate ReadsArg(ts: seq<Token>, i: nat, j: nat, d: nat, a: Node, k: nat) {
    Expr(ts, i, 0, d + 1) == if Fits(d, k) then Ok(a, j) else Fail(TooDeep)
  }

  ghost predicate ReadsArgs(ts: seq<Token>, i: nat, j: nat, d: nat, args: seq<Node>, k: nat) {
    ArgList(ts, i, d) == if Fits(d, k) then Ok(args, j) else Fail(TooDeep)
  }

  lemma {:induction false} FnTextMeaning(fn: Fn)
    ensures Meaning(FnText(fn)) == FnWord(fn)
  {
    FnTextUpper(fn);
    NoLiteral(fn);
    assert ALL_FUNCTIONS[IndexOfFn(fn)] == fn;
    LookupFnText(fn, ALL_FUNCTIONS);
  }

  lemma FnTextUpper(fn: Fn)
    ensures Upper(FnText(fn)) == FnText(fn)
  {
  }

  lemma NoLiteral(fn: Fn)
    ensures FnText(fn) != "TRUE" && FnText(fn) != "FALSE" && FnText(fn) != "NULL"
  {
  }

  function IndexOfFn(fn: Fn): (i: nat)
    ensures i < |ALL_FUNCTIONS| && ALL_FUNCTIONS[i] == fn
  {
    match fn
    case IF => 0 case AND => 1 case OR => 2 case NOT => 3 case COALESCE => 4 case ROUND => 5
    case FLOOR => 6 case CEIL => 7 case ABS => 8 case MIN => 9 case MAX => 10 case SUM => 11
    case AVG => 12 case COUNT => 13 case CONCAT => 14 case UPPER => 15 case LOWER => 16
    case TRIM => 17 case LEN => 18 case LEFT => 19 case RIGHT => 20 case TODAY => 21
    case YEAR => 22 case MONTH => 23 case DAY => 24 case DAYS_BETWEEN => 25 case ADD_DAYS => 26
    case IS_EMPTY => 27 case CONTAINS => 28 case CHANGED => 29 case HAS_ROLE => 30
    case IN_UNIT => 31 case STATUS => 32
  }

  /// A number that tells the names apart.
  function Signature(s: string): int {
    if |s| < 2 then 0 else s[0] as int + 3 * s[1] as int + 11 * s[|s| - 1] as int + |s|
  }

  function FnSignature(fn: Fn): int {
    match fn
    case IF => 1055 case AND => 1050 case OR => 1229 case NOT => 1242 case COALESCE => 1071 case ROUND => 1072
    case FLOOR => 1205 case CEIL => 1114 case ABS => 1179 case MIN => 1157 case MAX => 1243 case SUM => 1188
    case AVG => 1107 case COUNT => 1233 case CONCAT => 1234 case UPPER => 1232 case LOWER => 1220
    case TRIM => 1181 case LEN => 1144 case LEFT => 1211 case RIGHT => 1230 case TODAY => 1305 case YEAR => 1202
    case MONTH => 1111 case DAY => 1245 case DAYS_BETWEEN => 1133 case ADD_DAYS => 1190 case IS_EMPTY => 1309
    case CONTAINS => 1225 case CHANGED => 1038 case HAS_ROLE => 1034 case IN_UNIT => 1238 case STATUS => 1254
  }

  lemma SignatureOf(fn: Fn)
    ensures Signature(FnText(fn)) == FnSignature(fn)
  {
  }

  lemma SignaturesDiffer(a: Fn, b: Fn)
    requires FnSignature(a) == FnSignature(b)
    ensures a == b
  {
  }

  lemma FnTextInjective(a: Fn, b: Fn)
    requires FnText(a) == FnText(b)
    ensures a == b
  {
    SignatureOf(a);
    SignatureOf(b);
    SignaturesDiffer(a, b);
  }

  lemma {:induction false} LookupFnText(fn: Fn, fns: seq<Fn>)
    requires fn in fns
    ensures LookupFn(FnText(fn), fns) == FnWord(fn)
  {
    LookupStep(FnText(fn), fns);
    if fns[0] != fn {
      if FnText(fns[0]) == FnText(fn) { FnTextInjective(fns[0], fn); }
      LookupFnText(fn, fns[1..]);
    }
  }

  lemma LookupStep(s: string, fns: seq<Fn>)
    requires fns != []
    ensures LookupFn(s, fns) == if FnText(fns[0]) == s then FnWord(fns[0]) else LookupFn(s, fns[1..])
  {
  }

  /// The heart of the round trip: a printed operand is read back whole, and the loop goes
  /// on with it as the left side.
  lemma {:induction false} PrintedExpr(n: Node, q: nat, p: seq<Token>, k: nat, ts: seq<Token>, i: nat, m: nat, d: nat)
    requires WellFormed(n) && d <= MAX_DEPTH && p == Print(n, q) && k == PrintNesting(n, q)
    requires At(ts, i, p) && m <= Strength(n, q) && Stops(Peek(ts, i + |p|), Strength(n, q))
    ensures ReadsExpr(ts, i, i + |p|, m, d, n, k)
    decreases n, 4
  {
    if Level(n) < q {
      PrintedParens(n, Bare(n), Nesting(n), ts, i, d);
      UnaryFirst(ts, i, i + |p|, m, d, n, k);
    } else {
      PrintedBare(n, p, k, ts, i, m, d);
    }
  }

  /// An operand that is a single unary-level form comes first in `expr`.
  lemma UnaryFirst(ts: seq<Token>, i: nat, j: nat, m: nat, d: nat, n: Node, k: nat)
    requires d <= MAX_DEPTH && j <= |ts| && ReadsUnary(ts, i, j, d, n, k)
    ensures ReadsExpr(ts, i, j, m, d, n, k)
  {
  }

  lemma {:induction false} PrintedParens(n: Node, p: seq<Token>, k: nat, ts: seq<Token>, i: nat, d: nat)
    requires WellFormed(n) && p == Bare(n) && k == Nesting(n)
    requires At(ts, i, Parens(p))
    ensures ReadsUnary(ts, i, i + |Parens(p)|, d, n, 1 + k)
    decreases n, 3
  {
    ParensTokens(ts, i, p);
    if d + 1 <= MAX_DEPTH { PrintedBare(n, p, k, ts, i + 1, 0, d + 1); }
    ParensStep(ts, i, i + 1 + |p|, d, n, k);
  }

  lemma ParensTokens(ts: seq<Token>, i: nat, inner: seq<Token>)
    requires At(ts, i, Parens(inner))
    ensures |Parens(inner)| == |inner| + 2
    ensures Peek(ts, i) == OpTok(LParen) && At(ts, i + 1, inner) && Peek(ts, i + 1 + |inner|) == OpTok(RParen)
  {
    AtSplit(ts, i, [OpTok(LParen)] + inner, [OpTok(RParen)]);
    AtSplit(ts, i, [OpTok(LParen)], inner);
  }

  /// A parenthesised form, given how its inside is read.
  lemma ParensStep(ts: seq<Token>, i: nat, close: nat, d: nat, n: Node, k: nat)
    requires Peek(ts, i) == OpTok(LParen) && Peek(ts, close) == OpTok(RParen)
    requires d + 1 <= MAX_DEPTH ==> ReadsExpr(ts, i + 1, close, 0, d + 1, n, k)
    ensures ReadsUnary(ts, i, close + 1, d, n, 1 + k)
  {
    assert Unary_(ts, i, d) == Primary(ts, i, d);
    assert Expr(ts, i + 1, 0, d + 1) == if Fits(d, 1 + k) then Ok(n, close) else Fail(TooDeep);
  }

  lemma {:induction false} PrintedBare(n: Node, p: seq<Token>, k: nat, ts: seq<Token>, i: nat, m: nat, d: nat)
    requires WellFormed(n) && d <= MAX_DEPTH && m <= Level(n) && p == Bare(n) && k == Nesting(n)
    requires At(ts, i, p) && Stops(Peek(ts, i + |p|), Level(n))
    ensures ReadsExpr(ts, i, i + |p|, m, d, n, k)
    decreases n, 2
  {
    if n.Binary? {
      PrintedBinary(n, p, k, ts, i, m, d);
    } else {
      PrintedUnary(n, p, k, ts, i, d);
      UnaryFirst(ts, i, i + |p|, m, d, n, k);
    }
  }

  lemma {:induction false} PrintedBinary(n: Node, p: seq<Token>, k: nat, ts: seq<Token>, i: nat, m: nat, d: nat)
    requires WellFormed(n) && n.Binary? && d <= MAX_DEPTH && m <= Level(n) && p == Bare(n) && k == Nesting(n)
    requires At(ts, i, p) && Stops(Peek(ts, i + |p|), Level(n))
    ensures ReadsExpr(ts, i, i + |p|, m, d, n, k)
    decreases n, 1
  {
    var prec := Precedence(n.op);
    BinaryParts(n, prec, Print(n.left, prec), Print(n.right, prec + 1), PrintNesting(n.left, prec), PrintNesting(n.right, prec + 1));
    PrintedOperands(n, prec, Print(n.left, prec), Print(n.right, prec + 1),
                    PrintNesting(n.left, prec), PrintNesting(n.right, prec + 1), ts, i, m, d);
  }

  lemma BinaryParts(n: Node, prec: nat, left: seq<Token>, right: seq<Token>, nl: nat, nr: nat)
    requires n.Binary? && prec == Precedence(n.op) && left == Print(n.left, prec) && right == Print(n.right, prec + 1)
    requires nl == PrintNesting(n.left, prec) && nr == PrintNesting(n.right, prec + 1)
    ensures Bare(n) == left + [OpTok(n.op)] + right && Nesting(n) == Max(nl, 1 + nr)
  {
  }

  lemma {:induction false} PrintedOperands(n: Node, prec: nat, left: seq<Token>, right: seq<Token>, nl: nat, nr: nat,
                                           ts: seq<Token>, i: nat, m: nat, d: nat)
    requires WellFormed(n) && n.Binary? && d <= MAX_DEPTH && m <= prec && prec == Precedence(n.op)
    requires left == Print(n.left, prec) && right == Print(n.right, prec + 1)
    requires nl == PrintNesting(n.left, prec) && nr == PrintNesting(n.right, prec + 1)
    requires var p := left + [OpTok(n.op)] + right; At(ts, i, p) && Stops(Peek(ts, i + |p|), prec)
    ensures ReadsExpr(ts, i, i + |left + [OpTok(n.op)] + right|, m, d, n, Max(nl, 1 + nr))
    decreases n, 0
  {
    var k := i + |left|;
    var j := k + 1 + |right|;
    Parts3(ts, i, left, OpTok(n.op), right);
    PrintedLeft(n.left, n.op, prec, left, nl, ts, i, m, d);
    PrintedRight(n.right, prec + 1, right, nr, ts, k + 1, d + 1);
    BinaryStep(ts, i, k, j, m, d, n, nl, nr);
  }

  lemma {:induction false} PrintedLeft(n: Node, op: Op, prec: nat, p: seq<Token>, k: nat, ts: seq<Token>, i: nat, m: nat, d: nat)
    requires WellFormed(n) && d <= MAX_DEPTH && p == Print(n, prec) && k == PrintNesting(n, prec)
    requires prec == Precedence(op) && prec > 0 && m <= prec && At(ts, i, p) && Peek(ts, i + |p|) == OpTok(op)
    ensures ReadsExpr(ts, i, i + |p|, m, d, n, k)
    decreases n, 5
  {
    PrintedExpr(n, prec, p, k, ts, i, m, d);
  }

  lemma {:induction false} PrintedRight(n: Node, q: nat, p: seq<Token>, k: nat, ts: seq<Token>, i: nat, d: nat)
    requires WellFormed(n) && 0 < q <= TIGHTEST && p == Print(n, q) && k == PrintNesting(n, q)
    requires At(ts, i, p) && Stops(Peek(ts, i + |p|), q - 1)
    ensures d <= MAX_DEPTH ==> ReadsExpr(ts, i, i + |p|, q, d, n, k)
    decreases n, 5
  {
    if d <= MAX_DEPTH { PrintedExpr(n, q, p, k, ts, i, q, d); }
  }

  /// Two runs of tokens with a separator between them.
  lemma Parts3(ts: seq<Token>, i: nat, left: seq<Token>, t: Token, right: seq<Token>)
    requires At(ts, i, left + [t] + right)
    ensures |left + [t] + right| == |left| + 1 + |right|
    ensures At(ts, i, left) && Peek(ts, i + |left|) == t && At(ts, i + |left| + 1, right)
  {
    AtSplit(ts, i, left + [t], right);
    AtSplit(ts, i, left, [t]);
  }

  /// One turn of the parser's loop, given how both operands are read.
  lemma BinaryStep(ts: seq<Token>, i: nat, k: nat, j: nat, m: nat, d: nat, n: Node, nl: nat, nr: nat)
    requires n.Binary? && k <= j <= |ts| && Peek(ts, k) == OpTok(n.op)
    requires Precedence(n.op) > 0 && m <= Precedence(n.op)
    requires Stops(Peek(ts, j), Precedence(n.op))
    requires ReadsExpr(ts, i, k, m, d, n.left, nl)
    requires d + 1 <= MAX_DEPTH
         ==> ReadsExpr(ts, k + 1, j, Precedence(n.op) + 1, d + 1, n.right, nr)
    ensures ReadsExpr(ts, i, j, m, d, n, Max(nl, 1 + nr))
  {
    if d + 1 > MAX_DEPTH {
      assert Expr(ts, k + 1, Precedence(n.op) + 1, d + 1) == Fail(TooDeep);
    }
  }

  lemma {:induction false} PrintedUnary(n: Node, p: seq<Token>, k: nat, ts: seq<Token>, i: nat, d: nat)
    requires WellFormed(n) && !n.Binary? && p == Bare(n) && k == Nesting(n)
    requires At(ts, i, p) && Stops(Peek(ts, i + |p|), TIGHTEST)
    ensures ReadsUnary(ts, i, i + |p|, d, n, k)
    decreases n, 1
  {
    if n.Unary? {
      SignParts(n, Print(n.arg, TIGHTEST), PrintNesting(n.arg, TIGHTEST));
      PrintedSign(n, Print(n.arg, TIGHTEST), PrintNesting(n.arg, TIGHTEST), ts, i, d);
    } else if n.Call? {
      PrintedCall(n, p, k, ts, i, d);
    } else {
      PrintedLeaf(n, ts, i, d);
    }
  }

  lemma SignParts(n: Node, arg: seq<Token>, k: nat)
    requires n.Unary? && arg == Print(n.arg, TIGHTEST) && k == PrintNesting(n.arg, TIGHTEST)
    ensures Bare(n) == [OpTok(n.op)] + arg && Nesting(n) == if k == 0 then 0 else k + 1
  {
  }

  lemma {:induction false} PrintedSign(n: Node, arg: seq<Token>, k: nat, ts: seq<Token>, i: nat, d: nat)
    requires WellFormed(n) && n.Unary? && arg == Print(n.arg, TIGHTEST) && k == PrintNesting(n.arg, TIGHTEST)
    requires At(ts, i, [OpTok(n.op)] + arg) && Stops(Peek(ts, i + 1 + |arg|), TIGHTEST)
    ensures ReadsUnary(ts, i, i + |[OpTok(n.op)] + arg|, d, n, if k == 0 then 0 else k + 1)
    decreases n.arg, 5
  {
    AtSplit(ts, i, [OpTok(n.op)], arg);
    PrintedOperand(n.arg, arg, k, ts, i + 1, d + 1);
    UnaryStep(ts, i, i + 1 + |arg|, d, n, k);
  }

  lemma {:induction false} PrintedOperand(n: Node, p: seq<Token>, k: nat, ts: seq<Token>, i: nat, d: nat)
    requires WellFormed(n) && p == Print(n, TIGHTEST) && k == PrintNesting(n, TIGHTEST)
    requires At(ts, i, p) && Stops(Peek(ts, i + |p|), TIGHTEST)
    ensures ReadsUnary(ts, i, i + |p|, d, n, k)
    decreases n, 4
  {
    if Level(n) < TIGHTEST {
      PrintedParens(n, Bare(n), Nesting(n), ts, i, d);
    } else {
      PrintedUnary(n, p, k, ts, i, d);
    }
  }

  lemma UnaryStep(ts: seq<Token>, i: nat, j: nat, d: nat, n: Node, k: nat)
    requires n.Unary? && (n.op == Minus || n.op == Bang) && Peek(ts, i) == OpTok(n.op)
    requires ReadsUnary(ts, i + 1, j, d + 1, n.arg, k)
    ensures ReadsUnary(ts, i, j, d, n, if k == 0 then 0 else k + 1)
  {
  }

  lemma PrintedLeaf(n: Node, ts: seq<Token>, i: nat, d: nat)
    requires WellFormed(n) && !n.Binary? && !n.Unary? && !n.Call?
    requires At(ts, i, Bare(n)) && Stops(Peek(ts, i + |Bare(n)|), TIGHTEST)
    ensures ReadsUnary(ts, i, i + |Bare(n)|, d, n, Nesting(n))
  {
    AtSplit(ts, i, [], Bare(n));
    assert |Bare(n)| == 1;
    if n.Const? { WordMeans(n.w); }
  }

  lemma WordMeans(w: Word)
    requires IsLiteralWord(w)
    ensures Meaning(WordText(w)) == w
  {
    assert Upper("TRUE") == "TRUE" && Upper("FALSE") == "FALSE" && Upper("NULL") == "NULL";
  }

  lemma {:induction false} PrintedCall(n: Node, p: seq<Token>, k: nat, ts: seq<Token>, i: nat, d: nat)
    requires WellFormed(n) && n.Call? && p == Bare(n) && k == Nesting(n)
    requires At(ts, i, p)
    ensures ReadsUnary(ts, i, i + |p|, d, n, k)
    decreases n.args, 4
  {
    var body := if n.args == [] then [] else PrintArgs(n.args, true);
    CallParts(n, body, k);
    if n.args == [] {
      PrintedEmptyCall(n, ts, i, d);
    } else {
      PrintedCallArgs(n, n.args, body, k, ts, i, d);
    }
  }

  function CallText(fn: Fn, body: seq<Token>): seq<Token> {
    [IdTok(FnText(fn))] + [OpTok(LParen)] + body + [OpTok(RParen)]
  }

  lemma PrintedEmptyCall(n: Node, ts: seq<Token>, i: nat, d: nat)
    requires n.Call? && n.args == [] && GoodArgs(n.fn, n.args) && At(ts, i, CallText(n.fn, []))
    ensures ReadsUnary(ts, i, i + |CallText(n.fn, [])|, d, n, 0)
  {
    CallTokens(ts, i, [IdTok(FnText(n.fn))], [OpTok(LParen)], [], [OpTok(RParen)]);
    CallStep(ts, i, i + 2, d, n, 0);
  }

  lemma {:induction false} PrintedCallArgs(n: Node, args: seq<Node>, body: seq<Token>, k: nat, ts: seq<Token>, i: nat, d: nat)
    requires n.Call? && n.args == args && args != [] && GoodArgs(n.fn, args) && forall a <- args :: WellFormed(a)
    requires body == PrintArgs(args, true) && k == ArgsNesting(args, true)
    requires At(ts, i, CallText(n.fn, body))
    ensures ReadsUnary(ts, i, i + |CallText(n.fn, body)|, d, n, k)
    decreases args, 3
  {
    CallTokens(ts, i, [IdTok(FnText(n.fn))], [OpTok(LParen)], body, [OpTok(RParen)]);
    FirstArgOpens(args);
    PrintedArgs(args, true, body, k, ts, i + 2, d);
    CallStep(ts, i, i + 2 + |body|, d, n, k);
  }

  lemma CallParts(n: Node, body: seq<Token>, k: nat)
    requires n.Call? && k == Nesting(n) && body == if n.args == [] then [] else PrintArgs(n.args, true)
    ensures Bare(n) == CallText(n.fn, body)
    ensures if n.args == [] then k == 0 else k == ArgsNesting(n.args, true) && body != []
  {
  }

  lemma CallTokens(ts: seq<Token>, i: nat, name: seq<Token>, open: seq<Token>, body: seq<Token>, close: seq<Token>)
    requires |name| == |open| == |close| == 1 && At(ts, i, name + open + body + close)
    ensures |name + open + body + close| == 3 + |body|
    ensures Peek(ts, i) == name[0] && Peek(ts, i + 1) == open[0] && Peek(ts, i + 2 + |body|) == close[0]
    ensures At(ts, i + 2, body) && (body != [] ==> Peek(ts, i + 2) == body[0])
  {
    AtSplit(ts, i, name + open + body, close);
    AtSplit(ts, i, name + open, body);
    AtSplit(ts, i, name, open);
  }

  /// A call, given how its argument list is read.
  lemma CallStep(ts: seq<Token>, i: nat, j: nat, d: nat, n: Node, k: nat)
    requires n.Call? && GoodArgs(n.fn, n.args) && i + 2 <= j < |ts|
    requires Peek(ts, i) == IdTok(FnText(n.fn)) && Peek(ts, i + 1) == OpTok(LParen) && Peek(ts, j) == OpTok(RParen)
    requires n.args == [] ==> j == i + 2 && k == 0
    requires n.args != [] ==> k > 0 && !Reads(Peek(ts, i + 2), RParen)
    requires n.args != [] ==> ReadsArgs(ts, i + 2, j, d, n.args, k)
    ensures ReadsUnary(ts, i, j + 1, d, n, k)
  {
    FnTextMeaning(n.fn);
    CallRestStep(ts, i + 2, j, d, n, k);
    CallOpens(ts, i, d, FnText(n.fn), FnWord(n.fn));
  }

  lemma CallOpens(ts: seq<Token>, i: nat, d: nat, name: string, w: Word)
    requires Peek(ts, i) == IdTok(name) && Peek(ts, i + 1) == OpTok(LParen) && Meaning(name) == w && w.FnWord?
    ensures Unary_(ts, i, d) == CallRest(ts, i + 2, name, w, d)
  {
    assert Primary(ts, i, d) == CallRest(ts, i + 2, name, w, d);
  }

  lemma CallRestStep(ts: seq<Token>, i: nat, j: nat, d: nat, n: Node, k: nat)
    requires n.Call? && GoodArgs(n.fn, n.args) && Peek(ts, j) == OpTok(RParen)
    requires n.args == [] ==> j == i && k == 0
    requires n.args != [] ==> k > 0 && !Reads(Peek(ts, i), RParen)
    requires n.args != [] ==> ReadsArgs(ts, i, j, d, n.args, k)
    ensures CallRest(ts, i, FnText(n.fn), FnWord(n.fn), d)
         == if Fits(d, k) then Ok(n, j + 1) else Fail(TooDeep)
  {
  }

  lemma FirstArgOpens(args: seq<Node>)
    requires args != [] && WellFormed(args[0])
    ensures !Reads(PrintArgs(args, true)[0], RParen)
  {
    var a := args[0];
    NoLeadingClose(a, 0);
    assert !Reads(PrintArg(a, true)[0], RParen);
    if |args| > 1 {
      var tail := [OpTok(Comma)] + PrintArgs(args[1..], false);
      assert PrintArgs(args, true) == PrintArg(a, true) + tail;
    }
  }

  /// No printed form starts with a closing parenthesis token.
  lemma {:induction false} NoLeadingClose(n: Node, q: nat)
    requires WellFormed(n)
    ensures Print(n, q)[0] != OpTok(RParen)
  {
    if n.Binary? {
      NoLeadingClose(n.left, Precedence(n.op));
    }
  }

  lemma {:induction false} PrintedArgs(args: seq<Node>, first: bool, p: seq<Token>, k: nat, ts: seq<Token>, i: nat, d: nat)
    requires args != [] && forall a <- args :: WellFormed(a)
    requires p == PrintArgs(args, first) && k == ArgsNesting(args, first)
    requires At(ts, i, p) && Peek(ts, i + |p|) == OpTok(RParen)
    ensures ReadsArgs(ts, i, i + |p|, d, args, k)
    decreases args, 2
  {
    if |args| == 1 {
      PrintedArg(args[0], first, p, k, ts, i, d);
      LastArgStep(ts, i, i + |p|, d, args, k);
    } else {
      var here, rest := PrintArg(args[0], first), PrintArgs(args[1..], false);
      var n1, nr := ArgNesting(args[0], first), ArgsNesting(args[1..], false);
      ArgsParts(args, first, here, rest, n1, nr);
      PrintedFirstArg(args, args[1..], first, here, rest, n1, nr, ts, i, d);
    }
  }

  lemma ArgsParts(args: seq<Node>, first: bool, here: seq<Token>, rest: seq<Token>, n1: nat, nr: nat)
    requires |args| > 1 && here == PrintArg(args[0], first) && rest == PrintArgs(args[1..], false)
    requires n1 == ArgNesting(args[0], first) && nr == ArgsNesting(args[1..], false)
    ensures PrintArgs(args, first) == here + [OpTok(Comma)] + rest && ArgsNesting(args, first) == Max(n1, nr)
    ensures n1 > 0 && nr > 0
  {
  }

  lemma {:induction false} PrintedFirstArg(args: seq<Node>, more: seq<Node>, first: bool, here: seq<Token>, rest: seq<Token>,
                                           n1: nat, nr: nat, ts: seq<Token>, i: nat, d: nat)
    requires |args| > 1 && more == args[1..] && forall a <- args :: WellFormed(a)
    requires here == PrintArg(args[0], first) && rest == PrintArgs(more, false)
    requires n1 == ArgNesting(args[0], first) && nr == ArgsNesting(more, false) && n1 > 0 && nr > 0
    requires var p := here + [OpTok(Comma)] + rest; At(ts, i, p) && Peek(ts, i + |p|) == OpTok(RParen)
    ensures ReadsArgs(ts, i, i + |here + [OpTok(Comma)] + rest|, d, args, Max(n1, nr))
    decreases args, 1
  {
    var comma := i + |here|;
    Parts3(ts, i, here, OpTok(Comma), rest);
    PrintedArg(args[0], first, here, n1, ts, i, d);
    PrintedArgs(more, false, rest, nr, ts, comma + 1, d);
    ArgsStep(ts, i, comma, comma + 1 + |rest|, d, args, n1, nr);
  }

  lemma LastArgStep(ts: seq<Token>, i: nat, j: nat, d: nat, args: seq<Node>, k: nat)
    requires |args| == 1 && Peek(ts, j) == OpTok(RParen)
    requires ReadsArg(ts, i, j, d, args[0], k)
    ensures ReadsArgs(ts, i, j, d, args, k)
  {
    assert args == [args[0]];
  }

  lemma ArgsStep(ts: seq<Token>, i: nat, k: nat, j: nat, d: nat, args: seq<Node>, n1: nat, nr: nat)
    requires |args| > 1 && n1 > 0 && nr > 0 && Peek(ts, k) == OpTok(Comma)
    requires ReadsArg(ts, i, k, d, args[0], n1) && ReadsArgs(ts, k + 1, j, d, args[1..], nr)
    ensures ReadsArgs(ts, i, j, d, args, Max(n1, nr))
  {
    assert args == [args[0]] + args[1..];
  }

  lemma {:induction false} PrintedArg(a: Node, first: bool, p: seq<Token>, k: nat, ts: seq<Token>, i: nat, d: nat)
    requires WellFormed(a) && p == PrintArg(a, first) && k == ArgNesting(a, first)
    requires At(ts, i, p)
    requires Peek(ts, i + |p|) == OpTok(RParen) || Peek(ts, i + |p|) == OpTok(Comma)
    ensures ReadsArg(ts, i, i + |p|, d, a, k)
    decreases a, 5
  {
    if d + 1 <= MAX_DEPTH {
      if first && NeedsGuard(a) {
        PrintedParens(a, Bare(a), Nesting(a), ts, i, d + 1);
        UnaryFirst(ts, i, i + |p|, 0, d + 1, a, k - 1);
      } else {
        PrintedBare(a, p, k - 1, ts, i, 0, d + 1);
      }
      ArgRead(ts, i, i + |p|, d, a, k - 1);
    }
  }

  /// Nothing that may follow an argument goes on with the expression.
  lemma ArgRead(ts: seq<Token>, i: nat, j: nat, d: nat, a: Node, k: nat)
    requires d + 1 <= MAX_DEPTH && ReadsExpr(ts, i, j, 0, d + 1, a, k)
    requires Peek(ts, j) == OpTok(RParen) || Peek(ts, j) == OpTok(Comma)
    ensures ReadsArg(ts, i, j, d, a, k + 1)
  {
  }

  /// The round trip: the printed form parses back to the tree exactly when it nests at
  /// most `MAX_DEPTH` levels; deeper trees are refused as too deep and for no other reason.
  lemma ParsePrint(n: Node)
    requires WellFormed(n)
    ensures ParseAll(Print(n, 0) + [Eof])
         == if Nesting(n) <= MAX_DEPTH then Ok(n, |Print(n, 0)|) else Fail(TooDeep)
  {
    var ts := Print(n, 0) + [Eof];
    assert At(ts, 0, Print(n, 0));
    assert ts[|Print(n, 0)|] == Eof;
    PrintedBare(n, Print(n, 0), Nesting(n), ts, 0, 0, 0);
  }
}
