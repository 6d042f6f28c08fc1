/// What formulas are worth: laws between the values of different formulas, for all trees
/// whose operands have the values named.

module FormulaLaws {
  import opened Basics
  import opened FormulaSyntax
  import opened FormulaEval

  /// The tree has this value.
  predicate Is(n: Node, v: Val, ctx: Context, lib: Library) {
    Eval(n, ctx, lib) == Value(v)
  }

  predicate SameValue(n: Node, m: Node, ctx: Context, lib: Library) {
    Eval(n, ctx, lib) == Eval(m, ctx, lib)
  }

  lemma {:induction false} OfOperands(op: Op, a: Node, b: Node, v: Val, w: Val, ctx: Context, lib: Library)
    requires Is(a, v, ctx, lib) && Is(b, w, ctx, lib) && op != And && op != Or
    ensures Eval(Binary(op, a, b), ctx, lib) == EvalBinary(op, v, w, lib)
  {
  }

  // ---- arithmetic ----

  lemma {:induction false} SumOf(a: Node, b: Node, x: real, y: real, ctx: Context, lib: Library)
    requires Is(a, VNum(x), ctx, lib) && Is(b, VNum(y), ctx, lib)
    ensures Is(Binary(Plus, a, b), VNum(x + y), ctx, lib)
    ensures Is(Binary(Minus, a, b), VNum(x - y), ctx, lib)
  {
    OfOperands(Plus, a, b, VNum(x), VNum(y), ctx, lib);
    OfOperands(Minus, a, b, VNum(x), VNum(y), ctx, lib);
  }

  lemma {:induction false} OppositeOf(a: Node, x: real, ctx: Context, lib: Library)
    requires Is(a, VNum(x), ctx, lib)
    ensures Is(Unary(Minus, a), VNum(-x), ctx, lib)
  {
  }

  /// Sums are those of the numbers, and differences undo them.
  lemma {:induction false} DifferenceUndoesSum(a: Node, b: Node, x: real, y: real, ctx: Context, lib: Library)
    requires Is(a, VNum(x), ctx, lib) && Is(b, VNum(y), ctx, lib)
    ensures Is(Binary(Plus, a, b), VNum(x + y), ctx, lib)
    ensures SameValue(Binary(Minus, Binary(Plus, a, b), b), a, ctx, lib)
  {
    SumOf(a, b, x, y, ctx, lib);
    SumOf(Binary(Plus, a, b), b, x + y, y, ctx, lib);
    assert x + y - y == x;
  }

  lemma {:induction false} SumUndoesDifference(a: Node, b: Node, x: real, y: real, ctx: Context, lib: Library)
    requires Is(a, VNum(x), ctx, lib) && Is(b, VNum(y), ctx, lib)
    ensures SameValue(Binary(Plus, Binary(Minus, a, b), b), a, ctx, lib)
  {
    SumOf(a, b, x, y, ctx, lib);
    SumOf(Binary(Minus, a, b), b, x - y, y, ctx, lib);
    assert x - y + y == x;
  }

  /// Taking away is adding the opposite.
  lemma {:induction false} Opposites(a: Node, b: Node, x: real, y: real, ctx: Context, lib: Library)
    requires Is(a, VNum(x), ctx, lib) && Is(b, VNum(y), ctx, lib)
    ensures SameValue(Binary(Plus, a, Unary(Minus, b)), Binary(Minus, a, b), ctx, lib)
  {
    SumOf(a, b, x, y, ctx, lib);
    OppositeOf(b, y, ctx, lib);
    SumOf(a, Unary(Minus, b), x, -y, ctx, lib);
    assert x + -y == x - y;
  }

  lemma {:induction false} TwiceOpposite(a: Node, x: real, ctx: Context, lib: Library)
    requires Is(a, VNum(x), ctx, lib)
    ensures SameValue(Unary(Minus, Unary(Minus, a)), a, ctx, lib)
  {
    OppositeOf(a, x, ctx, lib);
    OppositeOf(Unary(Minus, a), -x, ctx, lib);
    assert -(-x) == x;
  }

  lemma {:induction false} ProductOf(a: Node, b: Node, x: real, y: real, p: real, ctx: Context, lib: Library)
    requires Is(a, VNum(x), ctx, lib) && Is(b, VNum(y), ctx, lib) && p == Times(x, y)
    ensures Is(Binary(Star, a, b), VNum(p), ctx, lib)
  {
    OfOperands(Star, a, b, VNum(x), VNum(y), ctx, lib);
  }

  lemma {:induction false} QuotientOf(a: Node, b: Node, x: real, y: real, d: real, ctx: Context, lib: Library)
    requires Is(a, VNum(x), ctx, lib) && Is(b, VNum(y), ctx, lib) && y != 0.0 && d == Over(x, y)
    ensures Is(Binary(Slash, a, b), VNum(d), ctx, lib)
  {
    OfOperands(Slash, a, b, VNum(x), VNum(y), ctx, lib);
  }

  lemma {:induction false} OverTimes(x: real, y: real)
    requires y != 0.0
    ensures Times(Over(x, y), y) == x
  {
  }

  lemma {:induction false} TimesOver(x: real, y: real)
    requires y != 0.0
    ensures Over(Times(x, y), y) == x
  {
    var e := Over(Times(x, y), y);
    OverTimes(Times(x, y), y);
    assert (e - x) * y == Times(e, y) - Times(x, y);
  }

  /// Products and quotients undo each other.
  lemma {:induction false} QuotientUndoesProduct(a: Node, b: Node, x: real, y: real, ctx: Context, lib: Library)
    requires Is(a, VNum(x), ctx, lib) && Is(b, VNum(y), ctx, lib) && y != 0.0
    ensures Is(Binary(Star, a, b), VNum(x * y), ctx, lib)
    ensures SameValue(Binary(Star, Binary(Slash, a, b), b), a, ctx, lib)
    ensures SameValue(Binary(Slash, Binary(Star, a, b), b), a, ctx, lib)
  {
    var p, d := Times(x, y), Over(x, y);
    OverTimes(x, y);
    TimesOver(x, y);
    ProductOf(a, b, x, y, p, ctx, lib);
    QuotientOf(a, b, x, y, d, ctx, lib);
    ProductOf(Binary(Slash, a, b), b, d, y, x, ctx, lib);
    QuotientOf(Binary(Star, a, b), b, p, y, x, ctx, lib);
  }

  /// Nothing is divided by zero: the answer is null.
  lemma {:induction false} ByZero(op: Op, a: Node, b: Node, x: real, ctx: Context, lib: Library)
    requires Is(a, VNum(x), ctx, lib) && Is(b, VNum(0.0), ctx, lib) && (op == Slash || op == Percent)
    ensures SameValue(Binary(op, a, b), Const(NullWord), ctx, lib)
  {
    OfOperands(op, a, b, VNum(x), VNum(0.0), ctx, lib);
  }

  function Size(y: real): real { if y < 0.0 then -y else y }

  predicate SameSign(a: real, b: real) { (a > 0.0 <==> b > 0.0) && (a < 0.0 <==> b < 0.0) }

  lemma {:induction false} Scaled(a: real, y: real, p: real)
    requires y > 0.0 && p == a * y
    ensures SameSign(a, p)
  {
  }

  /// What is left after whole parts are taken away.
  lemma {:induction false} PartOf(x: real, y: real, d: real, e: real, r: real)
    requires y > 0.0 && x == d * y && r == e * y
    requires if d < 0.0 then -1.0 < e <= 0.0 else 0.0 <= e <= d && e < 1.0
    ensures -y < r < y
    ensures x >= 0.0 ==> r >= 0.0
    ensures x <= 0.0 ==> r <= 0.0
  {
    Scaled(d, y, x);
    Scaled(e, y, r);
    Scaled(1.0 - e, y, y - r);
    Scaled(1.0 + e, y, y + r);
  }

  lemma {:induction false} RestSize(x: real, y: real, q: int) returns (p: real)
    requires y != 0.0 && q as real == Truncate(Over(x, y))
    ensures p == Times(q as real, y) && p == q as real * y && -Size(y) < x - p < Size(y)
    ensures x >= 0.0 ==> x - p >= 0.0
    ensures x <= 0.0 ==> x - p <= 0.0
  {
    var d := Over(x, y);
    OverTimes(x, y);
    p := Times(q as real, y);
    var e := d - q as real;
    assert x - p == e * y;
    if y < 0.0 { PartOf(-x, -y, d, e, p - x); } else { PartOf(x, y, d, e, x - p); }
  }

  /// The remainder differs from the left side by a whole multiple of the right side, is
  /// smaller than it and has the sign of the left side.
  lemma {:induction false} RemainderOf(a: Node, b: Node, x: real, y: real, ctx: Context, lib: Library)
    returns (r: real, q: int)
    requires Is(a, VNum(x), ctx, lib) && Is(b, VNum(y), ctx, lib) && y != 0.0
    ensures Is(Binary(Percent, a, b), VNum(r), ctx, lib)
    ensures x - r == q as real * y && -Size(y) < r < Size(y)
    ensures x >= 0.0 ==> r >= 0.0
    ensures x <= 0.0 ==> r <= 0.0
  {
    var d := Over(x, y);
    q := if d < 0.0 then -((-d).Floor) else d.Floor;
    var p := RestSize(x, y, q);
    r := x - p;
    OfOperands(Percent, a, b, VNum(x), VNum(y), ctx, lib);
  }

  predicate IsArithmetic(op: Op) { op in {Plus, Minus, Star, Slash, Percent} }

  /// The number a value counts as: nothing and the empty text are 0, truth values 1 and 0,
  /// other texts what they spell.
  predicate CountsAs(v: Val, x: real, lib: Library) {
    || v == VNum(x)
    || (v in {VNull, VStr(""), VBool(false)} && x == 0.0)
    || (v == VBool(true) && x == 1.0)
    || (v.VStr? && v.s != "" && lib.number(v.s) == Some(x))
  }

  lemma {:induction false} CountedAs(v: Val, x: real, lib: Library)
    requires CountsAs(v, x, lib)
    ensures Num_(v, lib) == Value(x)
  {
  }

  lemma {:induction false} OfNumbers(op: Op, v: Val, w: Val, x: real, y: real, lib: Library)
    requires IsArithmetic(op) && Num_(v, lib) == Value(x) && Num_(w, lib) == Value(y)
    ensures EvalBinary(op, v, w, lib) == EvalBinary(op, VNum(x), VNum(y), lib)
  {
  }

  /// In arithmetic a value may be replaced by the number it counts as.
  lemma {:induction false} OnlyTheNumberMatters(op: Op, a: Node, b: Node, c: Node, d: Node, v: Val, w: Val, x: real, y: real,
                             ctx: Context, lib: Library)
    requires IsArithmetic(op) && Is(a, v, ctx, lib) && Is(b, w, ctx, lib)
    requires CountsAs(v, x, lib) && CountsAs(w, y, lib) && Is(c, VNum(x), ctx, lib) && Is(d, VNum(y), ctx, lib)
    ensures SameValue(Binary(op, a, b), Binary(op, c, d), ctx, lib)
  {
    OfOperands(op, a, b, v, w, ctx, lib);
    OfOperands(op, c, d, VNum(x), VNum(y), ctx, lib);
    CountedAs(v, x, lib);
    CountedAs(w, y, lib);
    OfNumbers(op, v, w, x, y, lib);
  }

  /// A text that spells no number is an error on the right.
  lemma {:induction false} TextInArithmetic(op: Op, a: Node, b: Node, v: Val, s: string, ctx: Context, lib: Library)
    requires IsArithmetic(op) && Is(a, v, ctx, lib) && Is(b, VStr(s), ctx, lib)
    requires s != "" && lib.number(s) == None
    ensures Eval(Binary(op, a, b), ctx, lib).Error?
  {
    OfOperands(op, a, b, v, VStr(s), ctx, lib);
  }

  // ---- comparing ----

  /// Both numbers, or both texts.
  predicate Comparable(v: Val, w: Val) { (v.VNum? && w.VNum?) || (v.VStr? && w.VStr?) }

  /// `a < b` says that `b - a` is positive.
  lemma {:induction false} LessIsPositiveDifference(a: Node, b: Node, x: real, y: real, d: real, ctx: Context, lib: Library)
    requires Is(a, VNum(x), ctx, lib) && Is(b, VNum(y), ctx, lib) && Is(Binary(Minus, b, a), VNum(d), ctx, lib)
    ensures Is(Binary(Lt, a, b), VBool(d > 0.0), ctx, lib)
  {
    OfOperands(Lt, a, b, VNum(x), VNum(y), ctx, lib);
    SumOf(b, a, y, x, ctx, lib);
  }

  /// Texts are ordered by the first character in which they differ; a text comes after its
  /// beginnings.
  predicate Precedes(s: string, t: string) {
    exists k :: 0 <= k <= |s| && k <= |t| && FirstDifference(s, t, k)
  }

  predicate FirstDifference(s: string, t: string, k: nat)
    requires k <= |s| && k <= |t|
  {
    s[..k] == t[..k] && k < |t| && (k == |s| || s[k] < t[k])
  }

  lemma {:induction false} SameStart(s: string, t: string, k: nat)
    requires 0 <= k <= |s| && k <= |t| && FirstDifference(s, t, k)
    ensures k > 0 ==> s[0] == t[0]
  {
    if k > 0 { assert s[0] == s[..k][0] && t[0] == t[..k][0]; }
  }

  lemma {:induction false} BeforeIsPrecedes(s: string, t: string)
    ensures Before(s, t) <==> Precedes(s, t)
  {
    if s == "" || t == "" || s[0] != t[0] {
      if Before(s, t) { assert FirstDifference(s, t, 0); }
      if k: nat :| k <= |s| && k <= |t| && FirstDifference(s, t, k) {
        SameStart(s, t, k);
      }
    } else {
      BeforeIsPrecedes(s[1..], t[1..]);
      if k: nat :| k < |s| && k < |t| && FirstDifference(s[1..], t[1..], k) {
        assert s[..k + 1] == [s[0]] + s[1..][..k] && t[..k + 1] == [t[0]] + t[1..][..k];
        assert FirstDifference(s, t, k + 1);
      }
      if k: nat :| k <= |s| && k <= |t| && FirstDifference(s, t, k) {
        assert k > 0;
        assert s[1..][..k - 1] == s[..k][1..] && t[1..][..k - 1] == t[..k][1..];
        assert FirstDifference(s[1..], t[1..], k - 1);
      }
    }
  }

  lemma {:induction false} TextsAreOrdered(a: Node, b: Node, s: string, t: string, ctx: Context, lib: Library)
    requires Is(a, VStr(s), ctx, lib) && Is(b, VStr(t), ctx, lib)
    ensures Is(Binary(Lt, a, b), VBool(Precedes(s, t)), ctx, lib)
  {
    OfOperands(Lt, a, b, VStr(s), VStr(t), ctx, lib);
    BeforeIsPrecedes(s, t);
  }

  lemma {:induction false} BeforeIsStrict(s: string, t: string)
    ensures Before(t, s) <==> !Before(s, t) && s != t
  {
    if s != "" && t != "" {
      assert s == [s[0]] + s[1..] && t == [t[0]] + t[1..];
      if s[0] == t[0] { BeforeIsStrict(s[1..], t[1..]); }
    }
  }

  /// `>` is `<` turned round, `>=` is `<=` turned round.
  lemma {:induction false} TurnedRound(a: Node, b: Node, v: Val, w: Val, ctx: Context, lib: Library)
    requires Is(a, v, ctx, lib) && Is(b, w, ctx, lib) && Comparable(v, w)
    ensures SameValue(Binary(Gt, a, b), Binary(Lt, b, a), ctx, lib)
    ensures SameValue(Binary(Ge, a, b), Binary(Le, b, a), ctx, lib)
  {
    OfOperands(Gt, a, b, v, w, ctx, lib);
    OfOperands(Lt, b, a, w, v, ctx, lib);
    OfOperands(Ge, a, b, v, w, ctx, lib);
    OfOperands(Le, b, a, w, v, ctx, lib);
    if v.VStr? { BeforeIsStrict(v.s, w.s); }
  }

  /// `<=` is "less or equal", and `>` its opposite.
  lemma {:induction false} LessOrEqual(a: Node, b: Node, v: Val, w: Val, ctx: Context, lib: Library)
    requires Is(a, v, ctx, lib) && Is(b, w, ctx, lib) && Comparable(v, w)
    ensures SameValue(Binary(Le, a, b), Binary(Or, Binary(Lt, a, b), Binary(Eq, a, b)), ctx, lib)
    ensures SameValue(Binary(Gt, a, b), Unary(Bang, Binary(Le, a, b)), ctx, lib)
  {
    OfOperands(Le, a, b, v, w, ctx, lib);
    OfOperands(Lt, a, b, v, w, ctx, lib);
    OfOperands(Gt, a, b, v, w, ctx, lib);
    OfOperands(Eq, a, b, v, w, ctx, lib);
  }

  /// Values of one kind are equal when they are the same; values of different kinds when
  /// they are the same as texts.
  lemma {:induction false} Equality(a: Node, b: Node, v: Val, w: Val, ctx: Context, lib: Library)
    requires Is(a, v, ctx, lib) && Is(b, w, ctx, lib)
    ensures Comparable(v, w) || (v.VBool? && w.VBool?) || (v.VNull? && w.VNull?) ==>
              Is(Binary(Eq, a, b), VBool(v == w), ctx, lib)
    ensures v.VStr? && !w.VStr? ==> SameValue(Binary(Eq, a, b), Binary(Eq, a, Binary(Amp, b, Str(""))), ctx, lib)
    ensures SameValue(Binary(Eq, a, b), Binary(Eq, b, a), ctx, lib)
  {
    var text := Binary(Amp, b, Str(""));
    OfOperands(Eq, a, b, v, w, ctx, lib);
    OfOperands(Eq, b, a, w, v, ctx, lib);
    OfOperands(Amp, b, Str(""), w, VStr(""), ctx, lib);
    assert AsText(w, lib) + "" == AsText(w, lib);
    OfOperands(Eq, a, text, v, VStr(AsText(w, lib)), ctx, lib);
  }

  /// `!=` is the opposite of `==`, whatever the operands are.
  lemma {:induction false} Unequal(a: Node, b: Node, ctx: Context, lib: Library)
    ensures SameValue(Binary(Ne, a, b), Unary(Bang, Binary(Eq, a, b)), ctx, lib)
  {
    var l, r := Eval(a, ctx, lib), Eval(b, ctx, lib);
    if l.Value? && r.Value? {
      OfOperands(Ne, a, b, l.value, r.value, ctx, lib);
      OfOperands(Eq, a, b, l.value, r.value, ctx, lib);
    }
  }

  // ---- texts ----

  lemma {:induction false} JoinOf(a: Node, b: Node, v: Val, w: Val, ctx: Context, lib: Library)
    requires Is(a, v, ctx, lib) && Is(b, w, ctx, lib)
    ensures Is(Binary(Amp, a, b), VStr(AsText(v, lib) + AsText(w, lib)), ctx, lib)
  {
    OfOperands(Amp, a, b, v, w, ctx, lib);
  }

  /// Texts are put one after the other, in whichever order pairs are joined.
  lemma {:induction false} JoinedTexts(a: Node, b: Node, s: string, t: string, ctx: Context, lib: Library)
    requires Is(a, VStr(s), ctx, lib) && Is(b, VStr(t), ctx, lib)
    ensures Is(Binary(Amp, a, b), VStr(s + t), ctx, lib)
  {
    JoinOf(a, b, VStr(s), VStr(t), ctx, lib);
  }

  /// Nothing joins as the empty text, truth values and numbers as they are written.
  lemma {:induction false} TextsOfValues(a: Node, v: Val, ctx: Context, lib: Library)
    requires Is(a, v, ctx, lib)
    ensures Is(Binary(Amp, a, Str("")), VStr(
              if v.VNull? then "" else if v.VBool? then (if v.b then "true" else "false")
              else if v.VNum? then lib.text(v.r) else v.s), ctx, lib)
  {
    JoinOf(a, Str(""), v, VStr(""), ctx, lib);
    assert AsText(v, lib) + "" == AsText(v, lib);
  }

  /// The error of the first operand that has one is the error of the whole.
  lemma {:induction false} FirstError(op: Op, a: Node, b: Node, ctx: Context, lib: Library)
    requires op != And && op != Or
    ensures Eval(a, ctx, lib).Error? ==> SameValue(Binary(op, a, b), a, ctx, lib)
    ensures Eval(a, ctx, lib).Value? && Eval(b, ctx, lib).Error? ==> SameValue(Binary(op, a, b), b, ctx, lib)
  {
  }

  lemma {:induction false} JoinsAssociate(a: Node, b: Node, c: Node, ctx: Context, lib: Library)
    ensures SameValue(Binary(Amp, Binary(Amp, a, b), c), Binary(Amp, a, Binary(Amp, b, c)), ctx, lib)
  {
    var l, m, r := Eval(a, ctx, lib), Eval(b, ctx, lib), Eval(c, ctx, lib);
    if l.Value? && m.Value? && r.Value? {
      JoinThree(a, b, c, l.value, m.value, r.value, ctx, lib);
    } else {
      FirstError(Amp, a, b, ctx, lib);
      FirstError(Amp, b, c, ctx, lib);
      FirstError(Amp, Binary(Amp, a, b), c, ctx, lib);
      FirstError(Amp, a, Binary(Amp, b, c), ctx, lib);
      if l.Value? && m.Value? { JoinOf(a, b, l.value, m.value, ctx, lib); }
    }
  }

  lemma {:induction false} JoinThree(a: Node, b: Node, c: Node, v: Val, w: Val, x: Val, ctx: Context, lib: Library)
    requires Is(a, v, ctx, lib) && Is(b, w, ctx, lib) && Is(c, x, ctx, lib)
    ensures SameValue(Binary(Amp, Binary(Amp, a, b), c), Binary(Amp, a, Binary(Amp, b, c)), ctx, lib)
  {
    JoinOf(a, b, v, w, ctx, lib);
    JoinOf(b, c, w, x, ctx, lib);
    JoinPairs(a, Binary(Amp, a, b), Binary(Amp, b, c), c, AsText(v, lib), AsText(w, lib), AsText(x, lib), v, x, ctx, lib);
  }

  lemma {:induction false} JoinPairs(a: Node, ab: Node, bc: Node, c: Node, s: string, t: string, u: string, v: Val, x: Val,
                  ctx: Context, lib: Library)
    requires Is(a, v, ctx, lib) && Is(c, x, ctx, lib) && AsText(v, lib) == s && AsText(x, lib) == u
    requires Is(ab, VStr(s + t), ctx, lib) && Is(bc, VStr(t + u), ctx, lib)
    ensures SameValue(Binary(Amp, ab, c), Binary(Amp, a, bc), ctx, lib)
  {
    JoinOf(ab, c, VStr(s + t), x, ctx, lib);
    JoinOf(a, bc, v, VStr(t + u), ctx, lib);
    assert s + t + u == s + (t + u);
  }
}
