/// The database form of `KeyOfDay`: an expression tree and the meaning of the operators it
/// is built from. Week numbers have their own definition there, by the rule of ISO 8601.

module BucketExpressions {
  import opened Text
  import opened Calendar
  import opened Buckets

  /// Database values; a date is an instant in milliseconds. `Failed` aborts the query.
  datatype Value = Null | Failed | Boolean(b: bool) | Number(x: real) | Str(s: string) | Date(ms: int)

  datatype Format = YmdF | IsoWeekF | YearMonthF | YearF

  /// The field that is grouped by, and the variable bound by `Let`.
  datatype Named = Field | Bound

  datatype Expr =
    | Const(v: Value)
    | Ref(to: Named)
    | DateFromString(text: Expr)
    | DateToString(date: Expr, format: Format, offset: int)
    | YearE(date: Expr, offset: int)
    | MonthE(date: Expr, offset: int)
    | Cond(test: Expr, yes: Expr, no: Expr)
    | Gte(a: Expr, b: Expr)
    | Lt(a: Expr, b: Expr)
    | Eq(a: Expr, b: Expr)
    | Add(a: Expr, b: Expr)
    | Subtract(a: Expr, b: Expr)
    | Mod(a: Expr, b: Expr)
    | Divide(a: Expr, b: Expr)
    | Floor(a: Expr)
    | Concat(a: Expr, b: Expr)
    | ToString(a: Expr)
    | StrLen(a: Expr)
    | TypeOf(a: Expr)
    | Let(bound: Expr, body: Expr)

  // ---- operators ----

  predicate IsRealDate(s: string) {
    IsDateText(s) && Num(s[8..]) <= MonthLength(12 * Num(s[..4]) + Num(s[5..7]) - 1)
  }

  /// `$dateFromString` with format `%Y-%m-%d`, giving null for what it cannot read.
  function ReadDate(v: Value): Value {
    match v
    case Str(s) => if IsRealDate(s) then Date(ParseDate(s) * DAY_MS) else Null
    case Failed => Failed
    case _ => Null
  }

  /// ISO 8601: week 1 is the week with 4 January, weeks start on Monday.
  function IsoYear(n: int): int {
    if n < Week1(YearOf(n)) then YearOf(n) - 1
    else if n >= Week1(YearOf(n) + 1) then YearOf(n) + 1
    else YearOf(n)
  }

  function IsoWeek(n: int): int { (n - Week1(IsoYear(n))) / 7 + 1 }

  function Pad4(n: int): string { if n < 0 then DecInt(n) else Pad(Dec(n), 4) }

  function Pad2Int(n: int): string { if n < 0 then DecInt(n) else Pad2(n) }

  function Print(n: int, format: Format): string {
    match format
    case YmdF => Pad4(YearOf(n)) + "-" + Pad2Int(Month0Of(n) + 1) + "-" + Pad2Int(DayOf(n))
    case IsoWeekF => Pad4(IsoYear(n)) + "-W" + Pad2Int(IsoWeek(n))
    case YearMonthF => Pad4(YearOf(n)) + "-" + Pad2Int(Month0Of(n) + 1)
    case YearF => Pad4(YearOf(n))
  }

  /// Operators on dates keep null and fail on anything but a date.
  function OnDate(v: Value, f: int -> Value): Value {
    match v
    case Date(ms) => f(ms)
    case Null => Null
    case _ => Failed
  }

  /// Operators on numbers keep null and fail on anything but numbers.
  function OnNumbers(v: Value, w: Value, f: (real, real) -> Value): Value {
    if v == Failed || w == Failed then Failed
    else if v == Null || w == Null then Null
    else if v.Number? && w.Number? then f(v.x, w.x) else Failed
  }

  /// Comparison of numbers; the order between different types is not part of this model.
  function Compare(v: Value, w: Value, f: (real, real) -> bool): Value {
    if v.Number? && w.Number? then Boolean(f(v.x, w.x)) else Failed
  }

  predicate IsWhole(x: real) { x.Floor as real == x }

  function TruncMod(a: int, b: int): int
    requires b != 0
  {
    if a >= 0 then a % b else -(-a % b)
  }

  function ModOf(x: real, y: real): Value {
    if IsWhole(x) && IsWhole(y) && y.Floor != 0 then Number(TruncMod(x.Floor, y.Floor) as real) else Failed
  }

  function DivideOf(x: real, y: real): Value { if y == 0.0 then Failed else Number(x / y) }

  /// Whole numbers are written without a decimal point; other numbers are not needed here.
  function TextOf(v: Value): Value {
    match v
    case Null => Null
    case Str(s) => v
    case Number(x) => if IsWhole(x) then Str(DecInt(x.Floor)) else Failed
    case _ => Failed
  }

  function ConcatOf(v: Value, w: Value): Value {
    if v == Failed || w == Failed then Failed
    else if v == Null || w == Null then Null
    else if v.Str? && w.Str? then Str(v.s + w.s) else Failed
  }

  function TypeName(v: Value): Value {
    match v
    case Null => Str("null")
    case Failed => Failed
    case Boolean(_) => Str("bool")
    case Number(_) => Str("double")
    case Str(_) => Str("string")
    case Date(_) => Str("date")
  }

  /// The value of an expression for a document whose field is `field`, inside a `$let`
  /// binding `bound`.
  function Eval(e: Expr, field: Value, bound: Value): Value
    decreases e, field
  {
    match e
    case Const(v) => v
    case Ref(to) => if to.Bound? then bound else field
    case DateFromString(t) => ReadDate(Eval(t, field, bound))
    case DateToString(d, format, offset) =>
      OnDate(Eval(d, field, bound), ms => Str(Print(DayAt(ms, offset), format)))
    case YearE(d, offset) =>
      OnDate(Eval(d, field, bound), ms => Number(YearOf(DayAt(ms, offset)) as real))
    case MonthE(d, offset) =>
      OnDate(Eval(d, field, bound), ms => Number((Month0Of(DayAt(ms, offset)) + 1) as real))
    case Cond(t, yes, no) =>
      var c := Eval(t, field, bound);
      if c == Failed then Failed
      else if c == Null || c == Boolean(false) || c == Number(0.0) then Eval(no, field, bound)
      else Eval(yes, field, bound)
    case Gte(a, b) => Compare(Eval(a, field, bound), Eval(b, field, bound), (x: real, y: real) => x >= y)
    case Lt(a, b) => Compare(Eval(a, field, bound), Eval(b, field, bound), (x: real, y: real) => x < y)
    case Eq(a, b) =>
      var v, w := Eval(a, field, bound), Eval(b, field, bound);
      if v == Failed || w == Failed then Failed else Boolean(v == w)
    case Add(a, b) => OnNumbers(Eval(a, field, bound), Eval(b, field, bound), (x: real, y: real) => Number(x + y))
    case Subtract(a, b) => OnNumbers(Eval(a, field, bound), Eval(b, field, bound), (x: real, y: real) => Number(x - y))
    case Mod(a, b) => OnNumbers(Eval(a, field, bound), Eval(b, field, bound), ModOf)
    case Divide(a, b) => OnNumbers(Eval(a, field, bound), Eval(b, field, bound), DivideOf)
    case Floor(a) =>
      var v := Eval(a, field, bound);
      if v.Number? then Number(v.x.Floor as real) else if v == Null then Null else Failed
    case Concat(a, b) => ConcatOf(Eval(a, field, bound), Eval(b, field, bound))
    case ToString(a) => TextOf(Eval(a, field, bound))
    case StrLen(a) =>
      var v := Eval(a, field, bound);
      if v.Str? then Number(|v.s| as real) else Failed
    case TypeOf(a) => TypeName(Eval(a, field, bound))
    case Let(v, body) => Eval(body, field, Eval(v, field, bound))
  }

  // ---- the expression built for a bucket ----

  function NumberE(n: int): Expr { Const(Number(n as real)) }

  function TextE(s: string): Expr { Const(Str(s)) }

  function FiscalYearExpr(date: Expr, tz: int, fyStart: int): Expr {
    Cond(Gte(MonthE(date, tz), NumberE(fyStart)), YearE(date, tz), Subtract(YearE(date, tz), NumberE(1)))
  }

  function Pad2Expr(n: Expr): Expr {
    Let(ToString(n), Cond(Lt(StrLen(Ref(Bound)), NumberE(2)), Concat(TextE("0"), Ref(Bound)), Ref(Bound)))
  }

  function LabelExpr(date: Expr, tz: int, fyStart: int): Expr {
    var fy := FiscalYearExpr(date, tz, fyStart);
    if fyStart == 1 then ToString(fy)
    else Concat(Concat(ToString(fy), TextE("-")), Pad2Expr(Mod(Add(fy, NumberE(1)), NumberE(100))))
  }

  function QuarterExpr(date: Expr, tz: int, fyStart: int): Expr {
    Add(Floor(Divide(Mod(Add(Subtract(MonthE(date, tz), NumberE(fyStart)), NumberE(12)), NumberE(12)), NumberE(3))), NumberE(1))
  }

  function Guard(date: Expr, e: Expr): Expr { Cond(Eq(TypeOf(date), TextE("date")), e, Const(Null)) }

  function BucketExpr(isDateString: bool, bucket: Bucket, fyStart: int, offset: int): Expr {
    var date := if isDateString then DateFromString(Ref(Field)) else Ref(Field);
    var tz := if isDateString then 0 else offset;
    match bucket
    case DayB => DateToString(date, YmdF, tz)
    case WeekB => DateToString(date, IsoWeekF, tz)
    case MonthB => DateToString(date, YearMonthF, tz)
    case YearB => DateToString(date, YearF, tz)
    case FiscalYearB => Guard(date, LabelExpr(date, tz, fyStart))
    case QuarterB =>
      Guard(date, Concat(Concat(LabelExpr(date, tz, fyStart), TextE(" Q")), ToString(QuarterExpr(date, tz, fyStart))))
  }

  // ---- evaluating the pieces ----

  lemma EvalYear(date: Expr, tz: int, f: Value, b: Value, ms: int)
    requires Eval(date, f, b) == Date(ms)
    ensures Eval(YearE(date, tz), f, b) == Number(YearOf(DayAt(ms, tz)) as real)
    ensures Eval(MonthE(date, tz), f, b) == Number((Month0Of(DayAt(ms, tz)) + 1) as real)
  {
  }

  lemma EvalFiscalYear(date: Expr, tz: int, fyStart: int, f: Value, b: Value, ms: int)
    requires Eval(date, f, b) == Date(ms)
    ensures Eval(FiscalYearExpr(date, tz, fyStart), f, b)
         == Number(FiscalYearOf(DayAt(ms, tz), fyStart) as real)
  {
    EvalYear(date, tz, f, b, ms);
    EvalChoice(MonthE(date, tz), YearE(date, tz), f, b, Month0Of(DayAt(ms, tz)) + 1,
               YearOf(DayAt(ms, tz)), fyStart);
  }

  lemma EvalChoice(month: Expr, year: Expr, f: Value, b: Value, m: int, y: int, fyStart: int)
    requires Eval(month, f, b) == Number(m as real) && Eval(year, f, b) == Number(y as real)
    ensures Eval(Cond(Gte(month, NumberE(fyStart)), year, Subtract(year, NumberE(1))), f, b)
         == Number((if m >= fyStart then y else y - 1) as real)
  {
    var test, lower := Gte(month, NumberE(fyStart)), Subtract(year, NumberE(1));
    EvalGte(month, f, b, m, fyStart);
    EvalLess(year, f, b, y);
    EvalCond(test, year, lower, f, b, m >= fyStart);
  }

  lemma EvalCond(test: Expr, yes: Expr, no: Expr, f: Value, b: Value, c: bool)
    requires Eval(test, f, b) == Boolean(c)
    ensures Eval(Cond(test, yes, no), f, b) == if c then Eval(yes, f, b) else Eval(no, f, b)
  {
  }

  lemma EvalGte(e: Expr, f: Value, b: Value, m: int, n: int)
    requires Eval(e, f, b) == Number(m as real)
    ensures Eval(Gte(e, NumberE(n)), f, b) == Boolean(m >= n)
  {
    assert Eval(NumberE(n), f, b) == Number(n as real);
  }

  lemma EvalLess(e: Expr, f: Value, b: Value, y: int)
    requires Eval(e, f, b) == Number(y as real)
    ensures Eval(Subtract(e, NumberE(1)), f, b) == Number((y - 1) as real)
  {
    assert Eval(NumberE(1), f, b) == Number(1.0);
  }

  lemma EvalToString(e: Expr, f: Value, b: Value, n: int)
    requires Eval(e, f, b) == Number(n as real)
    ensures Eval(ToString(e), f, b) == Str(DecInt(n))
  {
    assert (n as real).Floor == n;
  }

  lemma EvalPad2(e: Expr, f: Value, b: Value, n: nat)
    requires Eval(e, f, b) == Number(n as real)
    ensures Eval(Pad2Expr(e), f, b) == Str(Pad2(n))
  {
    EvalToString(e, f, b, n);
    var s := Dec(n);
    EvalPadBody(f, s);
    PadOne(s);
  }

  lemma EvalPadBody(f: Value, s: string)
    ensures Eval(Cond(Lt(StrLen(Ref(Bound)), NumberE(2)), Concat(TextE("0"), Ref(Bound)), Ref(Bound)), f, Str(s))
         == Str(if |s| < 2 then "0" + s else s)
  {
    var v := Str(s);
    EvalShort(f, s);
    EvalConcat(TextE("0"), Ref(Bound), f, v, "0", s);
    EvalCond(Lt(StrLen(Ref(Bound)), NumberE(2)), Concat(TextE("0"), Ref(Bound)), Ref(Bound), f, v, |s| < 2);
  }

  lemma EvalShort(f: Value, s: string)
    ensures Eval(Lt(StrLen(Ref(Bound)), NumberE(2)), f, Str(s)) == Boolean(|s| < 2)
  {
    var v := Str(s);
    assert Eval(Ref(Bound), f, v) == v;
    assert Eval(StrLen(Ref(Bound)), f, v) == Number(|s| as real);
    assert Eval(NumberE(2), f, v) == Number(2.0);
  }

  lemma PadOne(s: string)
    requires s != ""
    ensures Pad(s, 2) == if |s| < 2 then "0" + s else s
  {
    if |s| < 2 { assert Zeros(1) == "0" + Zeros(0) && Zeros(0) == ""; }
  }

  lemma EvalConcat(a: Expr, c: Expr, f: Value, b: Value, s: string, t: string)
    requires Eval(a, f, b) == Str(s) && Eval(c, f, b) == Str(t)
    ensures Eval(Concat(a, c), f, b) == Str(s + t)
  {
  }

  lemma ModWhole(a: int, n: int)
    requires a >= 0 && n > 0
    ensures ModOf(a as real, n as real) == Number((a % n) as real)
  {
    assert (a as real).Floor == a && (n as real).Floor == n;
  }

  lemma EvalLabel(date: Expr, tz: int, fyStart: int, f: Value, b: Value, ms: int)
    requires Eval(date, f, b) == Date(ms) && FiscalYearOf(DayAt(ms, tz), fyStart) >= 0
    ensures Eval(LabelExpr(date, tz, fyStart), f, b) == Str(FiscalYearLabel(DayAt(ms, tz), fyStart))
  {
    EvalFiscalYear(date, tz, fyStart, f, b, ms);
    EvalLabelText(FiscalYearExpr(date, tz, fyStart), f, b, FiscalYearOf(DayAt(ms, tz), fyStart));
  }

  lemma EvalLabelText(fy: Expr, f: Value, b: Value, y: nat)
    requires Eval(fy, f, b) == Number(y as real)
    ensures Eval(ToString(fy), f, b) == Str(DecInt(y))
    ensures Eval(Concat(Concat(ToString(fy), TextE("-")), Pad2Expr(Mod(Add(fy, NumberE(1)), NumberE(100)))), f, b)
         == Str(DecInt(y) + "-" + Pad2((y + 1) % 100))
  {
    EvalToString(fy, f, b, y);
    EvalConcat(ToString(fy), TextE("-"), f, b, DecInt(y), "-");
    EvalAddMod(fy, f, b, y, 1, 100);
    EvalPad2(Mod(Add(fy, NumberE(1)), NumberE(100)), f, b, (y + 1) % 100);
    EvalConcat(Concat(ToString(fy), TextE("-")), Pad2Expr(Mod(Add(fy, NumberE(1)), NumberE(100))), f, b,
               DecInt(y) + "-", Pad2((y + 1) % 100));
  }

  lemma EvalQuarter(date: Expr, tz: int, fyStart: int, f: Value, b: Value, ms: int)
    requires Eval(date, f, b) == Date(ms) && IsMonth(fyStart)
    ensures Eval(QuarterExpr(date, tz, fyStart), f, b)
         == Number(((Month0Of(DayAt(ms, tz)) + 1 - fyStart + 12) % 12 / 3 + 1) as real)
  {
    EvalYear(date, tz, f, b, ms);
    EvalQuarterOf(MonthE(date, tz), f, b, Month0Of(DayAt(ms, tz)) + 1, fyStart);
  }

  lemma EvalQuarterOf(month: Expr, f: Value, b: Value, m: int, fyStart: int)
    requires Eval(month, f, b) == Number(m as real) && m - fyStart + 12 >= 0
    ensures Eval(Add(Floor(Divide(Mod(Add(Subtract(month, NumberE(fyStart)), NumberE(12)), NumberE(12)), NumberE(3))), NumberE(1)), f, b)
         == Number(((m - fyStart + 12) % 12 / 3 + 1) as real)
  {
    EvalMonths(month, f, b, m, fyStart);
    EvalThirds(Mod(Add(Subtract(month, NumberE(fyStart)), NumberE(12)), NumberE(12)), f, b, (m - fyStart + 12) % 12);
  }

  lemma EvalMonths(month: Expr, f: Value, b: Value, m: int, fyStart: int)
    requires Eval(month, f, b) == Number(m as real) && m - fyStart + 12 >= 0
    ensures Eval(Mod(Add(Subtract(month, NumberE(fyStart)), NumberE(12)), NumberE(12)), f, b)
         == Number(((m - fyStart + 12) % 12) as real)
  {
    EvalDifference(month, f, b, m, fyStart);
    EvalAddMod(Subtract(month, NumberE(fyStart)), f, b, m - fyStart, 12, 12);
  }

  lemma EvalDifference(e: Expr, f: Value, b: Value, m: int, k: int)
    requires Eval(e, f, b) == Number(m as real)
    ensures Eval(Subtract(e, NumberE(k)), f, b) == Number((m - k) as real)
  {
    assert Eval(NumberE(k), f, b) == Number(k as real);
  }

  lemma EvalSum(e: Expr, f: Value, b: Value, m: int, k: int)
    requires Eval(e, f, b) == Number(m as real)
    ensures Eval(Add(e, NumberE(k)), f, b) == Number((m + k) as real)
  {
    assert Eval(NumberE(k), f, b) == Number(k as real);
  }

  lemma EvalMod(e: Expr, f: Value, b: Value, m: int, k: int)
    requires Eval(e, f, b) == Number(m as real) && m >= 0 && k > 0
    ensures Eval(Mod(e, NumberE(k)), f, b) == Number((m % k) as real)
  {
    assert Eval(NumberE(k), f, b) == Number(k as real);
    ModWhole(m, k);
  }

  lemma EvalAddMod(e: Expr, f: Value, b: Value, n: int, k: int, modulus: int)
    requires Eval(e, f, b) == Number(n as real) && n + k >= 0 && modulus > 0
    ensures Eval(Mod(Add(e, NumberE(k)), NumberE(modulus)), f, b) == Number(((n + k) % modulus) as real)
  {
    EvalSum(e, f, b, n, k);
    EvalMod(Add(e, NumberE(k)), f, b, n + k, modulus);
  }

  lemma EvalThirds(e: Expr, f: Value, b: Value, k: int)
    requires Eval(e, f, b) == Number(k as real)
    ensures Eval(Add(Floor(Divide(e, NumberE(3))), NumberE(1)), f, b) == Number((k / 3 + 1) as real)
  {
    EvalThird(e, f, b, k);
    EvalSum(Floor(Divide(e, NumberE(3))), f, b, k / 3, 1);
  }

  lemma EvalThird(e: Expr, f: Value, b: Value, k: int)
    requires Eval(e, f, b) == Number(k as real)
    ensures Eval(Floor(Divide(e, NumberE(3))), f, b) == Number((k / 3) as real)
  {
    assert Eval(NumberE(3), f, b) == Number(3.0);
    assert Eval(Divide(e, NumberE(3)), f, b) == Number(k as real / 3.0);
    ThirdFloor(k);
  }

  lemma ThirdFloor(k: int)
    ensures (k as real / 3.0).Floor == k / 3
  {
    var q, r := k / 3, k % 3;
    assert k as real == 3.0 * (q as real) + r as real;
    assert q as real <= k as real / 3.0 < q as real + 1.0;
  }

  lemma EvalGuard(date: Expr, e: Expr, f: Value, b: Value)
    requires Eval(date, f, b) != Failed
    ensures Eval(Guard(date, e), f, b) == if Eval(date, f, b).Date? then Eval(e, f, b) else Null
  {
    EvalTypeTest(date, f, b);
    EvalCond(Eq(TypeOf(date), TextE("date")), e, Const(Null), f, b, Eval(date, f, b).Date?);
  }

  lemma EvalTypeTest(date: Expr, f: Value, b: Value)
    requires Eval(date, f, b) != Failed
    ensures Eval(Eq(TypeOf(date), TextE("date")), f, b) == Boolean(Eval(date, f, b).Date?)
  {
    NameOfDate(Eval(date, f, b));
    assert Eval(TypeOf(date), f, b) == TypeName(Eval(date, f, b));
    assert Eval(TextE("date"), f, b) == Str("date");
  }

  lemma NameOfDate(v: Value)
    requires v != Failed
    ensures TypeName(v) != Failed && (TypeName(v) == Str("date") <==> v.Date?)
  {
    assert "date"[0] != "null"[0] && "date"[0] != "bool"[0] && "date"[1] != "double"[1] && "date"[0] != "string"[0];
  }

  // ---- ISO weeks ----

  /// The week number by Thursday is the ISO 8601 week number.
  lemma ThursdayRule(n: int)
    ensures YearOf(Thursday(n)) == IsoYear(n) && WeekNumber(Thursday(n)) == IsoWeek(n)
  {
    YearByThursday(n, Thursday(n), YearOf(Thursday(n)));
    WeekOfThursday(n);
    DayInWeek(n);
    WeekIs(n, Monday(n), Week1(YearOf(Thursday(n))), WeekNumber(Thursday(n)));
  }

  lemma YearByThursday(n: int, th: int, y: int)
    requires th == Thursday(n) && y == YearOf(th)
    ensures IsoYear(n) == y
  {
    WeekOfThursday(n);
    DayInWeek(n);
    BeforeNextWeek1(n);
    YearNear(n, th);
    IsoYearIs(n, y);
  }

  lemma DayInWeek(n: int)
    ensures Monday(n) <= n < Monday(n) + 7 && -3 <= Thursday(n) - n <= 3
  {
  }

  lemma WeekIs(n: int, monday: int, week1: int, w: int)
    requires week1 + (w - 1) * 7 == monday && monday <= n < monday + 7
    ensures (n - week1) / 7 + 1 == w
  {
  }

  lemma IsoYearIs(n: int, y: int)
    requires Week1(y) <= n < Week1(y + 1) && -1 <= YearOf(n) - y <= 1
    ensures IsoYear(n) == y
  {
    var m := YearOf(n);
    Week1Order(y - 1);
    IsoYearFrom(n, m, y);
  }

  lemma IsoYearFrom(n: int, m: int, y: int)
    requires m == YearOf(n) && -1 <= m - y <= 1
    requires Week1(y - 1) <= Week1(y) <= n < Week1(y + 1)
    ensures IsoYear(n) == y
  {
    if m == y - 1 { assert Week1(m + 1) == Week1(y); } else if m == y + 1 { assert Week1(m) == Week1(y + 1); }
  }

  lemma Week1Order(y: int)
    ensures Week1(y) <= Week1(y + 1)
  {
    MonthsApart(12 * y, 12 * y + 12);
  }

  lemma BeforeNextWeek1(n: int)
    ensures n < Week1(YearOf(Thursday(n)) + 1)
  {
    var th := Thursday(n);
    var k := 12 * YearOf(th);
    MonthsInOrder(th, k + 12);
    assert Utc(YearOf(th) + 1, 0, 4) == MonthStart(k + 12) + 3;
    MondayAfter(th, MonthStart(k + 12));
  }

  lemma MondayAfter(thursday: int, jan1: int)
    requires Weekday(thursday) == 4 && thursday < jan1
    ensures thursday + 3 < jan1 + 3 - (Weekday(jan1 + 3) + 6) % 7
  {
  }

  lemma YearNear(n: int, th: int)
    requires -3 <= th - n <= 3
    ensures -1 <= YearOf(n) - YearOf(th) <= 1
  {
    var k := MonthOf(n);
    MonthsApart(k - 1, k);
    MonthsApart(k + 1, k + 2);
    MonthsInOrder(th, k - 1);
    MonthsInOrder(th, k + 2);
  }

  // ---- main results ----

  lemma PrintIsKey(n: int, bucket: Bucket, fyStart: int, format: Format)
    requires FourDigitYear(n) && (bucket == WeekB ==> FourDigitYear(Thursday(n)))
    requires || (bucket == DayB && format == YmdF) || (bucket == WeekB && format == IsoWeekF)
             || (bucket == MonthB && format == YearMonthF) || (bucket == YearB && format == YearF)
    ensures Print(n, format) == KeyOfDay(n, bucket, fyStart)
  {
    match bucket
    case DayB => DayPrint(n);
    case WeekB => WeekPrint(n);
    case MonthB => FourDigits(YearOf(n));
    case YearB => FourDigits(YearOf(n));
  }

  lemma DayPrint(n: int)
    requires FourDigitYear(n)
    ensures Print(n, YmdF) == Iso(n)
  {
    IsoParts(n);
    DayBounds(n);
  }

  lemma WeekPrint(n: int)
    requires FourDigitYear(Thursday(n))
    ensures Print(n, IsoWeekF) == WeekKey(n)
  {
    ThursdayRule(n);
    FourDigits(YearOf(Thursday(n)));
  }

  lemma BucketOfDate(date: Expr, tz: int, isDateString: bool, bucket: Bucket, fyStart: int, offset: int, f: Value, ms: int)
    requires date == (if isDateString then DateFromString(Ref(Field)) else Ref(Field))
    requires tz == (if isDateString then 0 else offset)
    requires Eval(date, f, Null) == Date(ms) && IsMonth(fyStart)
    requires FourDigitYear(DayAt(ms, tz)) && (bucket == WeekB ==> FourDigitYear(Thursday(DayAt(ms, tz))))
    ensures Eval(BucketExpr(isDateString, bucket, fyStart, offset), f, Null)
         == Str(KeyOfDay(DayAt(ms, tz), bucket, fyStart))
  {
    var n := DayAt(ms, tz);
    match bucket
    case DayB => EvalPrint(date, tz, f, ms, DayB, fyStart, YmdF);
    case WeekB => EvalPrint(date, tz, f, ms, WeekB, fyStart, IsoWeekF);
    case MonthB => EvalPrint(date, tz, f, ms, MonthB, fyStart, YearMonthF);
    case YearB => EvalPrint(date, tz, f, ms, YearB, fyStart, YearF);
    case FiscalYearB =>
      EvalLabel(date, tz, fyStart, f, Null, ms);
      EvalGuard(date, LabelExpr(date, tz, fyStart), f, Null);
    case QuarterB => EvalQuarterKey(date, tz, f, ms, fyStart);
  }

  lemma EvalPrint(date: Expr, tz: int, f: Value, ms: int, bucket: Bucket, fyStart: int, format: Format)
    requires Eval(date, f, Null) == Date(ms)
    requires FourDigitYear(DayAt(ms, tz)) && (bucket == WeekB ==> FourDigitYear(Thursday(DayAt(ms, tz))))
    requires || (bucket == DayB && format == YmdF) || (bucket == WeekB && format == IsoWeekF)
             || (bucket == MonthB && format == YearMonthF) || (bucket == YearB && format == YearF)
    ensures Eval(DateToString(date, format, tz), f, Null) == Str(KeyOfDay(DayAt(ms, tz), bucket, fyStart))
  {
    PrintIsKey(DayAt(ms, tz), bucket, fyStart, format);
  }

  lemma EvalQuarterKey(date: Expr, tz: int, f: Value, ms: int, fyStart: int)
    requires Eval(date, f, Null) == Date(ms) && IsMonth(fyStart) && FourDigitYear(DayAt(ms, tz))
    ensures var e := Concat(Concat(LabelExpr(date, tz, fyStart), TextE(" Q")), ToString(QuarterExpr(date, tz, fyStart)));
            Eval(Guard(date, e), f, Null) == Str(QuarterKey(DayAt(ms, tz), fyStart))
  {
    var n := DayAt(ms, tz);
    var q := (Month0Of(n) + 1 - fyStart + 12) % 12 / 3 + 1;
    var l, k := LabelExpr(date, tz, fyStart), QuarterExpr(date, tz, fyStart);
    EvalLabel(date, tz, fyStart, f, Null, ms);
    EvalQuarter(date, tz, fyStart, f, Null, ms);
    EvalToString(k, f, Null, q);
    EvalConcat(l, TextE(" Q"), f, Null, FiscalYearLabel(n, fyStart), " Q");
    EvalConcat(Concat(l, TextE(" Q")), ToString(k), f, Null, FiscalYearLabel(n, fyStart) + " Q", DecInt(q));
    EvalGuard(date, Concat(Concat(l, TextE(" Q")), ToString(k)), f, Null);
  }

  /// For a date text the database computes the same key as `BucketKey`.
  lemma DateStringKey(n: int, bucket: Bucket, fyStart: int, offset: int)
    requires FourDigitYear(n) && (bucket == WeekB ==> FourDigitYear(Thursday(n))) && IsMonth(fyStart)
    ensures |Iso(n)| >= 10 && IsDateText(Iso(n)[..10])
    ensures Eval(BucketExpr(true, bucket, fyStart, offset), Str(Iso(n)), Null)
         == Str(BucketKey(Iso(n), bucket, fyStart))
  {
    ParseIso(n);
    RealDate(n);
    assert Iso(n)[..10] == Iso(n);
    assert Eval(Ref(Field), Str(Iso(n)), Null) == Str(Iso(n));
    DayOfMidnight(n);
    BucketOfDate(DateFromString(Ref(Field)), 0, true, bucket, fyStart, offset, Str(Iso(n)), n * DAY_MS);
  }

  lemma DayOfMidnight(n: int)
    ensures DayAt(n * DAY_MS, 0) == n
  {
  }

  lemma RealDate(n: int)
    requires FourDigitYear(n)
    ensures IsRealDate(Iso(n))
  {
    ParseIso(n);
    IsoParts(n);
    DayBounds(n);
    NextMonth(MonthOf(n));
    IsoNumbers(n);
  }

  lemma IsoNumbers(n: int)
    requires FourDigitYear(n)
    ensures var s := Iso(n);
            |s| == 10 && IsDigits(s[..4]) && IsDigits(s[5..7]) && IsDigits(s[8..])
            && Num(s[..4]) == YearOf(n) && Num(s[5..7]) == Month0Of(n) + 1 && Num(s[8..]) == DayOf(n)
  {
    var y, m, d := Dec(YearOf(n)), Pad2(Month0Of(n) + 1), Pad2(DayOf(n));
    IsoParts(n);
    DayBounds(n);
    NumDec(YearOf(n));
    TwoDigits(Month0Of(n) + 1);
    TwoDigits(DayOf(n));
    assert Iso(n) == y + "-" + m + "-" + d;
    assert Iso(n)[..4] == y && Iso(n)[5..7] == m && Iso(n)[8..] == d;
  }

  /// For an instant it computes the key of the local day.
  lemma InstantKey(ms: int, bucket: Bucket, fyStart: int, offset: int)
    requires FourDigitYear(DayAt(ms, offset)) && IsMonth(fyStart)
    requires bucket == WeekB ==> FourDigitYear(Thursday(DayAt(ms, offset)))
    ensures Eval(BucketExpr(false, bucket, fyStart, offset), Date(ms), Null)
         == Str(KeyOfDay(DayAt(ms, offset), bucket, fyStart))
  {
    BucketOfDate(Ref(Field), offset, false, bucket, fyStart, offset, Date(ms), ms);
  }

  /// Anything but a real date groups under null, in every bucket.
  lemma NotADate(field: Value, bucket: Bucket, fyStart: int, offset: int)
    requires field != Failed && !(field.Str? && IsRealDate(field.s))
    ensures Eval(BucketExpr(true, bucket, fyStart, offset), field, Null) == Null
  {
    var date := DateFromString(Ref(Field));
    assert Eval(Ref(Field), field, Null) == field;
    assert Eval(date, field, Null) == Null;
    match bucket
    case FiscalYearB => EvalGuard(date, LabelExpr(date, 0, fyStart), field, Null);
    case QuarterB =>
      EvalGuard(date, Concat(Concat(LabelExpr(date, 0, fyStart), TextE(" Q")), ToString(QuarterExpr(date, 0, fyStart))),
                field, Null);
    case _ =>
  }
}
