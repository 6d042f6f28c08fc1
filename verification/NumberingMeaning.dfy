/// When numbers share a counter, and what a number shows of its date.

module NumberingMeaning {
  import opened Basics
  import opened Text
  import opened Calendar
  import opened Buckets
  import opened Numbering

  // ---- periods ----

  /// The day lies in the fiscal year that starts in month `fyStart` of year `y`.
  predicate InFiscalYear(n: int, y: int, fyStart: int) {
    MonthStart(12 * y + fyStart - 1) <= n < MonthStart(12 * (y + 1) + fyStart - 1)
  }

  lemma {:induction false} FiscalYearIs(n: int, y: int, fyStart: int)
    requires IsMonth(fyStart)
    ensures InFiscalYear(n, y, fyStart) <==> FiscalYearOf(n, fyStart) == y
  {
    MonthsInOrder(n, 12 * y + fyStart - 1);
    MonthsInOrder(n, 12 * (y + 1) + fyStart - 1);
  }

  lemma {:induction false} DecDiffer(a: nat, b: nat)
    ensures Dec(a) == Dec(b) <==> a == b
  {
    NumDec(a);
    NumDec(b);
  }

  lemma {:induction false} DecIntDiffer(a: int, b: int)
    ensures DecInt(a) == DecInt(b) <==> a == b
  {
    SignShows(a);
    SignShows(b);
    if a >= 0 && b >= 0 {
      DecDiffer(a, b);
    } else if a < 0 && b < 0 {
      DecDiffer(-a, -b);
      assert ("-" + Dec(-a))[1..] == Dec(-a) && ("-" + Dec(-b))[1..] == Dec(-b);
    }
  }

  lemma {:induction false} SignShows(a: int)
    ensures DecInt(a) != "" && (DecInt(a)[0] == '-' <==> a < 0)
  {
    if a >= 0 { assert IsDigit(Dec(a)[0]); }
  }

  predicate SameMonth(m: int, n: int) { MonthOf(m) == MonthOf(n) }

  ghost predicate SameFiscal(m: int, n: int, fyStart: int) {
    exists y :: InFiscalYear(m, y, fyStart) && InFiscalYear(n, y, fyStart)
  }

  lemma {:induction false} MonthText(m: int)
    requires FourDigitYear(m)
    ensures Take(Iso(m), 7) == Dec(YearOf(m)) + "-" + Pad2(Month0Of(m) + 1)
  {
    IsoParts(m);
    var y, mm, d := Dec(YearOf(m)), Pad2(Month0Of(m) + 1), Pad2(DayOf(m));
    assert Iso(m) == (y + "-" + mm) + ("-" + d);
  }

  lemma {:induction false} SameMonthText(m: int, n: int)
    requires FourDigitYear(m) && FourDigitYear(n)
    ensures Take(Iso(m), 7) == Take(Iso(n), 7) <==> SameMonth(m, n)
  {
    MonthText(m);
    MonthText(n);
    IsoParts(m);
    IsoParts(n);
    var a, b := Take(Iso(m), 7), Take(Iso(n), 7);
    if a == b {
      assert a[..4] == Dec(YearOf(m)) && b[..4] == Dec(YearOf(n));
      assert a[5..] == Pad2(Month0Of(m) + 1) && b[5..] == Pad2(Month0Of(n) + 1);
      NumDec(YearOf(m));
      NumDec(YearOf(n));
      TwoDigits(Month0Of(m) + 1);
      TwoDigits(Month0Of(n) + 1);
    }
  }

  /// A counter starts again with every period of its series: never, with the fiscal year, or
  /// with the month.
  lemma {:induction false} SamePeriod(reset: Reset, m: int, n: int, fyStart: int)
    requires IsMonth(fyStart) && FourDigitYear(m) && FourDigitYear(n)
    ensures NumberingPeriod(reset, m, fyStart) == NumberingPeriod(reset, n, fyStart) <==>
            match reset
            case Never => true
            case Yearly => SameFiscal(m, n, fyStart)
            case Monthly => SameMonth(m, n)
  {
    match reset
    case Never =>
    case Yearly => SameYearly(m, n, fyStart);
    case Monthly => SameMonthText(m, n);
  }

  lemma {:induction false} SameYearly(m: int, n: int, fyStart: int)
    requires IsMonth(fyStart)
    ensures NumberingPeriod(Yearly, m, fyStart) == NumberingPeriod(Yearly, n, fyStart) <==> SameFiscal(m, n, fyStart)
  {
    var a, b := FiscalYearOf(m, fyStart), FiscalYearOf(n, fyStart);
    DecIntDiffer(a, b);
    FiscalYearIs(m, a, fyStart);
    FiscalYearIs(n, a, fyStart);
    assert ("FY" + DecInt(a))[2..] == DecInt(a) && ("FY" + DecInt(b))[2..] == DecInt(b);
    if SameFiscal(m, n, fyStart) {
      var y :| InFiscalYear(m, y, fyStart) && InFiscalYear(n, y, fyStart);
      FiscalYearIs(m, y, fyStart);
      FiscalYearIs(n, y, fyStart);
    }
  }

  // ---- whose counter ----

  predicate Defines(layers: map<string, set<string>>, id: string, key: string) { id in layers && key in layers[id] }

  /// The lowest unit on the path whose own layer defines the series has its counter, the
  /// company if there is none.
  lemma {:induction false} LowestDefines(ids: seq<string>, layers: map<string, set<string>>, key: string, i: nat)
    requires i < |ids| && Defines(layers, ids[i], key)
    requires forall j :: i < j < |ids| ==> !Defines(layers, ids[j], key)
    ensures DefiningLayer(ids, layers, key) == ids[i]
  {
    var n := |ids| - 1;
    if i < n {
      assert !Defines(layers, ids[n], key);
      forall j | i < j < n ensures !Defines(layers, ids[..n][j], key) { assert ids[..n][j] == ids[j]; }
      LowestDefines(ids[..n], layers, key, i);
    }
  }

  lemma {:induction false} NobodyDefines(ids: seq<string>, layers: map<string, set<string>>, key: string)
    requires forall j :: 0 <= j < |ids| ==> !Defines(layers, ids[j], key)
    ensures DefiningLayer(ids, layers, key) == "company"
  {
    if ids != [] {
      assert !Defines(layers, ids[|ids| - 1], key);
      NobodyDefines(ids[..|ids| - 1], layers, key);
    }
  }

  /// Two requests of a series draw from one counter when they are for the same period and the
  /// same unit: their own where the series counts by unit, else the one that defines it.
  lemma {:induction false} SameCounter(cfg: Effective, s: Series, a: NumberRequest, b: NumberRequest)
    requires IsMonth(cfg.fyStart) && FourDigitYear(a.date) && FourDigitYear(b.date)
    requires !LacksUnit(s, a) && !LacksUnit(s, b)
    ensures CounterFor(cfg, s, a) == CounterFor(cfg, s, b) <==>
              && (if s.perOrgUnit then a.orgUnitId == b.orgUnitId
                  else DefiningLayer(a.pathIds, cfg.layers, s.key) == DefiningLayer(b.pathIds, cfg.layers, s.key))
              && (s.reset == Yearly ==> SameFiscal(a.date, b.date, cfg.fyStart))
              && (s.reset == Monthly ==> SameMonth(a.date, b.date))
  {
    SamePeriod(s.reset, a.date, b.date, cfg.fyStart);
  }

  // ---- what tokens show ----

  /// The text is `value` written with `width` digits, or more where it needs them.
  predicate Shows(text: string, value: nat, width: nat) { IsDigits(text) && Num(text) == value && |text| >= width }

  lemma {:induction false} LongTokens(input: RenderInput, width: string)
    requires IsDigits(width)
    ensures RenderPiece(Token("YYYY", ""), input) == DecInt(YearOf(input.date))
    ensures RenderPiece(Token("BRANCH", ""), input) == input.branch
    ensures RenderPiece(Token("SEQ", width), input) == Pad(Dec(input.number), WidthOf(width))
  {
    assert |"YYYY"| == 4 && |"FY"| == 2 && |"YY"| == 2 && |"MM"| == 2 && |"DD"| == 2;
    assert |"BRANCH"| == 6 && |"SEQ"| == 3;
  }

  lemma {:induction false} ShortTokens(input: RenderInput)
    ensures RenderPiece(Token("FY", ""), input) == FiscalYearLabel(input.date, input.fyStart)
    ensures RenderPiece(Token("YY", ""), input) == Pad2(YearOf(input.date) % 100)
    ensures RenderPiece(Token("MM", ""), input) == Pad2(Month0Of(input.date) + 1)
    ensures RenderPiece(Token("DD", ""), input) == DayText(input.date)
  {
    assert "FY"[0] == 'F' && "YY"[0] == 'Y' && "MM"[0] == 'M' && "DD"[0] == 'D';
    assert |"YYYY"| == 4 && |"FY"| == 2 && |"YY"| == 2 && |"MM"| == 2 && |"DD"| == 2;
  }

  /// Of a day in month `m` of year `y`, the date tokens show the year, its last two digits,
  /// the month and the day of the month.
  lemma {:induction false} DateTokens(input: RenderInput, y: int, m: int, d: int)
    requires 1000 <= y <= 9999 && 1 <= m <= 12
    requires MonthStart(12 * y + m - 1) <= input.date < MonthStart(12 * y + m)
    requires d == input.date - MonthStart(12 * y + m - 1) + 1
    ensures Shows(RenderPiece(Token("YYYY", ""), input), y, 4)
    ensures Shows(RenderPiece(Token("YY", ""), input), y % 100, 2)
    ensures Shows(RenderPiece(Token("MM", ""), input), m, 2)
    ensures 1 <= d <= 31 && Shows(RenderPiece(Token("DD", ""), input), d, 2)
  {
    DateParts(input.date, y, m, d);
    LongTokens(input, "");
    ShortTokens(input);
    YearShows(y);
    TwoDigits(y % 100);
    TwoDigits(m);
    TwoDigits(d);
  }

  lemma {:induction false} DateParts(n: int, y: int, m: int, d: int)
    requires 1 <= m <= 12 && MonthStart(12 * y + m - 1) <= n < MonthStart(12 * y + m)
    requires d == n - MonthStart(12 * y + m - 1) + 1
    ensures YearOf(n) == y && Month0Of(n) + 1 == m && DayOf(n) == d && 1 <= d <= 31
  {
    MonthUnique(n, 12 * y + m - 1);
    DayBounds(n);
  }

  lemma {:induction false} YearShows(y: int)
    requires 1000 <= y <= 9999
    ensures DecInt(y) == Dec(y) && Shows(Dec(y), y, 4)
  {
    FourDigits(y);
    NumDec(y);
  }

  /// `FY` shows the year the fiscal year starts in, and unless it is the calendar year the
  /// last two digits of the next.
  lemma {:induction false} FiscalToken(input: RenderInput, y: int)
    requires IsMonth(input.fyStart) && InFiscalYear(input.date, y, input.fyStart) && 1000 <= y <= 9999
    ensures var fy := RenderPiece(Token("FY", ""), input);
            && |fy| >= 4 && Shows(fy[..4], y, 4)
            && (input.fyStart == 1 ==> |fy| == 4)
            && (input.fyStart != 1 ==> |fy| == 7 && fy[4] == '-' && Shows(fy[5..], (y + 1) % 100, 2))
  {
    FiscalYearIs(input.date, y, input.fyStart);
    ShortTokens(input);
    FourDigits(y);
    NumDec(y);
    TwoDigits((y + 1) % 100);
    if input.fyStart != 1 {
      var a, b := Dec(y), Pad2((y + 1) % 100);
      assert (a + "-" + b)[..4] == a && (a + "-" + b)[5..] == b;
    } else {
      assert Dec(y)[..4] == Dec(y);
    }
  }

  /// `BRANCH` shows the branch code, `SEQ` the running number in at least its width.
  lemma {:induction false} NumberTokens(input: RenderInput, width: string)
    requires IsDigits(width)
    ensures RenderPiece(Token("BRANCH", ""), input) == input.branch
    ensures Shows(RenderPiece(Token("SEQ", width), input), input.number, if width == "" then 1 else Num(width))
  {
    LongTokens(input, width);
    NumPad(input.number, if width == "" then 1 else Num(width));
  }

  /// The branch code is the unit's own code, else the last four characters of its id in capitals.
  lemma {:induction false} BranchShows(req: NumberRequest)
    ensures req.orgCode.Some? ==> BranchCode(req) == req.orgCode.value
    ensures req.orgCode.None? && req.orgUnitId.None? ==> BranchCode(req) == ""
    ensures req.orgCode.None? && req.orgUnitId.Some? && |req.orgUnitId.value| >= 4 ==>
              var id := req.orgUnitId.value;
              |BranchCode(req)| == 4 && forall k :: 0 <= k < 4 ==> BranchCode(req)[k] == UpperChar(id[|id| - 4 + k])
    ensures req.orgCode.None? && req.orgUnitId.Some? && |req.orgUnitId.value| < 4 ==>
              BranchCode(req) == Upper(req.orgUnitId.value)
  {
    if req.orgCode.None? && req.orgUnitId.Some? && |req.orgUnitId.value| >= 4 {
      var id := req.orgUnitId.value;
      assert BranchCode(req) == Upper(id[|id| - 4..]) by { assert |id| == 4 ==> id[0..] == id; }
    }
  }
}
