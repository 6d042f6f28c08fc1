/// Relative periods such as "this quarter" or "last week", and the period before a range.

module RelativePeriods {
  import opened Basics
  import opened Calendar
  import opened Buckets

  datatype Period =
    | Today | Yesterday | ThisWeek | LastWeek | ThisMonth | LastMonth | ThisQuarter | LastQuarter
    | ThisFiscalYear | LastFiscalYear | LastNDays | NextNDays


  /// Where the three or twelve months around day `d` begin, counted from the fiscal new year.
  function FiscalStart(d: int, fyStart: int, months: int): int
    requires months == 3 || months == 12
  {
    var intoFy := (Month0Of(d) - (fyStart - 1) + 12) % 12;
    var back := if months == 3 then intoFy % 3 else intoFy % 12;
    Utc(YearOf(d), Month0Of(d) - back, 1)
  }

  function Max(a: int, b: int): int { if a < b then b else a }

  function AddMonths(s: int, months: int): int { Utc(YearOf(s), Month0Of(s) + months, 1) }

  function AddYears(s: int, years: int): int { Utc(YearOf(s) + years, Month0Of(s), 1) }

  function CountOf(n: Option<int>): int { Max(1, if n.Some? then n.value else 7) }

  function RelativeDays(period: Period, today: int, fyStart: int, n: Option<int>): Days {
    var y, m := YearOf(today), Month0Of(today);
    var days := CountOf(n);
    var weekStart := today - (Weekday(today) + 6) % 7;
    match period
    case Today => Days(today, today + 1)
    case Yesterday => Days(today - 1, today)
    case ThisWeek => Days(weekStart, weekStart + 7)
    case LastWeek => Days(weekStart - 7, weekStart)
    case ThisMonth => Days(Utc(y, m, 1), Utc(y, m + 1, 1))
    case LastMonth => Days(Utc(y, m - 1, 1), Utc(y, m, 1))
    case ThisQuarter =>
      var s := FiscalStart(today, fyStart, 3);
      Days(s, AddMonths(s, 3))
    case LastQuarter =>
      var s := FiscalStart(today, fyStart, 3);
      Days(AddMonths(s, -3), s)
    case ThisFiscalYear =>
      var s := FiscalStart(today, fyStart, 12);
      Days(s, AddYears(s, 1))
    case LastFiscalYear =>
      var s := FiscalStart(today, fyStart, 12);
      Days(AddYears(s, -1), s)
    case LastNDays => Days(today - (days - 1), today + 1)
    case NextNDays => Days(today, today + days)
  }

  function ResolveRelative(period: Period, today: int, fyStart: int, n: Option<int>): DateRange {
    var d := RelativeDays(period, today, fyStart, n);
    Range(d.from, d.to)
  }

  /// Calendar months between the months of two days.
  function MonthsBetween(from: int, to: int): int {
    (YearOf(to) - YearOf(from)) * 12 + Month0Of(to) - Month0Of(from)
  }

  /// The first day of the range before `[from, to)`.
  function PreviousStart(from: int, to: int): int {
    if DayOf(from) == 1 && DayOf(to) == 1 && MonthsBetween(from, to) >= 1
    then Utc(YearOf(from), Month0Of(from) - MonthsBetween(from, to), 1)
    else from - (to - from)
  }

  /// `None` for a range that is not two dates, where the source throws.
  function PreviousRange(r: DateRange): Option<DateRange> {
    if IsDateText(r.from) && IsDateText(r.to)
    then Some(DateRange(Iso(PreviousStart(ParseDate(r.from), ParseDate(r.to))), r.from))
    else None
  }

  // ---- the start of the previous range ----

  lemma MonthsBetweenMonths(from: int, to: int)
    ensures MonthsBetween(from, to) == MonthOf(to) - MonthOf(from)
  {
  }

  /// A range of whole months is preceded by as many whole months.
  lemma PreviousOfMonths(k: int, months: nat)
    requires months >= 1
    ensures PreviousStart(MonthStart(k), MonthStart(k + months)) == MonthStart(k - months)
  {
    MonthOfFirst(k);
    MonthOfFirst(k + months);
    PreviousAligned(MonthStart(k), MonthStart(k + months), k, months);
  }

  lemma PreviousAligned(from: int, to: int, k: int, months: nat)
    requires DayOf(from) == 1 && DayOf(to) == 1 && MonthOf(from) == k && MonthOf(to) == k + months
    requires months >= 1
    ensures PreviousStart(from, to) == MonthStart(k - months)
  {
    MonthsBetweenMonths(from, to);
    assert 12 * YearOf(from) + Month0Of(from) == k;
  }

  /// Any other range is preceded by as many days.
  lemma PreviousOfDays(from: int, to: int)
    requires from <= to < from + 28 || DayOf(from) != 1 || DayOf(to) != 1
    ensures PreviousStart(from, to) == from - (to - from)
  {
    MonthsBetweenMonths(from, to);
    if MonthOf(to) > MonthOf(from) && DayOf(from) == 1 && DayOf(to) == 1 {
      MonthsApart(MonthOf(from), MonthOf(to));
    }
  }

  lemma PreviousText(from: int, to: int)
    requires FourDigitYear(from) && FourDigitYear(to)
    ensures PreviousRange(Range(from, to)) == Some(Range(PreviousStart(from, to), from))
  {
    ParseIso(from);
    ParseIso(to);
    PreviousOfTexts(Range(from, to), from, to);
  }

  lemma PreviousOfTexts(r: DateRange, from: int, to: int)
    requires IsDateText(r.from) && IsDateText(r.to) && r.from == Iso(from)
    requires ParseDate(r.from) == from && ParseDate(r.to) == to
    ensures PreviousRange(r) == Some(DateRange(Iso(PreviousStart(from, to)), r.from))
  {
  }

  // ---- "this" periods are bucket ranges ----

  function BucketOf(period: Period): Option<Bucket> {
    match period
    case Today => Some(DayB)
    case ThisWeek => Some(WeekB)
    case ThisMonth => Some(MonthB)
    case ThisQuarter => Some(QuarterB)
    case ThisFiscalYear => Some(FiscalYearB)
    case _ => None
  }

  function LastOf(period: Period): Period {
    match period
    case Today => Yesterday
    case ThisWeek => LastWeek
    case ThisMonth => LastMonth
    case ThisQuarter => LastQuarter
    case ThisFiscalYear => LastFiscalYear
    case p => p
  }

  lemma FiscalStartIsFirst(d: int, fyStart: int)
    requires IsMonth(fyStart)
    ensures FiscalStart(d, fyStart, 3) == MonthStart(FirstMonth(MonthOf(d), QuarterB, fyStart))
    ensures FiscalStart(d, fyStart, 12) == MonthStart(FirstMonth(MonthOf(d), FiscalYearB, fyStart))
  {
    var j := MonthOf(d) - (fyStart - 1);
    FiscalMonths(d, fyStart);
    assert (Month0Of(d) - (fyStart - 1) + 12) % 12 == j % 12;
    ModOfMod(j);
  }

  lemma ModOfMod(j: int)
    ensures j % 12 % 3 == j % 3
  {
    QuarterMonths(j);
  }

  lemma ThisDays(period: Period, today: int, fyStart: int, n: Option<int>, b: Bucket)
    requires BucketOf(period) == Some(b) && IsMonth(fyStart)
    ensures RelativeDays(period, today, fyStart, n) == Days(Start(today, b, fyStart), End(today, b, fyStart))
    ensures RelativeDays(LastOf(period), today, fyStart, n)
         == Days(StartBefore(today, b, fyStart), Start(today, b, fyStart))
  {
    match period
    case Today => TodayBucket(today, fyStart, n);
    case ThisWeek => ThisWeekBucket(today, fyStart, n);
    case ThisMonth => ThisMonthBucket(today, fyStart, n);
    case ThisQuarter => ThisQuarterBucket(today, fyStart, n, FirstMonth(MonthOf(today), QuarterB, fyStart));
    case ThisFiscalYear => ThisFiscalYearBucket(today, fyStart, n, FirstMonth(MonthOf(today), FiscalYearB, fyStart));
  }

  lemma TodayBucket(today: int, fyStart: int, n: Option<int>)
    requires IsMonth(fyStart)
    ensures RelativeDays(Today, today, fyStart, n) == Days(Start(today, DayB, fyStart), End(today, DayB, fyStart))
    ensures RelativeDays(Yesterday, today, fyStart, n)
         == Days(StartBefore(today, DayB, fyStart), Start(today, DayB, fyStart))
  {
  }

  lemma ThisWeekBucket(today: int, fyStart: int, n: Option<int>)
    requires IsMonth(fyStart)
    ensures RelativeDays(ThisWeek, today, fyStart, n) == Days(Start(today, WeekB, fyStart), End(today, WeekB, fyStart))
    ensures RelativeDays(LastWeek, today, fyStart, n)
         == Days(StartBefore(today, WeekB, fyStart), Start(today, WeekB, fyStart))
  {
  }

  lemma ThisMonthBucket(today: int, fyStart: int, n: Option<int>)
    requires IsMonth(fyStart)
    ensures RelativeDays(ThisMonth, today, fyStart, n) == Days(Start(today, MonthB, fyStart), End(today, MonthB, fyStart))
    ensures RelativeDays(LastMonth, today, fyStart, n)
         == Days(StartBefore(today, MonthB, fyStart), Start(today, MonthB, fyStart))
  {
    ThisMonthDays(today, fyStart, n);
  }

  lemma ThisQuarterBucket(today: int, fyStart: int, n: Option<int>, k: int)
    requires IsMonth(fyStart) && k == FirstMonth(MonthOf(today), QuarterB, fyStart)
    ensures RelativeDays(ThisQuarter, today, fyStart, n)
         == Days(Start(today, QuarterB, fyStart), End(today, QuarterB, fyStart))
    ensures RelativeDays(LastQuarter, today, fyStart, n)
         == Days(StartBefore(today, QuarterB, fyStart), Start(today, QuarterB, fyStart))
  {
    QuarterBounds(today, fyStart, k);
    ThisQuarterMonths(today, fyStart, n, k);
  }

  lemma QuarterBounds(today: int, fyStart: int, k: int)
    requires k == FirstMonth(MonthOf(today), QuarterB, fyStart)
    ensures Start(today, QuarterB, fyStart) == MonthStart(k)
    ensures End(today, QuarterB, fyStart) == MonthStart(k + 3)
    ensures StartBefore(today, QuarterB, fyStart) == MonthStart(k - 3)
  {
  }

  lemma ThisQuarterMonths(today: int, fyStart: int, n: Option<int>, k: int)
    requires IsMonth(fyStart) && k == FirstMonth(MonthOf(today), QuarterB, fyStart)
    ensures RelativeDays(ThisQuarter, today, fyStart, n) == Days(MonthStart(k), MonthStart(k + 3))
    ensures RelativeDays(LastQuarter, today, fyStart, n) == Days(MonthStart(k - 3), MonthStart(k))
  {
    FiscalStartIsFirst(today, fyStart);
    ThisQuarterDays(today, fyStart, n, k);
  }

  lemma ThisFiscalYearBucket(today: int, fyStart: int, n: Option<int>, k: int)
    requires IsMonth(fyStart) && k == FirstMonth(MonthOf(today), FiscalYearB, fyStart)
    ensures RelativeDays(ThisFiscalYear, today, fyStart, n)
         == Days(Start(today, FiscalYearB, fyStart), End(today, FiscalYearB, fyStart))
    ensures RelativeDays(LastFiscalYear, today, fyStart, n)
         == Days(StartBefore(today, FiscalYearB, fyStart), Start(today, FiscalYearB, fyStart))
  {
    FiscalYearBounds(today, fyStart, k);
    ThisFiscalYearMonths(today, fyStart, n, k);
  }

  lemma FiscalYearBounds(today: int, fyStart: int, k: int)
    requires k == FirstMonth(MonthOf(today), FiscalYearB, fyStart)
    ensures Start(today, FiscalYearB, fyStart) == MonthStart(k)
    ensures End(today, FiscalYearB, fyStart) == MonthStart(k + 12)
    ensures StartBefore(today, FiscalYearB, fyStart) == MonthStart(k - 12)
  {
  }

  lemma ThisFiscalYearMonths(today: int, fyStart: int, n: Option<int>, k: int)
    requires IsMonth(fyStart) && k == FirstMonth(MonthOf(today), FiscalYearB, fyStart)
    ensures RelativeDays(ThisFiscalYear, today, fyStart, n) == Days(MonthStart(k), MonthStart(k + 12))
    ensures RelativeDays(LastFiscalYear, today, fyStart, n) == Days(MonthStart(k - 12), MonthStart(k))
  {
    FiscalStartIsFirst(today, fyStart);
    ThisFiscalYearDays(today, fyStart, n, k);
  }

  lemma ThisMonthDays(today: int, fyStart: int, n: Option<int>)
    ensures RelativeDays(ThisMonth, today, fyStart, n)
         == Days(MonthStart(MonthOf(today)), MonthStart(MonthOf(today) + 1))
    ensures RelativeDays(LastMonth, today, fyStart, n)
         == Days(MonthStart(MonthOf(today) - 1), MonthStart(MonthOf(today)))
  {
    assert 12 * YearOf(today) + Month0Of(today) == MonthOf(today);
  }

  lemma ThisQuarterDays(today: int, fyStart: int, n: Option<int>, k: int)
    requires FiscalStart(today, fyStart, 3) == MonthStart(k)
    ensures RelativeDays(ThisQuarter, today, fyStart, n) == Days(MonthStart(k), MonthStart(k + 3))
    ensures RelativeDays(LastQuarter, today, fyStart, n) == Days(MonthStart(k - 3), MonthStart(k))
  {
    MonthsLater(FiscalStart(today, fyStart, 3), k, 3);
    MonthsLater(FiscalStart(today, fyStart, 3), k, -3);
  }

  lemma MonthsLater(s: int, k: int, months: int)
    requires s == MonthStart(k)
    ensures AddMonths(s, months) == MonthStart(k + months)
  {
    MonthOfFirst(k);
  }

  lemma ThisFiscalYearDays(today: int, fyStart: int, n: Option<int>, k: int)
    requires FiscalStart(today, fyStart, 12) == MonthStart(k)
    ensures RelativeDays(ThisFiscalYear, today, fyStart, n) == Days(MonthStart(k), MonthStart(k + 12))
    ensures RelativeDays(LastFiscalYear, today, fyStart, n) == Days(MonthStart(k - 12), MonthStart(k))
  {
    YearsLater(FiscalStart(today, fyStart, 12), k, 1);
    YearsLater(FiscalStart(today, fyStart, 12), k, -1);
  }

  lemma YearsLater(s: int, k: int, years: int)
    requires s == MonthStart(k)
    ensures AddYears(s, years) == MonthStart(k + 12 * years)
  {
    MonthOfFirst(k);
  }

  /// The first day of the bucket before.
  function StartBefore(n: int, bucket: Bucket, fyStart: int): int {
    match bucket
    case DayB => n - 1
    case WeekB => Monday(n) - 7
    case _ => MonthStart(FirstMonth(MonthOf(n), bucket, fyStart) - Span(bucket))
  }

  lemma PreviousBucket(n: int, bucket: Bucket, fyStart: int)
    ensures PreviousStart(Start(n, bucket, fyStart), End(n, bucket, fyStart)) == StartBefore(n, bucket, fyStart)
  {
    match bucket
    case DayB => PreviousOfDays(n, n + 1);
    case WeekB => PreviousOfDays(Monday(n), Monday(n) + 7);
    case _ => PreviousMonths(FirstMonth(MonthOf(n), bucket, fyStart), n, bucket, fyStart);
  }

  lemma PreviousMonths(k: int, n: int, bucket: Bucket, fyStart: int)
    requires bucket != DayB && bucket != WeekB && k == FirstMonth(MonthOf(n), bucket, fyStart)
    ensures PreviousStart(Start(n, bucket, fyStart), End(n, bucket, fyStart)) == StartBefore(n, bucket, fyStart)
  {
    StartIs(k, n, bucket, fyStart);
    EndIs(k, n, bucket, fyStart);
    BeforeIs(k, n, bucket, fyStart);
    PreviousOfMonths(k, Span(bucket));
  }

  lemma StartIs(k: int, n: int, bucket: Bucket, fyStart: int)
    requires bucket != DayB && bucket != WeekB && k == FirstMonth(MonthOf(n), bucket, fyStart)
    ensures Start(n, bucket, fyStart) == MonthStart(k)
  {
  }

  lemma EndIs(k: int, n: int, bucket: Bucket, fyStart: int)
    requires bucket != DayB && bucket != WeekB && k == FirstMonth(MonthOf(n), bucket, fyStart)
    ensures End(n, bucket, fyStart) == MonthStart(k + Span(bucket))
  {
  }

  lemma BeforeIs(k: int, n: int, bucket: Bucket, fyStart: int)
    requires bucket != DayB && bucket != WeekB && k == FirstMonth(MonthOf(n), bucket, fyStart)
    ensures StartBefore(n, bucket, fyStart) == MonthStart(k - Span(bucket))
  {
  }

  // ---- main results ----

  /// "This" period is the range of today's key.
  lemma ThisPeriodIsBucket(period: Period, today: int, fyStart: int, n: Option<int>, b: Bucket)
    requires BucketOf(period) == Some(b) && FourDigitBounds(today, b, fyStart) && IsMonth(fyStart)
    ensures BucketRange(KeyOfDay(today, b, fyStart), b, fyStart)
         == Some(ResolveRelative(period, today, fyStart, n))
  {
    RangeOfKey(today, b, fyStart);
    ThisDays(period, today, fyStart, n, b);
  }

  /// "Last" period is the range before the "this" period.
  lemma LastPeriodIsPrevious(period: Period, today: int, fyStart: int, n: Option<int>)
    requires BucketOf(period).Some? && IsMonth(fyStart)
    requires FourDigitYear(Start(today, BucketOf(period).value, fyStart)) && FourDigitYear(End(today, BucketOf(period).value, fyStart))
    ensures PreviousRange(ResolveRelative(period, today, fyStart, n))
         == Some(ResolveRelative(LastOf(period), today, fyStart, n))
  {
    var b := BucketOf(period).value;
    ThisDays(period, today, fyStart, n, b);
    PreviousText(Start(today, b, fyStart), End(today, b, fyStart));
    PreviousBucket(today, b, fyStart);
  }
}
