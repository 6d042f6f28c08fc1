/// Report periods: the key of the bucket a date falls in, the range a key stands for, and
/// relative periods such as "last quarter".

module Buckets {
  import opened Basics
  import opened Text
  import opened Calendar

  datatype Bucket = DayB | WeekB | MonthB | QuarterB | YearB | FiscalYearB

  /// `from` inclusive, `to` exclusive, both `YYYY-MM-DD`.
  datatype DateRange = DateRange(from: string, to: string)

  // ---- fiscal years ----

  function FiscalYearOf(n: int, startMonth: int): int {
    if Month0Of(n) + 1 >= startMonth then YearOf(n) else YearOf(n) - 1
  }

  function FiscalYearLabel(n: int, startMonth: int): string {
    var start := FiscalYearOf(n, startMonth);
    if startMonth == 1 then DecInt(start) else DecInt(start) + "-" + Pad2((start + 1) % 100)
  }

  // ---- keys ----

  function Thursday(n: int): int { n + 3 - (Weekday(n) + 6) % 7 }

  function WeekKey(n: int): string {
    var thursday := Thursday(n);
    var wy := YearOf(thursday);
    var week := WeekNumber(thursday);
    DecInt(wy) + "-W" + Pad2(week)
  }

  /// Full weeks between 1 January and a Thursday of the same year, counted from 1.
  function WeekNumber(thursday: int): (w: nat)
    ensures 1 <= w <= 54
  {
    ThursdayInYear(thursday);
    (thursday - Utc(YearOf(thursday), 0, 1)) / 7 + 1
  }

  function MonthKey(n: int): string {
    DecInt(YearOf(n)) + "-" + Pad2(Month0Of(n) + 1)
  }

  function QuarterKey(n: int, fyStart: int): string {
    FiscalYearLabel(n, fyStart) + " Q" + DecInt((Month0Of(n) + 1 - fyStart + 12) % 12 / 3 + 1)
  }

  /// The key of day `n`: weeks belong to the year of their Thursday.
  function KeyOfDay(n: int, bucket: Bucket, fyStart: int): string {
    match bucket
    case DayB => Iso(n)
    case WeekB => WeekKey(n)
    case MonthB => MonthKey(n)
    case QuarterB => QuarterKey(n, fyStart)
    case YearB => DecInt(YearOf(n))
    case FiscalYearB => FiscalYearLabel(n, fyStart)
  }

  function BucketKey(date: string, bucket: Bucket, fyStart: int): string
    requires |date| >= 10 && IsDateText(date[..10])
  {
    KeyOfDay(ParseDate(date[..10]), bucket, fyStart)
  }

  // ---- ranges ----

  function Range(from: int, to: int): DateRange { DateRange(Iso(from), Iso(to)) }

  function Take(s: string, n: nat): string { if |s| < n then s else s[..n] }

  function YearOfLabel(text: string): Option<nat> { ToNumber(Take(text, 4)) }

  /// The first day of a week year: its first week is the one with 4 January in it.
  function Week1(wy: int): int {
    var jan4 := Utc(wy, 0, 4);
    jan4 - (Weekday(jan4) + 6) % 7
  }

  datatype Days = Days(from: int, to: int)

  function WeekDays(key: string): Option<Days> {
    var p := Split(key, "-W");
    if |p| < 2 || ToNumber(p[0]).None? || ToNumber(p[1]).None? then None
    else
      var from := Week1(ToNumber(p[0]).value) + (ToNumber(p[1]).value - 1) * 7;
      Some(Days(from, from + 7))
  }

  function MonthDays(key: string): Option<Days> {
    var p := Split(key, "-");
    if |p| < 2 || ToNumber(p[0]).None? || ToNumber(p[1]).None? then None
    else
      var y, m := ToNumber(p[0]).value, ToNumber(p[1]).value;
      Some(Days(Utc(y, m - 1, 1), Utc(y, m, 1)))
  }

  function QuarterDays(key: string, fyStart: int): Option<Days> {
    var p := Split(key, " Q");
    if |p| < 2 || YearOfLabel(p[0]).None? || ToNumber(p[1]).None? then None
    else
      var start := Utc(YearOfLabel(p[0]).value, fyStart - 1 + (ToNumber(p[1]).value - 1) * 3, 1);
      Some(Days(start, Utc(YearOf(start), Month0Of(start) + 3, 1)))
  }

  function FiscalYearDays(key: string, fyStart: int): Option<Days> {
    if YearOfLabel(key).None? then None
    else
      var start := Utc(YearOfLabel(key).value, fyStart - 1, 1);
      Some(Days(start, Utc(YearOf(start) + 1, fyStart - 1, 1)))
  }

  function AsRange(d: Option<Days>): Option<DateRange> {
    if d.None? then None else Some(Range(d.value.from, d.value.to))
  }

  /// `None` where the key is not one `BucketKey` writes.
  function BucketRange(key: string, bucket: Bucket, fyStart: int): Option<DateRange> {
    match bucket
    case DayB =>
      if IsDateText(key) then Some(DateRange(key, Iso(ParseDate(key) + 1))) else None
    case WeekB => AsRange(WeekDays(key))
    case MonthB => AsRange(MonthDays(key))
    case QuarterB => AsRange(QuarterDays(key, fyStart))
    case YearB =>
      if ToNumber(key).None? then None
      else Some(DateRange(key + "-01-01", Dec(ToNumber(key).value + 1) + "-01-01"))
    case FiscalYearB => AsRange(FiscalYearDays(key, fyStart))
  }

  // ---- the buckets as intervals of days ----

  /// Months of a month-based bucket.
  function Span(bucket: Bucket): int {
    match bucket
    case QuarterB => 3
    case YearB | FiscalYearB => 12
    case _ => 1
  }

  /// The first month of the bucket month `k` is in.
  function FirstMonth(k: int, bucket: Bucket, fyStart: int): int {
    match bucket
    case QuarterB => k - (k - (fyStart - 1)) % 3
    case YearB => k - k % 12
    case FiscalYearB => k - (k - (fyStart - 1)) % 12
    case _ => k
  }

  function Monday(n: int): int { n - (Weekday(n) + 6) % 7 }

  function Start(n: int, bucket: Bucket, fyStart: int): int {
    match bucket
    case DayB => n
    case WeekB => Monday(n)
    case _ => MonthStart(FirstMonth(MonthOf(n), bucket, fyStart))
  }

  function End(n: int, bucket: Bucket, fyStart: int): int {
    match bucket
    case DayB => n + 1
    case WeekB => Monday(n) + 7
    case _ => MonthStart(FirstMonth(MonthOf(n), bucket, fyStart) + Span(bucket))
  }

  /// A fiscal year starts with one of the twelve months.
  predicate IsMonth(fyStart: int) { 1 <= fyStart <= 12 }

  /// The day, both ends of its interval and its fiscal year are written with four digits.
  predicate FourDigitBounds(n: int, bucket: Bucket, fyStart: int) {
    && FourDigitYear(n) && FourDigitYear(Start(n, bucket, fyStart)) && FourDigitYear(End(n, bucket, fyStart))
    && (bucket == QuarterB ==> 1000 <= FiscalYearOf(n, fyStart))
  }

  lemma MonthOfFirst(k: int)
    ensures MonthOf(MonthStart(k)) == k && YearOf(MonthStart(k)) == k / 12
    ensures Month0Of(MonthStart(k)) == k % 12 && DayOf(MonthStart(k)) == 1
  {
    NextMonth(k);
    MonthUnique(MonthStart(k), k);
  }

  lemma MonthsInOrder(n: int, k: int)
    ensures MonthStart(k) <= n <==> k <= MonthOf(n)
  {
    if k <= MonthOf(n) { MonthsApart(k, MonthOf(n)); } else { MonthsApart(MonthOf(n) + 1, k); }
  }

  /// Days fall into disjoint intervals that cover every day.
  lemma Partition(n: int, m: int, bucket: Bucket, fyStart: int)
    ensures Start(n, bucket, fyStart) <= n < End(n, bucket, fyStart)
    ensures Start(n, bucket, fyStart) <= m < End(n, bucket, fyStart)
       <==> Start(m, bucket, fyStart) == Start(n, bucket, fyStart)
  {
    if bucket == WeekB {
      WeekPartition(n, m);
    } else if bucket != DayB {
      SameFirstMonth(MonthOf(n), MonthOf(m), bucket, fyStart);
      MonthPartition(n, m, FirstMonth(MonthOf(n), bucket, fyStart),
                     FirstMonth(MonthOf(m), bucket, fyStart), Span(bucket));
    }
  }

  lemma WeekPartition(n: int, m: int)
    ensures Monday(n) <= n < Monday(n) + 7
    ensures Monday(n) <= m < Monday(n) + 7 <==> Monday(m) == Monday(n)
  {
  }

  lemma MonthPartition(n: int, m: int, f: int, g: int, span: int)
    requires f <= MonthOf(n) < f + span
    requires f <= MonthOf(m) < f + span <==> g == f
    ensures MonthStart(f) <= n < MonthStart(f + span)
    ensures MonthStart(f) <= m < MonthStart(f + span) <==> MonthStart(g) == MonthStart(f)
  {
    MonthsInOrder(n, f);
    MonthsInOrder(n, f + span);
    MonthsInOrder(m, f);
    MonthsInOrder(m, f + span);
    MonthOfFirst(f);
    MonthOfFirst(g);
  }

  lemma SameFirstMonth(j: int, k: int, bucket: Bucket, fyStart: int)
    ensures var f := FirstMonth(j, bucket, fyStart);
            && f <= j < f + Span(bucket)
            && (f <= k < f + Span(bucket) <==> FirstMonth(k, bucket, fyStart) == f)
  {
    match bucket
    case QuarterB => ModSteps(j, k, fyStart - 1, 3);
    case YearB => ModSteps(j, k, 0, 12);
    case FiscalYearB => ModSteps(j, k, fyStart - 1, 12);
    case _ =>
  }

  lemma ModSteps(j: int, k: int, origin: int, span: int)
    requires span == 3 || span == 12
    ensures var f := j - (j - origin) % span;
            f <= j < f + span && (f <= k < f + span <==> k - (k - origin) % span == f)
  {
  }

  lemma YearBetween(from: int, n: int, to: int)
    requires from <= n <= to
    ensures YearOf(from) <= YearOf(n) <= YearOf(to)
  {
    MonthsInOrder(n, MonthOf(from));
    MonthsInOrder(to, MonthOf(n));
  }

  // ---- a key stands for its interval ----

  lemma RangeOfKey(n: int, bucket: Bucket, fyStart: int)
    requires FourDigitBounds(n, bucket, fyStart) && IsMonth(fyStart)
    ensures BucketRange(KeyOfDay(n, bucket, fyStart), bucket, fyStart)
         == Some(Range(Start(n, bucket, fyStart), End(n, bucket, fyStart)))
  {
    match bucket
    case DayB => DayKeyRange(n, fyStart);
    case WeekB => WeekKeyRange(n, fyStart);
    case MonthB => MonthKeyRange(n, fyStart);
    case QuarterB => QuarterKeyRange(n, fyStart);
    case YearB => YearKeyRange(n, fyStart);
    case FiscalYearB => FiscalYearKeyRange(n, fyStart);
  }

  lemma DayKeyRange(n: int, fyStart: int)
    requires FourDigitBounds(n, DayB, fyStart) && IsMonth(fyStart)
    ensures BucketRange(KeyOfDay(n, DayB, fyStart), DayB, fyStart)
         == Some(Range(Start(n, DayB, fyStart), End(n, DayB, fyStart)))
  {
    ParseIso(n);
    DayRange(Iso(n), n, fyStart);
  }

  lemma DayRange(key: string, n: int, fyStart: int)
    requires IsDateText(key) && ParseDate(key) == n
    ensures BucketRange(key, DayB, fyStart) == Some(DateRange(key, Iso(n + 1)))
  {
  }

  lemma WeekKeyRange(n: int, fyStart: int)
    requires FourDigitBounds(n, WeekB, fyStart) && IsMonth(fyStart)
    ensures BucketRange(KeyOfDay(n, WeekB, fyStart), WeekB, fyStart)
         == Some(Range(Start(n, WeekB, fyStart), End(n, WeekB, fyStart)))
  {
    WeekRange(n);
  }

  lemma MonthKeyRange(n: int, fyStart: int)
    requires FourDigitBounds(n, MonthB, fyStart) && IsMonth(fyStart)
    ensures BucketRange(KeyOfDay(n, MonthB, fyStart), MonthB, fyStart)
         == Some(Range(Start(n, MonthB, fyStart), End(n, MonthB, fyStart)))
  {
    MonthRange(n);
    MonthSpan(n, fyStart);
    MonthKeyIs(n, fyStart);
  }

  lemma MonthSpan(n: int, fyStart: int)
    ensures Start(n, MonthB, fyStart) == MonthStart(MonthOf(n)) && End(n, MonthB, fyStart) == MonthStart(MonthOf(n) + 1)
  {
  }

  lemma MonthKeyIs(n: int, fyStart: int)
    ensures BucketRange(KeyOfDay(n, MonthB, fyStart), MonthB, fyStart) == AsRange(MonthDays(MonthKey(n)))
  {
  }

  lemma QuarterKeyRange(n: int, fyStart: int)
    requires FourDigitBounds(n, QuarterB, fyStart) && IsMonth(fyStart)
    ensures BucketRange(KeyOfDay(n, QuarterB, fyStart), QuarterB, fyStart)
         == Some(Range(Start(n, QuarterB, fyStart), End(n, QuarterB, fyStart)))
  {
    QuarterRange(n, fyStart);
  }

  lemma YearKeyRange(n: int, fyStart: int)
    requires FourDigitBounds(n, YearB, fyStart) && IsMonth(fyStart)
    ensures BucketRange(KeyOfDay(n, YearB, fyStart), YearB, fyStart)
         == Some(Range(Start(n, YearB, fyStart), End(n, YearB, fyStart)))
  {
    FirstOfYear(n, fyStart);
    MonthOfFirst(12 * YearOf(n) + 12);
    YearRange(YearOf(n), fyStart);
  }

  lemma FiscalYearKeyRange(n: int, fyStart: int)
    requires FourDigitBounds(n, FiscalYearB, fyStart) && IsMonth(fyStart)
    ensures BucketRange(KeyOfDay(n, FiscalYearB, fyStart), FiscalYearB, fyStart)
         == Some(Range(Start(n, FiscalYearB, fyStart), End(n, FiscalYearB, fyStart)))
  {
    FiscalYearRange(n, fyStart);
  }

  lemma NumberText(n: nat)
    ensures ToNumber(Dec(n)) == Some(n)
  {
    NumDec(n);
  }

  lemma {:induction false} DigitsLack(s: string, c: char)
    requires IsDigits(s) && !IsDigit(c)
    ensures c !in s
  {
  }

  lemma WeekRange(n: int)
    requires FourDigitYear(Monday(n))
    ensures WeekDays(WeekKey(n)) == Some(Days(Monday(n), Monday(n) + 7))
  {
    var thursday := Thursday(n);
    var wy, week := YearOf(thursday), WeekNumber(thursday);
    YearBetween(Monday(n), thursday, thursday);
    WeekDaysOf(wy, week);
    WeekOfThursday(n);
  }

  lemma ThursdayOfWeek(n: int)
    ensures Weekday(Thursday(n)) == 4 && Thursday(n) - 3 == Monday(n)
  {
  }

  lemma WeekOfThursday(n: int)
    ensures Week1(YearOf(Thursday(n))) + (WeekNumber(Thursday(n)) - 1) * 7 == Monday(n)
  {
    ThursdayOfWeek(n);
    WeekStarts(Thursday(n));
  }

  lemma WeekDaysOf(wy: nat, week: nat)
    requires week < 100
    ensures WeekDays(Dec(wy) + "-W" + Pad2(week)) == Some(Days(Week1(wy) + (week - 1) * 7, Week1(wy) + (week - 1) * 7 + 7))
  {
    WeekKeyParts(wy, week);
  }

  lemma WeekKeyParts(wy: nat, week: nat)
    requires week < 100
    ensures Split(Dec(wy) + "-W" + Pad2(week), "-W") == [Dec(wy), Pad2(week)]
    ensures ToNumber(Dec(wy)) == Some(wy) && ToNumber(Pad2(week)) == Some(week)
  {
    NumberText(wy);
    TwoDigits(week);
    DigitsLack(Dec(wy), '-');
    DigitsLack(Pad2(week), '-');
    SplitPair(Dec(wy), Pad2(week), "-W", 0);
  }

  lemma ThursdayInYear(thursday: int)
    ensures 0 <= thursday - Utc(YearOf(thursday), 0, 1) < 372
  {
    var k := 12 * YearOf(thursday);
    MonthsInOrder(thursday, k);
    MonthsInOrder(thursday, k + 12);
    MonthsApart(k, k + 12);
  }

  /// Counting weeks from the Monday of week 1 reaches the Monday before the Thursday.
  lemma WeekStarts(thursday: int)
    requires Weekday(thursday) == 4
    ensures Week1(YearOf(thursday)) + 7 * (WeekNumber(thursday) - 1) == thursday - 3
  {
    ThursdayInYear(thursday);
    MondayBefore(thursday, Utc(YearOf(thursday), 0, 1));
  }

  lemma MondayBefore(thursday: int, jan1: int)
    requires Weekday(thursday) == 4 && jan1 <= thursday
    ensures jan1 + 3 - (Weekday(jan1 + 3) + 6) % 7 + 7 * ((thursday - jan1) / 7) == thursday - 3
  {
  }

  lemma MonthRange(n: int)
    requires FourDigitYear(n)
    ensures MonthDays(MonthKey(n)) == Some(Days(MonthStart(MonthOf(n)), MonthStart(MonthOf(n) + 1)))
  {
    MonthKeyParts(YearOf(n), Month0Of(n) + 1);
    assert 12 * YearOf(n) + Month0Of(n) == MonthOf(n);
  }

  lemma MonthKeyParts(y: nat, m: nat)
    requires m < 100
    ensures Split(Dec(y) + "-" + Pad2(m), "-") == [Dec(y), Pad2(m)]
    ensures ToNumber(Dec(y)) == Some(y) && ToNumber(Pad2(m)) == Some(m)
  {
    NumberText(y);
    TwoDigits(m);
    DigitsLack(Dec(y), '-');
    DigitsLack(Pad2(m), '-');
    SplitPair(Dec(y), Pad2(m), "-", 0);
  }

  lemma FirstOfYear(n: int, fyStart: int)
    ensures FirstMonth(MonthOf(n), YearB, fyStart) == 12 * YearOf(n)
  {
  }

  lemma YearRange(y: int, fyStart: int)
    requires 1000 <= y < 9999
    ensures BucketRange(DecInt(y), YearB, fyStart)
         == Some(Range(MonthStart(12 * y), MonthStart(12 * y + 12)))
  {
    NumberText(y);
    NewYear(y, 12 * y);
    NewYear(y + 1, 12 * y + 12);
  }

  lemma NewYear(y: int, k: int)
    requires 1000 <= y <= 9999 && k == 12 * y
    ensures Iso(MonthStart(k)) == Dec(y) + "-01-01"
  {
    FirstOfMonth(y, k);
    NewYearIso(y, MonthStart(k));
  }

  lemma FirstOfMonth(y: int, k: int)
    requires k == 12 * y
    ensures YearOf(MonthStart(k)) == y && Month0Of(MonthStart(k)) == 0 && DayOf(MonthStart(k)) == 1
  {
    MonthOfFirst(k);
  }

  lemma NewYearIso(y: int, n: int)
    requires 1000 <= y <= 9999 && YearOf(n) == y && Month0Of(n) == 0 && DayOf(n) == 1
    ensures Iso(n) == Dec(y) + "-01-01"
  {
    IsoParts(n);
    PaddedOne();
    NewYearText(Dec(y));
  }

  lemma PaddedOne()
    ensures Pad2(1) == "01"
  {
    assert Dec(1) == "1" && Zeros(1) == "0" + Zeros(0) && Zeros(0) == "";
  }

  lemma NewYearText(y: string)
    ensures y + "-" + "01" + "-" + "01" == y + "-01-01"
  {
  }

  /// Fiscal years and quarters in months counted from a fiscal new year.
  lemma FiscalMonths(n: int, fyStart: int)
    requires IsMonth(fyStart)
    ensures FiscalYearOf(n, fyStart) == (MonthOf(n) - (fyStart - 1)) / 12
    ensures (Month0Of(n) + 1 - fyStart + 12) % 12 == (MonthOf(n) - (fyStart - 1)) % 12
  {
    var y, m := YearOf(n), Month0Of(n);
    assert MonthOf(n) == 12 * y + m;
    if m + 1 >= fyStart {
      DivModUnique(MonthOf(n) - (fyStart - 1), y, m + 1 - fyStart);
    } else {
      DivModUnique(MonthOf(n) - (fyStart - 1), y - 1, m + 13 - fyStart);
    }
  }

  lemma DivModUnique(x: int, q: int, r: int)
    requires x == 12 * q + r && 0 <= r < 12
    ensures x / 12 == q && x % 12 == r
  {
  }

  lemma LabelYear(n: int, fyStart: int)
    requires 1000 <= FiscalYearOf(n, fyStart) <= 9999
    ensures YearOfLabel(FiscalYearLabel(n, fyStart)) == Some(FiscalYearOf(n, fyStart) as nat)
    ensures ' ' !in FiscalYearLabel(n, fyStart)
  {
    var y := FiscalYearOf(n, fyStart);
    FourDigits(y);
    NumberText(y);
    DigitsLack(Dec(y), ' ');
    DigitsLack(Pad2((y + 1) % 100), ' ');
    assert FiscalYearLabel(n, fyStart)[..4] == Dec(y);
  }

  lemma FiscalYearRange(n: int, fyStart: int)
    requires FourDigitBounds(n, FiscalYearB, fyStart) && IsMonth(fyStart)
    ensures FiscalYearDays(FiscalYearLabel(n, fyStart), fyStart)
         == Some(Days(MonthStart(FirstMonth(MonthOf(n), FiscalYearB, fyStart)),
                      MonthStart(FirstMonth(MonthOf(n), FiscalYearB, fyStart) + 12)))
  {
    var y := FiscalYearOf(n, fyStart);
    FiscalStart(n, fyStart);
    YearInFiscal(y, fyStart);
    LabelYear(n, fyStart);
  }

  lemma FiscalStart(n: int, fyStart: int)
    requires IsMonth(fyStart)
    ensures 12 * FiscalYearOf(n, fyStart) + (fyStart - 1) == FirstMonth(MonthOf(n), FiscalYearB, fyStart)
  {
    FiscalMonths(n, fyStart);
  }

  lemma YearInFiscal(y: int, fyStart: int)
    requires IsMonth(fyStart)
    ensures YearOf(Utc(y, fyStart - 1, 1)) == y
  {
    MonthOfFirst(12 * y + fyStart - 1);
  }

  lemma QuarterRange(n: int, fyStart: int)
    requires FourDigitBounds(n, QuarterB, fyStart) && IsMonth(fyStart)
    ensures QuarterDays(QuarterKey(n, fyStart), fyStart)
         == Some(Days(MonthStart(FirstMonth(MonthOf(n), QuarterB, fyStart)),
                      MonthStart(FirstMonth(MonthOf(n), QuarterB, fyStart) + 3)))
  {
    var q := (Month0Of(n) + 1 - fyStart + 12) % 12 / 3 + 1;
    var first := FirstMonth(MonthOf(n), QuarterB, fyStart);
    LabelYear(n, fyStart);
    QuarterStart(n, fyStart, q);
    QuarterOfLabel(FiscalYearLabel(n, fyStart), FiscalYearOf(n, fyStart), q, fyStart, first);
  }

  lemma QuarterOfLabel(fyLabel: string, y: nat, q: nat, fyStart: int, first: int)
    requires YearOfLabel(fyLabel) == Some(y) && ' ' !in fyLabel
    requires 12 * y + (fyStart - 1 + (q - 1) * 3) == first
    ensures QuarterDays(fyLabel + " Q" + DecInt(q), fyStart)
         == Some(Days(MonthStart(first), MonthStart(first + 3)))
  {
    QuarterDaysOf(fyLabel, y, q, fyStart);
    assert Utc(y, fyStart - 1 + (q - 1) * 3, 1) == MonthStart(first);
    MonthAfterFirst(first, 3);
  }

  lemma QuarterDaysOf(fyLabel: string, y: nat, q: nat, fyStart: int)
    requires YearOfLabel(fyLabel) == Some(y) && ' ' !in fyLabel
    ensures var start := Utc(y, fyStart - 1 + (q - 1) * 3, 1);
            QuarterDays(fyLabel + " Q" + DecInt(q), fyStart) == Some(Days(start, Utc(YearOf(start), Month0Of(start) + 3, 1)))
  {
    QuarterKeyParts(fyLabel, q);
  }

  lemma QuarterKeyParts(fyLabel: string, q: nat)
    requires ' ' !in fyLabel
    ensures Split(fyLabel + " Q" + DecInt(q), " Q") == [fyLabel, Dec(q)]
    ensures ToNumber(Dec(q)) == Some(q)
  {
    NumberText(q);
    DigitsLack(Dec(q), ' ');
    SplitPair(fyLabel, Dec(q), " Q", 0);
  }

  lemma QuarterStart(n: int, fyStart: int, q: int)
    requires IsMonth(fyStart) && q == (Month0Of(n) + 1 - fyStart + 12) % 12 / 3 + 1
    ensures 12 * FiscalYearOf(n, fyStart) + (fyStart - 1 + (q - 1) * 3) == FirstMonth(MonthOf(n), QuarterB, fyStart)
  {
    FiscalMonths(n, fyStart);
    QuarterMonths(MonthOf(n) - (fyStart - 1));
  }

  lemma MonthAfterFirst(k: int, months: int)
    ensures Utc(YearOf(MonthStart(k)), Month0Of(MonthStart(k)) + months, 1) == MonthStart(k + months)
  {
    MonthOfFirst(k);
  }

  lemma QuarterMonths(j: int)
    ensures 12 * (j / 12) + 3 * (j % 12 / 3) == j - j % 3
  {
    var q, r := j / 12, j % 12;
    ModThree(j, 4 * q + r / 3, r % 3);
  }

  lemma ModThree(x: int, q: int, r: int)
    requires x == 3 * q + r && 0 <= r < 3
    ensures x % 3 == r
  {
  }

  // ---- main results ----

  /// The interval determines the key.
  lemma KeyOfStart(n: int, m: int, bucket: Bucket, fyStart: int)
    requires IsMonth(fyStart)
    requires Start(n, bucket, fyStart) == Start(m, bucket, fyStart)
    ensures KeyOfDay(n, bucket, fyStart) == KeyOfDay(m, bucket, fyStart)
  {
    match bucket
    case DayB =>
    case WeekB => assert Thursday(n) == Thursday(m);
    case _ =>
      MonthOfFirst(FirstMonth(MonthOf(n), bucket, fyStart));
      MonthOfFirst(FirstMonth(MonthOf(m), bucket, fyStart));
      KeyOfFirstMonth(n, m, bucket, fyStart);
  }

  lemma KeyOfFirstMonth(n: int, m: int, bucket: Bucket, fyStart: int)
    requires IsMonth(fyStart) && bucket != DayB && bucket != WeekB
    requires FirstMonth(MonthOf(n), bucket, fyStart) == FirstMonth(MonthOf(m), bucket, fyStart)
    ensures KeyOfDay(n, bucket, fyStart) == KeyOfDay(m, bucket, fyStart)
  {
    match bucket
    case QuarterB => SameQuarter(n, m, fyStart);
    case FiscalYearB => SameFiscalYear(n, m, fyStart);
    case YearB => FirstOfYear(n, fyStart); FirstOfYear(m, fyStart);
    case MonthB => assert MonthOf(n) == MonthOf(m);
  }

  lemma SameFiscalYear(n: int, m: int, fyStart: int)
    requires IsMonth(fyStart)
    requires FirstMonth(MonthOf(n), FiscalYearB, fyStart) == FirstMonth(MonthOf(m), FiscalYearB, fyStart)
    ensures FiscalYearLabel(n, fyStart) == FiscalYearLabel(m, fyStart)
  {
    FiscalStart(n, fyStart);
    FiscalStart(m, fyStart);
  }

  lemma SameQuarter(n: int, m: int, fyStart: int)
    requires IsMonth(fyStart)
    requires FirstMonth(MonthOf(n), QuarterB, fyStart) == FirstMonth(MonthOf(m), QuarterB, fyStart)
    ensures QuarterKey(n, fyStart) == QuarterKey(m, fyStart)
  {
    QuarterNumbers(n, m, fyStart);
  }

  lemma QuarterNumbers(n: int, m: int, fyStart: int)
    requires IsMonth(fyStart)
    requires FirstMonth(MonthOf(n), QuarterB, fyStart) == FirstMonth(MonthOf(m), QuarterB, fyStart)
    ensures FiscalYearOf(n, fyStart) == FiscalYearOf(m, fyStart)
    ensures (Month0Of(n) + 1 - fyStart + 12) % 12 / 3 == (Month0Of(m) + 1 - fyStart + 12) % 12 / 3
  {
    FiscalMonths(n, fyStart);
    FiscalMonths(m, fyStart);
    SameQuotients(MonthOf(n) - (fyStart - 1), MonthOf(m) - (fyStart - 1));
  }

  lemma SameQuotients(j: int, k: int)
    ensures j - j % 12 == k - k % 12 ==> j / 12 == k / 12
    ensures j - j % 3 == k - k % 3 ==> j / 12 == k / 12 && j % 12 / 3 == k % 12 / 3
  {
    QuarterMonths(j);
    QuarterMonths(k);
  }

  /// A date lies in the range of its key, and the dates in that range are exactly those
  /// with the same key.
  lemma KeysAreIntervals(n: int, m: int, bucket: Bucket, fyStart: int)
    requires FourDigitBounds(n, bucket, fyStart) && FourDigitBounds(m, bucket, fyStart) && IsMonth(fyStart)
    ensures |Iso(n)| == |Iso(m)| == 10 && IsDateText(Iso(n)[..10]) && IsDateText(Iso(m)[..10])
    ensures var key := BucketKey(Iso(n), bucket, fyStart);
            && BucketRange(key, bucket, fyStart).Some?
            && var r := BucketRange(key, bucket, fyStart).value;
            && IsDateText(r.from) && IsDateText(r.to)
            && ParseDate(r.from) <= n < ParseDate(r.to)
            && (BucketKey(Iso(m), bucket, fyStart) == key
                <==> ParseDate(r.from) <= m < ParseDate(r.to))
  {
    ParseIso(n);
    ParseIso(m);
    assert Iso(n)[..10] == Iso(n) && Iso(m)[..10] == Iso(m);
    RangeOfKey(n, bucket, fyStart);
    RangeOfKey(m, bucket, fyStart);
    ParseIso(Start(n, bucket, fyStart));
    ParseIso(End(n, bucket, fyStart));
    ParseIso(Start(m, bucket, fyStart));
    Partition(n, m, bucket, fyStart);
    if Start(n, bucket, fyStart) == Start(m, bucket, fyStart) {
      KeyOfStart(n, m, bucket, fyStart);
    }
  }
}
