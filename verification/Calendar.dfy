/// Gregorian dates as day numbers. Day 0 is 1970-01-01; month `k` counts months, so that
/// month `12 * y + m` is month `m` (from 0) of year `y`, as `Date.UTC` takes them.

module Calendar {
  import opened Text

  const DAY_MS: int := 86_400_000

  /// The day of an instant, `offset` milliseconds ahead of UTC.
  function DayAt(ms: int, offset: int): int { (ms + offset) / DAY_MS }

  predicate Leap(y: int) {
    y % 4 == 0 && (y % 100 != 0 || y % 400 == 0)
  }

  /// The number of days of month `k`.
  function MonthLength(k: int): (d: int)
    ensures 28 <= d <= 31
  {
    var m := k % 12;
    if m == 1 then (if Leap(k / 12) then 29 else 28)
    else if m == 3 || m == 5 || m == 8 || m == 10 then 30 else 31
  }

  const EPOCH_MONTH: int := 12 * 1970

  /// The day number of the first of month `k`.
  function MonthStart(k: int): int
    decreases Abs(k - EPOCH_MONTH)
  {
    if k == EPOCH_MONTH then 0
    else if k > EPOCH_MONTH then MonthStart(k - 1) + MonthLength(k - 1)
    else MonthStart(k + 1) - MonthLength(k)
  }

  function Abs(n: int): nat { if n < 0 then -n else n }

  /// `Date.UTC(y, m, d)`: months beyond 0..11 roll over into other years.
  function Utc(y: int, m: int, d: int): int {
    MonthStart(12 * y + m) + d - 1
  }

  lemma NextMonth(k: int)
    ensures MonthStart(k + 1) == MonthStart(k) + MonthLength(k)
  {
  }

  lemma {:induction false} MonthsApart(j: int, k: int)
    requires j <= k
    ensures 28 * (k - j) <= MonthStart(k) - MonthStart(j) <= 31 * (k - j)
    decreases k - j
  {
    if j < k {
      NextMonth(k - 1);
      MonthsApart(j, k - 1);
    }
  }

  /// The month a day lies in.
  function MonthOf(n: int): (k: int)
    ensures MonthStart(k) <= n < MonthStart(k + 1)
  {
    if n >= 0 then MonthAfter(n, EPOCH_MONTH) else MonthBefore(n, EPOCH_MONTH)
  }

  function MonthAfter(n: int, k: int): (r: int)
    requires MonthStart(k) <= n
    ensures MonthStart(r) <= n < MonthStart(r + 1)
    decreases n - MonthStart(k)
  {
    NextMonth(k);
    if n < MonthStart(k) + MonthLength(k) then k else MonthAfter(n, k + 1)
  }

  function MonthBefore(n: int, k: int): (r: int)
    requires n < MonthStart(k)
    ensures MonthStart(r) <= n < MonthStart(r + 1)
    decreases MonthStart(k) - n
  {
    NextMonth(k - 1);
    if MonthStart(k) - MonthLength(k - 1) <= n then k - 1 else MonthBefore(n, k - 1)
  }

  lemma MonthUnique(n: int, k: int)
    requires MonthStart(k) <= n < MonthStart(k + 1)
    ensures MonthOf(n) == k
  {
    var r := MonthOf(n);
    if r < k { MonthsApart(r + 1, k); }
    if r > k { MonthsApart(k + 1, r); }
  }

  function YearOf(n: int): int { MonthOf(n) / 12 }
  function Month0Of(n: int): int { MonthOf(n) % 12 }
  function DayOf(n: int): int { n - MonthStart(MonthOf(n)) + 1 }

  /// 0 = Sunday, as `getUTCDay`.
  function Weekday(n: int): int { (n + 4) % 7 }

  lemma DayBounds(n: int)
    ensures 1 <= DayOf(n) <= 31
  {
    NextMonth(MonthOf(n));
  }

  // ---- ISO text ----

  /// `toISOString().slice(0, 10)`; years outside 0..9999 get a sign and six digits.
  function Iso(n: int): string {
    DayBounds(n);
    var y := YearOf(n);
    var rest := "-" + Pad2(Month0Of(n) + 1) + "-" + Pad2(DayOf(n));
    if 0 <= y <= 9999 then Pad(Dec(y), 4) + rest
    else
      var s := (if y < 0 then "-" else "+") + Pad(Dec(Abs(y)), 6) + rest;
      s[..10]
  }

  /// Texts shaped like `2026-09-24`.
  predicate IsDateText(s: string) {
    && |s| == 10 && s[4] == '-' && s[7] == '-'
    && IsDigits(s[..4]) && IsDigits(s[5..7]) && IsDigits(s[8..])
    && 1 <= Num(s[5..7]) <= 12 && 1 <= Num(s[8..]) <= 31
  }

  /// The day a date text names.
  function ParseDate(s: string): int
    requires IsDateText(s)
  {
    Utc(Num(s[..4]), Num(s[5..7]) - 1, Num(s[8..]))
  }

  predicate FourDigitYear(n: int) { 1000 <= YearOf(n) <= 9999 }

  lemma IsoParts(n: int)
    requires FourDigitYear(n)
    ensures Iso(n) == Dec(YearOf(n)) + "-" + Pad2(Month0Of(n) + 1) + "-" + Pad2(DayOf(n))
    ensures |Dec(YearOf(n))| == 4 && |Pad2(Month0Of(n) + 1)| == 2 && |Pad2(DayOf(n))| == 2
  {
    DayBounds(n);
    FourDigits(YearOf(n));
    TwoDigits(Month0Of(n) + 1);
    TwoDigits(DayOf(n));
  }

  lemma ParseIso(n: int)
    requires FourDigitYear(n)
    ensures IsDateText(Iso(n)) && ParseDate(Iso(n)) == n
  {
    IsoParts(n);
    DayBounds(n);
    var y, m, d := Dec(YearOf(n)), Pad2(Month0Of(n) + 1), Pad2(DayOf(n));
    var s := y + "-" + m + "-" + d;
    assert s[..4] == y && s[5..7] == m && s[8..] == d;
    NumDec(YearOf(n));
    TwoDigits(Month0Of(n) + 1);
    TwoDigits(DayOf(n));
    assert 12 * YearOf(n) + Month0Of(n) == MonthOf(n);
  }
}
