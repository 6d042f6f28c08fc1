/// The calendar measured against the rule of the Gregorian calendar, and the relative periods
/// that are counted in days.

module GregorianCalendar {
  import opened Basics
  import opened Calendar
  import opened Buckets
  import opened RelativePeriods

  const LENGTHS: seq<int> := [31, 28, 31, 30, 31, 30, 31, 31, 30, 31, 30, 31]

  predicate IsLeapYear(y: int) { y % 400 == 0 || (y % 4 == 0 && y % 100 != 0) }

  /// The lengths of the months; February has a day more in leap years.
  lemma {:induction false} MonthsLast(y: int, m: int)
    requires 0 <= m < 12
    ensures MonthStart(12 * y + m + 1) - MonthStart(12 * y + m) == LENGTHS[m] + if m == 1 && IsLeapYear(y) then 1 else 0
  {
    NextMonth(12 * y + m);
    assert (12 * y + m) % 12 == m && (12 * y + m) / 12 == y;
  }

  lemma {:induction false} YearLasts(y: int)
    ensures MonthStart(12 * (y + 1)) - MonthStart(12 * y) == if IsLeapYear(y) then 366 else 365
  {
    var k := 12 * y;
    MonthsLast(y, 0);
    MonthsLast(y, 1);
    MonthsLast(y, 2);
    MonthsLast(y, 3);
    MonthsLast(y, 4);
    MonthsLast(y, 5);
    MonthsLast(y, 6);
    MonthsLast(y, 7);
    MonthsLast(y, 8);
    MonthsLast(y, 9);
    MonthsLast(y, 10);
    MonthsLast(y, 11);
    assert k + 12 == 12 * (y + 1);
  }

  /// Leap years before year `y`, counted from year 1.
  function LeapsBefore(y: int): int { (y - 1) / 4 - (y - 1) / 100 + (y - 1) / 400 }

  lemma {:induction false} LeapsStep(y: int)
    ensures LeapsBefore(y + 1) == LeapsBefore(y) + if IsLeapYear(y) then 1 else 0
  {
    Quotients(y, 4);
    Quotients(y, 100);
    Quotients(y, 400);
  }

  lemma {:induction false} Quotients(y: int, d: int)
    requires d == 4 || d == 100 || d == 400
    ensures y / d == (y - 1) / d + if y % d == 0 then 1 else 0
  {
  }

  /// The first of January of every year: 365 days for each year since 1970, and one for each
  /// leap year.
  lemma {:induction false} YearStarts(y: int)
    ensures MonthStart(12 * y) == 365 * (y - 1970) + LeapsBefore(y) - 477
    decreases Abs(y - 1970)
  {
    if y > 1970 {
      YearStarts(y - 1);
      YearLasts(y - 1);
      LeapsStep(y - 1);
    } else if y < 1970 {
      YearStarts(y + 1);
      YearLasts(y);
      LeapsStep(y);
    }
  }

  /// The last `n` days end with today, the next `n` start with it; at least one day, and seven
  /// when no number is given.
  lemma {:induction false} CountedDays(today: int, fyStart: int, n: Option<int>)
    ensures var count, last, next := if n == None then 7 else if n.value < 1 then 1 else n.value,
              RelativeDays(LastNDays, today, fyStart, n), RelativeDays(NextNDays, today, fyStart, n);
            && last.from <= today < last.to && last.to - last.from == count && today + 1 == last.to
            && next.from == today < next.to && next.to - next.from == count
  {
  }
}
