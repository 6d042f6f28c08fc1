/// Which instants are working time.

module WorkingDays {
  import opened Basics
  import opened Text
  import opened Calendar
  import opened WorkingTime

  /// Days of the week count from Sunday; 1 January 1970 was a Thursday.
  function DayOfWeek(n: int): int { (n % 7 + 4) % 7 }

  /// A day of the weekend, Sunday unless the calendar says otherwise, or a listed holiday.
  predicate IsDayOff(n: int, cal: WorkCalendar) {
    || (match cal.weekend
        case None => DayOfWeek(n) == 0
        case Some(days) => DayOfWeek(n) in days)
    || (cal.holidays.Some? && exists h <- cal.holidays.value :: h.date == Iso(n))
  }

  /// The time of day of `HH:MM`, in milliseconds.
  function ClockMs(t: string): int
    requires IsHhMm(t)
  {
    (10 * DigitValue(t[0]) + DigitValue(t[1])) * 3_600_000 + (10 * DigitValue(t[3]) + DigitValue(t[4])) * 60_000
  }

  /// Within working hours, nine to six unless the calendar says otherwise.
  predicate IsOpen(timeOfDay: int, cal: WorkCalendar)
    requires ValidCalendar(cal)
  {
    match cal.hours
    case None => 9 * 3_600_000 <= timeOfDay < 18 * 3_600_000
    case Some(h) => ClockMs(h.start) <= timeOfDay < ClockMs(h.end)
  }

  lemma {:induction false} TwoDigitsRead(s: string)
    requires |s| == 2 && IsDigits(s)
    ensures Num(s) == 10 * DigitValue(s[0]) + DigitValue(s[1])
  {
    assert s[..1] == [s[0]] && s[..1][..0] == "";
    assert Num(s[..1]) == 10 * Num("") + DigitValue(s[0]);
  }

  lemma {:induction false} MinutesRead(t: string)
    requires IsHhMm(t)
    ensures Minutes(t) * 60_000 == ClockMs(t)
  {
    TwoDigitsRead(t[..2]);
    TwoDigitsRead(t[3..]);
  }

  /// An instant is working time when it falls on no day off and within working hours, in the
  /// time zone of the calendar.
  lemma {:induction false} WorkingInstants(t: int, n: int, timeOfDay: int, cal: WorkCalendar, offset: int)
    requires ValidCalendar(cal) && t + offset == n * 86_400_000 + timeOfDay && 0 <= timeOfDay < 86_400_000
    ensures IsWorking(t, cal, offset) <==> !IsDayOff(n, cal) && IsOpen(timeOfDay, cal)
  {
    assert DayAt(t, offset) == n;
    DaysOff(n, cal);
    if cal.hours.Some? {
      MinutesRead(cal.hours.value.start);
      MinutesRead(cal.hours.value.end);
    }
  }

  lemma {:induction false} DaysOff(n: int, cal: WorkCalendar)
    ensures IsWorkday(n, cal) <==> !IsDayOff(n, cal)
  {
    assert DayOfWeek(n) == Weekday(n);
  }

  /// Work that is due was still being done just before: never on a day off or out of hours.
  lemma {:induction false} DueWhileWorking(s: int, ms: nat, r: int, n: int, timeOfDay: int, cal: WorkCalendar, offset: int)
    requires ValidCalendar(cal) && IsDue(s, ms, r, Works(cal, offset)) && ms > 0
    requires r - 1 + offset == n * 86_400_000 + timeOfDay && 0 <= timeOfDay < 86_400_000
    ensures !IsDayOff(n, cal) && IsOpen(timeOfDay, cal)
  {
    assert s < r;
    assert Count(s, r - 1, Works(cal, offset)) < ms;
    WorkingInstants(r - 1, n, timeOfDay, cal, offset);
  }

  /// What is looked at: the rest of the day of `s` and the 799 days after it.
  lemma {:induction false} DaysLookedAt(s: int, n: int, offset: int)
    requires n * 86_400_000 <= s + offset < (n + 1) * 86_400_000
    ensures LastDayEnd(s, offset) == (n + 800) * 86_400_000 - offset
  {
  }
}
