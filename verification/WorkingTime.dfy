/// Adding working time to an instant: only working days, only within working hours.

module WorkingTime {
  import opened Basics
  import opened Text
  import opened Calendar

  datatype Hours = Hours(start: string, end: string)
  datatype Holiday = Holiday(date: string, name: string)
  datatype WorkCalendar = WorkCalendar(
    weekend: Option<set<int>>, hours: Option<Hours>, holidays: Option<seq<Holiday>>, workingHoursOnly: Option<bool>)

  const MAX_DAYS: int := 800

  predicate IsHhMm(t: string) {
    |t| == 5 && IsDigits(t[..2]) && t[2] == ':' && IsDigits(t[3..]) && Num(t[..2]) < 24 && Num(t[3..]) < 60
  }

  predicate ValidCalendar(cal: WorkCalendar) {
    cal.hours.Some? ==> IsHhMm(cal.hours.value.start) && IsHhMm(cal.hours.value.end)
  }

  function Minutes(t: string): nat
    requires IsHhMm(t)
  {
    Num(t[..2]) * 60 + Num(t[3..])
  }

  /// Working hours in milliseconds after midnight, 09:00 to 18:00 unless given.
  function OpenMs(cal: WorkCalendar): (ms: nat)
    requires ValidCalendar(cal)
    ensures ms < DAY_MS
  {
    if cal.hours.Some? then Minutes(cal.hours.value.start) * 60_000 else 9 * 3_600_000
  }

  function CloseMs(cal: WorkCalendar): (ms: nat)
    requires ValidCalendar(cal)
    ensures ms < DAY_MS
  {
    if cal.hours.Some? then Minutes(cal.hours.value.end) * 60_000 else 18 * 3_600_000
  }

  function HolidayDates(cal: WorkCalendar): set<string> {
    if cal.holidays.Some? then (set h | h in cal.holidays.value :: h.date) else {}
  }

  function Weekend(cal: WorkCalendar): set<int> { if cal.weekend.Some? then cal.weekend.value else {0} }

  predicate IsWorkday(n: int, cal: WorkCalendar) { Weekday(n) !in Weekend(cal) && Iso(n) !in HolidayDates(cal) }

  /// When day `n` starts, `offset` milliseconds ahead of UTC.
  function DayStart(n: int, offset: int): int { n * DAY_MS - offset }

  // ---- what working time is ----

  /// When work starts and ends on day `n`; both are midnight on a day off.
  function Opens(n: int, cal: WorkCalendar, offset: int): (t: int)
    requires ValidCalendar(cal)
    ensures DayStart(n, offset) <= t < DayStart(n + 1, offset)
  {
    if IsWorkday(n, cal) then DayStart(n, offset) + OpenMs(cal) else DayStart(n, offset)
  }

  function Closes(n: int, cal: WorkCalendar, offset: int): (t: int)
    requires ValidCalendar(cal)
    ensures DayStart(n, offset) <= t < DayStart(n + 1, offset)
  {
    if IsWorkday(n, cal) then DayStart(n, offset) + CloseMs(cal) else DayStart(n, offset)
  }

  predicate IsWorking(t: int, cal: WorkCalendar, offset: int)
    requires ValidCalendar(cal)
  {
    Opens(DayAt(t, offset), cal, offset) <= t < Closes(DayAt(t, offset), cal, offset)
  }

  function Works(cal: WorkCalendar, offset: int): int -> bool
    requires ValidCalendar(cal)
  {
    t => IsWorking(t, cal, offset)
  }

  /// The working milliseconds in `[s, t)`.
  function Count(s: int, t: int, works: int -> bool): (c: nat)
    decreases t - s
  {
    if t <= s then 0 else Count(s, t - 1, works) + (if works(t - 1) then 1 else 0)
  }

  /// `r` is the first instant with `ms` of working time since `s`.
  ghost predicate IsDue(s: int, ms: nat, r: int, works: int -> bool) {
    && s <= r && Count(s, r, works) == ms
    && forall t :: s <= t < r ==> Count(s, t, works) < ms
  }

  /// The days looked at hold enough working time.
  predicate Enough(s: int, ms: nat, works: int -> bool, offset: int) {
    Count(s, LastDayEnd(s, offset), works) >= ms
  }

  function LastDayEnd(s: int, offset: int): int { DayStart(DayAt(s, offset) + MAX_DAYS, offset) }

  lemma {:induction false} CountSplits(s: int, m: int, t: int, works: int -> bool)
    requires s <= m <= t
    ensures Count(s, t, works) == Count(s, m, works) + Count(m, t, works)
    decreases t - m
  {
    if m < t { CountSplits(s, m, t - 1, works); }
  }

  lemma {:induction false} CountOff(s: int, t: int, works: int -> bool)
    requires s <= t
    requires forall u :: s <= u < t ==> !works(u)
    ensures Count(s, t, works) == 0
    decreases t - s
  {
    if s < t { CountOff(s, t - 1, works); }
  }

  lemma {:induction false} CountOn(s: int, t: int, works: int -> bool)
    requires s <= t
    requires forall u :: s <= u < t ==> works(u)
    ensures Count(s, t, works) == t - s
    decreases t - s
  {
    if s < t { CountOn(s, t - 1, works); }
  }

  lemma DayOfInstant(u: int, n: int, offset: int)
    requires DayStart(n, offset) <= u < DayStart(n + 1, offset)
    ensures DayAt(u, offset) == n
  {
  }

  lemma InDay(t: int, offset: int)
    ensures DayStart(DayAt(t, offset), offset) <= t < DayStart(DayAt(t, offset) + 1, offset)
  {
  }

  /// Working time of day `n` from `s` on, and how it is spread.
  lemma DayCount(n: int, s: int, cal: WorkCalendar, offset: int)
    requires ValidCalendar(cal) && DayStart(n, offset) <= s <= DayStart(n + 1, offset)
    ensures var from, close := Max(Opens(n, cal, offset), s), Closes(n, cal, offset);
            && (forall t :: from <= t <= close ==> Count(s, t, Works(cal, offset)) == t - from)
            && Count(s, DayStart(n + 1, offset), Works(cal, offset)) == Max(0, close - from)
  {
    var next := DayStart(n + 1, offset);
    var from, close := Max(Opens(n, cal, offset), s), Closes(n, cal, offset);
    forall u | s <= u < next ensures Works(cal, offset)(u) <==> from <= u < close {
      DayOfInstant(u, n, offset);
    }
    WindowCount(s, from, close, next, Works(cal, offset));
  }

  lemma WindowCount(s: int, from: int, close: int, next: int, works: int -> bool)
    requires s <= from && s <= next && close <= next
    requires forall u :: s <= u < next ==> (works(u) <==> from <= u < close)
    ensures forall t :: from <= t <= close ==> Count(s, t, works) == t - from
    ensures Count(s, next, works) == Max(0, close - from)
  {
    forall t | from <= t <= close ensures Count(s, t, works) == t - from {
      CountOff(s, from, works);
      CountSplits(s, from, t, works);
      CountOn(from, t, works);
    }
    if from < close {
      CountOff(close, next, works);
      CountSplits(s, close, next, works);
    } else {
      CountOff(s, next, works);
    }
  }

  function Max(a: int, b: int): int { if a < b then b else a }

  /// Working time since `start` during and after day `n`, of which `done` came before it.
  lemma CountThroughDay(start: int, n: int, done: int, cal: WorkCalendar, offset: int)
    requires ValidCalendar(cal) && start <= DayStart(n + 1, offset)
    requires Count(start, Max(start, DayStart(n, offset)), Works(cal, offset)) == done
    ensures var from, close := Max(Opens(n, cal, offset), start), Closes(n, cal, offset);
            && (forall t :: from <= t <= close ==> Count(start, t, Works(cal, offset)) == done + t - from)
            && Count(start, DayStart(n + 1, offset), Works(cal, offset)) == done + Max(0, close - from)
  {
    var s := Max(start, DayStart(n, offset));
    var from, close := Max(Opens(n, cal, offset), s), Closes(n, cal, offset);
    DayCount(n, s, cal, offset);
    CountSplits(start, s, DayStart(n + 1, offset), Works(cal, offset));
    forall t | from <= t <= close ensures Count(start, t, Works(cal, offset)) == done + t - from {
      CountSplits(start, s, t, Works(cal, offset));
    }
  }

  /// `works` is the calendar's working time. The quantifier only keeps that folded up.
  ghost predicate Follows(works: int -> bool, cal: WorkCalendar, offset: int)
    requires ValidCalendar(cal)
  {
    forall k: int {:trigger OnDemand(k)} :: OnDemand(k) ==> works == Works(cal, offset)
  }

  predicate OnDemand(k: int) { k == 0 }

  /// The same in the terms of the operation below: what is done when the day is over.
  lemma DayPasses(start: int, n: int, done: int, cal: WorkCalendar, offset: int, works: int -> bool, open: int, close: int)
    requires ValidCalendar(cal) && Follows(works, cal, offset) && start <= DayStart(n + 1, offset)
    requires open == DayStart(n, offset) + OpenMs(cal) && close == DayStart(n, offset) + CloseMs(cal)
    requires Count(start, Max(start, DayStart(n, offset)), works) == done
    ensures Count(start, DayStart(n + 1, offset), works)
         == if IsWorkday(n, cal) && Max(open, start) < close then done + close - Max(open, start) else done
  {
    assert OnDemand(0);
    CountThroughDay(start, n, done, cal, offset);
  }

  /// The day in which the work is done.
  lemma DayReaches(start: int, n: int, left: int, ms: nat, cal: WorkCalendar, offset: int, works: int -> bool, open: int, close: int)
    requires ValidCalendar(cal) && Follows(works, cal, offset) && start <= DayStart(n + 1, offset)
    requires open == DayStart(n, offset) + OpenMs(cal) && close == DayStart(n, offset) + CloseMs(cal)
    requires Count(start, Max(start, DayStart(n, offset)), works) == ms - left < ms
    requires IsWorkday(n, cal) && left <= close - Max(open, start)
    requires DayAt(start, offset) <= n < DayAt(start, offset) + MAX_DAYS
    ensures IsDue(start, ms, Max(open, start) + left, works)
    ensures Enough(start, ms, works, offset)
  {
    assert OnDemand(0);
    var r := Max(open, start) + left;
    CountThroughDay(start, n, ms - left, cal, offset);
    assert Count(start, r, works) == ms && Count(start, r - 1, works) == ms - 1;
    FoundDue(start, ms, r, works);
    EnoughAt(start, ms, r, n, works, offset);
  }

  // ---- the operation ----

  method WalkDays(start: int, ms: int, cal: WorkCalendar, offset: int, ghost works: int -> bool) returns (r: int)
    requires ValidCalendar(cal) && Follows(works, cal, offset)
    ensures ms >= 0 && Enough(start, ms, works, offset) ==> IsDue(start, ms, r, works)
    ensures ms < 0 || !Enough(start, ms, works, offset) ==> r == start + ms
  {
    var openMs, closeMs := OpenMs(cal), CloseMs(cal);
    var remaining := ms;
    var day := DayAt(start, offset);
    InDay(start, offset);
    var i := 0;
    while i < MAX_DAYS && remaining > 0
      invariant 0 <= i <= MAX_DAYS && day == DayAt(start, offset) + i
      invariant ms <= 0 ==> remaining == ms
      invariant ms > 0 ==> remaining > 0
      invariant start <= DayStart(day + 1, offset)
      invariant ms > 0 ==> Count(start, Max(start, DayStart(day, offset)), works) == ms - remaining
    {
      DayPasses(start, day, ms - remaining, cal, offset, works,
                DayStart(day, offset) + openMs, DayStart(day, offset) + closeMs);
      if IsWorkday(day, cal) {
        var dayStart := DayStart(day, offset);
        var open := dayStart + openMs;
        var close := dayStart + closeMs;
        var from := Max(open, start);
        if from < close {
          if close - from >= remaining {
            DayReaches(start, day, remaining, ms, cal, offset, works, open, close);
            return from + remaining;
          }
          remaining := remaining - (close - from);
        }
      }
      day := day + 1;
      i := i + 1;
    }
    if ms == 0 { NoWork(start, works); }
    if ms > 0 {
      assert DayStart(day, offset) == LastDayEnd(start, offset);
      NotEnough(start, ms, ms - remaining, works, offset);
    }
    r := start + ms;
  }

  method AddWorkingTime(start: int, ms: int, cal: WorkCalendar, offset: int) returns (r: int)
    requires ValidCalendar(cal)
    ensures ms >= 0 && Enough(start, ms, Works(cal, offset), offset) ==> IsDue(start, ms, r, Works(cal, offset))
    ensures ms < 0 || !Enough(start, ms, Works(cal, offset), offset) ==> r == start + ms
  {
    r := WalkDays(start, ms, cal, offset, Works(cal, offset));
  }

  lemma NoWork(start: int, works: int -> bool)
    ensures IsDue(start, 0, start, works)
  {
  }

  /// What the days looked at hold is all there is to count.
  lemma NotEnough(start: int, ms: nat, done: nat, works: int -> bool, offset: int)
    requires Count(start, Max(start, LastDayEnd(start, offset)), works) == done < ms
    ensures !Enough(start, ms, works, offset)
  {
  }

  lemma FoundDue(start: int, ms: nat, r: int, works: int -> bool)
    requires start < r && Count(start, r, works) == ms && Count(start, r - 1, works) == ms - 1
    ensures IsDue(start, ms, r, works)
  {
    forall t | start <= t < r ensures Count(start, t, works) < ms {
      CountSplits(start, t, r - 1, works);
    }
  }

  lemma EnoughAt(start: int, ms: nat, r: int, day: int, works: int -> bool, offset: int)
    requires start <= r <= DayStart(day + 1, offset) && Count(start, r, works) == ms
    requires DayAt(start, offset) <= day < DayAt(start, offset) + MAX_DAYS
    ensures Enough(start, ms, works, offset)
  {
    CountSplits(start, r, LastDayEnd(start, offset), works);
  }

  // ---- main results ----

  lemma DueUnique(s: int, ms: nat, r: int, q: int, works: int -> bool)
    requires IsDue(s, ms, r, works) && IsDue(s, ms, q, works)
    ensures r == q
  {
  }

  /// Working time adds up: `a` and then `b` ends where `a + b` does.
  lemma DueAdds(s: int, a: nat, b: nat, r: int, q: int, works: int -> bool)
    requires IsDue(s, a, r, works) && IsDue(r, b, q, works)
    ensures IsDue(s, a + b, q, works)
  {
    CountSplits(s, r, q, works);
    forall t | s <= t < q ensures Count(s, t, works) < a + b {
      if t >= r {
        CountSplits(s, r, t, works);
      }
    }
  }

  lemma DueBefore(s: int, ms: nat, r: int, t: int, works: int -> bool)
    requires IsDue(s, ms, r, works) && s <= t && Count(s, t, works) >= ms
    ensures r <= t
  {
  }

  /// If the days looked at suffice for `a + b`, they suffice for `a`, and then for `b`.
  lemma EnoughForParts(s: int, a: nat, b: nat, r: int, works: int -> bool, offset: int)
    requires Enough(s, a + b, works, offset) && IsDue(s, a, r, works)
    ensures Enough(s, a, works, offset) && Enough(r, b, works, offset)
  {
    var end, later := LastDayEnd(s, offset), LastDayEnd(r, offset);
    InDay(s, offset);
    InDay(r, offset);
    DueBefore(s, a, r, end, works);
    CountSplits(s, r, end, works);
    CountSplits(r, end, later, works);
  }

  /// Adding `a` and then `b` gives the instant adding `a + b` gives.
  method AddInTwoSteps(start: int, a: nat, b: nat, cal: WorkCalendar, offset: int) returns (twice: int, once: int)
    requires ValidCalendar(cal) && Enough(start, a + b, Works(cal, offset), offset)
    ensures twice == once && IsDue(start, a + b, once, Works(cal, offset))
  {
    once := AddWorkingTime(start, a + b, cal, offset);
    var middle := AddWorkingTime(start, a, cal, offset);
    EnoughForParts(start, a, b, middle, Works(cal, offset), offset);
    twice := AddWorkingTime(middle, b, cal, offset);
    DueAdds(start, a, b, middle, twice, Works(cal, offset));
    DueUnique(start, a + b, twice, once, Works(cal, offset));
  }
}
