/// Which definition wins when layers merge: for every key that of the last layer that has
/// one, and of its last definition there.

module ConfigLast {
  import opened Basics
  import opened CanonicalJson
  import opened KeyedMerge
  import opened ConfigMerge
  import WorkingTime

  // ---- the last of several lists ----

  /// Item `i` of list `n` is the last one with the property, in the order of the lists.
  ghost predicate IsLast<T>(parts: seq<seq<T>>, n: nat, i: nat, has: T -> bool) {
    && n < |parts| && i < |parts[n]| && has(parts[n][i])
    && (forall j :: i < j < |parts[n]| ==> !has(parts[n][j]))
    && (forall m, j :: n < m < |parts| && 0 <= j < |parts[m]| ==> !has(parts[m][j]))
  }

  ghost predicate NoneHas<T>(parts: seq<seq<T>>, has: T -> bool) {
    forall m, j :: 0 <= m < |parts| && 0 <= j < |parts[m]| ==> !has(parts[m][j])
  }

  function Concat<T>(parts: seq<seq<T>>): seq<T> {
    if parts == [] then [] else Concat(parts[..|parts| - 1]) + parts[|parts| - 1]
  }

  ghost predicate LastWith<T>(list: seq<T>, q: nat, has: T -> bool) {
    q < |list| && has(list[q]) && forall j :: q < j < |list| ==> !has(list[j])
  }

  lemma {:induction false} LastInConcat<T>(parts: seq<seq<T>>, n: nat, i: nat, has: T -> bool) returns (q: nat)
    requires IsLast(parts, n, i, has)
    ensures LastWith(Concat(parts), q, has) && Concat(parts)[q] == parts[n][i]
  {
    var l := |parts| - 1;
    var before := Concat(parts[..l]);
    if n == l {
      q := |before| + i;
    } else {
      q := LastInConcat(parts[..l], n, i, has);
    }
  }

  lemma {:induction false} NoneInConcat<T>(parts: seq<seq<T>>, has: T -> bool)
    requires NoneHas(parts, has)
    ensures forall x <- Concat(parts) :: !has(x)
  {
    if parts != [] {
      var l := |parts| - 1;
      NoneInConcat(parts[..l], has);
      assert forall j :: 0 <= j < |parts[l]| ==> !has(parts[l][j]);
    }
  }

  // ---- merging items that replace each other ----

  ghost predicate Replaces<T(!new)>(combine: (T, T) -> T) {
    forall a, b {:trigger combine(a, b)} :: combine(a, b) == b
  }

  lemma {:induction false} PutIn<T(!new)>(list: seq<T>, x: T, y: T, key: T -> string, combine: (T, T) -> T)
    requires Replaces(combine)
    ensures x in Put(list, x, key, combine)
    ensures y in list && key(y) != key(x) ==> y in Put(list, x, key, combine)
    ensures y in Put(list, x, key, combine) ==> y == x || y in list
  {
    if list != [] {
      assert list == [list[0]] + list[1..];
      if key(list[0]) != key(x) { PutIn(list[1..], x, y, key, combine); }
    }
  }

  lemma {:induction false} FoldOneMore<T>(items: seq<T>, key: T -> string, combine: (T, T) -> T)
    requires items != []
    ensures var n := |items| - 1;
            Fold([], items, key, combine) == Put(Fold([], items[..n], key, combine), items[n], key, combine)
  {
    var n := |items| - 1;
    assert items == items[..n] + [items[n]];
    FoldAppend([], items[..n], [items[n]], key, combine);
  }

  lemma {:induction false} FoldTakesLast<T(!new)>(items: seq<T>, key: T -> string, combine: (T, T) -> T, q: nat)
    requires Replaces(combine) && q < |items| && forall j :: q < j < |items| ==> key(items[j]) != key(items[q])
    ensures items[q] in Fold([], items, key, combine)
  {
    var n := |items| - 1;
    FoldOneMore(items, key, combine);
    PutIn(Fold([], items[..n], key, combine), items[n], items[q], key, combine);
    if q < n { FoldTakesLast(items[..n], key, combine, q); }
  }

  lemma {:induction false} FoldAddsNothing<T(!new)>(items: seq<T>, key: T -> string, combine: (T, T) -> T, y: T)
    requires Replaces(combine) && y in Fold([], items, key, combine)
    ensures y in items
  {
    if items != [] {
      var n := |items| - 1;
      FoldOneMore(items, key, combine);
      PutIn(Fold([], items[..n], key, combine), items[n], y, key, combine);
      if y != items[n] { FoldAddsNothing(items[..n], key, combine, y); }
      assert items == items[..n] + [items[n]];
    }
  }

  /// The keys there before stay in their places.
  lemma {:induction false} PutKeepsPlaces<T(!new)>(list: seq<T>, x: T, key: T -> string, combine: (T, T) -> T)
    requires Lawful(key, combine)
    ensures var r := Put(list, x, key, combine);
            |list| <= |r| <= |list| + 1 && forall i :: 0 <= i < |list| ==> key(r[i]) == key(list[i])
  {
    if list != [] && key(list[0]) != key(x) { PutKeepsPlaces(list[1..], x, key, combine); }
  }

  lemma {:induction false} FoldKeepsPlaces<T(!new)>(acc: seq<T>, items: seq<T>, key: T -> string, combine: (T, T) -> T)
    requires Lawful(key, combine)
    ensures var r := Fold(acc, items, key, combine);
            |acc| <= |r| && forall i :: 0 <= i < |acc| ==> key(r[i]) == key(acc[i])
    decreases |items|
  {
    if items != [] {
      PutKeepsPlaces(acc, items[0], key, combine);
      FoldKeepsPlaces(Put(acc, items[0], key, combine), items[1..], key, combine);
    }
  }

  // ---- the keyed lists ----

  function ListParts(ls: seq<Layer>, list: nat): seq<seq<Item>>
    requires AreLayers(ls) && list < LISTS
  {
    seq(|ls|, n requires 0 <= n < |ls| => ls[n].lists[list])
  }

  function OfItemKey(k: string): Item -> bool { (x: Item) => x.key == k }

  lemma {:induction false} ItemsAreConcat(ls: seq<Layer>, list: nat, parts: seq<seq<Item>>)
    requires AreLayers(ls) && list < LISTS && |parts| == |ls|
    requires forall n :: 0 <= n < |ls| ==> parts[n] == ls[n].lists[list]
    ensures AllItems(ls, list) == Concat(parts)
  {
    if ls != [] {
      var n := |ls| - 1;
      ItemsAreConcat(ls[..n], list, parts[..n]);
    }
  }

  lemma {:induction false} MergedItemsDistinct(ls: seq<Layer>, list: nat)
    requires AreLayers(ls) && list < LISTS
    ensures var merged := MergeLayers(ls).lists[list];
            forall i, k :: 0 <= i < k < |merged| ==> merged[i].key != merged[k].key
  {
    ReplacingLaws();
    FoldDistinct([], AllItems(ls, list), ItemKey, LaterItem);
    var merged := MergeLayers(ls).lists[list];
    assert forall i :: 0 <= i < |merged| ==> ItemKey(merged[i]) == merged[i].key;
  }

  lemma {:induction false} LastOfAll(ls: seq<Layer>, list: nat, q: nat)
    requires AreLayers(ls) && list < LISTS && q < |AllItems(ls, list)|
    requires LastWith(AllItems(ls, list), q, OfItemKey(AllItems(ls, list)[q].key))
    ensures AllItems(ls, list)[q] in MergeLayers(ls).lists[list]
  {
    var all := AllItems(ls, list);
    forall j | q < j < |all| ensures ItemKey(all[j]) != ItemKey(all[q]) { assert !OfItemKey(all[q].key)(all[j]); }
    FoldTakesLast(all, ItemKey, LaterItem, q);
  }

  /// Of every key the merged list has exactly one item: the last definition of the last layer
  /// that has one.
  lemma {:induction false} ItemIsLast(ls: seq<Layer>, list: nat, k: string, n: nat, i: nat)
    requires AreLayers(ls) && list < LISTS && IsLast(ListParts(ls, list), n, i, OfItemKey(k))
    ensures var merged := MergeLayers(ls).lists[list];
            && ls[n].lists[list][i] in merged
            && forall x <- merged :: x.key == k ==> x == ls[n].lists[list][i]
  {
    ItemsAreConcat(ls, list, ListParts(ls, list));
    var q := LastInConcat(ListParts(ls, list), n, i, OfItemKey(k));
    LastOfAll(ls, list, q);
    OnlyOne(ls, list, ls[n].lists[list][i]);
  }

  lemma {:induction false} OnlyOne(ls: seq<Layer>, list: nat, x: Item)
    requires AreLayers(ls) && list < LISTS && x in MergeLayers(ls).lists[list]
    ensures forall y <- MergeLayers(ls).lists[list] :: y.key == x.key ==> y == x
  {
    MergedItemsDistinct(ls, list);
  }

  /// What no layer has, the merged list has not.
  lemma {:induction false} NoSuchItem(ls: seq<Layer>, list: nat, k: string)
    requires AreLayers(ls) && list < LISTS && NoneHas(ListParts(ls, list), OfItemKey(k))
    ensures forall x <- MergeLayers(ls).lists[list] :: x.key != k
  {
    ItemsAreConcat(ls, list, ListParts(ls, list));
    NoneInConcat(ListParts(ls, list), OfItemKey(k));
    forall x | x in MergeLayers(ls).lists[list] ensures x.key != k {
      FoldAddsNothing(AllItems(ls, list), ItemKey, LaterItem, x);
      assert !OfItemKey(k)(x);
    }
  }

  /// Another layer leaves the keys before it in their places.
  lemma {:induction false} PlacesStay(ls: seq<Layer>, more: Layer, list: nat)
    requires AreLayers(ls) && IsLayer(more) && list < LISTS
    ensures var before, after := MergeLayers(ls).lists[list], MergeLayers(ls + [more]).lists[list];
            |before| <= |after| && forall i :: 0 <= i < |before| ==> after[i].key == before[i].key
  {
    ReplacingLaws();
    AddedItems(ls, more, list);
    FoldKeepsPlaces(MergedItems(AllItems(ls, list)), more.lists[list], ItemKey, LaterItem);
    var before, after := MergeLayers(ls).lists[list], MergeLayers(ls + [more]).lists[list];
    assert forall i :: 0 <= i < |before| ==> ItemKey(after[i]) == ItemKey(before[i]);
  }

  // ---- settings ----

  /// A setting has the value of the last layer that sets it.
  lemma {:induction false} SettingIsLast(ls: seq<Layer>, s: string, n: nat)
    requires AreLayers(ls) && n < |ls| && s in ls[n].settings
    requires forall m :: n < m < |ls| ==> s !in ls[m].settings
    ensures s in MergeLayers(ls).settings && MergeLayers(ls).settings[s] == ls[n].settings[s]
  {
    if n < |ls| - 1 { SettingIsLast(ls[..|ls| - 1], s, n); }
  }

  lemma {:induction false} NoSuchSetting(ls: seq<Layer>, s: string)
    requires AreLayers(ls) && forall m :: 0 <= m < |ls| ==> s !in ls[m].settings
    ensures s !in MergeLayers(ls).settings
  {
    if ls != [] { NoSuchSetting(ls[..|ls| - 1], s); }
  }

  // ---- calendars ----

  function HolidaysIn(l: Layer): seq<Holiday> {
    if l.calendar.Some? && l.calendar.value.holidays.Some? then l.calendar.value.holidays.value else []
  }

  function HolidayParts(ls: seq<Layer>): (parts: seq<seq<Holiday>>)
    ensures |parts| == |ls| && forall n :: 0 <= n < |ls| ==> parts[n] == HolidaysIn(ls[n])
  {
    seq(|ls|, n requires 0 <= n < |ls| => HolidaysIn(ls[n]))
  }

  function OnDate(date: string): Holiday -> bool { (h: Holiday) => h.date == date }

  lemma {:induction false} CalendarStep(ls: seq<Layer>)
    requires ls != []
    ensures var n := |ls| - 1;
            var before, after := AllCalendars(ls[..n]), AllCalendars(ls);
            if ls[n].calendar.None? then after == before
            else
              && after != [] && AllHolidays(after) == AllHolidays(before) + HolidaysOf(ls[n].calendar.value)
              && AllProps(after) == Over(AllProps(before), ls[n].calendar.value)
  {
    var n := |ls| - 1;
    if ls[n].calendar.Some? {
      assert AllCalendars(ls)[..|AllCalendars(ls)| - 1] == AllCalendars(ls[..n]);
    }
  }

  lemma {:induction false} HolidaysAreConcat(ls: seq<Layer>, parts: seq<seq<Holiday>>)
    requires |parts| == |ls| && forall n :: 0 <= n < |ls| ==> parts[n] == HolidaysIn(ls[n])
    ensures AllHolidays(AllCalendars(ls)) == Concat(parts)
  {
    if ls != [] {
      var n := |ls| - 1;
      HolidaysAreConcat(ls[..n], parts[..n]);
      HolidayStep(ls);
    }
  }

  lemma {:induction false} HolidayStep(ls: seq<Layer>)
    requires ls != []
    ensures AllHolidays(AllCalendars(ls)) == AllHolidays(AllCalendars(ls[..|ls| - 1])) + HolidaysIn(ls[|ls| - 1])
  {
    CalendarStep(ls);
  }

  /// There is a calendar when a layer has one; then its holidays stand in the order of their
  /// dates, each date once.
  lemma {:induction false} CalendarThere(ls: seq<Layer>)
    requires AreLayers(ls)
    ensures MergeLayers(ls).calendar.Some? <==> exists n :: 0 <= n < |ls| && ls[n].calendar.Some?
    ensures MergeLayers(ls).calendar.Some? ==>
              var hs := MergeLayers(ls).calendar.value.holidays;
              hs.Some? && forall i, k :: 0 <= i < k < |hs.value| ==> LexLess(hs.value[i].date, hs.value[k].date)
  {
    SomeCalendar(ls);
    MergedDistinct(AllHolidays(AllCalendars(ls)));
    SortedByDate(MergedHolidays(AllHolidays(AllCalendars(ls))));
  }

  lemma {:induction false} SomeCalendar(ls: seq<Layer>)
    ensures AllCalendars(ls) != [] <==> exists n :: 0 <= n < |ls| && ls[n].calendar.Some?
  {
    if AllCalendars(ls) != [] { var n := CalendarFrom(ls); }
    if n :| 0 <= n < |ls| && ls[n].calendar.Some? { CalendarListed(ls, n); }
  }

  lemma {:induction false} CalendarFrom(ls: seq<Layer>) returns (n: nat)
    requires AllCalendars(ls) != []
    ensures n < |ls| && ls[n].calendar.Some?
  {
    n := |ls| - 1;
    if ls[n].calendar.None? {
      CalendarStep(ls);
      n := CalendarFrom(ls[..n]);
    }
  }

  lemma {:induction false} CalendarListed(ls: seq<Layer>, n: nat)
    requires n < |ls| && ls[n].calendar.Some?
    ensures AllCalendars(ls) != []
  {
    CalendarStep(ls);
    if n < |ls| - 1 { CalendarListed(ls[..|ls| - 1], n); }
  }

  /// A date is a holiday when a layer makes it one, under its last name.
  lemma {:induction false} HolidayIsLast(ls: seq<Layer>, date: string, n: nat, i: nat)
    requires AreLayers(ls) && IsLast(HolidayParts(ls), n, i, OnDate(date))
    ensures MergeLayers(ls).calendar.Some? && MergeLayers(ls).calendar.value.holidays.Some?
    ensures var hs := MergeLayers(ls).calendar.value.holidays.value;
            HolidayParts(ls)[n][i] in hs && forall h <- hs :: h.date == date ==> h == HolidayParts(ls)[n][i]
  {
    var all := AllHolidays(AllCalendars(ls));
    HolidaysAreConcat(ls, HolidayParts(ls));
    var q := LastInConcat(HolidayParts(ls), n, i, OnDate(date));
    assert ls[n].calendar.Some?;
    SomeCalendar(ls);
    LastHoliday(all, q);
  }

  lemma {:induction false} LastHoliday(all: seq<Holiday>, q: nat)
    requires q < |all| && LastWith(all, q, OnDate(all[q].date))
    ensures var hs := SortHolidays(MergedHolidays(all));
            all[q] in hs && forall h <- hs :: h.date == all[q].date ==> h == all[q]
  {
    forall j | q < j < |all| ensures DateOf(all[j]) != DateOf(all[q]) { assert !OnDate(all[q].date)(all[j]); }
    FoldTakesLast(all, DateOf, LaterHoliday, q);
    MergedDistinct(all);
    var merged := MergedHolidays(all);
    SortedByDate(merged);
    forall h | h in merged && h.date == all[q].date ensures h == all[q] {
      var a :| 0 <= a < |merged| && merged[a] == h;
      var b :| 0 <= b < |merged| && merged[b] == all[q];
      assert DateOf(merged[a]) == DateOf(merged[b]);
    }
  }

  lemma {:induction false} NoSuchHoliday(ls: seq<Layer>, date: string)
    requires AreLayers(ls) && NoneHas(HolidayParts(ls), OnDate(date)) && MergeLayers(ls).calendar.Some?
    ensures MergeLayers(ls).calendar.value.holidays.Some?
    ensures forall h <- MergeLayers(ls).calendar.value.holidays.value :: h.date != date
  {
    var all := AllHolidays(AllCalendars(ls));
    HolidaysAreConcat(ls, HolidayParts(ls));
    NoneInConcat(HolidayParts(ls), OnDate(date));
    MergedDistinct(all);
    SortedByDate(MergedHolidays(all));
    forall h | h in MergedHolidays(all) ensures h.date != date {
      FoldAddsNothing(all, DateOf, LaterHoliday, h);
      assert !OnDate(date)(h);
    }
  }

  /// The weekend, the hours and what they count for are those of the last layer that sets them.
  lemma {:induction false} WeekendIsLast(ls: seq<Layer>, n: nat)
    requires AreLayers(ls) && n < |ls| && ls[n].calendar.Some? && ls[n].calendar.value.weekend.Some?
    requires forall m :: n < m < |ls| && ls[m].calendar.Some? ==> ls[m].calendar.value.weekend.None?
    ensures AllProps(AllCalendars(ls)).weekend == ls[n].calendar.value.weekend
    ensures MergeLayers(ls).calendar.Some? && MergeLayers(ls).calendar.value.weekend == ls[n].calendar.value.weekend
  {
    CalendarStep(ls);
    SomeCalendar(ls);
    if n < |ls| - 1 { WeekendIsLast(ls[..|ls| - 1], n); }
  }

  lemma {:induction false} HoursAreLast(ls: seq<Layer>, n: nat)
    requires AreLayers(ls) && n < |ls| && ls[n].calendar.Some? && ls[n].calendar.value.hours.Some?
    requires forall m :: n < m < |ls| && ls[m].calendar.Some? ==> ls[m].calendar.value.hours.None?
    ensures AllProps(AllCalendars(ls)).hours == ls[n].calendar.value.hours
    ensures MergeLayers(ls).calendar.Some? && MergeLayers(ls).calendar.value.hours == ls[n].calendar.value.hours
  {
    CalendarStep(ls);
    SomeCalendar(ls);
    if n < |ls| - 1 { HoursAreLast(ls[..|ls| - 1], n); }
  }

  lemma {:induction false} HoursOnlyIsLast(ls: seq<Layer>, n: nat)
    requires AreLayers(ls) && n < |ls| && ls[n].calendar.Some? && ls[n].calendar.value.workingHoursOnly.Some?
    requires forall m :: n < m < |ls| && ls[m].calendar.Some? ==> ls[m].calendar.value.workingHoursOnly.None?
    ensures AllProps(AllCalendars(ls)).workingHoursOnly == ls[n].calendar.value.workingHoursOnly
    ensures MergeLayers(ls).calendar.Some?
    ensures MergeLayers(ls).calendar.value.workingHoursOnly == ls[n].calendar.value.workingHoursOnly
  {
    CalendarStep(ls);
    SomeCalendar(ls);
    if n < |ls| - 1 { HoursOnlyIsLast(ls[..|ls| - 1], n); }
  }

  /// What no layer sets stays unset.
  lemma {:induction false} CalendarUnset(ls: seq<Layer>)
    requires AreLayers(ls) && MergeLayers(ls).calendar.Some?
    ensures var c := MergeLayers(ls).calendar.value;
            && (c.weekend.Some? ==> exists n :: 0 <= n < |ls| && ls[n].calendar.Some? && ls[n].calendar.value.weekend.Some?)
            && (c.hours.Some? ==> exists n :: 0 <= n < |ls| && ls[n].calendar.Some? && ls[n].calendar.value.hours.Some?)
            && (c.workingHoursOnly.Some? ==>
                  exists n :: 0 <= n < |ls| && ls[n].calendar.Some? && ls[n].calendar.value.workingHoursOnly.Some?)
  {
    PropsFrom(ls);
  }

  lemma {:induction false} PropsFrom(ls: seq<Layer>)
    ensures var c := AllProps(AllCalendars(ls));
            && (c.weekend.Some? ==> exists n :: 0 <= n < |ls| && ls[n].calendar.Some? && ls[n].calendar.value.weekend.Some?)
            && (c.hours.Some? ==> exists n :: 0 <= n < |ls| && ls[n].calendar.Some? && ls[n].calendar.value.hours.Some?)
            && (c.workingHoursOnly.Some? ==>
                  exists n :: 0 <= n < |ls| && ls[n].calendar.Some? && ls[n].calendar.value.workingHoursOnly.Some?)
  {
    if ls != [] {
      var l := |ls| - 1;
      CalendarStep(ls);
      PropsFrom(ls[..l]);
      assert forall n :: 0 <= n < l ==> ls[..l][n] == ls[n];
    }
  }
}
