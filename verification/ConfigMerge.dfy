/// Configuration layers and how they merge.

module ConfigMerge {
  import opened Basics
  import opened CanonicalJson
  import opened KeyedMerge
  import WorkingTime

  datatype Field = Field(key: string, archived: bool, picklist: Option<string>, numbering: Option<string>, rest: string)

  /// An entity, or a patch of one: its properties, tax settings, roles and fields.
  datatype Entity = Entity(
    key: string, props: map<string, string>, tax: Option<map<string, string>>, roles: Option<seq<string>>,
    fields: seq<Field>)

  /// An item of one of the other lists: picklists, forms, number series, workflows and so on.
  datatype Item = Item(key: string, body: string)

  type Holiday = WorkingTime.Holiday

  type WorkCalendar = WorkingTime.WorkCalendar

  /// `lists` holds the twelve lists of keyed items.
  datatype Layer = Layer(
    entities: seq<Entity>, lists: seq<seq<Item>>, calendar: Option<WorkCalendar>, settings: map<string, string>)

  const LISTS: nat := 12
  const PICKLISTS: nat := 0
  const NUMBERING: nat := 1

  predicate IsLayer(l: Layer) { |l.lists| == LISTS }

  predicate AreLayers(ls: seq<Layer>) { forall i :: 0 <= i < |ls| ==> IsLayer(ls[i]) }

  const NO_ITEMS: seq<seq<Item>> := [[], [], [], [], [], [], [], [], [], [], [], []]

  const EMPTY_LAYER: Layer := Layer([], NO_ITEMS, None, map[])

  // ---- entities ----

  function FieldKey(f: Field): string { f.key }
  function LaterField(a: Field, b: Field): Field { b }
  function ItemKey(i: Item): string { i.key }
  function LaterItem(a: Item, b: Item): Item { b }
  function SameText(s: string): string { s }
  function LaterText(a: string, b: string): string { b }
  function DateOf(h: Holiday): string { h.date }
  function LaterHoliday(a: Holiday, b: Holiday): Holiday { b }
  function EntityKey(e: Entity): string { e.key }

  function MergedFields(fs: seq<Field>): seq<Field> { Fold([], fs, FieldKey, LaterField) }
  function MergedRoles(rs: seq<string>): seq<string> { Fold([], rs, SameText, LaterText) }
  function MergedItems(xs: seq<Item>): seq<Item> { Fold([], xs, ItemKey, LaterItem) }
  function MergedHolidays(hs: seq<Holiday>): seq<Holiday> { Fold([], hs, DateOf, LaterHoliday) }
  function MergedEntities(es: seq<Entity>): seq<Entity> { Fold([], es, EntityKey, MergeEntity) }

  function MergeFields(a: seq<Field>, b: seq<Field>): seq<Field> {
    Fold(MergedFields(a), b, FieldKey, LaterField)
  }

  function MergeTax(a: Option<map<string, string>>, b: Option<map<string, string>>): Option<map<string, string>> {
    if a.Some? && b.Some? then Some(a.value + b.value) else if b.Some? then b else a
  }

  function MergeRoles(a: Option<seq<string>>, b: Option<seq<string>>): Option<seq<string>> {
    if a.Some? && b.Some? then Some(MergedRoles(a.value + b.value)) else if b.Some? then b else a
  }

  function MergeEntity(prev: Entity, patch: Entity): Entity {
    Entity(patch.key, prev.props + patch.props, MergeTax(prev.tax, patch.tax), MergeRoles(prev.roles, patch.roles),
           MergeFields(prev.fields, patch.fields))
  }

  lemma ReplacingLaws()
    ensures Lawful(FieldKey, LaterField) && Lawful(ItemKey, LaterItem)
    ensures Lawful(SameText, LaterText) && Lawful(DateOf, LaterHoliday)
  {
  }

  lemma MergeFieldsAll(a: seq<Field>, b: seq<Field>)
    ensures MergeFields(a, b) == MergedFields(a + b)
  {
    FoldAppend([], a, b, FieldKey, LaterField);
  }

  lemma MergeFieldsAssoc(a: seq<Field>, b: seq<Field>, c: seq<Field>)
    ensures MergeFields(MergeFields(a, b), c) == MergeFields(a, MergeFields(b, c))
  {
    ReplacingLaws();
    MergeFieldsAll(a, b);
    MergeFieldsAll(b, c);
    MergeFieldsAll(MergeFields(a, b), c);
    MergeFieldsAll(a, MergeFields(b, c));
    MergeThree(a, b, c, FieldKey, LaterField);
  }

  lemma MergeRolesAssoc(a: Option<seq<string>>, b: Option<seq<string>>, c: Option<seq<string>>)
    ensures MergeRoles(MergeRoles(a, b), c) == MergeRoles(a, MergeRoles(b, c))
  {
    if a.Some? && b.Some? && c.Some? { MergedRolesAssoc(a.value, b.value, c.value); }
  }

  lemma MergedRolesAssoc(a: seq<string>, b: seq<string>, c: seq<string>)
    ensures MergedRoles(MergedRoles(a + b) + c) == MergedRoles(a + MergedRoles(b + c))
  {
    ReplacingLaws();
    MergeThree(a, b, c, SameText, LaterText);
  }

  lemma MergeEntityAssoc(a: Entity, b: Entity, c: Entity)
    ensures MergeEntity(MergeEntity(a, b), c) == MergeEntity(a, MergeEntity(b, c))
  {
    MergeFieldsAssoc(a.fields, b.fields, c.fields);
    MergeRolesAssoc(a.roles, b.roles, c.roles);
    assert (a.props + b.props) + c.props == a.props + (b.props + c.props);
    if a.tax.Some? && b.tax.Some? && c.tax.Some? {
      assert (a.tax.value + b.tax.value) + c.tax.value == a.tax.value + (b.tax.value + c.tax.value);
    }
  }

  lemma EntityLaws()
    ensures Lawful(EntityKey, MergeEntity)
  {
    forall a: Entity, b: Entity, c: Entity
      ensures MergeEntity(MergeEntity(a, b), c) == MergeEntity(a, MergeEntity(b, c))
    {
      MergeEntityAssoc(a, b, c);
    }
  }

  // ---- calendars ----

  function InsertHoliday(h: Holiday, hs: seq<Holiday>): seq<Holiday> {
    if hs == [] || LexLess(h.date, hs[0].date) then [h] + hs else [hs[0]] + InsertHoliday(h, hs[1..])
  }

  function SortHolidays(hs: seq<Holiday>): seq<Holiday> {
    if hs == [] then [] else InsertHoliday(hs[0], SortHolidays(hs[1..]))
  }

  function HolidaysOf(c: WorkCalendar): seq<Holiday> { if c.holidays.Some? then c.holidays.value else [] }

  function AllHolidays(cs: seq<WorkCalendar>): seq<Holiday> {
    if cs == [] then [] else AllHolidays(cs[..|cs| - 1]) + HolidaysOf(cs[|cs| - 1])
  }

  function Later<T>(a: Option<T>, b: Option<T>): Option<T> { if b.Some? then b else a }

  /// What `b` sets replaces what `a` sets; holidays apart.
  function Over(a: WorkCalendar, b: WorkCalendar): WorkCalendar {
    WorkingTime.WorkCalendar(Later(a.weekend, b.weekend), Later(a.hours, b.hours), None,
                             Later(a.workingHoursOnly, b.workingHoursOnly))
  }

  const NO_CALENDAR: WorkCalendar := WorkingTime.WorkCalendar(None, None, None, None)

  function AllProps(cs: seq<WorkCalendar>): WorkCalendar {
    if cs == [] then NO_CALENDAR else Over(AllProps(cs[..|cs| - 1]), cs[|cs| - 1])
  }

  /// The properties of the last calendar that sets them, and the holidays of all, sorted, with the
  /// last name for each date.
  function MergeCalendars(cs: seq<WorkCalendar>): Option<WorkCalendar> {
    if cs == [] then None
    else Some(AllProps(cs).(holidays := Some(SortHolidays(MergedHolidays(AllHolidays(cs))))))
  }

  /// The loop over the calendars present.
  method MergeCalendarList(list: seq<Option<WorkCalendar>>) returns (r: Option<WorkCalendar>)
    ensures r == MergeCalendars(Present(list))
  {
    var holidays: seq<Holiday> := [];
    var props := NO_CALENDAR;
    var some := false;
    var i := 0;
    while i < |list|
      invariant i <= |list|
      invariant holidays == MergedHolidays(AllHolidays(Present(list[..i])))
      invariant props == AllProps(Present(list[..i])) && (some <==> Present(list[..i]) != [])
    {
      PresentStep(list, i);
      if list[i].Some? {
        FoldAppend([], AllHolidays(Present(list[..i])), HolidaysOf(list[i].value), DateOf, LaterHoliday);
        holidays := MergeByKey(holidays, HolidaysOf(list[i].value), DateOf, LaterHoliday);
        props := Over(props, list[i].value);
        some := true;
      }
      i := i + 1;
    }
    assert list[..i] == list;
    r := if some then Some(props.(holidays := Some(SortHolidays(holidays)))) else None;
  }

  lemma PresentStep(list: seq<Option<WorkCalendar>>, i: nat)
    requires i < |list|
    ensures var before, after := Present(list[..i]), Present(list[..i + 1]);
            if list[i].None? then after == before
            else
              && after == before + [list[i].value]
              && AllHolidays(after) == AllHolidays(before) + HolidaysOf(list[i].value)
              && AllProps(after) == Over(AllProps(before), list[i].value)
  {
    assert list[..i + 1][..i] == list[..i];
    if list[i].Some? {
      var before := Present(list[..i]);
      assert (before + [list[i].value])[..|before|] == before;
    }
  }

  function Present(list: seq<Option<WorkCalendar>>): seq<WorkCalendar> {
    if list == [] then []
    else
      var rest := Present(list[..|list| - 1]);
      if list[|list| - 1].Some? then rest + [list[|list| - 1].value] else rest
  }

  predicate ByDate(hs: seq<Holiday>) { forall i, k :: 0 <= i < k < |hs| ==> LexLess(hs[i].date, hs[k].date) }

  lemma {:induction false} InsertByDate(h: Holiday, hs: seq<Holiday>)
    requires ByDate(hs) && forall x :: x in hs ==> x.date != h.date
    ensures ByDate(InsertHoliday(h, hs)) && forall x :: x in InsertHoliday(h, hs) <==> x == h || x in hs
  {
    if hs == [] {
    } else if LexLess(h.date, hs[0].date) {
      forall k | 0 <= k < |hs| ensures LexLess(h.date, hs[k].date) {
        if k > 0 { LexTransitive(h.date, hs[0].date, hs[k].date); }
      }
    } else {
      LexTotal(h.date, hs[0].date);
      InsertByDate(h, hs[1..]);
      var r := InsertHoliday(h, hs[1..]);
      assert hs == [hs[0]] + hs[1..];
      forall k | 0 <= k < |r| ensures LexLess(hs[0].date, r[k].date) {
        assert r[k] in r;
        if r[k] != h { assert r[k] in hs[1..]; }
      }
    }
  }

  lemma {:induction false} SortedByDate(hs: seq<Holiday>)
    requires KeysDistinct(hs, DateOf)
    ensures ByDate(SortHolidays(hs)) && forall x :: x in SortHolidays(hs) <==> x in hs
  {
    if hs != [] {
      SortedByDate(hs[1..]);
      forall x | x in hs[1..] ensures x.date != hs[0].date {
        var i :| 0 <= i < |hs[1..]| && hs[1..][i] == x;
        assert hs[i + 1] == x && DateOf(hs[0]) != DateOf(hs[i + 1]);
      }
      InsertByDate(hs[0], SortHolidays(hs[1..]));
      assert hs == [hs[0]] + hs[1..];
    }
  }

  lemma {:induction false} ByDateEqual(xs: seq<Holiday>, ys: seq<Holiday>)
    requires ByDate(xs) && ByDate(ys) && forall h :: h in xs <==> h in ys
    ensures xs == ys
  {
    assert ys == [] || ys[0] in xs;
    if xs != [] {
      assert xs[0] in ys;
      FirstDates(xs, ys);
      forall h ensures h in xs[1..] <==> h in ys[1..] {
        LaterDates(xs, h);
        LaterDates(ys, h);
      }
      ByDateEqual(xs[1..], ys[1..]);
      assert xs == [xs[0]] + xs[1..] && ys == [ys[0]] + ys[1..];
    }
  }

  lemma FirstDates(xs: seq<Holiday>, ys: seq<Holiday>)
    requires ByDate(xs) && ByDate(ys) && xs != [] && ys != [] && xs[0] in ys && ys[0] in xs
    ensures xs[0] == ys[0]
  {
    LexTotal(xs[0].date, ys[0].date);
    LexTotal(xs[0].date, xs[0].date);
  }

  lemma LaterDates(xs: seq<Holiday>, h: Holiday)
    requires ByDate(xs) && xs != []
    ensures h in xs[1..] <==> h in xs && h != xs[0]
  {
    LexTotal(xs[0].date, xs[0].date);
    assert xs == [xs[0]] + xs[1..];
  }

  /// Without repeated dates, merging keeps what is not replaced.
  lemma {:induction false} FoldHolidays(acc: seq<Holiday>, hs: seq<Holiday>, h: Holiday)
    requires KeysDistinct(acc, DateOf) && KeysDistinct(hs, DateOf)
    ensures h in Fold(acc, hs, DateOf, LaterHoliday) <==> h in hs || (h in acc && !Has(hs, h.date, DateOf))
    decreases |hs|
  {
    ReplacingLaws();
    if hs != [] {
      PutHoliday(acc, hs[0], h);
      PutDistinct(acc, hs[0], DateOf, LaterHoliday);
      FirstHoliday(hs);
      FoldHolidays(Put(acc, hs[0], DateOf, LaterHoliday), hs[1..], h);
      HasSplit(hs, h.date, DateOf);
    }
  }

  lemma FirstHoliday(hs: seq<Holiday>)
    requires hs != [] && KeysDistinct(hs, DateOf)
    ensures KeysDistinct(hs[1..], DateOf) && !Has(hs[1..], hs[0].date, DateOf)
    ensures forall h :: h in hs <==> h == hs[0] || h in hs[1..]
  {
    assert forall i :: 0 <= i < |hs[1..]| ==> hs[1..][i] == hs[i + 1];
    assert hs == [hs[0]] + hs[1..];
  }

  lemma {:induction false} PutHoliday(acc: seq<Holiday>, x: Holiday, h: Holiday)
    requires KeysDistinct(acc, DateOf)
    ensures h in Put(acc, x, DateOf, LaterHoliday) <==> h == x || (h in acc && h.date != x.date)
  {
    if acc != [] {
      assert acc == [acc[0]] + acc[1..];
      if acc[0].date == x.date {
        forall i | 0 <= i < |acc[1..]| ensures acc[1..][i].date != x.date {
          assert DateOf(acc[0]) != DateOf(acc[i + 1]);
        }
      } else {
        PutHoliday(acc[1..], x, h);
      }
    }
  }

  lemma MergedDistinct(hs: seq<Holiday>)
    ensures KeysDistinct(MergedHolidays(hs), DateOf)
  {
    ReplacingLaws();
    FoldDistinct([], hs, DateOf, LaterHoliday);
  }

  /// Which holidays a merge of two lists without repeated dates holds.
  lemma MergedPair(xs: seq<Holiday>, ys: seq<Holiday>, h: Holiday)
    requires KeysDistinct(xs, DateOf) && KeysDistinct(ys, DateOf)
    ensures h in MergedHolidays(xs + ys) <==> h in ys || (h in xs && !Has(ys, h.date, DateOf))
  {
    FoldAppend([], xs, ys, DateOf, LaterHoliday);
    MergedDistinct(xs);
    FoldHolidays([], xs, h);
    FoldHolidays(MergedHolidays(xs), ys, h);
  }

  /// Sorting in between does not change the merged and sorted list.
  lemma SortInBetween(xs: seq<Holiday>, ys: seq<Holiday>)
    ensures SortHolidays(MergedHolidays(SortHolidays(MergedHolidays(xs)) + SortHolidays(MergedHolidays(ys))))
         == SortHolidays(MergedHolidays(xs + ys))
  {
    ReplacingLaws();
    var mx, my := MergedHolidays(xs), MergedHolidays(ys);
    MergedDistinct(xs);
    MergedDistinct(ys);
    MergeGroups(xs, ys, DateOf, LaterHoliday);
    SortedMerge(mx, my);
  }

  lemma SortedMerge(mx: seq<Holiday>, my: seq<Holiday>)
    requires KeysDistinct(mx, DateOf) && KeysDistinct(my, DateOf)
    ensures SortHolidays(MergedHolidays(SortHolidays(mx) + SortHolidays(my))) == SortHolidays(MergedHolidays(mx + my))
  {
    var sx, sy := SortHolidays(mx), SortHolidays(my);
    SortedByDate(mx);
    SortedByDate(my);
    ByDateDistinct(sx);
    ByDateDistinct(sy);
    var a, b := MergedHolidays(sx + sy), MergedHolidays(mx + my);
    forall h ensures h in a <==> h in b {
      MergedPair(sx, sy, h);
      MergedPair(mx, my, h);
      SameDates(sy, my, h.date);
    }
    MergedDistinct(sx + sy);
    MergedDistinct(mx + my);
    SortedByDate(a);
    SortedByDate(b);
    ByDateEqual(SortHolidays(a), SortHolidays(b));
  }

  lemma ByDateDistinct(hs: seq<Holiday>)
    requires ByDate(hs)
    ensures KeysDistinct(hs, DateOf)
  {
    forall i, k | 0 <= i < k < |hs| ensures DateOf(hs[i]) != DateOf(hs[k]) {
      LexTotal(hs[i].date, hs[k].date);
      LexTotal(hs[i].date, hs[i].date);
    }
  }

  lemma SameDates(xs: seq<Holiday>, ys: seq<Holiday>, date: string)
    requires forall h :: h in xs <==> h in ys
    ensures Has(xs, date, DateOf) <==> Has(ys, date, DateOf)
  {
    if Has(xs, date, DateOf) {
      var i :| 0 <= i < |xs| && DateOf(xs[i]) == date;
      assert xs[i] in ys;
    }
    if Has(ys, date, DateOf) {
      var i :| 0 <= i < |ys| && DateOf(ys[i]) == date;
      assert ys[i] in xs;
    }
  }

  lemma {:induction false} HolidayListsApart(xs: seq<WorkCalendar>, ys: seq<WorkCalendar>)
    ensures AllHolidays(xs + ys) == AllHolidays(xs) + AllHolidays(ys)
  {
    if ys == [] {
      assert xs + ys == xs;
    } else {
      var n := |ys| - 1;
      assert (xs + ys)[..|xs + ys| - 1] == xs + ys[..n];
      HolidayListsApart(xs, ys[..n]);
    }
  }

  lemma {:induction false} CalendarPropsApart(xs: seq<WorkCalendar>, ys: seq<WorkCalendar>)
    ensures AllProps(xs + ys) == Over(AllProps(xs), AllProps(ys))
  {
    if ys == [] {
      assert xs + ys == xs;
    } else {
      var n := |ys| - 1;
      assert (xs + ys)[..|xs + ys| - 1] == xs + ys[..n];
      CalendarPropsApart(xs, ys[..n]);
    }
  }

  function Listed(c: Option<WorkCalendar>): seq<WorkCalendar> { if c.Some? then [c.value] else [] }

  /// Merging calendars in groups gives the same calendar.
  lemma CalendarGroups(xs: seq<WorkCalendar>, ys: seq<WorkCalendar>)
    ensures MergeCalendars(Listed(MergeCalendars(xs)) + Listed(MergeCalendars(ys))) == MergeCalendars(xs + ys)
  {
    var gx, gy := Listed(MergeCalendars(xs)), Listed(MergeCalendars(ys));
    HolidayListsApart(xs, ys);
    HolidayListsApart(gx, gy);
    CalendarPropsApart(xs, ys);
    CalendarPropsApart(gx, gy);
    OneCalendar(xs);
    OneCalendar(ys);
    SortInBetween(AllHolidays(xs), AllHolidays(ys));
  }

  lemma OneCalendar(xs: seq<WorkCalendar>)
    ensures AllHolidays(Listed(MergeCalendars(xs))) == SortHolidays(MergedHolidays(AllHolidays(xs)))
    ensures AllProps(Listed(MergeCalendars(xs))) == AllProps(xs)
  {
    if xs != [] {
      var c := MergeCalendars(xs).value;
      assert [c][..0] == [];
    }
  }

  // ---- layers ----

  function AllEntities(ls: seq<Layer>): seq<Entity> {
    if ls == [] then [] else AllEntities(ls[..|ls| - 1]) + ls[|ls| - 1].entities
  }

  function AllItems(ls: seq<Layer>, list: nat): seq<Item>
    requires AreLayers(ls) && list < LISTS
  {
    if ls == [] then [] else AllItems(ls[..|ls| - 1], list) + ls[|ls| - 1].lists[list]
  }

  function AllCalendars(ls: seq<Layer>): seq<WorkCalendar> {
    if ls == [] then [] else AllCalendars(ls[..|ls| - 1]) + Listed(ls[|ls| - 1].calendar)
  }

  function AllSettings(ls: seq<Layer>): map<string, string> {
    if ls == [] then map[] else AllSettings(ls[..|ls| - 1]) + ls[|ls| - 1].settings
  }

  function MergedLists(ls: seq<Layer>): (r: seq<seq<Item>>)
    requires AreLayers(ls)
    ensures |r| == LISTS && forall i :: 0 <= i < LISTS ==> r[i] == MergedItems(AllItems(ls, i))
  {
    seq(LISTS, i requires 0 <= i < LISTS => MergedItems(AllItems(ls, i)))
  }

  /// All parts of the layers merged, each by its own kind of key.
  function MergeLayers(ls: seq<Layer>): (r: Layer)
    requires AreLayers(ls)
    ensures IsLayer(r)
  {
    Layer(MergedEntities(AllEntities(ls)), MergedLists(ls), MergeCalendars(AllCalendars(ls)), AllSettings(ls))
  }

  lemma {:induction false} EntitiesApart(xs: seq<Layer>, ys: seq<Layer>)
    ensures AllEntities(xs + ys) == AllEntities(xs) + AllEntities(ys)
  {
    if ys == [] {
      assert xs + ys == xs;
    } else {
      var n := |ys| - 1;
      assert (xs + ys)[..|xs + ys| - 1] == xs + ys[..n];
      EntitiesApart(xs, ys[..n]);
    }
  }

  lemma {:induction false} CalendarListsApart(xs: seq<Layer>, ys: seq<Layer>)
    ensures AllCalendars(xs + ys) == AllCalendars(xs) + AllCalendars(ys)
  {
    if ys == [] {
      assert xs + ys == xs;
    } else {
      var n := |ys| - 1;
      assert (xs + ys)[..|xs + ys| - 1] == xs + ys[..n];
      CalendarListsApart(xs, ys[..n]);
    }
  }

  lemma {:induction false} SettingsApart(xs: seq<Layer>, ys: seq<Layer>)
    ensures AllSettings(xs + ys) == AllSettings(xs) + AllSettings(ys)
  {
    if ys == [] {
      assert xs + ys == xs;
    } else {
      var n := |ys| - 1;
      assert (xs + ys)[..|xs + ys| - 1] == xs + ys[..n];
      SettingsApart(xs, ys[..n]);
    }
  }

  lemma {:induction false} ItemsApart(xs: seq<Layer>, ys: seq<Layer>, list: nat)
    requires AreLayers(xs) && AreLayers(ys) && list < LISTS
    ensures AllItems(xs + ys, list) == AllItems(xs, list) + AllItems(ys, list)
  {
    if ys == [] {
      assert xs + ys == xs;
    } else {
      var n := |ys| - 1;
      assert (xs + ys)[..|xs + ys| - 1] == xs + ys[..n];
      ItemsApart(xs, ys[..n], list);
    }
  }

  lemma OneLayer(l: Layer)
    ensures AllEntities([l]) == l.entities && AllCalendars([l]) == Listed(l.calendar) && AllSettings([l]) == l.settings
    ensures IsLayer(l) ==> forall i :: 0 <= i < LISTS ==> AllItems([l], i) == l.lists[i]
  {
    assert [l][..0] == [];
  }

  lemma TwoEntities(a: Layer, b: Layer)
    ensures AllEntities([a, b]) == a.entities + b.entities
  {
    assert [a, b] == [a] + [b];
    EntitiesApart([a], [b]);
    OneLayer(a);
    OneLayer(b);
  }

  lemma TwoRests(a: Layer, b: Layer)
    ensures AllCalendars([a, b]) == Listed(a.calendar) + Listed(b.calendar) && AllSettings([a, b]) == a.settings + b.settings
  {
    assert [a, b] == [a] + [b];
    CalendarListsApart([a], [b]);
    SettingsApart([a], [b]);
    OneLayer(a);
    OneLayer(b);
  }

  lemma TwoLists(a: Layer, b: Layer, list: nat)
    requires IsLayer(a) && IsLayer(b) && list < LISTS
    ensures AllItems([a, b], list) == a.lists[list] + b.lists[list]
  {
    assert [a, b] == [a] + [b];
    ItemsApart([a], [b], list);
    OneLayer(a);
    OneLayer(b);
  }

  lemma ItemGroups(xs: seq<Layer>, ys: seq<Layer>, list: nat)
    requires AreLayers(xs) && AreLayers(ys) && list < LISTS
    ensures MergedItems(AllItems([MergeLayers(xs), MergeLayers(ys)], list)) == MergedItems(AllItems(xs + ys, list))
  {
    ReplacingLaws();
    TwoLists(MergeLayers(xs), MergeLayers(ys), list);
    ItemsApart(xs, ys, list);
    MergeGroups(AllItems(xs, list), AllItems(ys, list), ItemKey, LaterItem);
  }

  lemma EntityGroups(xs: seq<Layer>, ys: seq<Layer>)
    requires AreLayers(xs) && AreLayers(ys)
    ensures MergedEntities(AllEntities([MergeLayers(xs), MergeLayers(ys)])) == MergedEntities(AllEntities(xs + ys))
  {
    EntityLaws();
    TwoEntities(MergeLayers(xs), MergeLayers(ys));
    EntitiesApart(xs, ys);
    MergeGroups(AllEntities(xs), AllEntities(ys), EntityKey, MergeEntity);
  }

  lemma RestGroups(xs: seq<Layer>, ys: seq<Layer>)
    requires AreLayers(xs) && AreLayers(ys)
    ensures var pair := [MergeLayers(xs), MergeLayers(ys)];
            && MergeCalendars(AllCalendars(pair)) == MergeCalendars(AllCalendars(xs + ys))
            && AllSettings(pair) == AllSettings(xs + ys)
  {
    TwoRests(MergeLayers(xs), MergeLayers(ys));
    CalendarListsApart(xs, ys);
    SettingsApart(xs, ys);
    CalendarGroups(AllCalendars(xs), AllCalendars(ys));
  }

  lemma ListGroups(xs: seq<Layer>, ys: seq<Layer>)
    requires AreLayers(xs) && AreLayers(ys)
    ensures MergedLists([MergeLayers(xs), MergeLayers(ys)]) == MergedLists(xs + ys)
  {
    var pair := [MergeLayers(xs), MergeLayers(ys)];
    forall i | 0 <= i < LISTS ensures MergedLists(pair)[i] == MergedLists(xs + ys)[i] {
      ItemGroups(xs, ys, i);
    }
  }

  lemma SameParts(ls: seq<Layer>, ms: seq<Layer>)
    requires AreLayers(ls) && AreLayers(ms)
    requires MergedEntities(AllEntities(ls)) == MergedEntities(AllEntities(ms)) && MergedLists(ls) == MergedLists(ms)
    requires MergeCalendars(AllCalendars(ls)) == MergeCalendars(AllCalendars(ms)) && AllSettings(ls) == AllSettings(ms)
    ensures MergeLayers(ls) == MergeLayers(ms)
  {
  }

  /// Merging is associative, and keeps the order in which keys first appear.
  lemma MergeInGroups(xs: seq<Layer>, ys: seq<Layer>)
    requires AreLayers(xs) && AreLayers(ys)
    ensures MergeLayers([MergeLayers(xs), MergeLayers(ys)]) == MergeLayers(xs + ys)
  {
    EntityGroups(xs, ys);
    RestGroups(xs, ys);
    ListGroups(xs, ys);
    SameParts([MergeLayers(xs), MergeLayers(ys)], xs + ys);
  }

  lemma AddedLayer(ls: seq<Layer>, n: nat)
    requires n < |ls|
    ensures ls[..n] + [ls[n]] == ls[..n + 1]
    ensures MergedEntities(AllEntities(ls[..n + 1]))
         == Fold(MergedEntities(AllEntities(ls[..n])), ls[n].entities, EntityKey, MergeEntity)
    ensures AllSettings(ls[..n + 1]) == AllSettings(ls[..n]) + ls[n].settings
    ensures AllCalendars(ls[..n + 1]) == AllCalendars(ls[..n]) + Listed(ls[n].calendar)
  {
    assert ls[..n + 1][..n] == ls[..n];
    FoldAppend([], AllEntities(ls[..n]), ls[n].entities, EntityKey, MergeEntity);
  }

  /// The loop over the layers.
  method MergeLayerList(ls: seq<Layer>) returns (r: Layer)
    requires AreLayers(ls)
    ensures r == MergeLayers(ls)
  {
    var entities: seq<Entity> := [];
    var lists: seq<seq<Item>> := MergedLists([]);
    var settings: map<string, string> := map[];
    var calendars: seq<WorkCalendar> := [];
    var n := 0;
    while n < |ls|
      invariant n <= |ls|
      invariant entities == MergedEntities(AllEntities(ls[..n]))
      invariant lists == MergedLists(ls[..n])
      invariant settings == AllSettings(ls[..n]) && calendars == AllCalendars(ls[..n])
    {
      AddedLayer(ls, n);
      entities := MergeByKey(entities, ls[n].entities, EntityKey, MergeEntity);
      lists := MergeLists(lists, ls[n], ls[..n]);
      settings := settings + ls[n].settings;
      calendars := calendars + Listed(ls[n].calendar);
      n := n + 1;
    }
    assert ls[..n] == ls;
    r := Layer(entities, lists, MergeCalendars(calendars), settings);
  }

  lemma AddedItems(before: seq<Layer>, layer: Layer, list: nat)
    requires AreLayers(before) && IsLayer(layer) && list < LISTS
    ensures MergedItems(AllItems(before + [layer], list))
         == Fold(MergedItems(AllItems(before, list)), layer.lists[list], ItemKey, LaterItem)
  {
    ItemsApart(before, [layer], list);
    OneLayer(layer);
    FoldAppend([], AllItems(before, list), layer.lists[list], ItemKey, LaterItem);
  }

  method MergeLists(lists: seq<seq<Item>>, layer: Layer, ghost before: seq<Layer>) returns (r: seq<seq<Item>>)
    requires AreLayers(before) && IsLayer(layer) && lists == MergedLists(before)
    ensures r == MergedLists(before + [layer])
  {
    r := [];
    var i := 0;
    while i < LISTS
      invariant i <= LISTS && |r| == i
      invariant forall k :: 0 <= k < i ==> r[k] == MergedItems(AllItems(before + [layer], k))
    {
      AddedItems(before, layer, i);
      var merged := MergeByKey(lists[i], layer.lists[i], ItemKey, LaterItem);
      r := r + [merged];
      i := i + 1;
    }
    assert r == MergedLists(before + [layer]);
  }
}
