/// Records and the collection of their unique values, written together
/// (apps/records-service/src/records.service.ts).

module Uniques {
  import opened Basics

  type Id = string

  /// A unit of the organization, or the company as a whole.
  type Place = string

  const COMPANY: Place := "/"

  /// `version` stands for `updatedAt`: every write of the document changes it.
  datatype Record = Record(
    entity: string, place: Place, data: map<string, string>, live: bool, sourceKey: Option<string>, version: nat)

  datatype Row = Row(entity: string, field: string, value: string, recordId: Id)

  /// An entity as it is configured at a place: its unique fields, and whether its records
  /// belong to units.
  datatype EntityDef = EntityDef(unique: seq<string>, scoped: bool)

  /// The definitions by place and entity, and the text by which two values are compared.
  datatype Config = Config(defs: map<(Place, string), EntityDef>, normal: string -> string)

  datatype Outcome = Done | Created(id: Id) | Existing(id: Id) | Removed(count: nat) | Failed(error: WriteError)
  datatype WriteError = Changed | NoUnit | Taken(field: string)

  function DefAt(c: Config, place: Place, entity: string): EntityDef {
    if (place, entity) in c.defs then c.defs[(place, entity)] else EntityDef([], true)
  }

  function UniqueFields(c: Config, place: Place, entity: string): seq<string> { DefAt(c, place, entity).unique }

  /// The fields that are unique for a record where it is.
  function UniqueFor(c: Config, r: Record): seq<string> { UniqueFields(c, r.place, r.entity) }

  ghost predicate Distinct(fs: seq<string>) { forall i, k :: 0 <= i < k < |fs| ==> fs[i] != fs[k] }

  /// No field is listed twice.
  ghost predicate FieldsDiffer(c: Config) { forall k :: k in c.defs ==> Distinct(c.defs[k].unique) }

  function Key(c: Config, data: map<string, string>, f: string): Option<string> {
    if f in data && data[f] != "" then Some(c.normal(data[f])) else None
  }

  // ---- the two collections ----

  /// The row's record is live and has the row's value in a field that is unique for it.
  ghost predicate Holds(c: Config, rs: map<Id, Record>, row: Row) {
    && row.recordId in rs && Uses(c, rs[row.recordId], row.entity, row.field, row.value)
  }

  predicate Uses(c: Config, r: Record, entity: string, f: string, value: string) {
    r.live && r.entity == entity && f in UniqueFor(c, r) && Key(c, r.data, f) == Some(value)
  }

  /// The rows are exactly the unique values of the live records.
  ghost predicate Exact(c: Config, rs: map<Id, Record>, rows: set<Row>) {
    forall row :: row in rows <==> Holds(c, rs, row)
  }

  /// The unique index on entity, field and value.
  ghost predicate Indexed(rows: set<Row>) {
    forall a, b :: a in rows && b in rows && SameEntry(a, b) ==> a == b
  }

  predicate SameEntry(a: Row, b: Row) { a.entity == b.entity && a.field == b.field && a.value == b.value }

  /// Another live record of the entity, for which the field is unique as well, has the value
  /// that `data` has there.
  ghost predicate UsedByOther(c: Config, rs: map<Id, Record>, entity: string, id: Id, data: map<string, string>, f: string) {
    && Key(c, data, f).Some?
    && exists o :: o in rs && o != id && Uses(c, rs[o], entity, f, Key(c, data, f).value)
  }

  /// The index does its job on an exact collection: no two live records share a value in a
  /// field that is unique for both, and that is all it forbids.
  lemma IndexMeansUnique(c: Config, rs: map<Id, Record>, rows: set<Row>)
    requires Exact(c, rs, rows)
    ensures Indexed(rows) <==>
            forall id, f :: id in rs && rs[id].live && f in UniqueFor(c, rs[id])
              ==> !UsedByOther(c, rs, rs[id].entity, id, rs[id].data, f)
  {
    if Indexed(rows) {
      forall id, f | id in rs && rs[id].live && f in UniqueFor(c, rs[id])
        ensures !UsedByOther(c, rs, rs[id].entity, id, rs[id].data, f)
      {
        var e := rs[id].entity;
        if UsedByOther(c, rs, e, id, rs[id].data, f) {
          var v := Key(c, rs[id].data, f).value;
          var o :| o in rs && o != id && Uses(c, rs[o], e, f, v);
          assert Holds(c, rs, Row(e, f, v, id)) && Holds(c, rs, Row(e, f, v, o));
          assert SameEntry(Row(e, f, v, id), Row(e, f, v, o));
          assert false;
        }
      }
    } else {
      var a, b :| a in rows && b in rows && SameEntry(a, b) && a != b;
      assert Holds(c, rs, a) && Holds(c, rs, b);
      assert Uses(c, rs[b.recordId], a.entity, a.field, a.value);
      assert UsedByOther(c, rs, a.entity, a.recordId, rs[a.recordId].data, a.field);
    }
  }

  // ---- one pass over the unique fields ----

  predicate KeyChanges(c: Config, before: map<string, string>, data: map<string, string>, f: string) {
    Key(c, before, f) != Key(c, data, f)
  }

  predicate InUse(rows: set<Row>, entity: string, f: string, v: string) {
    exists row :: row in rows && row.entity == entity && row.field == f && row.value == v
  }

  /// The index refuses the field's new value.
  predicate Refuses(c: Config, rows: set<Row>, entity: string, before: map<string, string>, data: map<string, string>, f: string) {
    KeyChanges(c, before, data, f) && Key(c, data, f).Some? && InUse(rows, entity, f, Key(c, data, f).value)
  }

  /// The first field that is refused.
  function FirstRefused(c: Config, fs: seq<string>, rows: set<Row>, entity: string, before: map<string, string>,
                        data: map<string, string>): (r: Option<string>)
    ensures r.Some? <==> exists f :: f in fs && Refuses(c, rows, entity, before, data, f)
    ensures r.Some? ==> r.value in fs && Refuses(c, rows, entity, before, data, r.value)
  {
    if fs == [] then None
    else if Refuses(c, rows, entity, before, data, fs[0]) then Some(fs[0])
    else FirstRefused(c, fs[1..], rows, entity, before, data)
  }

  function Refused(c: Config, rows: set<Row>, before: map<string, string>, r: Record): Option<string> {
    FirstRefused(c, UniqueFor(c, r), rows, r.entity, before, r.data)
  }

  function RowFor(entity: string, f: string, v: Option<string>, id: Id): set<Row> {
    if v.Some? then {Row(entity, f, v.value, id)} else {}
  }

  /// The rows after a pass over `fs`: where the key changes, the row of the old one is gone
  /// and that of the new one there; nothing else is touched.
  ghost predicate Passed(c: Config, fs: seq<string>, was: set<Row>, rows: set<Row>, entity: string, id: Id,
                         before: map<string, string>, data: map<string, string>)
  {
    forall row :: row in rows <==> AfterPass(c, fs, was, row, entity, id, before, data)
  }

  predicate AfterPass(c: Config, fs: seq<string>, was: set<Row>, row: Row, entity: string, id: Id,
                      before: map<string, string>, data: map<string, string>)
  {
    if row.entity == entity && row.recordId == id && row.field in fs && KeyChanges(c, before, data, row.field)
    then Key(c, data, row.field) == Some(row.value) || (row in was && Key(c, before, row.field) != Some(row.value))
    else row in was
  }

  lemma OneField(c: Config, fs: seq<string>, n: nat, was: set<Row>, rows: set<Row>, entity: string, id: Id,
                 before: map<string, string>, data: map<string, string>)
    requires n < |fs| && Distinct(fs) && Passed(c, fs[..n], was, rows, entity, id, before, data)
    ensures var f := fs[n];
            var next := if !KeyChanges(c, before, data, f) then rows
                        else rows - RowFor(entity, f, Key(c, before, f), id) + RowFor(entity, f, Key(c, data, f), id);
            Passed(c, fs[..n + 1], was, next, entity, id, before, data)
  {
    var f := fs[n];
    assert f !in fs[..n] && fs[..n + 1] == fs[..n] + [f];
  }

  lemma RefusedStep(c: Config, fs: seq<string>, i: nat, was: set<Row>, entity: string, before: map<string, string>,
                    data: map<string, string>)
    requires i < |fs|
    ensures FirstRefused(c, fs[i..], was, entity, before, data)
         == if Refuses(c, was, entity, before, data, fs[i]) then Some(fs[i])
            else FirstRefused(c, fs[i + 1..], was, entity, before, data)
  {
    assert fs[i..][0] == fs[i] && fs[i..][1..] == fs[i + 1..];
  }

  lemma AddedIndexed(rows: set<Row>, entity: string, f: string, v: Option<string>, id: Id)
    requires Indexed(rows) && (v.Some? ==> !InUse(rows, entity, f, v.value))
    ensures Indexed(rows + RowFor(entity, f, v, id))
  {
  }

  /// The rows of a field that the pass has not come to are as before.
  lemma NotYetPassed(c: Config, fs: seq<string>, n: nat, was: set<Row>, rows: set<Row>, entity: string, id: Id,
                     before: map<string, string>, data: map<string, string>)
    requires n < |fs| && Distinct(fs) && Passed(c, fs[..n], was, rows, entity, id, before, data)
    requires KeyChanges(c, before, data, fs[n]) && Key(c, data, fs[n]).Some?
    ensures InUse(rows - RowFor(entity, fs[n], Key(c, before, fs[n]), id), entity, fs[n], Key(c, data, fs[n]).value)
       <==> Refuses(c, was, entity, before, data, fs[n])
  {
    var f, v := fs[n], Key(c, data, fs[n]).value;
    var rest := rows - RowFor(entity, f, Key(c, before, f), id);
    assert f !in fs[..n];
    forall row: Row | row.entity == entity && row.field == f && row.value == v ensures row in rest <==> row in was {
      assert AfterPass(c, fs[..n], was, row, entity, id, before, data) <==> row in was;
    }
    if InUse(was, entity, f, v) {
      var row :| row in was && row.entity == entity && row.field == f && row.value == v;
      assert row in rest;
    }
  }

  // ---- an exact collection, and when it stays so ----

  /// `before` is what the record holds; a new record holds nothing.
  predicate HeldBefore(rs: map<Id, Record>, id: Id, entity: string, before: map<string, string>) {
    if id in rs then rs[id].live && rs[id].entity == entity && rs[id].data == before else before == map[]
  }

  /// On an exact collection a value is refused exactly when another live record for which the
  /// field is unique has it.
  lemma RefusedMeansUsed(c: Config, rs: map<Id, Record>, rows: set<Row>, entity: string, id: Id,
                         before: map<string, string>, data: map<string, string>, f: string)
    requires Exact(c, rs, rows) && HeldBefore(rs, id, entity, before)
    ensures Refuses(c, rows, entity, before, data, f)
       <==> KeyChanges(c, before, data, f) && UsedByOther(c, rs, entity, id, data, f)
  {
    if Refuses(c, rows, entity, before, data, f) {
      var row :| row in rows && row.entity == entity && row.field == f && row.value == Key(c, data, f).value;
      assert Holds(c, rs, row);
      assert row.recordId != id;
    }
    if UsedByOther(c, rs, entity, id, data, f) {
      var v := Key(c, data, f).value;
      var o :| o in rs && o != id && Uses(c, rs[o], entity, f, v);
      assert Holds(c, rs, Row(entity, f, v, o));
      assert Row(entity, f, v, o) in rows;
    }
  }

  ghost predicate ValueUsed(c: Config, rs: map<Id, Record>, id: Id, before: map<string, string>, r: Record) {
    exists f :: f in UniqueFor(c, r) && KeyChanges(c, before, r.data, f) && UsedByOther(c, rs, r.entity, id, r.data, f)
  }

  lemma RefusedExactly(c: Config, rs: map<Id, Record>, rows: set<Row>, id: Id, before: map<string, string>, r: Record)
    requires Exact(c, rs, rows) && HeldBefore(rs, id, r.entity, before)
    ensures Refused(c, rows, before, r).Some? <==> ValueUsed(c, rs, id, before, r)
  {
    forall f
      ensures Refuses(c, rows, r.entity, before, r.data, f)
         <==> KeyChanges(c, before, r.data, f) && UsedByOther(c, rs, r.entity, id, r.data, f)
    {
      RefusedMeansUsed(c, rs, rows, r.entity, id, before, r.data, f);
    }
  }

  /// A field that becomes unique for the record had no value or gets another one, and a field
  /// that no longer is unique for it had no value.
  ghost predicate StepFits(c: Config, was: Record, now: Record) {
    && (forall f :: f in UniqueFor(c, now) && f !in UniqueFor(c, was) ==> Key(c, was.data, f).None? || KeyChanges(c, was.data, now.data, f))
    && (forall f :: f in UniqueFor(c, was) && f !in UniqueFor(c, now) ==> Key(c, was.data, f).None?)
  }

  /// A changed record leaves the collection exact exactly when the step fits.
  lemma ChangeKeepsExact(c: Config, rs: map<Id, Record>, was: set<Row>, rows: set<Row>, id: Id, r: Record)
    requires Exact(c, rs, was) && id in rs && rs[id].live && r.live && rs[id].entity == r.entity
    requires Passed(c, UniqueFor(c, r), was, rows, r.entity, id, rs[id].data, r.data)
    ensures Exact(c, rs[id := r], rows) <==> StepFits(c, rs[id], r)
  {
    if Exact(c, rs[id := r], rows) { ExactStepFits(c, rs, was, rows, id, r); }
    if StepFits(c, rs[id], r) {
      forall row ensures row in rows <==> Holds(c, rs[id := r], row) {
        assert row in rows <==> AfterPass(c, UniqueFor(c, r), was, row, r.entity, id, rs[id].data, r.data);
        assert row in was <==> Holds(c, rs, row);
      }
    }
  }

  lemma ExactStepFits(c: Config, rs: map<Id, Record>, was: set<Row>, rows: set<Row>, id: Id, r: Record)
    requires Exact(c, rs, was) && id in rs && rs[id].live && r.live && rs[id].entity == r.entity
    requires Passed(c, UniqueFor(c, r), was, rows, r.entity, id, rs[id].data, r.data) && Exact(c, rs[id := r], rows)
    ensures StepFits(c, rs[id], r)
  {
    forall f | (f in UniqueFor(c, r)) != (f in UniqueFor(c, rs[id])) && Key(c, rs[id].data, f).Some?
      ensures f in UniqueFor(c, r) && KeyChanges(c, rs[id].data, r.data, f)
    {
      var row := Row(r.entity, f, Key(c, rs[id].data, f).value, id);
      assert row in was <==> Holds(c, rs, row);
      assert row in rows <==> AfterPass(c, UniqueFor(c, r), was, row, r.entity, id, rs[id].data, r.data);
      assert row in rows <==> Holds(c, rs[id := r], row);
    }
  }

  lemma SavedExactly(c: Config, rs: map<Id, Record>, was: set<Row>, rows: set<Row>, id: Id, r: Record,
                     before: map<string, string>, fits: bool)
    requires (fits ==> Exact(c, rs, was)) && r.live && HeldBefore(rs, id, r.entity, before)
    requires Passed(c, UniqueFor(c, r), was, rows, r.entity, id, before, r.data)
    ensures fits && (id in rs ==> StepFits(c, rs[id], r)) ==> Exact(c, rs[id := r], rows)
  {
    if fits {
      if id in rs { ChangeKeepsExact(c, rs, was, rows, id, r); } else { NewKeepsExact(c, rs, was, rows, id, r); }
    }
  }

  /// The version of a document does not matter here.
  lemma SameButVersion(c: Config, rs: map<Id, Record>, rows: set<Row>, id: Id, doc: Record, a: Record, b: Record)
    requires b == a.(version := b.version)
    ensures UniqueFor(c, a) == UniqueFor(c, b) && Refused(c, rows, doc.data, a) == Refused(c, rows, doc.data, b)
    ensures ValueUsed(c, rs, id, doc.data, a) <==> ValueUsed(c, rs, id, doc.data, b)
    ensures StepFits(c, doc, a) <==> StepFits(c, doc, b)
  {
  }

  /// A new record leaves it exact.
  lemma NewKeepsExact(c: Config, rs: map<Id, Record>, was: set<Row>, rows: set<Row>, id: Id, r: Record)
    requires Exact(c, rs, was) && id !in rs && r.live
    requires Passed(c, UniqueFor(c, r), was, rows, r.entity, id, map[], r.data)
    ensures Exact(c, rs[id := r], rows)
  {
    forall row ensures row in rows <==> Holds(c, rs[id := r], row) {
      assert row in rows <==> AfterPass(c, UniqueFor(c, r), was, row, r.entity, id, map[], r.data);
      assert row in was <==> Holds(c, rs, row);
    }
  }

  /// No live record has a value in a field that becomes unique for it or no longer is.
  ghost predicate ConfigFits(c: Config, d: Config, rs: map<Id, Record>) {
    forall id, f :: id in rs && rs[id].live && (f in UniqueFor(c, rs[id])) != (f in UniqueFor(d, rs[id])) ==> Key(c, rs[id].data, f).None?
  }

  lemma HeldIfUnique(c: Config, rs: map<Id, Record>, id: Id, f: string)
    requires id in rs && rs[id].live
    ensures Key(c, rs[id].data, f).Some? ==>
              (Holds(c, rs, Row(rs[id].entity, f, Key(c, rs[id].data, f).value, id)) <==> f in UniqueFor(c, rs[id]))
  {
  }

  /// Another configuration leaves the collection exact exactly when it fits.
  lemma ConfigKeepsExact(c: Config, d: Config, rs: map<Id, Record>, rows: set<Row>)
    requires Exact(c, rs, rows) && c.normal == d.normal
    ensures Exact(d, rs, rows) <==> ConfigFits(c, d, rs)
  {
    if Exact(d, rs, rows) {
      forall id, f | id in rs && rs[id].live && (f in UniqueFor(c, rs[id])) != (f in UniqueFor(d, rs[id]))
        ensures Key(c, rs[id].data, f).None?
      {
        HeldIfUnique(c, rs, id, f);
        HeldIfUnique(d, rs, id, f);
      }
    }
    if ConfigFits(c, d, rs) {
      forall row ensures row in rows <==> Holds(d, rs, row) {
        assert row in rows <==> Holds(c, rs, row);
      }
    }
  }

  /// Deleting every row of a deleted record keeps the two collections in step.
  lemma DeletedIsExact(c: Config, rs: map<Id, Record>, was: set<Row>, id: Id, r: Record)
    requires Exact(c, rs, was) && !r.live
    ensures Exact(c, rs[id := r], RowsWithout(was, id))
  {
    forall row: Row ensures row in RowsWithout(was, id) <==> Holds(c, rs[id := r], row) {
      assert row in was <==> Holds(c, rs, row);
    }
  }

  // ---- where a write puts a record ----

  /// A record of an entity that belongs to units needs one.
  predicate PlaceGiven(c: Config, entity: string, unit: Option<Place>) { DefAt(c, COMPANY, entity).scoped ==> unit.Some? }

  function NewRecord(c: Config, entity: string, unit: Option<Place>, data: map<string, string>, sourceKey: Option<string>): Record
    requires PlaceGiven(c, entity, unit)
  {
    Record(entity, if DefAt(c, COMPANY, entity).scoped then unit.value else COMPANY, data, true, sourceKey, 0)
  }

  /// The document with new data, at the unit asked for.
  function Edited(c: Config, doc: Record, unit: Option<Place>, data: map<string, string>): Record {
    var moves := unit.Some? && unit.value != doc.place && DefAt(c, doc.place, doc.entity).scoped;
    doc.(place := if moves then unit.value else doc.place, data := data)
  }

  // ---- what holds in any case ----

  /// Every row is a value that its record, which is live, has or had.
  ghost predicate Owned(c: Config, rs: map<Id, Record>, rows: set<Row>, past: Past) {
    forall row :: row in rows ==>
      row.recordId in rs && rs[row.recordId].live && rs[row.recordId].entity == row.entity && HadValue(c, past, row)
  }

  ghost predicate HadValue(c: Config, past: Past, row: Row) {
    exists n: nat :: (row.recordId, n) in past && Key(c, past[(row.recordId, n)].data, row.field) == Some(row.value)
  }

  lemma PassKeepsOwned(c: Config, fs: seq<string>, rs: map<Id, Record>, was: set<Row>, rows: set<Row>, past: Past, id: Id,
                       r: Record, before: map<string, string>)
    requires Owned(c, rs, was, past) && r.live && (id in rs ==> rs[id].entity == r.entity)
    requires (id, r.version) !in past && Passed(c, fs, was, rows, r.entity, id, before, r.data)
    ensures Owned(c, rs[id := r], rows, past[(id, r.version) := r])
  {
    var later := past[(id, r.version) := r];
    forall row | row in rows
      ensures row.recordId in rs[id := r] && rs[id := r][row.recordId].live && rs[id := r][row.recordId].entity == row.entity
      ensures HadValue(c, later, row)
    {
      assert AfterPass(c, fs, was, row, r.entity, id, before, r.data);
      if row in was {
        var n: nat :| (row.recordId, n) in past && Key(c, past[(row.recordId, n)].data, row.field) == Some(row.value);
        assert (row.recordId, n) in later && later[(row.recordId, n)] == past[(row.recordId, n)];
      } else {
        assert (id, r.version) in later && later[(id, r.version)] == r;
      }
    }
  }

  lemma DeleteKeepsOwned(c: Config, rs: map<Id, Record>, was: set<Row>, past: Past, id: Id, r: Record)
    requires Owned(c, rs, was, past) && (id, r.version) !in past
    ensures Owned(c, rs[id := r], RowsWithout(was, id), past[(id, r.version) := r])
  {
    var later := past[(id, r.version) := r];
    forall row | row in RowsWithout(was, id) ensures HadValue(c, later, row) {
      var n: nat :| (row.recordId, n) in past && Key(c, past[(row.recordId, n)].data, row.field) == Some(row.value);
      assert (row.recordId, n) in later && later[(row.recordId, n)] == past[(row.recordId, n)];
    }
  }

  /// A live record made from a source whose key starts with the prefix.
  predicate FromSource(r: Record, prefix: string) {
    r.live && r.sourceKey.Some? && StartsWith(r.sourceKey.value, prefix)
  }

  function Gone(r: Record): Record { r.(live := false, version := r.version + 1) }

  // ---- source keys, and what callers have loaded ----

  predicate SameSource(a: Record, b: Record) { a.sourceKey.Some? && a.sourceKey == b.sourceKey }

  /// The unique index on source keys.
  ghost predicate SourcesDiffer(rs: map<Id, Record>) {
    forall a, b :: a in rs && b in rs && SameSource(rs[a], rs[b]) ==> a == b
  }

  ghost predicate SourceKnown(rs: map<Id, Record>, key: Option<string>) {
    key.Some? && exists o :: o in rs && rs[o].sourceKey == key
  }

  lemma SourcesStillDiffer(rs: map<Id, Record>, id: Id, r: Record)
    requires SourcesDiffer(rs)
    requires r.sourceKey.None? || (if id in rs then rs[id].sourceKey == r.sourceKey else !SourceKnown(rs, r.sourceKey))
    ensures SourcesDiffer(rs[id := r])
  {
    var next := rs[id := r];
    forall a, b | a in next && b in next && SameSource(next[a], next[b]) ensures a == b {
      if (a != id && b != id) || (id in rs && rs[id].sourceKey == r.sourceKey) {
        assert SameSource(rs[a], rs[b]);
      }
    }
  }

  type Past = map<(Id, nat), Record>

  /// Every document ever stored, by record and version; the current one is the latest.
  ghost predicate History(rs: map<Id, Record>, past: Past) {
    && (forall id :: id in rs ==> Stored(past, id, rs[id]))
    && (forall k :: k in past ==> k.1 == past[k].version && k.0 in rs && EarlierDoc(past[k], rs[k.0]))
  }

  predicate Stored(past: Past, id: Id, doc: Record) {
    (id, doc.version) in past && past[(id, doc.version)] == doc
  }

  predicate EarlierDoc(a: Record, b: Record) {
    a.version <= b.version && a.entity == b.entity && (b.live ==> a.live)
  }

  lemma HistoryGrows(rs: map<Id, Record>, past: Past, id: Id, r: Record)
    requires History(rs, past)
    requires if id in rs then r.version == rs[id].version + 1 && EarlierDoc(rs[id], r) else r.version == 0
    ensures History(rs[id := r], past[(id, r.version) := r])
  {
  }

  /// The documents in `gone` are deleted and have given up their source keys.
  ghost predicate SourcesGone(was: map<Id, Record>, now: map<Id, Record>, gone: set<Id>) {
    && now.Keys == was.Keys
    && forall id :: id in was ==> now[id] == if id in gone then Gone(was[id]).(sourceKey := None) else was[id]
  }

  lemma OneMoreGone(was: map<Id, Record>, now: map<Id, Record>, docs: set<Id>, left: set<Id>, id: Id)
    requires SourcesGone(was, now, docs - left) && left <= docs <= was.Keys && id in left
    ensures id in now && SourcesGone(was, now[id := Gone(now[id]).(sourceKey := None)], docs - (left - {id}))
    ensures left - {id} < left
  {
  }

  function FromSourceIds(rs: map<Id, Record>, prefix: string): set<Id> {
    set id | id in rs && FromSource(rs[id], prefix)
  }

  /// The records after a source's are deleted.
  function WithoutSource(rs: map<Id, Record>, prefix: string): map<Id, Record> {
    map id | id in rs :: if FromSource(rs[id], prefix) then Gone(rs[id]).(sourceKey := None) else rs[id]
  }

  /// A record that was deleted otherwise still has the source key.
  ghost predicate DeletedWithKey(rs: map<Id, Record>, key: string) {
    exists o :: o in rs && !rs[o].live && rs[o].sourceKey == Some(key)
  }

  lemma KeyOfDeleted(rs: map<Id, Record>, prefix: string, key: string)
    requires StartsWith(key, prefix)
    ensures SourceKnown(WithoutSource(rs, prefix), Some(key)) <==> DeletedWithKey(rs, key)
  {
    var now := WithoutSource(rs, prefix);
    if o :| o in now && now[o].sourceKey == Some(key) { assert o in rs && !rs[o].live && rs[o].sourceKey == Some(key); }
    if o :| o in rs && !rs[o].live && rs[o].sourceKey == Some(key) { assert o in now && now[o].sourceKey == Some(key); }
  }

  lemma KeyHolderIsDead(rs: map<Id, Record>, prefix: string, key: string)
    requires StartsWith(key, prefix)
    ensures forall o :: o in rs && WithoutSource(rs, prefix)[o].sourceKey == Some(key) ==> !rs[o].live
  {
  }

  lemma AllGone(was: map<Id, Record>, now: map<Id, Record>, prefix: string)
    requires SourcesGone(was, now, FromSourceIds(was, prefix))
    ensures now == WithoutSource(was, prefix)
  {
  }

  function RowsWithout(rows: set<Row>, id: Id): set<Row> {
    set row | row in rows && row.recordId != id
  }

  /// The rows of the records not deleted.
  function RowsLeft(rows: set<Row>, gone: set<Id>): set<Row> {
    set row | row in rows && row.recordId !in gone
  }

  lemma OneMoreLeft(rows: set<Row>, docs: set<Id>, left: set<Id>, id: Id)
    requires id in left && left <= docs
    ensures RowsWithout(RowsLeft(rows, docs - left), id) == RowsLeft(rows, docs - (left - {id}))
  {
  }

  class RecordStore {
    var config: Config
    var records: map<Id, Record>
    var uniques: set<Row>
    /// Every document that was ever stored, by record and version: what a caller can have loaded.
    ghost var past: Past
    /// Each change of a record or of the configuration so far fits.
    ghost var fits: bool

    ghost predicate Valid()
      reads this
    {
      && FieldsDiffer(config) && Indexed(uniques) && Owned(config, records, uniques, past)
      && (fits ==> Exact(config, records, uniques))
      && SourcesDiffer(records) && History(records, past)
    }

    constructor (config: Config)
      requires FieldsDiffer(config)
      ensures Valid() && records == map[] && uniques == {} && this.config == config && fits
    {
      this.config := config;
      records, uniques, past, fits := map[], {}, map[], true;
    }

    /// What is configured at a place changes: a configuration is published, or a unit moves.
    method Reconfigure(next: Config)
      requires Valid() && FieldsDiffer(next) && next.normal == config.normal
      modifies this
      ensures Valid() && config == next && records == old(records) && uniques == old(uniques)
      ensures fits <==> old(fits) && ConfigFits(old(config), next, records)
    {
      if fits { ConfigKeepsExact(config, next, records, uniques); }
      fits := fits && ConfigFits(config, next, records);
      config := next;
    }

    /// The loop over the unique fields, inside a transaction that its caller rolls back.
    method WriteUniques(fs: seq<string>, entity: string, id: Id, before: map<string, string>, data: map<string, string>)
      returns (taken: Option<string>)
      requires Distinct(fs) && Indexed(uniques)
      modifies this`uniques
      ensures taken == FirstRefused(config, fs, old(uniques), entity, before, data)
      ensures taken.None? ==> Indexed(uniques) && Passed(config, fs, old(uniques), uniques, entity, id, before, data)
    {
      ghost var was := uniques;
      ghost var first := FirstRefused(config, fs, was, entity, before, data);
      var i := 0;
      while i < |fs|
        invariant i <= |fs| && Indexed(uniques)
        invariant FirstRefused(config, fs[i..], was, entity, before, data) == first
        invariant Passed(config, fs[..i], was, uniques, entity, id, before, data)
      {
        RefusedStep(config, fs, i, was, entity, before, data);
        var ok := WriteField(fs, i, entity, id, before, data, was);
        if !ok { return Some(fs[i]); }
        i := i + 1;
      }
      assert fs[..i] == fs;
      taken := None;
    }

    /// One turn of it.
    method WriteField(fs: seq<string>, i: nat, entity: string, id: Id, before: map<string, string>, data: map<string, string>,
                      ghost was: set<Row>)
      returns (ok: bool)
      requires i < |fs| && Distinct(fs) && Indexed(uniques) && Passed(config, fs[..i], was, uniques, entity, id, before, data)
      modifies this`uniques
      ensures ok <==> !Refuses(config, was, entity, before, data, fs[i])
      ensures ok ==> Indexed(uniques) && Passed(config, fs[..i + 1], was, uniques, entity, id, before, data)
    {
      var f := fs[i];
      var prior, now := Key(config, before, f), Key(config, data, f);
      OneField(config, fs, i, was, uniques, entity, id, before, data);
      if prior == now { return true; }
      if now.Some? { NotYetPassed(config, fs, i, was, uniques, entity, id, before, data); }
      uniques := uniques - RowFor(entity, f, prior, id);
      if now.Some? && InUse(uniques, entity, f, now.value) { return false; }
      AddedIndexed(uniques, entity, f, now, id);
      uniques := uniques + RowFor(entity, f, now, id);
      ok := true;
    }

    /// The transaction that stores a document with its unique values.
    method Save(id: Id, r: Record, before: map<string, string>) returns (taken: Option<string>)
      requires Valid() && r.live && HeldBefore(records, id, r.entity, before)
      requires if id in records then r.version == records[id].version + 1 && r.sourceKey == records[id].sourceKey
               else r.version == 0 && (r.sourceKey.Some? ==> !SourceKnown(records, r.sourceKey))
      modifies this
      ensures Valid() && config == old(config)
      ensures taken == Refused(config, old(uniques), before, r)
      ensures old(fits) ==> (taken.Some? <==> ValueUsed(config, old(records), id, before, r))
      ensures taken.Some? ==> records == old(records) && uniques == old(uniques) && fits == old(fits)
      ensures taken.None? ==>
                && records == old(records)[id := r]
                && Passed(config, UniqueFor(config, r), old(uniques), uniques, r.entity, id, before, r.data)
                && (fits <==> old(fits) && (id in old(records) ==> StepFits(config, old(records)[id], r)))
    {
      var saved, rows := records, uniques;
      if fits { RefusedExactly(config, saved, rows, id, before, r); }
      records := records[id := r];
      taken := WriteUniques(UniqueFor(config, r), r.entity, id, before, r.data);
      if taken.Some? {
        records, uniques := saved, rows;
        return;
      }
      SavedExactly(config, saved, rows, uniques, id, r, before, fits);
      PassKeepsOwned(config, UniqueFor(config, r), saved, rows, uniques, past, id, r, before);
      SourcesStillDiffer(saved, id, r);
      HistoryGrows(saved, past, id, r);
      past := past[(id, r.version) := r];
      fits := fits && (id in saved ==> StepFits(config, saved[id], r));
    }

    /// A record made with a source key that is already known is not made again.
    method Create(id: Id, entity: string, unit: Option<Place>, data: map<string, string>, sourceKey: Option<string>) returns (r: Outcome)
      requires Valid() && id !in records
      modifies this
      ensures Valid() && config == old(config) && fits == old(fits)
      ensures r == Failed(NoUnit) <==> !PlaceGiven(config, entity, unit)
      ensures PlaceGiven(config, entity, unit) ==> (r.Existing? <==> SourceKnown(old(records), sourceKey))
      ensures r.Existing? ==> r.id in old(records) && old(records)[r.id].sourceKey == sourceKey
      ensures PlaceGiven(config, entity, unit) && !r.Existing? ==>
                var doc := NewRecord(config, entity, unit, data, sourceKey);
                && r == (match Refused(config, old(uniques), map[], doc) case Some(f) => Failed(Taken(f)) case None => Created(id))
                && (fits ==> (r.Failed? <==> ValueUsed(config, old(records), id, map[], doc)))
      ensures !r.Created? ==> records == old(records) && uniques == old(uniques)
      ensures r.Created? ==>
                var doc := NewRecord(config, entity, unit, data, sourceKey);
                && records == old(records)[id := doc]
                && Passed(config, UniqueFor(config, doc), old(uniques), uniques, entity, id, map[], data)
    {
      if !PlaceGiven(config, entity, unit) { return Failed(NoUnit); }
      if sourceKey.Some? {
        if o :| o in records && records[o].sourceKey == sourceKey { return Existing(o); }
      }
      var taken := Save(id, NewRecord(config, entity, unit, data, sourceKey), map[]);
      r := if taken.Some? then Failed(Taken(taken.value)) else Created(id);
    }

    /// `doc` was loaded earlier and may be out of date by now.
    method Update(id: Id, doc: Record, unit: Option<Place>, data: map<string, string>) returns (r: Outcome)
      requires Valid() && Stored(past, id, doc) && doc.live
      modifies this
      ensures Valid() && config == old(config)
      ensures var next := Edited(config, doc, unit, data);
              && r == (if next == doc then Done
                       else if old(records)[id] != doc then Failed(Changed)
                       else match Refused(config, old(uniques), doc.data, next) case Some(f) => Failed(Taken(f)) case None => Done)
              && (old(fits) && old(records)[id] == doc ==> (r.Failed? <==> next != doc && ValueUsed(config, old(records), id, doc.data, next)))
      ensures r.Failed? || Edited(config, doc, unit, data) == doc ==> records == old(records) && uniques == old(uniques) && fits == old(fits)
      ensures r.Done? && Edited(config, doc, unit, data) != doc ==>
                var next := Edited(config, doc, unit, data);
                && records == old(records)[id := next.(version := doc.version + 1)]
                && Passed(config, UniqueFor(config, next), old(uniques), uniques, doc.entity, id, doc.data, data)
                && (fits <==> old(fits) && StepFits(config, doc, next))
    {
      var edited := Edited(config, doc, unit, data);
      if edited.data == doc.data && edited.place == doc.place { return Done; }
      if records[id].version != doc.version { return Failed(Changed); }
      var next := edited.(version := doc.version + 1);
      SameButVersion(config, records, uniques, id, doc, edited, next);
      var taken := Save(id, next, doc.data);
      r := if taken.Some? then Failed(Taken(taken.value)) else Done;
    }

    /// The write of a delete is not guarded by the version.
    method Remove(id: Id, doc: Record) returns (r: Outcome)
      requires Valid() && Stored(past, id, doc) && doc.live
      modifies this
      ensures Valid() && config == old(config) && fits == old(fits) && r == Done
      ensures records == old(records)[id := Gone(old(records)[id])]
      ensures uniques == RowsWithout(old(uniques), id)
    {
      Delete(id, Gone(records[id]));
      r := Done;
    }

    method Delete(id: Id, gone: Record)
      requires Valid() && id in records
      requires gone == Gone(records[id]) || gone == Gone(records[id]).(sourceKey := None)
      modifies this
      ensures Valid() && config == old(config) && fits == old(fits) && records == old(records)[id := gone]
      ensures uniques == RowsWithout(old(uniques), id)
    {
      if fits { DeletedIsExact(config, records, uniques, id, gone); }
      DeleteKeepsOwned(config, records, uniques, past, id, gone);
      SourcesStillDiffer(records, id, gone);
      HistoryGrows(records, past, id, gone);
      records := records[id := gone];
      uniques := RowsWithout(uniques, id);
      past := past[(id, gone.version) := gone];
    }

    /// Each record from the source is deleted in its own transaction and gives its source key up.
    method RemoveBySource(prefix: string) returns (r: Outcome)
      requires Valid()
      modifies this
      ensures Valid() && config == old(config) && fits == old(fits) && records == WithoutSource(old(records), prefix)
      ensures uniques == RowsLeft(old(uniques), FromSourceIds(old(records), prefix))
      ensures r == Removed(|FromSourceIds(old(records), prefix)|)
    {
      var docs := FromSourceIds(records, prefix);
      var left := docs;
      ghost var was, rows := records, uniques;
      assert RowsLeft(rows, docs - left) == rows;
      while left != {}
        invariant Valid() && left <= docs && SourcesGone(was, records, docs - left)
        invariant config == old(config) && fits == old(fits) && uniques == RowsLeft(rows, docs - left)
      {
        var id :| id in left;
        OneMoreGone(was, records, docs, left, id);
        Delete(id, Gone(records[id]).(sourceKey := None));
        OneMoreLeft(rows, docs, left, id);
        left := left - {id};
      }
      assert docs - {} == docs;
      AllGone(was, records, prefix);
      r := Removed(|docs|);
    }

    /// After its samples are removed, a source gets one of them again as a new record exactly if
    /// no user had deleted that sample before, since a user's delete leaves the source key in
    /// place, and none of its unique values is refused by the rows that are left.
    method RemoveAndAddAgain(prefix: string, id: Id, entity: string, unit: Option<Place>, data: map<string, string>, key: string)
      returns (r: Outcome)
      requires Valid() && id !in records && StartsWith(key, prefix) && PlaceGiven(config, entity, unit)
      modifies this
      ensures Valid() && (r.Existing? <==> DeletedWithKey(old(records), key))
      ensures r.Existing? ==> r.id in old(records) && !old(records)[r.id].live && records == WithoutSource(old(records), prefix)
      ensures var doc := NewRecord(old(config), entity, unit, data, Some(key));
              var left := WithoutSource(old(records), prefix);
              && (r.Created? <==>
                    && !DeletedWithKey(old(records), key)
                    && Refused(old(config), RowsLeft(old(uniques), FromSourceIds(old(records), prefix)), map[], doc).None?)
              && (old(fits) ==> (r.Created? <==> !DeletedWithKey(old(records), key) && !ValueUsed(old(config), left, id, map[], doc)))
    {
      KeyOfDeleted(records, prefix, key);
      KeyHolderIsDead(records, prefix, key);
      var _ := RemoveBySource(prefix);
      r := Create(id, entity, unit, data, Some(key));
    }
  }

  // ---- examples ----

  /// A user deletes a sample; when the source's samples are removed and added again, the dead
  /// record comes back and no new one is made.
  method DeletedSample() returns (r: Outcome, ghost dead: bool)
    ensures r == Existing("a") && dead
  {
    var store := new RecordStore(Config(map[], (s: string) => s));
    var made := store.Create("a", "customer", Some("H"), map[], Some("pack:c1"));
    var _ := store.Remove("a", store.records["a"]);
    ghost var was := store.records;
    assert !was["a"].live && was["a"].sourceKey == Some("pack:c1");
    r := store.RemoveAndAddAgain("pack:", "b", "customer", Some("H"), map[], "pack:c1");
    dead := "a" in store.records && !store.records["a"].live;
  }

  /// Unit H makes the badge of an asset unique, other units do not.
  function Badges(): Config { Config(map[("H", "asset") := EntityDef(["badge"], true)], (s: string) => s) }

  lemma BadgeRefused(rows: set<Row>, before: map<string, string>, r: Record)
    requires r.entity == "asset"
    ensures FieldsDiffer(Badges()) && UniqueFor(Badges(), r) == (if r.place == "H" then ["badge"] else [])
    ensures Refused(Badges(), rows, before, r)
         == if r.place == "H" && Refuses(Badges(), rows, "asset", before, r.data, "badge") then Some("badge") else None
  {
    if r.place == "H" { assert ["badge"][1..] == []; }
  }

  lemma Scoped(place: Place)
    ensures FieldsDiffer(Badges()) && DefAt(Badges(), place, "asset").scoped
  {
  }

  function Badge(place: Place, value: string): Record { Record("asset", place, map["badge" := value], true, None, 0) }

  /// Assets in two units with the same badge.
  method TwoBadges() returns (store: RecordStore)
    ensures fresh(store) && store.Valid() && store.config == Badges()
    ensures store.records == map["1" := Badge("H", "7"), "2" := Badge("B", "7")]
  {
    Scoped(COMPANY);
    store := new RecordStore(Badges());
    BadgeRefused({}, map[], Badge("H", "7"));
    var _ := store.Create("1", "asset", Some("H"), Badge("H", "7").data, None);
    BadgeRefused(store.uniques, map[], Badge("B", "7"));
    var _ := store.Create("2", "asset", Some("B"), Badge("B", "7").data, None);
  }

  /// The second one moves to unit H: now two live assets share a value in a field that is
  /// unique for both.
  method SharedBadge() returns (r: Outcome, ghost one: Record, ghost two: Record)
    ensures r == Done && one.live && two.live && one.entity == two.entity
    ensures "badge" in UniqueFor(Badges(), one) && "badge" in UniqueFor(Badges(), two)
    ensures Key(Badges(), one.data, "badge") == Key(Badges(), two.data, "badge") == Some("7")
  {
    var store := TwoBadges();
    Scoped("B");
    BadgeRefused(store.uniques, Badge("B", "7").data, Badge("H", "7"));
    r := store.Update("2", store.records["2"], Some("H"), Badge("B", "7").data);
    one, two := store.records["1"], store.records["2"];
  }

  /// An asset leaves unit H and gets another badge. Its row stays.
  method LeftBehind() returns (store: RecordStore)
    ensures fresh(store) && store.Valid() && store.config == Badges()
    ensures store.records == map["1" := Badge("B", "8").(version := 1)] && Row("asset", "badge", "7", "1") in store.uniques
  {
    Scoped(COMPANY);
    Scoped("H");
    store := new RecordStore(Badges());
    BadgeRefused({}, map[], Badge("H", "7"));
    var _ := store.Create("1", "asset", Some("H"), Badge("H", "7").data, None);
    assert Row("asset", "badge", "7", "1") in store.uniques;
    BadgeRefused(store.uniques, Badge("H", "7").data, Badge("B", "8"));
    var _ := store.Update("1", store.records["1"], Some("B"), Badge("B", "8").data);
  }

  /// The old badge is refused in H, though no live asset has it.
  method StaleBadge() returns (r: Outcome, ghost rs: map<Id, Record>)
    ensures r == Failed(Taken("badge"))
    ensures forall id :: id in rs && rs[id].live ==> Key(Badges(), rs[id].data, "badge") != Some("7")
  {
    var store := LeftBehind();
    rs := store.records;
    Scoped(COMPANY);
    BadgeRefused(store.uniques, map[], Badge("H", "7"));
    r := store.Create("3", "asset", Some("H"), Badge("H", "7").data, None);
  }
}
