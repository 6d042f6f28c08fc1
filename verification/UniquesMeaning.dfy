/// What the collection of unique values stands for, in terms of the records and the
/// configuration alone.

module UniquesMeaning {
  import opened Basics
  import opened Uniques

  /// The configuration at the record's place makes the field unique for its entity.
  predicate IsUnique(c: Config, r: Record, f: string) {
    (r.place, r.entity) in c.defs && f in c.defs[(r.place, r.entity)].unique
  }

  /// Both have a value there, and the two are compared as the same text.
  predicate SameValue(c: Config, a: Record, b: Record, f: string) {
    && f in a.data && f in b.data && a.data[f] != "" && b.data[f] != ""
    && c.normal(a.data[f]) == c.normal(b.data[f])
  }

  /// Two live records of an entity share a value of a field that is unique for both.
  predicate Clash(c: Config, a: Record, b: Record, f: string) {
    a.live && b.live && a.entity == b.entity && IsUnique(c, a, f) && IsUnique(c, b, f) && SameValue(c, a, b, f)
  }

  lemma {:induction false} UsedByOtherIsClash(c: Config, rs: map<Id, Record>, id: Id, f: string)
    requires id in rs && rs[id].live && IsUnique(c, rs[id], f)
    ensures UsedByOther(c, rs, rs[id].entity, id, rs[id].data, f) <==>
            exists o :: o in rs && o != id && Clash(c, rs[id], rs[o], f)
  {
    var r := rs[id];
    if UsedByOther(c, rs, r.entity, id, r.data, f) {
      var o :| o in rs && o != id && Uses(c, rs[o], r.entity, f, Key(c, r.data, f).value);
      assert Clash(c, r, rs[o], f);
    }
    if o :| o in rs && o != id && Clash(c, r, rs[o], f) {
      assert Uses(c, rs[o], r.entity, f, Key(c, r.data, f).value);
    }
  }

  /// With the collection exact, its index holds exactly when no two live records of an entity
  /// share a value of a field that is unique for both.
  lemma {:induction false} IndexMeansNoClash(c: Config, rs: map<Id, Record>, rows: set<Row>)
    requires Exact(c, rs, rows)
    ensures Indexed(rows) <==> forall a, b, f :: a in rs && b in rs && a != b ==> !Clash(c, rs[a], rs[b], f)
  {
    IndexMeansUnique(c, rs, rows);
    forall id, f | id in rs && rs[id].live && IsUnique(c, rs[id], f)
      ensures UsedByOther(c, rs, rs[id].entity, id, rs[id].data, f) <==>
              exists o :: o in rs && o != id && Clash(c, rs[id], rs[o], f)
    {
      UsedByOtherIsClash(c, rs, id, f);
    }
    forall id, f | id in rs ensures f in UniqueFor(c, rs[id]) <==> IsUnique(c, rs[id], f) {}
  }

  /// A row is there for every value of a unique field of a live record, and for nothing else.
  lemma {:induction false} RowsAre(c: Config, rs: map<Id, Record>, rows: set<Row>, row: Row)
    requires Exact(c, rs, rows)
    ensures row in rows <==>
              && row.recordId in rs && rs[row.recordId].live && rs[row.recordId].entity == row.entity
              && IsUnique(c, rs[row.recordId], row.field) && row.field in rs[row.recordId].data
              && rs[row.recordId].data[row.field] != "" && row.value == c.normal(rs[row.recordId].data[row.field])
  {
    assert row in rows <==> Holds(c, rs, row);
  }
}
