/// Which entities and fields a merge has, and which definition of a field wins.

module ConfigKeys {
  import opened Basics
  import opened KeyedMerge
  import opened ConfigMerge

  predicate HasKey(fs: seq<Field>, f: string) { Has(fs, f, FieldKey) }

  predicate HasEntity(es: seq<Entity>, e: string) { Has(es, e, EntityKey) }

  predicate HasField(es: seq<Entity>, e: string, f: string) {
    exists i :: 0 <= i < |es| && es[i].key == e && HasKey(es[i].fields, f)
  }

  /// The last definition of a field in a list of fields.
  function LastField(fs: seq<Field>, f: string): (r: Option<Field>)
    ensures r.Some? ==> r.value in fs && r.value.key == f
  {
    if fs == [] then None
    else if fs[|fs| - 1].key == f then Some(fs[|fs| - 1]) else LastField(fs[..|fs| - 1], f)
  }

  /// The definition that wins: that of the last patch that has the field.
  function Winner(es: seq<Entity>, e: string, f: string): (r: Option<Field>)
    ensures r.Some? ==> r.value.key == f
  {
    if es == [] then None
    else
      var last := es[|es| - 1];
      if last.key == e && LastField(last.fields, f).Some? then LastField(last.fields, f)
      else Winner(es[..|es| - 1], e, f)
  }

  lemma {:induction false} LastFieldKnown(fs: seq<Field>, f: string)
    ensures LastField(fs, f).Some? <==> HasKey(fs, f)
  {
    if fs != [] {
      var n := |fs| - 1;
      LastFieldKnown(fs[..n], f);
      assert fs == fs[..n] + [fs[n]];
      HasConcat(fs[..n], [fs[n]], f, FieldKey);
      assert [fs[n]][0] == fs[n];
    }
  }

  lemma HasConcat<T>(xs: seq<T>, ys: seq<T>, k: string, key: T -> string)
    ensures Has(xs + ys, k, key) <==> Has(xs, k, key) || Has(ys, k, key)
  {
    var all := xs + ys;
    if Has(all, k, key) {
      var i :| 0 <= i < |all| && key(all[i]) == k;
      if i < |xs| { assert xs[i] == all[i]; } else { assert ys[i - |xs|] == all[i]; }
    }
    if Has(xs, k, key) {
      var i :| 0 <= i < |xs| && key(xs[i]) == k;
      assert all[i] == xs[i];
    }
    if Has(ys, k, key) {
      var i :| 0 <= i < |ys| && key(ys[i]) == k;
      assert all[|xs| + i] == ys[i];
    }
  }

  lemma FieldConcat(xs: seq<Entity>, ys: seq<Entity>, e: string, f: string)
    ensures HasField(xs + ys, e, f) <==> HasField(xs, e, f) || HasField(ys, e, f)
  {
    var all := xs + ys;
    if HasField(all, e, f) {
      var i :| 0 <= i < |all| && all[i].key == e && HasKey(all[i].fields, f);
      if i < |xs| { assert xs[i] == all[i]; } else { assert ys[i - |xs|] == all[i]; }
    }
    if HasField(xs, e, f) {
      var i :| 0 <= i < |xs| && xs[i].key == e && HasKey(xs[i].fields, f);
      assert all[i] == xs[i];
    }
    if HasField(ys, e, f) {
      var i :| 0 <= i < |ys| && ys[i].key == e && HasKey(ys[i].fields, f);
      assert all[|xs| + i] == ys[i];
    }
  }

  lemma FieldHead(es: seq<Entity>, e: string, f: string)
    requires es != []
    ensures HasField(es, e, f) <==> (es[0].key == e && HasKey(es[0].fields, f)) || HasField(es[1..], e, f)
  {
    assert es == [es[0]] + es[1..];
    FieldConcat([es[0]], es[1..], e, f);
    OneField(es[0], e, f);
  }

  lemma OneField(x: Entity, e: string, f: string)
    ensures HasField([x], e, f) <==> x.key == e && HasKey(x.fields, f)
  {
    assert [x][0] == x;
  }

  // ---- merging ----

  lemma MergedFieldKeys(a: seq<Field>, b: seq<Field>, f: string)
    ensures HasKey(MergeFields(a, b), f) <==> HasKey(a, f) || HasKey(b, f)
  {
    ReplacingLaws();
    FoldKeys([], a, FieldKey, LaterField, f);
    FoldKeys(MergedFields(a), b, FieldKey, LaterField, f);
    assert !HasKey([], f);
  }

  lemma {:induction false} PutField(es: seq<Entity>, x: Entity, e: string, f: string)
    ensures HasField(Put(es, x, EntityKey, MergeEntity), e, f)
       <==> HasField(es, e, f) || (x.key == e && HasKey(x.fields, f))
  {
    var r := Put(es, x, EntityKey, MergeEntity);
    if es == [] {
      OneField(x, e, f);
    } else {
      FieldHead(es, e, f);
      FieldHead(r, e, f);
      if es[0].key == x.key {
        assert r[1..] == es[1..];
        MergedFieldKeys(es[0].fields, x.fields, f);
      } else {
        assert r[1..] == Put(es[1..], x, EntityKey, MergeEntity);
        PutField(es[1..], x, e, f);
      }
    }
  }

  lemma {:induction false} FoldField(acc: seq<Entity>, es: seq<Entity>, e: string, f: string)
    ensures HasField(Fold(acc, es, EntityKey, MergeEntity), e, f) <==> HasField(acc, e, f) || HasField(es, e, f)
    decreases |es|
  {
    if es != [] {
      PutField(acc, es[0], e, f);
      FoldField(Put(acc, es[0], EntityKey, MergeEntity), es[1..], e, f);
      FieldHead(es, e, f);
    }
  }

  /// Merging loses no field and no entity, and adds none.
  lemma MergeKeepsFields(ls: seq<Layer>, e: string, f: string)
    requires AreLayers(ls)
    ensures HasField(MergeLayers(ls).entities, e, f) <==> HasField(AllEntities(ls), e, f)
    ensures HasEntity(MergeLayers(ls).entities, e) <==> HasEntity(AllEntities(ls), e)
  {
    EntityLaws();
    FoldField([], AllEntities(ls), e, f);
    FoldKeys([], AllEntities(ls), EntityKey, MergeEntity, e);
    assert !HasEntity([], e) && !HasField([], e, f);
  }

  // ---- winners ----

  lemma {:induction false} LastConcat(xs: seq<Field>, ys: seq<Field>, f: string)
    ensures LastField(xs + ys, f) == if LastField(ys, f).Some? then LastField(ys, f) else LastField(xs, f)
  {
    if ys == [] {
      assert xs + ys == xs;
    } else {
      assert (xs + ys)[..|xs + ys| - 1] == xs + ys[..|ys| - 1];
      LastConcat(xs, ys[..|ys| - 1], f);
    }
  }

  lemma LastHead(fs: seq<Field>, f: string)
    requires fs != []
    ensures LastField(fs, f) == if LastField(fs[1..], f).Some? then LastField(fs[1..], f)
                                else if fs[0].key == f then Some(fs[0]) else None
  {
    assert fs == [fs[0]] + fs[1..];
    LastConcat([fs[0]], fs[1..], f);
    assert [fs[0]][..0] == [];
  }

  lemma NoLaterField(fs: seq<Field>, f: string)
    requires KeysDistinct(fs, FieldKey) && fs != []
    ensures fs[0].key == f ==> LastField(fs[1..], f).None?
  {
    LastFieldKnown(fs[1..], f);
    if fs[0].key == f {
      forall i | 0 <= i < |fs[1..]| ensures fs[1..][i].key != f {
        assert fs[1..][i] == fs[i + 1] && FieldKey(fs[0]) != FieldKey(fs[i + 1]);
      }
    }
  }

  lemma {:induction false} LastPut(fs: seq<Field>, x: Field, f: string)
    requires KeysDistinct(fs, FieldKey)
    ensures LastField(Put(fs, x, FieldKey, LaterField), f) == if x.key == f then Some(x) else LastField(fs, f)
  {
    if fs == [] {
      assert [x][..0] == [];
    } else {
      var r := Put(fs, x, FieldKey, LaterField);
      LastHead(fs, f);
      LastHead(r, f);
      NoLaterField(fs, f);
      if fs[0].key != x.key {
        assert r[1..] == Put(fs[1..], x, FieldKey, LaterField);
        LastPut(fs[1..], x, f);
      } else {
        assert r[1..] == fs[1..];
      }
    }
  }

  lemma {:induction false} LastFold(acc: seq<Field>, fs: seq<Field>, f: string)
    requires KeysDistinct(acc, FieldKey)
    ensures LastField(Fold(acc, fs, FieldKey, LaterField), f)
         == if LastField(fs, f).Some? then LastField(fs, f) else LastField(acc, f)
    decreases |fs|
  {
    if fs != [] {
      ReplacingLaws();
      LastPut(acc, fs[0], f);
      PutDistinct(acc, fs[0], FieldKey, LaterField);
      LastFold(Put(acc, fs[0], FieldKey, LaterField), fs[1..], f);
      LastHead(fs, f);
    }
  }

  lemma LastMerged(a: seq<Field>, b: seq<Field>, f: string)
    ensures LastField(MergeFields(a, b), f) == if LastField(b, f).Some? then LastField(b, f) else LastField(a, f)
  {
    ReplacingLaws();
    FoldDistinct([], a, FieldKey, LaterField);
    LastFold([], a, f);
    LastFold(MergedFields(a), b, f);
  }

  lemma {:induction false} WinnerConcat(xs: seq<Entity>, ys: seq<Entity>, e: string, f: string)
    ensures Winner(xs + ys, e, f) == if Winner(ys, e, f).Some? then Winner(ys, e, f) else Winner(xs, e, f)
  {
    if ys == [] {
      assert xs + ys == xs;
    } else {
      assert (xs + ys)[..|xs + ys| - 1] == xs + ys[..|ys| - 1];
      WinnerConcat(xs, ys[..|ys| - 1], e, f);
    }
  }

  lemma OneWinner(x: Entity, e: string, f: string)
    ensures Winner([x], e, f) == if x.key == e then LastField(x.fields, f) else None
  {
    assert [x][..0] == [];
  }

  lemma {:induction false} WinnerKnown(es: seq<Entity>, e: string, f: string)
    ensures Winner(es, e, f).Some? <==> HasField(es, e, f)
  {
    if es != [] {
      var n := |es| - 1;
      WinnerKnown(es[..n], e, f);
      assert es == es[..n] + [es[n]];
      FieldConcat(es[..n], [es[n]], e, f);
      OneField(es[n], e, f);
      LastFieldKnown(es[n].fields, f);
    }
  }

  lemma WinnerHead(es: seq<Entity>, e: string, f: string)
    requires es != []
    ensures Winner(es, e, f) == if Winner(es[1..], e, f).Some? then Winner(es[1..], e, f)
                                else if es[0].key == e then LastField(es[0].fields, f) else None
  {
    assert es == [es[0]] + es[1..];
    WinnerConcat([es[0]], es[1..], e, f);
    OneWinner(es[0], e, f);
  }

  lemma {:induction false} WinnerPut(es: seq<Entity>, x: Entity, e: string, f: string)
    requires KeysDistinct(es, EntityKey)
    ensures Winner(Put(es, x, EntityKey, MergeEntity), e, f)
         == if x.key == e && LastField(x.fields, f).Some? then LastField(x.fields, f) else Winner(es, e, f)
  {
    var r := Put(es, x, EntityKey, MergeEntity);
    if es == [] {
      OneWinner(x, e, f);
    } else {
      WinnerHead(es, e, f);
      WinnerHead(r, e, f);
      if es[0].key == x.key {
        assert r[1..] == es[1..];
        LastMerged(es[0].fields, x.fields, f);
        NotLater(es, e, f);
      } else {
        assert r[1..] == Put(es[1..], x, EntityKey, MergeEntity);
        WinnerPut(es[1..], x, e, f);
        NotLater(es, e, f);
      }
    }
  }

  lemma NotLater(es: seq<Entity>, e: string, f: string)
    requires KeysDistinct(es, EntityKey) && es != []
    ensures es[0].key == e ==> Winner(es[1..], e, f).None?
  {
    WinnerKnown(es[1..], e, f);
    if es[0].key == e {
      forall i | 0 <= i < |es[1..]| ensures es[1..][i].key != e {
        assert es[1..][i] == es[i + 1] && EntityKey(es[0]) != EntityKey(es[i + 1]);
      }
    }
  }

  lemma {:induction false} WinnerFold(acc: seq<Entity>, es: seq<Entity>, e: string, f: string)
    requires KeysDistinct(acc, EntityKey)
    ensures Winner(Fold(acc, es, EntityKey, MergeEntity), e, f)
         == if Winner(es, e, f).Some? then Winner(es, e, f) else Winner(acc, e, f)
    decreases |es|
  {
    if es != [] {
      EntityLaws();
      WinnerPut(acc, es[0], e, f);
      PutDistinct(acc, es[0], EntityKey, MergeEntity);
      WinnerFold(Put(acc, es[0], EntityKey, MergeEntity), es[1..], e, f);
      WinnerHead(es, e, f);
    }
  }

  /// The merged definition of a field is that of the last layer that has it.
  lemma MergeTakesLast(ls: seq<Layer>, e: string, f: string)
    requires AreLayers(ls)
    ensures Winner(MergeLayers(ls).entities, e, f) == Winner(AllEntities(ls), e, f)
  {
    WinnerFold([], AllEntities(ls), e, f);
  }
}
