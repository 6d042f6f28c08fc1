/// What a merged entity is made of: each property and tax setting from the last patch that
/// has it, the roles of all patches.

module ConfigLastEntities {
  import opened Basics
  import opened KeyedMerge
  import opened ConfigMerge
  import opened ConfigLast

  function EntityParts(ls: seq<Layer>): (parts: seq<seq<Entity>>)
    ensures |parts| == |ls| && forall n :: 0 <= n < |ls| ==> parts[n] == ls[n].entities
  {
    seq(|ls|, n requires 0 <= n < |ls| => ls[n].entities)
  }

  lemma {:induction false} EntitiesAreConcat(ls: seq<Layer>, parts: seq<seq<Entity>>)
    requires |parts| == |ls| && forall n :: 0 <= n < |ls| ==> parts[n] == ls[n].entities
    ensures AllEntities(ls) == Concat(parts)
  {
    if ls != [] { EntitiesAreConcat(ls[..|ls| - 1], parts[..|ls| - 1]); }
  }

  // ---- one entity at a time ----

  /// Putting a patch changes the entity of its key and adds it when there is none.
  lemma {:induction false} PutEntity(list: seq<Entity>, y: Entity, x: Entity) returns (z: Entity)
    requires KeysDistinct(list, EntityKey) && x in Put(list, y, EntityKey, MergeEntity)
    ensures x.key != y.key ==> x in list
    ensures x.key == y.key && Has(list, y.key, EntityKey) ==> z in list && z.key == y.key && x == MergeEntity(z, y)
    ensures x.key == y.key && !Has(list, y.key, EntityKey) ==> x == y
  {
    z := y;
    if list != [] {
      assert list == [list[0]] + list[1..];
      HasSplit(list, y.key, EntityKey);
      if list[0].key == y.key {
        z := list[0];
        if x in list[1..] {
          var i :| 0 <= i < |list[1..]| && list[1..][i] == x;
          assert EntityKey(list[0]) != EntityKey(list[i + 1]);
        }
      } else if x != list[0] {
        z := PutEntity(list[1..], y, x);
      } else {
        assert EntityKey(list[0]) == x.key;
      }
    }
  }

  /// What the patches of an entity make of its parts.
  function PropsOf(es: seq<Entity>, e: string): map<string, string> {
    if es == [] then map[]
    else
      var before, last := PropsOf(es[..|es| - 1], e), es[|es| - 1];
      if last.key == e then before + last.props else before
  }

  function TaxOf(es: seq<Entity>, e: string): Option<map<string, string>> {
    if es == [] then None
    else
      var before, last := TaxOf(es[..|es| - 1], e), es[|es| - 1];
      if last.key == e && last.tax.Some?
      then Some((if before.Some? then before.value else map[]) + last.tax.value) else before
  }

  function RolesOf(es: seq<Entity>, e: string): Option<set<string>> {
    if es == [] then None
    else
      var before, last := RolesOf(es[..|es| - 1], e), es[|es| - 1];
      if last.key == e && last.roles.Some?
      then Some((if before.Some? then before.value else {}) + ToSet(last.roles.value)) else before
  }

  function ToSet(rs: seq<string>): set<string> { set r | r in rs }

  function RoleSet(rs: Option<seq<string>>): Option<set<string>> { if rs.Some? then Some(ToSet(rs.value)) else None }

  lemma {:induction false} SameTextHas(rs: seq<string>, r: string)
    ensures Has(rs, r, SameText) <==> r in rs
  {
    if r in rs {
      var i :| 0 <= i < |rs| && rs[i] == r;
      assert SameText(rs[i]) == r;
    }
  }

  lemma {:induction false} MergedRoleSet(a: Option<seq<string>>, b: Option<seq<string>>)
    ensures RoleSet(MergeRoles(a, b))
         == if b.None? then RoleSet(a) else Some((if a.Some? then ToSet(a.value) else {}) + ToSet(b.value))
  {
    if a.Some? && b.Some? {
      ReplacingLaws();
      forall r ensures r in MergedRoles(a.value + b.value) <==> r in a.value || r in b.value {
        FoldKeys([], a.value + b.value, SameText, LaterText, r);
        SameTextHas(MergedRoles(a.value + b.value), r);
        SameTextHas(a.value + b.value, r);
        SameTextHas([], r);
      }
      assert ToSet(MergedRoles(a.value + b.value)) == ToSet(a.value) + ToSet(b.value);
    } else if b.Some? {
      assert {} + ToSet(b.value) == ToSet(b.value);
    }
  }

  ghost predicate MadeOf(x: Entity, es: seq<Entity>) {
    && x.props == PropsOf(es, x.key) && x.tax == TaxOf(es, x.key) && RoleSet(x.roles) == RolesOf(es, x.key)
  }

  /// Without patches an entity has no parts.
  lemma {:induction false} NoPatches(es: seq<Entity>, e: string)
    requires !Has(es, e, EntityKey)
    ensures PropsOf(es, e) == map[] && TaxOf(es, e).None? && RolesOf(es, e).None?
  {
    if es != [] {
      var n := |es| - 1;
      assert EntityKey(es[n]) == es[n].key;
      assert !Has(es[..n], e, EntityKey) by {
        assert forall i :: 0 <= i < n ==> es[..n][i] == es[i];
      }
      NoPatches(es[..n], e);
    }
  }

  /// The first patch of an entity is the entity.
  lemma {:induction false} FirstPatch(es: seq<Entity>)
    requires es != [] && !Has(es[..|es| - 1], es[|es| - 1].key, EntityKey)
    ensures MadeOf(es[|es| - 1], es)
  {
    var y := es[|es| - 1];
    NoPatches(es[..|es| - 1], y.key);
    assert map[] + y.props == y.props;
    if y.tax.Some? { assert map[] + y.tax.value == y.tax.value; }
    if y.roles.Some? { assert {} + ToSet(y.roles.value) == ToSet(y.roles.value); }
  }

  lemma {:induction false} NextPatch(es: seq<Entity>, z: Entity)
    requires es != [] && z.key == es[|es| - 1].key && MadeOf(z, es[..|es| - 1])
    ensures MadeOf(MergeEntity(z, es[|es| - 1]), es)
  {
    var y := es[|es| - 1];
    MergedRoleSet(z.roles, y.roles);
    if y.tax.Some? && z.tax.None? { assert map[] + y.tax.value == y.tax.value; }
  }

  lemma {:induction false} OtherPatch(es: seq<Entity>, x: Entity)
    requires es != [] && x.key != es[|es| - 1].key && MadeOf(x, es[..|es| - 1])
    ensures MadeOf(x, es)
  {
  }

  lemma {:induction false} MergedMadeOf(es: seq<Entity>, x: Entity)
    requires x in MergedEntities(es)
    ensures MadeOf(x, es)
  {
    if es != [] {
      var n := |es| - 1;
      var before, y := MergedEntities(es[..n]), es[n];
      EntityLaws();
      FoldOneMore(es, EntityKey, MergeEntity);
      FoldDistinct([], es[..n], EntityKey, MergeEntity);
      var z := PutEntity(before, y, x);
      if x.key != y.key {
        MergedMadeOf(es[..n], x);
        OtherPatch(es, x);
      } else if Has(before, y.key, EntityKey) {
        MergedMadeOf(es[..n], z);
        NextPatch(es, z);
      } else {
        FoldKeys([], es[..n], EntityKey, MergeEntity, y.key);
        FirstPatch(es);
      }
    }
  }

  // ---- the last patch that has it ----

  function HasProp(e: string, p: string): Entity -> bool { (x: Entity) => x.key == e && p in x.props }

  function HasTax(e: string, p: string): Entity -> bool {
    (x: Entity) => x.key == e && x.tax.Some? && p in x.tax.value
  }

  lemma {:induction false} LastProp(es: seq<Entity>, e: string, p: string, q: nat)
    requires LastWith(es, q, HasProp(e, p))
    ensures p in PropsOf(es, e) && PropsOf(es, e)[p] == es[q].props[p]
  {
    var n := |es| - 1;
    if q < n {
      assert !HasProp(e, p)(es[n]);
      forall j | q < j < n ensures !HasProp(e, p)(es[..n][j]) { assert es[..n][j] == es[j]; }
      LastProp(es[..n], e, p, q);
    }
  }

  lemma {:induction false} NoProp(es: seq<Entity>, e: string, p: string)
    requires forall x <- es :: !HasProp(e, p)(x)
    ensures p !in PropsOf(es, e)
  {
    if es != [] {
      assert es[|es| - 1] in es;
      NoProp(es[..|es| - 1], e, p);
    }
  }

  lemma {:induction false} LastTax(es: seq<Entity>, e: string, p: string, q: nat)
    requires LastWith(es, q, HasTax(e, p))
    ensures TaxOf(es, e).Some? && p in TaxOf(es, e).value && TaxOf(es, e).value[p] == es[q].tax.value[p]
  {
    var n := |es| - 1;
    if q < n {
      assert !HasTax(e, p)(es[n]);
      forall j | q < j < n ensures !HasTax(e, p)(es[..n][j]) { assert es[..n][j] == es[j]; }
      LastTax(es[..n], e, p, q);
    }
  }

  lemma {:induction false} NoTax(es: seq<Entity>, e: string, p: string)
    requires forall x <- es :: !HasTax(e, p)(x)
    ensures TaxOf(es, e).Some? ==> p !in TaxOf(es, e).value
  {
    if es != [] {
      assert es[|es| - 1] in es;
      NoTax(es[..|es| - 1], e, p);
    }
  }

  // ---- merged layers ----

  /// There is one merged entity of each key.
  lemma {:induction false} OneEntity(ls: seq<Layer>)
    requires AreLayers(ls)
    ensures var merged := MergeLayers(ls).entities;
            forall i, k :: 0 <= i < k < |merged| ==> merged[i].key != merged[k].key
  {
    EntityLaws();
    FoldDistinct([], AllEntities(ls), EntityKey, MergeEntity);
    var merged := MergeLayers(ls).entities;
    assert forall i :: 0 <= i < |merged| ==> EntityKey(merged[i]) == merged[i].key;
  }

  /// A property of a merged entity is that of the last layer, and the last patch there, that
  /// sets it for the entity; what none sets it has not.
  lemma {:induction false} PropIsLast(ls: seq<Layer>, x: Entity, p: string, n: nat, i: nat)
    requires AreLayers(ls) && x in MergeLayers(ls).entities && IsLast(EntityParts(ls), n, i, HasProp(x.key, p))
    ensures p in x.props && x.props[p] == ls[n].entities[i].props[p]
  {
    EntitiesAreConcat(ls, EntityParts(ls));
    var q := LastInConcat(EntityParts(ls), n, i, HasProp(x.key, p));
    MergedMadeOf(AllEntities(ls), x);
    LastProp(AllEntities(ls), x.key, p, q);
  }

  lemma {:induction false} NoSuchProp(ls: seq<Layer>, x: Entity, p: string)
    requires AreLayers(ls) && x in MergeLayers(ls).entities && NoneHas(EntityParts(ls), HasProp(x.key, p))
    ensures p !in x.props
  {
    EntitiesAreConcat(ls, EntityParts(ls));
    NoneInConcat(EntityParts(ls), HasProp(x.key, p));
    MergedMadeOf(AllEntities(ls), x);
    NoProp(AllEntities(ls), x.key, p);
  }

  /// The same for each of its tax settings.
  lemma {:induction false} TaxIsLast(ls: seq<Layer>, x: Entity, p: string, n: nat, i: nat)
    requires AreLayers(ls) && x in MergeLayers(ls).entities && IsLast(EntityParts(ls), n, i, HasTax(x.key, p))
    ensures x.tax.Some? && p in x.tax.value && x.tax.value[p] == ls[n].entities[i].tax.value[p]
  {
    EntitiesAreConcat(ls, EntityParts(ls));
    var q := LastInConcat(EntityParts(ls), n, i, HasTax(x.key, p));
    MergedMadeOf(AllEntities(ls), x);
    LastTax(AllEntities(ls), x.key, p, q);
  }

  lemma {:induction false} NoSuchTax(ls: seq<Layer>, x: Entity, p: string)
    requires AreLayers(ls) && x in MergeLayers(ls).entities && NoneHas(EntityParts(ls), HasTax(x.key, p))
    ensures x.tax.Some? ==> p !in x.tax.value
  {
    EntitiesAreConcat(ls, EntityParts(ls));
    NoneInConcat(EntityParts(ls), HasTax(x.key, p));
    MergedMadeOf(AllEntities(ls), x);
    NoTax(AllEntities(ls), x.key, p);
  }

  function HasRole(e: string, r: string): Entity -> bool {
    (x: Entity) => x.key == e && x.roles.Some? && r in x.roles.value
  }

  lemma {:induction false} RoleFrom(es: seq<Entity>, e: string, r: string)
    ensures RolesOf(es, e).Some? && r in RolesOf(es, e).value <==> exists x :: x in es && HasRole(e, r)(x)
  {
    if es != [] {
      var n := |es| - 1;
      RoleFrom(es[..n], e, r);
      assert es == es[..n] + [es[n]];
      if x :| x in es && HasRole(e, r)(x) {
        if x != es[n] { assert x in es[..n]; }
      }
      if HasRole(e, r)(es[n]) { assert es[n] in es; }
    }
  }

  /// A merged entity has the roles its patches have.
  lemma {:induction false} RolesAreAll(ls: seq<Layer>, x: Entity, r: string)
    requires AreLayers(ls) && x in MergeLayers(ls).entities
    ensures x.roles.Some? && r in x.roles.value <==>
              exists n, i :: 0 <= n < |ls| && 0 <= i < |ls[n].entities| && HasRole(x.key, r)(ls[n].entities[i])
  {
    EntitiesAreConcat(ls, EntityParts(ls));
    MergedMadeOf(AllEntities(ls), x);
    RoleFrom(AllEntities(ls), x.key, r);
    assert RoleSet(x.roles) == RolesOf(AllEntities(ls), x.key);
    if y :| y in AllEntities(ls) && HasRole(x.key, r)(y) { var n, i := PlaceOf(EntityParts(ls), y); }
    if n, i :| 0 <= n < |ls| && 0 <= i < |ls[n].entities| && HasRole(x.key, r)(ls[n].entities[i]) {
      InConcat(EntityParts(ls), n, i);
    }
  }

  lemma {:induction false} PlaceOf<T>(parts: seq<seq<T>>, y: T) returns (n: nat, i: nat)
    requires y in Concat(parts)
    ensures n < |parts| && i < |parts[n]| && parts[n][i] == y
  {
    var l := |parts| - 1;
    if y in parts[l] {
      n := l;
      i :| 0 <= i < |parts[l]| && parts[l][i] == y;
    } else {
      n, i := PlaceOf(parts[..l], y);
    }
  }

  lemma {:induction false} InConcat<T>(parts: seq<seq<T>>, n: nat, i: nat)
    requires n < |parts| && i < |parts[n]|
    ensures parts[n][i] in Concat(parts)
  {
    if n < |parts| - 1 { InConcat(parts[..|parts| - 1], n, i); }
  }
}
