/// What a rollback leaves unchanged: each layer of the target is kept as it was and only
/// gets archived additions, and which definition of a field then wins.

module ConfigAfterRollback {
  import opened Basics
  import opened ConfigMerge
  import opened ConfigKeys
  import opened ConfigPacks
  import opened ConfigReach
  import opened ConfigRollback

  // ---- layers are extended ----

  predicate Archived(fs: seq<Field>, from: nat) { forall i :: from <= i < |fs| ==> fs[i].archived }

  /// The same entity, with archived fields added at the end.
  predicate EntityExtended(a: Entity, b: Entity) {
    && b.key == a.key && b.props == a.props && b.tax == a.tax && b.roles == a.roles
    && a.fields <= b.fields && Archived(b.fields, |a.fields|)
  }

  /// The entities of a layer are kept, and those added at the end have archived fields only.
  predicate EntitiesExtended(a: seq<Entity>, b: seq<Entity>) {
    && |a| <= |b|
    && (forall i :: 0 <= i < |a| ==> EntityExtended(a[i], b[i]))
    && (forall i :: |a| <= i < |b| ==> Archived(b[i].fields, 0))
  }

  lemma {:induction false} AddedArchived(have: seq<Field>, fs: seq<Field>)
    ensures have <= AddMissing(have, fs) && Archived(AddMissing(have, fs), |have|)
    decreases |fs|
  {
    if fs != [] {
      var next := if HasKey(have, fs[0].key) then have else have + [Archive(fs[0])];
      AddedArchived(next, fs[1..]);
    }
  }

  lemma {:induction false} KeptExtends(es: seq<Entity>, ce: Entity, still: set<string>)
    ensures EntitiesExtended(es, KeepOne(es, ce, still))
  {
    if es != [] {
      if es[0].key == ce.key {
        AddedArchived(es[0].fields, ce.fields);
      } else {
        KeptExtends(es[1..], ce, still);
        var r := KeepOne(es[1..], ce, still);
        assert forall i :: 1 <= i < |es| ==> es[i] == es[1..][i - 1];
      }
    }
  }

  lemma ExtendedTwice(a: seq<Entity>, b: seq<Entity>, c: seq<Entity>)
    requires EntitiesExtended(a, b) && EntitiesExtended(b, c)
    ensures EntitiesExtended(a, c)
  {
    forall i | 0 <= i < |a| ensures EntityExtended(a[i], c[i]) {
      assert EntityExtended(a[i], b[i]) && EntityExtended(b[i], c[i]);
      forall k | |a[i].fields| <= k < |c[i].fields| ensures c[i].fields[k].archived {
        if k < |b[i].fields| { assert c[i].fields[k] == b[i].fields[k]; }
      }
    }
    forall i | |a| <= i < |c| ensures Archived(c[i].fields, 0) {
      if i < |b| {
        assert EntityExtended(b[i], c[i]);
        forall k | 0 <= k < |c[i].fields| ensures c[i].fields[k].archived {
          if k < |b[i].fields| { assert c[i].fields[k] == b[i].fields[k]; }
        }
      }
    }
  }

  lemma {:induction false} KeepExtends(es: seq<Entity>, from: seq<Entity>, still: set<string>)
    ensures EntitiesExtended(es, KeepEntities(es, from, still))
    decreases |from|
  {
    if from != [] {
      KeptExtends(es, from[0], still);
      KeepExtends(KeepOne(es, from[0], still), from[1..], still);
      ExtendedTwice(es, KeepOne(es, from[0], still), KeepEntities(es, from, still));
    }
  }

  lemma {:induction false} MissingArchived(fs: seq<Field>, have: seq<Field>)
    ensures Archived(MissingFields(fs, have), 0)
  {
    if fs != [] { MissingArchived(fs[..|fs| - 1], have); }
  }

  lemma {:induction false} RetiredArchived(es: seq<Entity>, packs: seq<Entity>)
    ensures forall i :: 0 <= i < |RetiredAll(es, packs)| ==> Archived(RetiredAll(es, packs)[i].fields, 0)
  {
    if es != [] {
      var n := |es| - 1;
      RetiredArchived(es[..n], packs);
      var t := FindEntity(packs, es[n].key);
      if t.Some? { MissingArchived(es[n].fields, t.value.fields); }
    }
  }

  function RetiredEntities(l: Option<Layer>): seq<Entity> { if l.Some? then l.value.entities else [] }

  /// Every layer of the target is kept; what a rollback adds to it is archived.
  lemma LayersExtended(target: TenantConfig, current: TenantConfig)
    requires IsConfig(target) && IsConfig(current)
    ensures WithArchivedLeftovers(target, current).packs == target.packs
    ensures EntitiesExtended(target.company.entities, WithArchivedLeftovers(target, current).company.entities)
    ensures EntitiesExtended(RetiredEntities(target.retired), RetiredEntities(WithArchivedLeftovers(target, current).retired))
  {
    KeepExtends(target.company.entities, current.company.entities, KeysOf(target.company.entities) + BUILT_IN);
    RetiredExtends(target, current);
  }

  lemma RetiredExtends(target: TenantConfig, current: TenantConfig)
    requires IsConfig(target) && IsConfig(current)
    ensures EntitiesExtended(RetiredEntities(target.retired), RetiredEntities(RetiredAfter(target, current)))
  {
    RetiredIs(target, current);
    RetiredArchived(PacksOf(current).entities, PacksOf(target).entities);
    AppendExtends(RetiredEntities(target.retired), RetiredAll(PacksOf(current).entities, PacksOf(target).entities));
  }

  lemma RetiredIs(target: TenantConfig, current: TenantConfig)
    requires IsConfig(target) && IsConfig(current)
    ensures RetiredEntities(RetiredAfter(target, current))
         == RetiredEntities(target.retired) + RetiredAll(PacksOf(current).entities, PacksOf(target).entities)
  {
  }

  lemma AppendExtends(a: seq<Entity>, more: seq<Entity>)
    requires forall i :: 0 <= i < |more| ==> Archived(more[i].fields, 0)
    ensures EntitiesExtended(a, a + more)
  {
    forall i | |a| <= i < |a + more| ensures Archived((a + more)[i].fields, 0) {
      assert (a + more)[i] == more[i - |a|];
    }
  }

  lemma UnitExtends(target: TenantConfig, current: TenantConfig, id: string)
    requires IsConfig(target) && IsConfig(current) && id in target.orgUnits
    ensures EntitiesExtended(target.orgUnits[id].entities, WithArchivedLeftovers(target, current).orgUnits[id].entities)
  {
    var still := KeysOf(target.company.entities) + BUILT_IN;
    if id in current.orgUnits { KeepExtends(target.orgUnits[id].entities, current.orgUnits[id].entities, still); }
  }

  // ---- which definition wins ----

  /// A list of entities after additions: a field it had keeps its definition, a new one is
  /// archived.
  ghost predicate WinnersKept(a: seq<Entity>, b: seq<Entity>, e: string, f: string) {
    if HasField(a, e, f) then Winner(b, e, f) == Winner(a, e, f)
    else Winner(b, e, f).Some? ==> Winner(b, e, f).value.archived
  }

  lemma {:induction false} LastAdded(have: seq<Field>, fs: seq<Field>, f: string)
    ensures if HasKey(have, f) then LastField(AddMissing(have, fs), f) == LastField(have, f)
            else LastField(AddMissing(have, fs), f).Some? ==> LastField(AddMissing(have, fs), f).value.archived
    decreases |fs|
  {
    LastFieldKnown(have, f);
    if fs != [] {
      var x := Archive(fs[0]);
      if HasKey(have, fs[0].key) {
        LastAdded(have, fs[1..], f);
      } else {
        LastAdded(have + [x], fs[1..], f);
        LastConcat(have, [x], f);
        assert [x][..0] == [];
        HasConcat(have, [x], f, FieldKey);
        assert [x][0] == x;
      }
    }
  }

  lemma {:induction false} LastArchived(fs: seq<Field>, f: string)
    ensures LastField(ArchiveAll(fs), f).Some? ==> LastField(ArchiveAll(fs), f).value.archived
  {
    var r := LastField(ArchiveAll(fs), f);
    if r.Some? {
      var i :| 0 <= i < |ArchiveAll(fs)| && ArchiveAll(fs)[i] == r.value;
    }
  }

  lemma {:induction false} KeptWinner(es: seq<Entity>, ce: Entity, still: set<string>, e: string, f: string)
    ensures WinnersKept(es, KeepOne(es, ce, still), e, f)
  {
    var r := KeepOne(es, ce, still);
    if es == [] {
      OneWinner(Leftover(ce, still), e, f);
      LastArchived(ce.fields, f);
    } else {
      WinnerHead(es, e, f);
      WinnerHead(r, e, f);
      WinnerKnown(es, e, f);
      WinnerKnown(es[1..], e, f);
      if es[0].key == ce.key {
        assert r[1..] == es[1..];
        LastAdded(es[0].fields, ce.fields, f);
        LastFieldKnown(es[0].fields, f);
      } else {
        assert r[1..] == KeepOne(es[1..], ce, still);
        KeptWinner(es[1..], ce, still, e, f);
        KeptField(es[1..], ce, still, e, f);
        WinnerKnown(r[1..], e, f);
      }
    }
  }

  lemma {:induction false} KeepWinner(es: seq<Entity>, from: seq<Entity>, still: set<string>, e: string, f: string)
    ensures WinnersKept(es, KeepEntities(es, from, still), e, f)
    decreases |from|
  {
    WinnerKnown(es, e, f);
    if from != [] {
      var next := KeepOne(es, from[0], still);
      KeptWinner(es, from[0], still, e, f);
      KeptField(es, from[0], still, e, f);
      KeepWinner(next, from[1..], still, e, f);
      WinnerKnown(next, e, f);
    }
  }

  lemma {:induction false} ArchivedWinner(es: seq<Entity>, e: string, f: string)
    requires forall i :: 0 <= i < |es| ==> Archived(es[i].fields, 0)
    ensures Winner(es, e, f).Some? ==> Winner(es, e, f).value.archived
  {
    if es != [] { ArchivedWinner(es[..|es| - 1], e, f); }
  }

  lemma RetiredWinner(target: TenantConfig, current: TenantConfig, e: string, f: string)
    requires IsConfig(target) && IsConfig(current)
    ensures WinnersKept(RetiredEntities(target.retired), RetiredEntities(RetiredAfter(target, current)), e, f)
  {
    var was, more := RetiredEntities(target.retired), RetiredAll(PacksOf(current).entities, PacksOf(target).entities);
    RetiredIs(target, current);
    WinnerConcat(was, more, e, f);
    MergedEntitiesDistinct(PackLayers(target.packs, None) + Optional(target.retired));
    RetiredFields(PacksOf(current).entities, PacksOf(target).entities, e, f);
    PacksOfFields(target, e, f);
    WinnerKnown(more, e, f);
    WinnerKnown(was, e, f);
    RetiredArchived(PacksOf(current).entities, PacksOf(target).entities);
    ArchivedWinner(more, e, f);
  }

  /// The entities of the layers above the packs, one list for each: what packs left behind,
  /// the company, and the units of the path.
  function UnitEntities(units: map<string, Layer>, ids: seq<string>): (r: seq<seq<Entity>>)
    ensures |r| == |ids|
    ensures forall i :: 0 <= i < |ids| ==> r[i] == UnitOf(units, ids[i])
  {
    seq(|ids|, i requires 0 <= i < |ids| => UnitOf(units, ids[i]))
  }

  function Places(c: TenantConfig, ids: seq<string>): seq<seq<Entity>> {
    [RetiredEntities(c.retired), c.company.entities] + UnitEntities(c.orgUnits, ids)
  }

  function Joined(ps: seq<seq<Entity>>): seq<Entity> {
    if ps == [] then [] else Joined(ps[..|ps| - 1]) + ps[|ps| - 1]
  }

  lemma {:induction false} JoinedField(ps: seq<seq<Entity>>, e: string, f: string)
    ensures HasField(Joined(ps), e, f) <==> exists i :: 0 <= i < |ps| && HasField(ps[i], e, f)
  {
    if ps != [] {
      var n := |ps| - 1;
      JoinedField(ps[..n], e, f);
      FieldConcat(Joined(ps[..n]), ps[n], e, f);
      if HasField(Joined(ps[..n]), e, f) {
        var i :| 0 <= i < n && HasField(ps[..n][i], e, f);
        assert ps[i] == ps[..n][i];
      }
      if i :| 0 <= i < |ps| && HasField(ps[i], e, f) {
        if i < n { assert ps[..n][i] == ps[i]; }
      }
    }
  }

  /// The last list with the field decides.
  lemma {:induction false} JoinedWinner(a: seq<seq<Entity>>, b: seq<seq<Entity>>, i: nat, e: string, f: string)
    requires |a| == |b| && i < |b| && HasField(b[i], e, f) && forall k :: i < k < |b| ==> !HasField(b[k], e, f)
    requires forall k :: 0 <= k < |a| ==> FieldKept(a[k], b[k], e, f)
    ensures if HasField(a[i], e, f) then Winner(Joined(b), e, f) == Winner(Joined(a), e, f)
            else Winner(Joined(b), e, f).Some? && Winner(Joined(b), e, f).value.archived
    ensures Winner(Joined(b), e, f).Some?
  {
    var n := |b| - 1;
    WinnerConcat(Joined(b[..n]), b[n], e, f);
    WinnerConcat(Joined(a[..n]), a[n], e, f);
    WinnerKnown(b[n], e, f);
    WinnerKnown(a[n], e, f);
    if i < n {
      assert FieldKept(a[n], b[n], e, f);
      forall k | i < k < n ensures !HasField(b[..n][k], e, f) { assert b[..n][k] == b[k]; }
      JoinedWinner(a[..n], b[..n], i, e, f);
    }
  }

  lemma {:induction false} JoinedOverrides(units: map<string, Layer>, ids: seq<string>)
    ensures AllEntities(Overrides(units, ids)) == Joined(UnitEntities(units, ids))
  {
    if ids != [] {
      var n := |ids| - 1;
      JoinedOverrides(units, ids[..n]);
      assert UnitEntities(units, ids)[..n] == UnitEntities(units, ids[..n]);
      if ids[n] in units {
        EntitiesApart(Overrides(units, ids[..n]), [units[ids[n]]]);
        OneLayer(units[ids[n]]);
      }
    }
  }

  lemma {:induction false} JoinedConcat(a: seq<seq<Entity>>, b: seq<seq<Entity>>)
    ensures Joined(a + b) == Joined(a) + Joined(b)
  {
    if b == [] {
      assert a + b == a;
    } else {
      assert (a + b)[..|a + b| - 1] == a + b[..|b| - 1];
      JoinedConcat(a, b[..|b| - 1]);
    }
  }

  lemma JoinedOne(x: seq<Entity>)
    ensures Joined([x]) == x
  {
    assert [x][..0] == [];
  }

  lemma JoinedPlaces(c: TenantConfig, ids: seq<string>)
    ensures Joined(Places(c, ids))
         == RetiredEntities(c.retired) + c.company.entities + AllEntities(Overrides(c.orgUnits, ids))
  {
    var r, k := RetiredEntities(c.retired), c.company.entities;
    assert [r, k] == [r] + [k];
    JoinedConcat([r], [k]);
    JoinedOne(r);
    JoinedOne(k);
    JoinedConcat([r, k], UnitEntities(c.orgUnits, ids));
    JoinedOverrides(c.orgUnits, ids);
  }

  lemma UpperEntities(packs: seq<Layer>, left: seq<Layer>, company: Layer, overrides: seq<Layer>)
    ensures AllEntities(packs + left + [company] + overrides)
         == AllEntities(packs) + (AllEntities(left) + company.entities + AllEntities(overrides))
  {
    EntitiesApart(packs + left + [company], overrides);
    EntitiesApart(packs + left, [company]);
    EntitiesApart(packs, left);
    OneLayer(company);
    FourParts(AllEntities(packs), AllEntities(left), company.entities, AllEntities(overrides));
  }

  lemma FourParts<T>(a: seq<T>, b: seq<T>, c: seq<T>, d: seq<T>)
    ensures a + b + c + d == a + (b + c + d)
  {
  }

  lemma EffectiveEntities(base: seq<Layer>, c: TenantConfig, ids: seq<string>)
    ensures AllEntities(LayersFor(base, c, ids))
         == AllEntities(base + PackLayers(c.packs, Some(c.company))) + Joined(Places(c, ids))
  {
    UpperEntities(base + PackLayers(c.packs, Some(c.company)), Optional(c.retired), c.company, Overrides(c.orgUnits, ids));
    if c.retired.Some? { OneLayer(c.retired.value); }
    JoinedPlaces(c, ids);
  }

  /// Winners and fields are kept.
  ghost predicate FieldKept(a: seq<Entity>, b: seq<Entity>, e: string, f: string) {
    WinnersKept(a, b, e, f) && (HasField(a, e, f) ==> HasField(b, e, f))
  }

  lemma PlacesKept(target: TenantConfig, current: TenantConfig, ids: seq<string>, i: nat, e: string, f: string)
    requires IsConfig(target) && IsConfig(current) && i < |ids| + 2
    ensures FieldKept(Places(target, ids)[i], Places(WithArchivedLeftovers(target, current), ids)[i], e, f)
  {
    var after := WithArchivedLeftovers(target, current);
    PlaceIs(target, ids, i);
    PlaceIs(after, ids, i);
    if i == 0 {
      RetiredKept(target, current, e, f);
    } else if i == 1 {
      CompanyKept(target, current, e, f);
    } else {
      UnitKept(target, current, ids[i - 2], e, f);
    }
  }

  lemma PlaceIs(c: TenantConfig, ids: seq<string>, i: nat)
    requires i < |ids| + 2
    ensures Places(c, ids)[i] == if i == 0 then RetiredEntities(c.retired) else if i == 1 then c.company.entities
                                 else UnitOf(c.orgUnits, ids[i - 2])
  {
  }

  lemma RetiredKept(target: TenantConfig, current: TenantConfig, e: string, f: string)
    requires IsConfig(target) && IsConfig(current)
    ensures FieldKept(RetiredEntities(target.retired), RetiredEntities(WithArchivedLeftovers(target, current).retired), e, f)
  {
    RetiredWinner(target, current, e, f);
    RetiredIs(target, current);
    FieldConcat(RetiredEntities(target.retired), RetiredAll(PacksOf(current).entities, PacksOf(target).entities), e, f);
  }

  lemma CompanyKept(target: TenantConfig, current: TenantConfig, e: string, f: string)
    requires IsConfig(target) && IsConfig(current)
    ensures FieldKept(target.company.entities, WithArchivedLeftovers(target, current).company.entities, e, f)
  {
    KeepWinner(target.company.entities, current.company.entities, KeysOf(target.company.entities) + BUILT_IN, e, f);
    KeptFields(target.company.entities, current.company.entities, KeysOf(target.company.entities) + BUILT_IN, e, f);
  }

  function UnitOf(units: map<string, Layer>, id: string): seq<Entity> {
    if id in units then units[id].entities else []
  }

  lemma UnitKept(target: TenantConfig, current: TenantConfig, id: string, e: string, f: string)
    requires IsConfig(target) && IsConfig(current)
    ensures FieldKept(UnitOf(target.orgUnits, id), UnitOf(WithArchivedLeftovers(target, current).orgUnits, id), e, f)
  {
    var was := UnitOf(target.orgUnits, id);
    WinnerKnown(was, e, f);
    if id in current.orgUnits {
      KeepWinner(was, current.orgUnits[id].entities, KeysOf(target.company.entities) + BUILT_IN, e, f);
      KeptFields(was, current.orgUnits[id].entities, KeysOf(target.company.entities) + BUILT_IN, e, f);
    }
  }

  // ---- which layer decides, in terms of both configurations ----

  /// One of the layers above the packs at a place, numbered from what packs left behind (0)
  /// over the company (1) down the path: the target or the current configuration has the
  /// field there, as far as a rollback looks at it.
  ghost predicate HasAt(target: TenantConfig, current: TenantConfig, ids: seq<string>, i: nat, e: string, f: string)
    requires IsConfig(target) && IsConfig(current) && i < |ids| + 2
  {
    if i == 0 then
      InOptional(target.retired, e, f) || (HasField(PacksOf(current).entities, e, f) && !HasField(PacksOf(target).entities, e, f))
    else HasField(Places(target, ids)[i], e, f) || HasField(Places(current, ids)[i], e, f)
  }

  lemma HasAtAfter(target: TenantConfig, current: TenantConfig, ids: seq<string>, i: nat, e: string, f: string)
    requires IsConfig(target) && IsConfig(current) && i < |ids| + 2
    ensures HasField(Places(WithArchivedLeftovers(target, current), ids)[i], e, f) <==> HasAt(target, current, ids, i, e, f)
  {
    var after := WithArchivedLeftovers(target, current);
    PlaceIs(target, ids, i);
    PlaceIs(current, ids, i);
    PlaceIs(after, ids, i);
    assert !HasField([], e, f);
    if i == 0 {
      RetiredAfterFields(target, current, e, f);
    } else if i == 1 {
      KeptFields(target.company.entities, current.company.entities, KeysOf(target.company.entities) + BUILT_IN, e, f);
    } else if ids[i - 2] in after.orgUnits {
      UnitFields(target, current, ids[i - 2], e, f);
    }
  }

  ghost function Held(target: TenantConfig, current: TenantConfig, ids: seq<string>, e: string, f: string): (r: seq<bool>)
    requires IsConfig(target) && IsConfig(current)
    ensures |r| == |ids| + 2
  {
    seq(|ids| + 2, i requires 0 <= i < |ids| + 2 => HasAt(target, current, ids, i, e, f))
  }

  function LastTrue(bs: seq<bool>): (r: Option<nat>)
    ensures r.Some? ==> r.value < |bs| && bs[r.value]
    ensures forall k :: (if r.Some? then r.value + 1 else 0) <= k < |bs| ==> !bs[k]
  {
    if bs == [] then None else if bs[|bs| - 1] then Some(|bs| - 1) else LastTrue(bs[..|bs| - 1])
  }

  /// The last such layer.
  ghost function LastAt(target: TenantConfig, current: TenantConfig, ids: seq<string>, e: string, f: string): (r: Option<nat>)
    requires IsConfig(target) && IsConfig(current)
    ensures r.Some? ==> r.value < |ids| + 2
  {
    LastTrue(Held(target, current, ids, e, f))
  }

  lemma LastAtIsLast(target: TenantConfig, current: TenantConfig, ids: seq<string>, k: nat, e: string, f: string)
    requires IsConfig(target) && IsConfig(current) && k < |ids| + 2
    ensures var last := LastAt(target, current, ids, e, f);
            && (last == Some(k) ==> HasAt(target, current, ids, k, e, f))
            && ((last.Some? ==> last.value < k) ==> !HasAt(target, current, ids, k, e, f))
  {
    assert Held(target, current, ids, e, f)[k] == HasAt(target, current, ids, k, e, f);
  }

  /// A patch of the target's own packs now has the last word on the field, through a role
  /// that only a leftover of the company brings.
  ghost predicate PatchedAnew(target: TenantConfig, current: TenantConfig, i: int, e: string, f: string)
    requires IsConfig(target) && IsConfig(current)
  {
    ComesLast(AllPatches(Ordered(target.packs)), RolesThere(target.packs, target.company, e), RolesAdded(target, current, e), i, e, f)
  }

  function PatchField(target: TenantConfig, i: int, e: string, f: string): Option<Field> {
    var ps := AllPatches(Ordered(target.packs));
    if 0 <= i < |ps| then LastField(ps[i].fieldsFor(e), f) else None
  }

  function FieldAt(base: seq<Layer>, c: TenantConfig, ids: seq<string>, e: string, f: string): Option<Field>
    requires AreLayers(base) && IsConfig(c)
  {
    Winner(MergeLayers(LayersFor(base, c, ids)).entities, e, f)
  }

  lemma FieldAtIs(base: seq<Layer>, c: TenantConfig, ids: seq<string>, e: string, f: string)
    requires AreLayers(base) && IsConfig(c)
    ensures FieldAt(base, c, ids, e, f)
         == var upper := Winner(Joined(Places(c, ids)), e, f);
            var given := PatchesGive(c.packs, RolesThere(c.packs, c.company, e), e, f);
            var own := OwnWinner(c.packs, e, f);
            if upper.Some? then upper else if given.Some? then given else if own.Some? then own
            else Winner(AllEntities(base), e, f)
  {
    MergeTakesLast(LayersFor(base, c, ids), e, f);
    EffectiveEntities(base, c, ids);
    WinnerConcat(AllEntities(base + PackLayers(c.packs, Some(c.company))), Joined(Places(c, ids)), e, f);
    EntitiesApart(base, PackLayers(c.packs, Some(c.company)));
    WinnerConcat(AllEntities(base), AllEntities(PackLayers(c.packs, Some(c.company))), e, f);
    PackWinner(c.packs, c.company, e, f);
  }

  lemma UpperFieldAfter(base: seq<Layer>, target: TenantConfig, current: TenantConfig, ids: seq<string>, i: nat, e: string, f: string)
    requires AreLayers(base) && IsConfig(target) && IsConfig(current)
    requires LastAt(target, current, ids, e, f) == Some(i)
    ensures var now := FieldAt(base, WithArchivedLeftovers(target, current), ids, e, f);
            if HasField(Places(target, ids)[i], e, f) then now == FieldAt(base, target, ids, e, f)
            else now.Some? && now.value.archived
  {
    UpperWinner(target, current, ids, i, e, f);
    FieldAtIs(base, WithArchivedLeftovers(target, current), ids, e, f);
    FieldAtIs(base, target, ids, e, f);
  }

  /// What the layers above the packs say of a field that one of them has.
  lemma UpperWinner(target: TenantConfig, current: TenantConfig, ids: seq<string>, i: nat, e: string, f: string)
    requires IsConfig(target) && IsConfig(current) && LastAt(target, current, ids, e, f) == Some(i)
    ensures var now := Winner(Joined(Places(WithArchivedLeftovers(target, current), ids)), e, f);
            var was := Winner(Joined(Places(target, ids)), e, f);
            if HasField(Places(target, ids)[i], e, f) then now == was && was.Some?
            else now.Some? && now.value.archived
  {
    var a, b := Places(target, ids), Places(WithArchivedLeftovers(target, current), ids);
    forall k | 0 <= k < |a|
      ensures FieldKept(a[k], b[k], e, f) && (k == i ==> HasField(b[k], e, f)) && (k > i ==> !HasField(b[k], e, f))
    {
      PlacesKept(target, current, ids, k, e, f);
      HasAtAfter(target, current, ids, k, e, f);
      LastAtIsLast(target, current, ids, k, e, f);
    }
    JoinedWinner(a, b, i, e, f);
    if HasField(a[i], e, f) {
      JoinedField(a, e, f);
      WinnerKnown(Joined(a), e, f);
    }
  }

  lemma NowhereAbove(target: TenantConfig, current: TenantConfig, ids: seq<string>, e: string, f: string)
    requires IsConfig(target) && IsConfig(current) && LastAt(target, current, ids, e, f).None?
    ensures Winner(Joined(Places(target, ids)), e, f).None?
    ensures Winner(Joined(Places(WithArchivedLeftovers(target, current), ids)), e, f).None?
  {
    var after := WithArchivedLeftovers(target, current);
    forall k | 0 <= k < |ids| + 2
      ensures !HasField(Places(after, ids)[k], e, f) && !HasField(Places(target, ids)[k], e, f)
    {
      LastAtIsLast(target, current, ids, k, e, f);
      HasAtAfter(target, current, ids, k, e, f);
      PlacesKept(target, current, ids, k, e, f);
    }
    JoinedField(Places(after, ids), e, f);
    JoinedField(Places(target, ids), e, f);
    WinnerKnown(Joined(Places(after, ids)), e, f);
    WinnerKnown(Joined(Places(target, ids)), e, f);
  }

  lemma PackFieldAfter(base: seq<Layer>, target: TenantConfig, current: TenantConfig, ids: seq<string>, e: string, f: string)
    requires AreLayers(base) && IsConfig(target) && IsConfig(current)
    requires LastAt(target, current, ids, e, f).None?
    ensures var now, was := FieldAt(base, WithArchivedLeftovers(target, current), ids, e, f), FieldAt(base, target, ids, e, f);
            && (now == was || exists i :: PatchedAnew(target, current, i, e, f))
            && forall i :: PatchedAnew(target, current, i, e, f) ==> now == PatchField(target, i, e, f)
  {
    var after := WithArchivedLeftovers(target, current);
    var ps := AllPatches(Ordered(target.packs));
    var roles, more := RolesThere(target.packs, target.company, e), RolesAdded(target, current, e);
    NowhereAbove(target, current, ids, e, f);
    FieldAtIs(base, after, ids, e, f);
    FieldAtIs(base, target, ids, e, f);
    RolesAfter(target, current, e);
    GivenMore(ps, roles, more, e, f);
    if i :| ComesLast(ps, roles, more, i, e, f) { assert PatchedAnew(target, current, i, e, f); }
    forall i | PatchedAnew(target, current, i, e, f)
      ensures FieldAt(base, after, ids, e, f) == PatchField(target, i, e, f)
    {
      LastThroughNew(ps, roles, more, i, e, f);
    }
  }

  /// What a rollback leaves of any field, at any place. If a layer above the packs has it in
  /// one of the configurations, the last such layer decides: had the target the field there,
  /// the definition is the target's, otherwise it is an archived leftover, even if the target
  /// has the field active further up. If none has it, the definition is the target's exactly
  /// unless a patch of the target's packs gives another one, through a role that only a
  /// leftover of the company brings.
  lemma FieldAfterRollback(base: seq<Layer>, target: TenantConfig, current: TenantConfig, ids: seq<string>, e: string, f: string)
    requires AreLayers(base) && IsConfig(target) && IsConfig(current)
    ensures var now, was := FieldAt(base, WithArchivedLeftovers(target, current), ids, e, f), FieldAt(base, target, ids, e, f);
            match LastAt(target, current, ids, e, f)
            case Some(i) => if HasField(Places(target, ids)[i], e, f) then now == was else now.Some? && now.value.archived
            case None => now == was <==> !exists i :: PatchedAnew(target, current, i, e, f) && PatchField(target, i, e, f) != was
  {
    if LastAt(target, current, ids, e, f).Some? {
      UpperFieldAfter(base, target, current, ids, LastAt(target, current, ids, e, f).value, e, f);
    } else {
      PackFieldAfter(base, target, current, ids, e, f);
    }
  }
}
