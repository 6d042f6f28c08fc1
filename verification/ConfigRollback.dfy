/// Rolling back to an earlier configuration, keeping what exists now as archived.

module ConfigRollback {
  import opened Basics
  import opened KeyedMerge
  import opened ConfigMerge
  import opened ConfigKeys
  import opened ConfigPacks
  import opened ConfigReach

  function Archive(f: Field): Field { f.(archived := true) }

  function ArchiveAll(fs: seq<Field>): (r: seq<Field>)
    ensures |r| == |fs| && forall i :: 0 <= i < |fs| ==> r[i] == Archive(fs[i])
  {
    seq(|fs|, i requires 0 <= i < |fs| => Archive(fs[i]))
  }

  function ArchiveEntity(e: Entity): Entity {
    e.(props := e.props["archived" := "true"], fields := ArchiveAll(e.fields))
  }

  /// An entity that is gone: kept alive where the target still defines it.
  function Leftover(e: Entity, still: set<string>): Entity {
    if e.key in still then Entity(e.key, map[], None, None, ArchiveAll(e.fields)) else ArchiveEntity(e)
  }

  /// Missing fields are added, archived.
  function AddMissing(have: seq<Field>, fs: seq<Field>): seq<Field>
    decreases |fs|, have
  {
    if fs == [] then have
    else AddMissing(if HasKey(have, fs[0].key) then have else have + [Archive(fs[0])], fs[1..])
  }

  function KeepOne(es: seq<Entity>, ce: Entity, still: set<string>): seq<Entity> {
    if es == [] then [Leftover(ce, still)]
    else if es[0].key == ce.key then [es[0].(fields := AddMissing(es[0].fields, ce.fields))] + es[1..]
    else [es[0]] + KeepOne(es[1..], ce, still)
  }

  function KeepEntities(es: seq<Entity>, from: seq<Entity>, still: set<string>): seq<Entity>
    decreases |from|, es, still
  {
    if from == [] then es else KeepEntities(KeepOne(es, from[0], still), from[1..], still)
  }

  function KeepItems(xs: seq<Item>, from: seq<Item>): seq<Item>
    decreases |from|, xs
  {
    if from == [] then xs
    else KeepItems(if Has(xs, from[0].key, ItemKey) then xs else xs + [from[0]], from[1..])
  }

  /// `target` with what only `from` has, archived; picklists and number series are kept for
  /// the archived fields that use them.
  function Keep(target: Layer, from: Layer, still: set<string>): (r: Layer)
    requires IsLayer(target) && IsLayer(from)
    ensures IsLayer(r)
  {
    target.(entities := KeepEntities(target.entities, from.entities, still),
            lists := target.lists[PICKLISTS := KeepItems(target.lists[PICKLISTS], from.lists[PICKLISTS])]
                                 [NUMBERING := KeepItems(target.lists[NUMBERING], from.lists[NUMBERING])])
  }

  // ---- the loops ----

  method AddMissingFields(have: seq<Field>, fs: seq<Field>) returns (r: seq<Field>)
    ensures r == AddMissing(have, fs)
  {
    r := have;
    var i := 0;
    while i < |fs|
      invariant i <= |fs| && AddMissing(r, fs[i..]) == AddMissing(have, fs)
    {
      if !HasKey(r, fs[i].key) { r := r + [Archive(fs[i])]; }
      i := i + 1;
    }
  }

  method KeepLayer(target: Layer, from: Layer, still: set<string>) returns (r: Layer)
    requires IsLayer(target) && IsLayer(from)
    ensures r == Keep(target, from, still)
  {
    var es := target.entities;
    var i := 0;
    while i < |from.entities|
      invariant i <= |from.entities|
      invariant KeepEntities(es, from.entities[i..], still) == KeepEntities(target.entities, from.entities, still)
    {
      es := KeepEntity(es, from.entities[i], still);
      i := i + 1;
    }
    var picklists := KeepListed(target.lists[PICKLISTS], from.lists[PICKLISTS]);
    var numbering := KeepListed(target.lists[NUMBERING], from.lists[NUMBERING]);
    r := target.(entities := es, lists := target.lists[PICKLISTS := picklists][NUMBERING := numbering]);
  }

  /// Finds the target's entity, or adds the leftover.
  method KeepEntity(es: seq<Entity>, ce: Entity, still: set<string>) returns (r: seq<Entity>)
    ensures r == KeepOne(es, ce, still)
  {
    var i := 0;
    while i < |es| && es[i].key != ce.key
      invariant i <= |es| && KeepOne(es, ce, still) == es[..i] + KeepOne(es[i..], ce, still)
    {
      assert es[..i + 1] == es[..i] + [es[i]];
      i := i + 1;
    }
    if i == |es| {
      assert es[..i] == es;
      return es + [Leftover(ce, still)];
    }
    var fields := AddMissingFields(es[i].fields, ce.fields);
    r := es[..i] + [es[i].(fields := fields)] + es[i + 1..];
  }

  method KeepListed(xs: seq<Item>, from: seq<Item>) returns (r: seq<Item>)
    ensures r == KeepItems(xs, from)
  {
    r := xs;
    var i := 0;
    while i < |from|
      invariant i <= |from| && KeepItems(r, from[i..]) == KeepItems(xs, from)
    {
      if !Has(r, from[i].key, ItemKey) { r := r + [from[i]]; }
      i := i + 1;
    }
  }

  // ---- rollback ----

  const BUILT_IN: set<string> := {"user", "org_unit"}

  function KeysOf(es: seq<Entity>): set<string> { set e | e in es :: e.key }

  /// The fields of `fs` that `have` lacks, archived.
  function MissingFields(fs: seq<Field>, have: seq<Field>): seq<Field> {
    if fs == [] then []
    else
      var rest, last := MissingFields(fs[..|fs| - 1], have), fs[|fs| - 1];
      if HasKey(have, last.key) then rest else rest + [Archive(last)]
  }

  function FindEntity(es: seq<Entity>, e: string): (r: Option<Entity>)
    ensures r.Some? <==> HasEntity(es, e)
    ensures r.Some? ==> r.value in es && r.value.key == e
  {
    if es == [] then None
    else
      assert HasEntity(es, e) <==> es[0].key == e || HasEntity(es[1..], e) by { HasSplit(es, e, EntityKey); }
      if es[0].key == e then Some(es[0]) else FindEntity(es[1..], e)
  }

  /// What `retired` gets for one entity of the packs.
  function RetiredFor(e: Entity, packs: seq<Entity>): seq<Entity> {
    var t := FindEntity(packs, e.key);
    if t.None? then [ArchiveEntity(e)]
    else
      var missing := MissingFields(e.fields, t.value.fields);
      if missing == [] then [] else [Entity(e.key, map[], None, None, missing)]
  }

  function RetiredAll(es: seq<Entity>, packs: seq<Entity>): seq<Entity> {
    if es == [] then [] else RetiredAll(es[..|es| - 1], packs) + RetiredFor(es[|es| - 1], packs)
  }

  function RetiredAfter(target: TenantConfig, current: TenantConfig): (r: Option<Layer>)
    requires IsConfig(target) && IsConfig(current)
    ensures r.Some? ==> IsLayer(r.value)
  {
    var was := if target.retired.Some? then target.retired.value else EMPTY_LAYER;
    var es := was.entities + RetiredAll(PacksOf(current).entities, PacksOf(target).entities);
    if es == [] then target.retired else Some(was.(entities := es))
  }

  function UnitAfter(target: TenantConfig, current: TenantConfig, id: string): (r: Layer)
    requires IsConfig(target) && IsConfig(current) && (id in target.orgUnits || id in current.orgUnits)
    ensures IsLayer(r)
  {
    var was := if id in target.orgUnits then target.orgUnits[id] else EMPTY_LAYER;
    if id in current.orgUnits then Keep(was, current.orgUnits[id], KeysOf(target.company.entities) + BUILT_IN) else was
  }

  /// The target configuration, plus what exists now but not in it, kept as archived.
  function WithArchivedLeftovers(target: TenantConfig, current: TenantConfig): (r: TenantConfig)
    requires IsConfig(target) && IsConfig(current)
    ensures IsConfig(r)
  {
    TenantConfig(
      Keep(target.company, current.company, KeysOf(target.company.entities) + BUILT_IN),
      map id | id in target.orgUnits.Keys + current.orgUnits.Keys :: UnitAfter(target, current, id),
      target.packs,
      RetiredAfter(target, current))
  }

  method Retired(target: TenantConfig, current: TenantConfig) returns (r: Option<Layer>)
    requires IsConfig(target) && IsConfig(current)
    ensures r == RetiredAfter(target, current)
  {
    var targetPacks := MergeLayerList(PackLayers(target.packs, None) + Optional(target.retired));
    var leftovers := MergeLayerList(PackLayers(current.packs, None) + Optional(current.retired));
    var retired := if target.retired.Some? then target.retired.value else EMPTY_LAYER;
    var more := RetireEntities(leftovers.entities, targetPacks.entities);
    var es := retired.entities + more;
    r := if es == [] then target.retired else Some(retired.(entities := es));
  }

  /// The loop over what the packs have left behind.
  method RetireEntities(es: seq<Entity>, packs: seq<Entity>) returns (r: seq<Entity>)
    ensures r == RetiredAll(es, packs)
  {
    r := [];
    var i := 0;
    while i < |es|
      invariant i <= |es| && r == RetiredAll(es[..i], packs)
    {
      assert es[..i + 1][..i] == es[..i];
      r := r + RetiredFor(es[i], packs);
      i := i + 1;
    }
    assert es[..i] == es;
  }

  // ---- which fields are kept ----

  lemma {:induction false} ArchivedKeys(fs: seq<Field>, f: string)
    ensures HasKey(ArchiveAll(fs), f) <==> HasKey(fs, f)
  {
    var r := ArchiveAll(fs);
    if HasKey(fs, f) {
      var i :| 0 <= i < |fs| && FieldKey(fs[i]) == f;
      assert FieldKey(r[i]) == f;
    }
    if HasKey(r, f) {
      var i :| 0 <= i < |fs| && FieldKey(r[i]) == f;
      assert FieldKey(fs[i]) == f;
    }
  }

  lemma {:induction false} AddedKeys(have: seq<Field>, fs: seq<Field>, f: string)
    ensures HasKey(AddMissing(have, fs), f) <==> HasKey(have, f) || HasKey(fs, f)
    decreases |fs|
  {
    if fs != [] {
      var x := Archive(fs[0]);
      HasSplit(fs, f, FieldKey);
      HasConcat(have, [x], f, FieldKey);
      assert [x][0] == x;
      AddedKeys(if HasKey(have, fs[0].key) then have else have + [x], fs[1..], f);
    }
  }

  lemma {:induction false} KeptField(es: seq<Entity>, ce: Entity, still: set<string>, e: string, f: string)
    ensures HasField(KeepOne(es, ce, still), e, f) <==> HasField(es, e, f) || (ce.key == e && HasKey(ce.fields, f))
  {
    var r := KeepOne(es, ce, still);
    if es == [] {
      OneField(Leftover(ce, still), e, f);
      ArchivedKeys(ce.fields, f);
    } else {
      FieldHead(es, e, f);
      FieldHead(r, e, f);
      if es[0].key == ce.key {
        assert r[1..] == es[1..];
        AddedKeys(es[0].fields, ce.fields, f);
      } else {
        assert r[1..] == KeepOne(es[1..], ce, still);
        KeptField(es[1..], ce, still, e, f);
      }
    }
  }

  lemma {:induction false} KeptFields(es: seq<Entity>, from: seq<Entity>, still: set<string>, e: string, f: string)
    ensures HasField(KeepEntities(es, from, still), e, f) <==> HasField(es, e, f) || HasField(from, e, f)
    decreases |from|
  {
    if from != [] {
      KeptField(es, from[0], still, e, f);
      KeptFields(KeepOne(es, from[0], still), from[1..], still, e, f);
      FieldHead(from, e, f);
    }
  }

  lemma {:induction false} MissingKeys(fs: seq<Field>, have: seq<Field>, f: string)
    ensures HasKey(MissingFields(fs, have), f) <==> HasKey(fs, f) && !HasKey(have, f)
  {
    if fs != [] {
      var n := |fs| - 1;
      var x := Archive(fs[n]);
      MissingKeys(fs[..n], have, f);
      assert fs == fs[..n] + [fs[n]];
      HasConcat(fs[..n], [fs[n]], f, FieldKey);
      HasConcat(MissingFields(fs[..n], have), [x], f, FieldKey);
      assert [x][0] == x && [fs[n]][0] == fs[n];
    }
  }

  lemma {:induction false} FoundFields(es: seq<Entity>, e: string, f: string)
    requires KeysDistinct(es, EntityKey)
    ensures HasField(es, e, f) <==> FindEntity(es, e).Some? && HasKey(FindEntity(es, e).value.fields, f)
  {
    if es != [] {
      FieldHead(es, e, f);
      if es[0].key == e {
        assert !HasField(es[1..], e, f) by {
          assert forall i :: 0 <= i < |es[1..]| ==> es[1..][i] == es[i + 1] && EntityKey(es[0]) != EntityKey(es[i + 1]);
        }
      } else {
        FoundFields(es[1..], e, f);
      }
    }
  }

  lemma RetiredForFields(x: Entity, packs: seq<Entity>, e: string, f: string)
    requires KeysDistinct(packs, EntityKey)
    ensures HasField(RetiredFor(x, packs), e, f) <==> x.key == e && HasKey(x.fields, f) && !HasField(packs, e, f)
  {
    var t := FindEntity(packs, x.key);
    FoundFields(packs, x.key, f);
    if t.None? {
      OneField(ArchiveEntity(x), e, f);
      ArchivedKeys(x.fields, f);
    } else {
      var missing := MissingFields(x.fields, t.value.fields);
      MissingKeys(x.fields, t.value.fields, f);
      OneField(Entity(x.key, map[], None, None, missing), e, f);
      assert missing == [] ==> !HasKey(missing, f);
    }
  }

  lemma {:induction false} RetiredFields(es: seq<Entity>, packs: seq<Entity>, e: string, f: string)
    requires KeysDistinct(packs, EntityKey)
    ensures HasField(RetiredAll(es, packs), e, f) <==> HasField(es, e, f) && !HasField(packs, e, f)
  {
    if es != [] {
      var n := |es| - 1;
      RetiredFields(es[..n], packs, e, f);
      RetiredForFields(es[n], packs, e, f);
      FieldConcat(RetiredAll(es[..n], packs), RetiredFor(es[n], packs), e, f);
      assert es == es[..n] + [es[n]];
      FieldConcat(es[..n], [es[n]], e, f);
      OneField(es[n], e, f);
    }
  }

  lemma MergedEntitiesDistinct(ls: seq<Layer>)
    requires AreLayers(ls)
    ensures KeysDistinct(MergeLayers(ls).entities, EntityKey)
  {
    EntityLaws();
    FoldDistinct([], AllEntities(ls), EntityKey, MergeEntity);
  }

  lemma RetiredAfterFields(target: TenantConfig, current: TenantConfig, e: string, f: string)
    requires IsConfig(target) && IsConfig(current)
    ensures InOptional(RetiredAfter(target, current), e, f)
       <==> InOptional(target.retired, e, f)
            || (HasField(PacksOf(current).entities, e, f) && !HasField(PacksOf(target).entities, e, f))
  {
    MergedEntitiesDistinct(PackLayers(target.packs, None) + Optional(target.retired));
    RetiredFields(PacksOf(current).entities, PacksOf(target).entities, e, f);
    var was := if target.retired.Some? then target.retired.value else EMPTY_LAYER;
    var more := RetiredAll(PacksOf(current).entities, PacksOf(target).entities);
    FieldConcat(was.entities, more, e, f);
    assert was.entities == [] && more == [] ==> was.entities + more == [];
    assert !HasField([], e, f);
  }

  lemma UnitFields(target: TenantConfig, current: TenantConfig, id: string, e: string, f: string)
    requires IsConfig(target) && IsConfig(current) && (id in target.orgUnits || id in current.orgUnits)
    ensures HasField(UnitAfter(target, current, id).entities, e, f)
       <==> (id in target.orgUnits && HasField(target.orgUnits[id].entities, e, f))
            || (id in current.orgUnits && HasField(current.orgUnits[id].entities, e, f))
  {
    var was := if id in target.orgUnits then target.orgUnits[id] else EMPTY_LAYER;
    assert !HasField([], e, f);
    if id in current.orgUnits {
      KeptFields(was.entities, current.orgUnits[id].entities, KeysOf(target.company.entities) + BUILT_IN, e, f);
    }
  }

  lemma OverrideStep(units: map<string, Layer>, ids: seq<string>, e: string, f: string)
    requires ids != []
    ensures HasField(AllEntities(Overrides(units, ids)), e, f)
       <==> HasField(AllEntities(Overrides(units, ids[..|ids| - 1])), e, f)
            || (ids[|ids| - 1] in units && HasField(units[ids[|ids| - 1]].entities, e, f))
  {
    var n := |ids| - 1;
    if ids[n] in units {
      FieldsApart(Overrides(units, ids[..n]), [units[ids[n]]], e, f);
      OneLayer(units[ids[n]]);
    }
  }

  lemma {:induction false} OverrideFields(target: TenantConfig, current: TenantConfig, ids: seq<string>, e: string, f: string)
    requires IsConfig(target) && IsConfig(current)
    ensures HasField(AllEntities(Overrides(WithArchivedLeftovers(target, current).orgUnits, ids)), e, f)
       <==> HasField(AllEntities(Overrides(target.orgUnits, ids)), e, f)
            || HasField(AllEntities(Overrides(current.orgUnits, ids)), e, f)
  {
    if ids != [] {
      var n := |ids| - 1;
      var units := WithArchivedLeftovers(target, current).orgUnits;
      OverrideFields(target, current, ids[..n], e, f);
      OverrideStep(units, ids, e, f);
      OverrideStep(target.orgUnits, ids, e, f);
      OverrideStep(current.orgUnits, ids, e, f);
      if ids[n] in units { UnitFields(target, current, ids[n], e, f); }
    }
  }

  // ---- main results: what is kept ----

  /// The company layer after the rollback.
  function CompanyAfter(target: TenantConfig, current: TenantConfig): (r: Layer)
    requires IsConfig(target) && IsConfig(current)
    ensures IsLayer(r)
  {
    Keep(target.company, current.company, KeysOf(target.company.entities) + BUILT_IN)
  }

  /// The roles an entity gets by a rollback: the company's own entity that the target does not
  /// have comes back archived, with its roles.
  function RolesAdded(target: TenantConfig, current: TenantConfig, e: string): set<string> {
    var leftover := FindEntity(current.company.entities, e);
    if e in KeysOf(target.company.entities) + BUILT_IN || leftover.None? then {} else OwnRoles(leftover.value)
  }

  lemma {:induction false} KeptRole(es: seq<Entity>, ce: Entity, still: set<string>, e: string)
    ensures RolesOf(KeepOne(es, ce, still), e)
         == RolesOf(es, e) + if ce.key == e && !HasEntity(es, e) && e !in still then OwnRoles(ce) else {}
  {
    var r := KeepOne(es, ce, still);
    if es == [] {
      RolesOfOne(Leftover(ce, still), e);
    } else {
      HasSplit(es, e, EntityKey);
      RolesHead(es, e);
      RolesHead(r, e);
      if es[0].key == ce.key {
        assert r[1..] == es[1..];
      } else {
        assert r[1..] == KeepOne(es[1..], ce, still);
        KeptRole(es[1..], ce, still, e);
      }
    }
  }

  lemma {:induction false} KeptRoles(es: seq<Entity>, from: seq<Entity>, still: set<string>, e: string)
    ensures RolesOf(KeepEntities(es, from, still), e)
         == RolesOf(es, e) + if HasEntity(es, e) || e in still || FindEntity(from, e).None? then {}
                             else OwnRoles(FindEntity(from, e).value)
    decreases |from|
  {
    if from != [] {
      KeptRole(es, from[0], still, e);
      KeptEntity(es, from[0], still, e);
      KeptRoles(KeepOne(es, from[0], still), from[1..], still, e);
    }
  }

  lemma RolesAfter(target: TenantConfig, current: TenantConfig, e: string)
    requires IsConfig(target) && IsConfig(current)
    ensures RolesThere(target.packs, CompanyAfter(target, current), e)
         == RolesThere(target.packs, target.company, e) + RolesAdded(target, current, e)
  {
    var own, still := AllEntities(OwnLayers(Ordered(target.packs))), KeysOf(target.company.entities) + BUILT_IN;
    RolesConcat(own, target.company.entities, e);
    RolesConcat(own, CompanyAfter(target, current).entities, e);
    KeptRoles(target.company.entities, current.company.entities, still, e);
    KeyListed(target.company.entities, e);
  }

  lemma KeyListed(es: seq<Entity>, e: string)
    ensures HasEntity(es, e) <==> e in KeysOf(es)
  {
    if HasEntity(es, e) {
      var i :| 0 <= i < |es| && EntityKey(es[i]) == e;
      assert es[i] in es;
    }
  }

  /// Where a field can come from after a rollback: every layer of both configurations, except
  /// that of the current packs' patches only those count that reach entities of the packs.
  ghost predicate StaysDefined(base: seq<Layer>, target: TenantConfig, current: TenantConfig, ids: seq<string>, e: string, f: string)
    requires IsConfig(target) && IsConfig(current)
  {
    || HasField(AllEntities(base), e, f) || HasField(AllEntities(OwnLayers(Ordered(target.packs))), e, f)
    || PatchesGive(target.packs, RolesThere(target.packs, target.company, e) + RolesAdded(target, current, e), e, f).Some?
    || InOptional(target.retired, e, f) || HasField(PacksOf(current).entities, e, f)
    || HasField(target.company.entities, e, f) || HasField(current.company.entities, e, f)
    || HasField(AllEntities(Overrides(target.orgUnits, ids)), e, f)
    || HasField(AllEntities(Overrides(current.orgUnits, ids)), e, f)
  }

  /// Exactly these fields exist at a place after a rollback.
  lemma FieldsAfterRollback(base: seq<Layer>, target: TenantConfig, current: TenantConfig, ids: seq<string>, e: string, f: string)
    requires AreLayers(base) && IsConfig(target) && IsConfig(current)
    ensures HasField(MergeLayers(LayersFor(base, WithArchivedLeftovers(target, current), ids)).entities, e, f)
       <==> StaysDefined(base, target, current, ids, e, f)
  {
    var after := WithArchivedLeftovers(target, current);
    MergeKeepsFields(LayersFor(base, after, ids), e, f);
    EffectiveFields(base, after, ids, e, f);
    RetiredAfterFields(target, current, e, f);
    KeptFields(target.company.entities, current.company.entities, KeysOf(target.company.entities) + BUILT_IN, e, f);
    OverrideFields(target, current, ids, e, f);
    TargetPackFields(target, CompanyAfter(target, current), e, f);
    PackFieldsByRole(target.packs, CompanyAfter(target, current), e, f);
    RolesAfter(target, current, e);
  }

  lemma TargetPackFields(target: TenantConfig, company: Layer, e: string, f: string)
    requires IsConfig(target)
    ensures HasField(PacksOf(target).entities, e, f) ==>
              HasField(AllEntities(PackLayers(target.packs, Some(company))), e, f) || InOptional(target.retired, e, f)
  {
    PacksOfFields(target, e, f);
    PackFields(target.packs, None, e, f);
    PackFields(target.packs, Some(company), e, f);
    PatchedMore(target.packs, company, e, f);
  }

  /// A field only the current packs' patches give, to an entity only the company gives the
  /// role.
  ghost predicate CompanyPatched(c: TenantConfig, e: string, f: string) {
    Patched(c.packs, Some(c.company), e, f) && !HasField(AllEntities(PackLayers(c.packs, None)), e, f)
  }

  /// A field that exists at a place now is lost by a rollback only if a pack's patch gives it
  /// to an entity of the company, and then exactly when nothing else defines it.
  lemma RollbackLoses(base: seq<Layer>, target: TenantConfig, current: TenantConfig, ids: seq<string>, e: string, f: string)
    requires AreLayers(base) && IsConfig(target) && IsConfig(current)
    requires HasField(MergeLayers(LayersFor(base, current, ids)).entities, e, f)
    ensures !HasField(MergeLayers(LayersFor(base, WithArchivedLeftovers(target, current), ids)).entities, e, f)
       <==> CompanyPatched(current, e, f) && !StaysDefined(base, target, current, ids, e, f)
  {
    MergeKeepsFields(LayersFor(base, current, ids), e, f);
    EffectiveFields(base, current, ids, e, f);
    FieldsAfterRollback(base, target, current, ids, e, f);
    PacksOfFields(current, e, f);
    PackFields(current.packs, Some(current.company), e, f);
    PackFields(current.packs, None, e, f);
  }

  lemma {:induction false} KeptEntities(es: seq<Entity>, from: seq<Entity>, still: set<string>, e: string)
    ensures HasEntity(KeepEntities(es, from, still), e) <==> HasEntity(es, e) || HasEntity(from, e)
    decreases |from|
  {
    if from != [] {
      KeptEntity(es, from[0], still, e);
      KeptEntities(KeepOne(es, from[0], still), from[1..], still, e);
      HasSplit(from, e, EntityKey);
    }
  }

  lemma {:induction false} KeptEntity(es: seq<Entity>, ce: Entity, still: set<string>, e: string)
    ensures HasEntity(KeepOne(es, ce, still), e) <==> HasEntity(es, e) || ce.key == e
  {
    var r := KeepOne(es, ce, still);
    if es == [] {
      assert EntityKey(r[0]) == ce.key;
    } else {
      HasSplit(es, e, EntityKey);
      HasSplit(r, e, EntityKey);
      if es[0].key == ce.key {
        assert r[1..] == es[1..];
      } else {
        assert r[1..] == KeepOne(es[1..], ce, still);
        KeptEntity(es[1..], ce, still, e);
      }
    }
  }
}
