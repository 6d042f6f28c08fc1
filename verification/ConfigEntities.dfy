/// A rollback loses no entity: at every place those of both configurations are there.

module ConfigEntities {
  import opened Basics
  import opened ConfigMerge
  import opened ConfigKeys
  import opened ConfigPacks
  import opened ConfigRollback

  lemma EntityConcat(xs: seq<Entity>, ys: seq<Entity>, e: string)
    ensures HasEntity(xs + ys, e) <==> HasEntity(xs, e) || HasEntity(ys, e)
  {
    HasConcat(xs, ys, e, EntityKey);
  }

  lemma EntitiesOfLayers(xs: seq<Layer>, ys: seq<Layer>, e: string)
    ensures HasEntity(AllEntities(xs + ys), e) <==> HasEntity(AllEntities(xs), e) || HasEntity(AllEntities(ys), e)
  {
    EntitiesApart(xs, ys);
    EntityConcat(AllEntities(xs), AllEntities(ys), e);
  }

  lemma OneEntity(x: Entity, e: string)
    ensures HasEntity([x], e) <==> x.key == e
  {
    assert [x][0] == x;
  }

  // ---- packs ----

  lemma RoleEntity(es: seq<Entity>, e: string, role: string)
    requires HasRole(es, e, role)
    ensures HasEntity(es, e)
  {
    var i :| 0 <= i < |es| && es[i].key == e && es[i].roles.Some? && role in es[i].roles.value;
    assert EntityKey(es[i]) == e;
  }

  lemma {:induction false} PatchOnEntities(p: Patch, keys: seq<string>, es: seq<Entity>, e: string)
    ensures HasEntity(PatchOn(p, keys, es), e) ==> HasEntity(es, e)
  {
    if keys != [] {
      var n := |keys| - 1;
      var rest, k := PatchOn(p, keys[..n], es), keys[n];
      PatchOnEntities(p, keys[..n], es, e);
      var x := Entity(k, map[], p.tax, None, p.fieldsFor(k));
      EntityConcat(rest, [x], e);
      OneEntity(x, e);
      if k == e && HasRole(es, k, p.role) { RoleEntity(es, e, p.role); }
    }
  }

  lemma {:induction false} PatchAllEntities(ps: seq<Patch>, keys: seq<string>, es: seq<Entity>, e: string)
    ensures HasEntity(PatchAll(ps, keys, es), e) ==> HasEntity(es, e)
  {
    if ps != [] {
      var n := |ps| - 1;
      PatchAllEntities(ps[..n], keys, es, e);
      PatchOnEntities(ps[n], keys, es, e);
      EntityConcat(PatchAll(ps[..n], keys, es), PatchOn(ps[n], keys, es), e);
    }
  }

  ghost predicate InPacks(packs: seq<Pack>, e: string) { HasEntity(AllEntities(OwnLayers(Ordered(packs))), e) }

  ghost predicate InLayer(l: Option<Layer>, e: string) { l.Some? && HasEntity(l.value.entities, e) }

  lemma OptionalEntities(l: Option<Layer>, e: string)
    ensures HasEntity(AllEntities(Optional(l)), e) <==> InLayer(l, e)
  {
    if l.Some? { OneLayer(l.value); }
  }

  /// Patches extend entities of the packs or of the company; they make no new ones.
  lemma PackEntities(packs: seq<Pack>, company: Option<Layer>, e: string)
    ensures InPacks(packs, e) ==> HasEntity(AllEntities(PackLayers(packs, company)), e)
    ensures HasEntity(AllEntities(PackLayers(packs, company)), e) ==> InPacks(packs, e) || InLayer(company, e)
  {
    var own := OwnLayers(Ordered(packs));
    var es := AllEntities(own + Optional(company));
    var ps := AllPatches(Ordered(packs));
    EntitiesOfLayers(own, Optional(company), e);
    OptionalEntities(company, e);
    if packs == [] {
      assert own == [];
    } else if ps != [] {
      var layer := PatchLayer(packs, company);
      EntitiesOfLayers(own, [layer], e);
      OneLayer(layer);
      PatchAllEntities(ps, MergedRoles(WithRoles(es)), es, e);
    }
  }

  /// The entities the packs and what they left behind have.
  lemma PacksOfEntities(c: TenantConfig, e: string)
    requires IsConfig(c)
    ensures HasEntity(PacksOf(c).entities, e) <==> InPacks(c.packs, e) || InLayer(c.retired, e)
  {
    var ls := PackLayers(c.packs, None) + Optional(c.retired);
    MergeKeepsFields(ls, e, "");
    EntitiesOfLayers(PackLayers(c.packs, None), Optional(c.retired), e);
    OptionalEntities(c.retired, e);
    PackEntities(c.packs, None, e);
  }

  // ---- a place ----

  /// Where an entity at a place can come from.
  ghost predicate EntityThere(base: seq<Layer>, c: TenantConfig, ids: seq<string>, e: string) {
    || HasEntity(AllEntities(base), e) || InPacks(c.packs, e) || InLayer(c.retired, e)
    || HasEntity(c.company.entities, e) || HasEntity(AllEntities(Overrides(c.orgUnits, ids)), e)
  }

  lemma EffectiveEntity(base: seq<Layer>, c: TenantConfig, ids: seq<string>, e: string)
    requires AreLayers(base) && IsConfig(c)
    ensures HasEntity(MergeLayers(LayersFor(base, c, ids)).entities, e) <==> EntityThere(base, c, ids, e)
  {
    var packs, left := PackLayers(c.packs, Some(c.company)), Optional(c.retired);
    MergeKeepsFields(LayersFor(base, c, ids), e, "");
    EntitiesOfLayers(base + packs + left + [c.company], Overrides(c.orgUnits, ids), e);
    EntitiesOfLayers(base + packs + left, [c.company], e);
    EntitiesOfLayers(base + packs, left, e);
    EntitiesOfLayers(base, packs, e);
    OneLayer(c.company);
    OptionalEntities(c.retired, e);
    PackEntities(c.packs, Some(c.company), e);
  }

  // ---- rollback ----

  lemma {:induction false} RetiredEntity(es: seq<Entity>, packs: seq<Entity>, e: string)
    ensures HasEntity(RetiredAll(es, packs), e) ==> HasEntity(es, e)
    ensures HasEntity(es, e) && !HasEntity(packs, e) ==> HasEntity(RetiredAll(es, packs), e)
  {
    if es != [] {
      var n := |es| - 1;
      RetiredEntity(es[..n], packs, e);
      assert es == es[..n] + [es[n]];
      EntityConcat(es[..n], [es[n]], e);
      OneEntity(es[n], e);
      EntityConcat(RetiredAll(es[..n], packs), RetiredFor(es[n], packs), e);
      RetiredForEntity(es[n], packs, e);
    }
  }

  lemma RetiredForEntity(x: Entity, packs: seq<Entity>, e: string)
    ensures HasEntity(RetiredFor(x, packs), e) ==> x.key == e
    ensures x.key == e && !HasEntity(packs, e) ==> HasEntity(RetiredFor(x, packs), e)
  {
    OneEntity(ArchiveEntity(x), e);
    var t := FindEntity(packs, x.key);
    if t.Some? { OneEntity(Entity(x.key, map[], None, None, MissingFields(x.fields, t.value.fields)), e); }
  }

  lemma RetiredAfterEntities(target: TenantConfig, current: TenantConfig, e: string)
    requires IsConfig(target) && IsConfig(current)
    ensures InPacks(target.packs, e) || InLayer(RetiredAfter(target, current), e)
       <==> InPacks(target.packs, e) || InLayer(target.retired, e) || HasEntity(PacksOf(current).entities, e)
  {
    var was := if target.retired.Some? then target.retired.value else EMPTY_LAYER;
    var more := RetiredAll(PacksOf(current).entities, PacksOf(target).entities);
    RetiredEntity(PacksOf(current).entities, PacksOf(target).entities, e);
    EntityConcat(was.entities, more, e);
    PacksOfEntities(target, e);
    assert was.entities == [] && more == [] ==> was.entities + more == [];
    assert !HasEntity([], e);
  }

  lemma UnitEntity(target: TenantConfig, current: TenantConfig, id: string, e: string)
    requires IsConfig(target) && IsConfig(current) && (id in target.orgUnits || id in current.orgUnits)
    ensures HasEntity(UnitAfter(target, current, id).entities, e)
       <==> (id in target.orgUnits && HasEntity(target.orgUnits[id].entities, e))
            || (id in current.orgUnits && HasEntity(current.orgUnits[id].entities, e))
  {
    var was := if id in target.orgUnits then target.orgUnits[id] else EMPTY_LAYER;
    assert !HasEntity([], e);
    if id in current.orgUnits {
      KeptEntities(was.entities, current.orgUnits[id].entities, KeysOf(target.company.entities) + BUILT_IN, e);
    }
  }

  lemma OverrideEntity(units: map<string, Layer>, ids: seq<string>, e: string)
    requires ids != []
    ensures HasEntity(AllEntities(Overrides(units, ids)), e)
       <==> HasEntity(AllEntities(Overrides(units, ids[..|ids| - 1])), e)
            || (ids[|ids| - 1] in units && HasEntity(units[ids[|ids| - 1]].entities, e))
  {
    var n := |ids| - 1;
    if ids[n] in units {
      EntitiesOfLayers(Overrides(units, ids[..n]), [units[ids[n]]], e);
      OneLayer(units[ids[n]]);
    }
  }

  lemma {:induction false} OverrideEntities(target: TenantConfig, current: TenantConfig, ids: seq<string>, e: string)
    requires IsConfig(target) && IsConfig(current)
    ensures HasEntity(AllEntities(Overrides(WithArchivedLeftovers(target, current).orgUnits, ids)), e)
       <==> HasEntity(AllEntities(Overrides(target.orgUnits, ids)), e)
            || HasEntity(AllEntities(Overrides(current.orgUnits, ids)), e)
  {
    if ids != [] {
      var n := |ids| - 1;
      var units := WithArchivedLeftovers(target, current).orgUnits;
      OverrideEntities(target, current, ids[..n], e);
      OverrideEntity(units, ids, e);
      OverrideEntity(target.orgUnits, ids, e);
      OverrideEntity(current.orgUnits, ids, e);
      if ids[n] in units { UnitEntity(target, current, ids[n], e); }
    }
  }

  /// After a rollback a place has exactly the entities it has now or has in the target.
  lemma EntitiesAfterRollback(base: seq<Layer>, target: TenantConfig, current: TenantConfig, ids: seq<string>, e: string)
    requires AreLayers(base) && IsConfig(target) && IsConfig(current)
    ensures HasEntity(MergeLayers(LayersFor(base, WithArchivedLeftovers(target, current), ids)).entities, e)
       <==> HasEntity(MergeLayers(LayersFor(base, target, ids)).entities, e)
            || HasEntity(MergeLayers(LayersFor(base, current, ids)).entities, e)
  {
    var after := WithArchivedLeftovers(target, current);
    EffectiveEntity(base, target, ids, e);
    EffectiveEntity(base, current, ids, e);
    EffectiveEntity(base, after, ids, e);
    PacksOfEntities(current, e);
    RetiredAfterEntities(target, current, e);
    KeptEntities(target.company.entities, current.company.entities, KeysOf(target.company.entities) + BUILT_IN, e);
    OverrideEntities(target, current, ids, e);
  }
}
