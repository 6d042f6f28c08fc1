/// Which definition a field has after packs are installed or removed: a leftover comes before
/// whatever the packs that stay give.

module ConfigAfterRemoval {
  import opened Basics
  import opened KeyedMerge
  import opened ConfigMerge
  import opened ConfigKeys
  import opened ConfigPacks
  import opened ConfigReach
  import opened ConfigRollback
  import opened ConfigAfterRollback
  import opened ConfigRemoval

  // ---- leftovers of fields that are still defined ----

  lemma LastUnchanged(have: seq<Field>, missing: seq<Field>, f: string)
    requires !HasKey(missing, f)
    ensures LastField(AddMissing(have, missing), f) == LastField(have, f)
  {
    LastAdded(have, missing, f);
    AddedKeys(have, missing, f);
    LastFieldKnown(have, f);
    LastFieldKnown(AddMissing(have, missing), f);
  }

  lemma {:induction false} CollectedElsewhere(retired: seq<Entity>, x: Entity, missing: seq<Field>, e: string, f: string)
    requires x.key == e ==> !HasKey(missing, f)
    ensures Winner(Collect(retired, x, missing), e, f) == Winner(retired, e, f)
  {
    var r := Collect(retired, x, missing);
    WinnerHead(r, e, f);
    if retired == [] {
      if x.key == e { LastUnchanged([], missing, f); }
      assert r[1..] == [];
    } else {
      WinnerHead(retired, e, f);
      if retired[0].key == x.key {
        assert r[1..] == retired[1..];
        if x.key == e { LastUnchanged(retired[0].fields, missing, f); }
      } else {
        assert r[1..] == Collect(retired[1..], x, missing);
        CollectedElsewhere(retired[1..], x, missing, e, f);
      }
    }
  }

  lemma {:induction false} StillDefined(retired: seq<Entity>, before: seq<Entity>, now: seq<Entity>, e: string, f: string)
    requires KeysDistinct(now, EntityKey) && HasField(now, e, f)
    ensures Winner(RetireEach(retired, before, now), e, f) == Winner(retired, e, f)
    decreases |before|
  {
    if before != [] {
      MissingOfKeys(before[0], now, f);
      CollectedElsewhere(retired, Collector(before[0], FindEntity(now, before[0].key).Some?), MissingOf(before[0], now), e, f);
      StillDefined(RetireOne(retired, before[0], now), before[1..], now, e, f);
    }
  }

  // ---- leftovers and what they hide ----

  /// The packs that were published have the field, and those that stay, with what was left
  /// before, do not.
  ghost predicate LeftOver(next: TenantConfig, published: Option<TenantConfig>, e: string, f: string)
    requires IsConfig(next) && (published.Some? ==> IsConfig(published.value))
  {
    WasPublished(published, e, f) && !HasField(PacksOf(next).entities, e, f)
  }

  lemma LeftoverWinner(next: TenantConfig, published: Option<TenantConfig>, e: string, f: string)
    requires IsConfig(next) && (published.Some? ==> IsConfig(published.value))
    ensures var now := Winner(RetiredEntities(Retire(next, published).retired), e, f);
            if LeftOver(next, published, e, f) then now.Some? && now.value.archived
            else now == Winner(RetiredEntities(next.retired), e, f)
  {
    if published.Some? {
      var now := PacksOf(next).entities;
      RetiredIsEach(next, published.value);
      MergedEntitiesDistinct(PackLayers(next.packs, None) + Optional(next.retired));
      PacksOfFields(next, e, f);
      WinnerAfterEach(RetiredEntities(next.retired), PacksOf(published.value).entities, now, e, f);
    }
  }

  lemma WinnerAfterEach(retired: seq<Entity>, before: seq<Entity>, now: seq<Entity>, e: string, f: string)
    requires KeysDistinct(now, EntityKey) && (HasField(retired, e, f) ==> HasField(now, e, f))
    ensures var w := Winner(RetireEach(retired, before, now), e, f);
            if HasField(before, e, f) && !HasField(now, e, f) then w.Some? && w.value.archived
            else w == Winner(retired, e, f)
  {
    if HasField(now, e, f) {
      StillDefined(retired, before, now, e, f);
    } else {
      RetiredEachField(retired, before, now, e, f);
      RetireExtends(retired, before, now);
      NewWinner(retired, RetireEach(retired, before, now), e, f);
      WinnerKnown(retired, e, f);
      WinnerKnown(RetireEach(retired, before, now), e, f);
    }
  }

  lemma UpperIs(c: TenantConfig, ids: seq<string>, e: string, f: string)
    ensures Winner(Joined(Places(c, ids)), e, f)
         == var own := Winner(c.company.entities + AllEntities(Overrides(c.orgUnits, ids)), e, f);
            if own.Some? then own else Winner(RetiredEntities(c.retired), e, f)
  {
    var r, k, o := RetiredEntities(c.retired), c.company.entities, AllEntities(Overrides(c.orgUnits, ids));
    JoinedPlaces(c, ids);
    assert r + k + o == r + (k + o);
    WinnerConcat(r, k + o, e, f);
  }

  /// The company or a unit on the path has the field.
  predicate OwnField(c: TenantConfig, ids: seq<string>, e: string, f: string) {
    HasField(c.company.entities, e, f) || HasField(AllEntities(Overrides(c.orgUnits, ids)), e, f)
  }

  /// What keeping leftovers does to any field at any place: a field that neither the company
  /// nor a unit has becomes an archived leftover exactly when it was published and the packs
  /// that stay do not have it by themselves, even if a patch gives it to an entity of the
  /// company. Every other definition is that of the draft.
  lemma FieldAfterRetiring(base: seq<Layer>, next: TenantConfig, published: Option<TenantConfig>, ids: seq<string>, e: string, f: string)
    requires AreLayers(base) && IsConfig(next) && (published.Some? ==> IsConfig(published.value))
    ensures var now := FieldAt(base, Retire(next, published), ids, e, f);
            if !OwnField(next, ids, e, f) && LeftOver(next, published, e, f) then now.Some? && now.value.archived
            else now == FieldAt(base, next, ids, e, f)
  {
    var after := Retire(next, published);
    FieldAtIs(base, next, ids, e, f);
    FieldAtIs(base, after, ids, e, f);
    UpperIs(next, ids, e, f);
    UpperIs(after, ids, e, f);
    LeftoverWinner(next, published, e, f);
    FieldConcat(next.company.entities, AllEntities(Overrides(next.orgUnits, ids)), e, f);
    WinnerKnown(next.company.entities + AllEntities(Overrides(next.orgUnits, ids)), e, f);
  }

  /// So the removal of a pack decides the definition of every field.
  lemma FieldAfterRemoval(base: seq<Layer>, c: TenantConfig, id: string, published: Option<TenantConfig>, ids: seq<string>, e: string, f: string)
    requires AreLayers(base) && IsConfig(c) && (published.Some? ==> IsConfig(published.value))
    ensures var next := c.(packs := Without(c.packs, id));
            var now := FieldAt(base, RemovePack(c, id, published), ids, e, f);
            if !OwnField(c, ids, e, f) && LeftOver(next, published, e, f) then now.Some? && now.value.archived
            else now == FieldAt(base, next, ids, e, f)
  {
    FieldAfterRetiring(base, c.(packs := Without(c.packs, id)), published, ids, e, f);
  }

  /// And so does an installation or upgrade.
  lemma FieldAfterInstall(base: seq<Layer>, c: TenantConfig, p: Pack, company: Layer, published: Option<TenantConfig>,
                          ids: seq<string>, e: string, f: string)
    requires AreLayers(base) && IsConfig(c) && IsLayer(p.layer) && IsLayer(company)
    requires published.Some? ==> IsConfig(published.value)
    ensures var next := c.(packs := WithPack(c.packs, p), company := company);
            var now := FieldAt(base, InstallPack(c, p, company, published), ids, e, f);
            if !OwnField(next, ids, e, f) && LeftOver(next, published, e, f) then now.Some? && now.value.archived
            else now == FieldAt(base, next, ids, e, f)
  {
    FieldAfterRetiring(base, c.(packs := WithPack(c.packs, p), company := company), published, ids, e, f);
  }
}
