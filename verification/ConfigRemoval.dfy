/// Installing and removing packs: what packs no longer define is archived.

module ConfigRemoval {
  import opened Basics
  import opened KeyedMerge
  import opened ConfigMerge
  import opened ConfigKeys
  import opened ConfigPacks
  import opened ConfigRollback
  import opened ConfigAfterRollback

  /// The entity that collects what is missing of `e`.
  function Collector(e: Entity, stillThere: bool): Entity {
    if stillThere then Entity(e.key, map[], None, None, [])
    else e.(props := e.props["archived" := "true"], fields := [])
  }

  function Collect(retired: seq<Entity>, made: Entity, missing: seq<Field>): seq<Entity> {
    if retired == [] then [made.(fields := AddMissing([], missing))]
    else if retired[0].key == made.key
    then [retired[0].(fields := AddMissing(retired[0].fields, missing))] + retired[1..]
    else [retired[0]] + Collect(retired[1..], made, missing)
  }

  function MissingOf(e: Entity, now: seq<Entity>): seq<Field> {
    var still := FindEntity(now, e.key);
    MissingFields(e.fields, if still.Some? then still.value.fields else [])
  }

  function RetireOne(retired: seq<Entity>, e: Entity, now: seq<Entity>): seq<Entity> {
    var stillThere := FindEntity(now, e.key).Some?;
    if MissingOf(e, now) == [] && stillThere then retired
    else Collect(retired, Collector(e, stillThere), MissingOf(e, now))
  }

  function RetireEach(retired: seq<Entity>, before: seq<Entity>, now: seq<Entity>): seq<Entity>
    decreases |before|, retired, now
  {
    if before == [] then retired else RetireEach(RetireOne(retired, before[0], now), before[1..], now)
  }

  function FindItem(xs: seq<Item>, k: string): (r: Option<Item>)
    ensures r.Some? ==> r.value in xs && r.value.key == k
  {
    if xs == [] then None else if xs[0].key == k then Some(xs[0]) else FindItem(xs[1..], k)
  }

  /// The list of options, or the number series, a field uses.
  function RefOf(f: Field, list: nat): Option<string> { if list == PICKLISTS then f.picklist else f.numbering }

  function KeepRefs(kept: seq<Item>, missing: seq<Field>, list: nat, src: seq<Item>): seq<Item>
    decreases |missing|, kept, list, src
  {
    if missing == [] then kept
    else
      var ref := RefOf(missing[0], list);
      var item := if ref.Some? && ref.value != "" then FindItem(src, ref.value) else None;
      var next := if item.Some? && !Has(kept, ref.value, ItemKey) then kept + [item.value] else kept;
      KeepRefs(next, missing[1..], list, src)
  }

  function KeepAllRefs(kept: seq<Item>, before: seq<Entity>, now: seq<Entity>, list: nat, src: seq<Item>): seq<Item>
    decreases |before|, kept, now, list, src
  {
    if before == [] then kept
    else KeepAllRefs(KeepRefs(kept, MissingOf(before[0], now), list, src), before[1..], now, list, src)
  }

  function RetiredNow(next: TenantConfig, published: TenantConfig): seq<Entity>
    requires IsConfig(next) && IsConfig(published)
  {
    RetireEach(RetiredEntities(next.retired), PacksOf(published).entities, PacksOf(next).entities)
  }

  function KeptRefs(kept: seq<Item>, next: TenantConfig, published: TenantConfig, list: nat): seq<Item>
    requires IsConfig(next) && IsConfig(published) && list < LISTS
  {
    KeepAllRefs(kept, PacksOf(published).entities, PacksOf(next).entities, list,
                MergeLayers(PackLayers(published.packs, None)).lists[list])
  }

  /// What `next` keeps of what was published, archived.
  function RetiredLayer(next: TenantConfig, published: TenantConfig): (r: Layer)
    requires IsConfig(next) && IsConfig(published)
    ensures IsLayer(r)
  {
    var was := if next.retired.Some? then next.retired.value else EMPTY_LAYER;
    was.(entities := RetiredNow(next, published),
         lists := was.lists[PICKLISTS := KeptRefs(was.lists[PICKLISTS], next, published, PICKLISTS)]
                           [NUMBERING := KeptRefs(was.lists[NUMBERING], next, published, NUMBERING)])
  }

  function NonEmpty(l: Layer): Option<Layer>
    requires IsLayer(l)
  {
    if l.entities == [] && l.lists[PICKLISTS] == [] && l.lists[NUMBERING] == [] then None else Some(l)
  }

  lemma NonEmptyEntities(l: Layer)
    requires IsLayer(l)
    ensures RetiredEntities(NonEmpty(l)) == l.entities
  {
  }

  function Retire(next: TenantConfig, published: Option<TenantConfig>): (r: TenantConfig)
    requires IsConfig(next) && (published.Some? ==> IsConfig(published.value))
    ensures IsConfig(r)
  {
    if published.None? then next else next.(retired := NonEmpty(RetiredLayer(next, published.value)))
  }

  function Without(packs: seq<Pack>, id: string): (r: seq<Pack>)
    ensures ArePacks(packs) ==> ArePacks(r)
  {
    if packs == [] then []
    else
      var rest := Without(packs[..|packs| - 1], id);
      if packs[|packs| - 1].id == id then rest else rest + [packs[|packs| - 1]]
  }

  function WithPack(packs: seq<Pack>, p: Pack): (r: seq<Pack>)
    ensures ArePacks(packs) && IsLayer(p.layer) ==> ArePacks(r)
  {
    if packs == [] then [p] else if packs[0].id == p.id then [p] + packs[1..] else [packs[0]] + WithPack(packs[1..], p)
  }

  function RemovePack(c: TenantConfig, id: string, published: Option<TenantConfig>): TenantConfig
    requires IsConfig(c) && (published.Some? ==> IsConfig(published.value))
  {
    Retire(c.(packs := Without(c.packs, id)), published)
  }

  /// `company` is the company's layer after its choices between its items and those installed.
  function InstallPack(c: TenantConfig, p: Pack, company: Layer, published: Option<TenantConfig>): TenantConfig
    requires IsConfig(c) && IsLayer(p.layer) && IsLayer(company) && (published.Some? ==> IsConfig(published.value))
  {
    Retire(c.(packs := WithPack(c.packs, p), company := company), published)
  }

  // ---- the loops ----

  method RetireEntities(retired: seq<Entity>, before: seq<Entity>, now: seq<Entity>) returns (r: seq<Entity>)
    ensures r == RetireEach(retired, before, now)
  {
    r := retired;
    var i := 0;
    while i < |before|
      invariant i <= |before| && RetireEach(r, before[i..], now) == RetireEach(retired, before, now)
    {
      var e := before[i];
      var still := FindEntity(now, e.key);
      var missing := MissingFields(e.fields, if still.Some? then still.value.fields else []);
      if missing != [] || still.None? {
        r := CollectInto(r, Collector(e, still.Some?), missing);
      }
      i := i + 1;
    }
  }

  /// Finds the entity that collects, or adds it, and adds the missing fields to it.
  method CollectInto(retired: seq<Entity>, made: Entity, missing: seq<Field>) returns (r: seq<Entity>)
    ensures r == Collect(retired, made, missing)
  {
    var i := 0;
    while i < |retired| && retired[i].key != made.key
      invariant i <= |retired| && Collect(retired, made, missing) == retired[..i] + Collect(retired[i..], made, missing)
    {
      assert retired[..i + 1] == retired[..i] + [retired[i]];
      i := i + 1;
    }
    var target := if i == |retired| then made.(fields := []) else retired[i];
    var fields := AddMissingFields(target.fields, missing);
    if i == |retired| {
      assert retired[..i] == retired;
      return retired + [target.(fields := fields)];
    }
    r := retired[..i] + [target.(fields := fields)] + retired[i + 1..];
  }

  // ---- which fields are kept ----

  lemma {:induction false} CollectedField(retired: seq<Entity>, x: Entity, missing: seq<Field>, e: string, f: string)
    ensures HasField(Collect(retired, x, missing), e, f) <==> HasField(retired, e, f) || (x.key == e && HasKey(missing, f))
  {
    var r := Collect(retired, x, missing);
    if retired == [] {
      OneField(r[0], e, f);
      AddedKeys([], missing, f);
      assert !HasKey([], f);
    } else {
      FieldHead(retired, e, f);
      FieldHead(r, e, f);
      if retired[0].key == x.key {
        assert r[1..] == retired[1..];
        AddedKeys(retired[0].fields, missing, f);
      } else {
        assert r[1..] == Collect(retired[1..], x, missing);
        CollectedField(retired[1..], x, missing, e, f);
      }
    }
  }

  lemma MissingOfKeys(x: Entity, now: seq<Entity>, f: string)
    requires KeysDistinct(now, EntityKey)
    ensures HasKey(MissingOf(x, now), f) <==> HasKey(x.fields, f) && !HasField(now, x.key, f)
  {
    var still := FindEntity(now, x.key);
    FoundFields(now, x.key, f);
    MissingKeys(x.fields, if still.Some? then still.value.fields else [], f);
    assert !HasKey([], f);
  }

  lemma RetiredOneField(retired: seq<Entity>, x: Entity, now: seq<Entity>, e: string, f: string)
    requires KeysDistinct(now, EntityKey)
    ensures HasField(RetireOne(retired, x, now), e, f)
       <==> HasField(retired, e, f) || (x.key == e && HasKey(x.fields, f) && !HasField(now, e, f))
  {
    MissingOfKeys(x, now, f);
    CollectedField(retired, Collector(x, FindEntity(now, x.key).Some?), MissingOf(x, now), e, f);
    assert MissingOf(x, now) == [] ==> !HasKey(MissingOf(x, now), f);
  }

  lemma {:induction false} RetiredEachField(retired: seq<Entity>, before: seq<Entity>, now: seq<Entity>, e: string, f: string)
    requires KeysDistinct(now, EntityKey)
    ensures HasField(RetireEach(retired, before, now), e, f)
       <==> HasField(retired, e, f) || (HasField(before, e, f) && !HasField(now, e, f))
    decreases |before|
  {
    if before != [] {
      RetiredOneField(retired, before[0], now, e, f);
      RetiredEachField(RetireOne(retired, before[0], now), before[1..], now, e, f);
      FieldHead(before, e, f);
    }
  }

  /// Every field of the packs that was published is still in the packs or archived, and
  /// nothing else comes up.
  lemma RetireKeepsFields(next: TenantConfig, published: TenantConfig, e: string, f: string)
    requires IsConfig(next) && IsConfig(published)
    ensures HasField(PacksOf(Retire(next, Some(published))).entities, e, f)
       <==> HasField(PacksOf(next).entities, e, f) || HasField(PacksOf(published).entities, e, f)
  {
    var after := Retire(next, Some(published));
    MergedEntitiesDistinct(PackLayers(next.packs, None) + Optional(next.retired));
    RetiredEachField(RetiredEntities(next.retired), PacksOf(published).entities, PacksOf(next).entities, e, f);
    RetiredIsEach(next, published);
    PacksOfFields(next, e, f);
    PacksOfFields(after, e, f);
  }

  lemma RetiredIsEach(next: TenantConfig, published: TenantConfig)
    requires IsConfig(next) && IsConfig(published)
    ensures RetiredEntities(Retire(next, Some(published)).retired)
         == RetireEach(RetiredEntities(next.retired), PacksOf(published).entities, PacksOf(next).entities)
    ensures Retire(next, Some(published)).packs == next.packs
  {
    NonEmptyEntities(RetiredLayer(next, published));
  }

  // ---- archived, and in place ----

  lemma {:induction false} CollectExtends(retired: seq<Entity>, x: Entity, missing: seq<Field>)
    ensures EntitiesExtended(retired, Collect(retired, x, missing))
  {
    if retired == [] {
      AddedArchived([], missing);
    } else if retired[0].key == x.key {
      AddedArchived(retired[0].fields, missing);
    } else {
      CollectExtends(retired[1..], x, missing);
      assert forall i :: 1 <= i < |retired| ==> retired[i] == retired[1..][i - 1];
    }
  }

  lemma SameExtends(es: seq<Entity>)
    ensures EntitiesExtended(es, es)
  {
  }

  /// What was retired before stays as it was; what is added is archived.
  lemma {:induction false} RetireExtends(retired: seq<Entity>, before: seq<Entity>, now: seq<Entity>)
    ensures EntitiesExtended(retired, RetireEach(retired, before, now))
    decreases |before|
  {
    SameExtends(retired);
    if before != [] {
      var next := RetireOne(retired, before[0], now);
      CollectExtends(retired, Collector(before[0], FindEntity(now, before[0].key).Some?), MissingOf(before[0], now));
      RetireExtends(next, before[1..], now);
      ExtendedTwice(retired, next, RetireEach(retired, before, now));
    }
  }

  // ---- what kept fields refer to ----

  lemma {:induction false} RefsGrow(kept: seq<Item>, missing: seq<Field>, list: nat, src: seq<Item>, k: string)
    ensures Has(kept, k, ItemKey) ==> Has(KeepRefs(kept, missing, list, src), k, ItemKey)
    decreases |missing|
  {
    if missing != [] {
      var ref := RefOf(missing[0], list);
      var item := if ref.Some? && ref.value != "" then FindItem(src, ref.value) else None;
      if item.Some? { HasConcat(kept, [item.value], k, ItemKey); }
      var next := if item.Some? && !Has(kept, ref.value, ItemKey) then kept + [item.value] else kept;
      RefsGrow(next, missing[1..], list, src, k);
    }
  }

  lemma {:induction false} RefKept(kept: seq<Item>, missing: seq<Field>, list: nat, src: seq<Item>, i: nat)
    requires i < |missing| && RefOf(missing[i], list).Some? && RefOf(missing[i], list).value != ""
    requires FindItem(src, RefOf(missing[i], list).value).Some?
    ensures Has(KeepRefs(kept, missing, list, src), RefOf(missing[i], list).value, ItemKey)
    decreases |missing|
  {
    var ref := RefOf(missing[0], list);
    var item := if ref.Some? && ref.value != "" then FindItem(src, ref.value) else None;
    var next := if item.Some? && !Has(kept, ref.value, ItemKey) then kept + [item.value] else kept;
    if i == 0 {
      HasConcat(kept, [item.value], ref.value, ItemKey);
      assert ItemKey([item.value][0]) == ref.value;
      RefsGrow(next, missing[1..], list, src, ref.value);
    } else {
      RefKept(next, missing[1..], list, src, i - 1);
    }
  }

  lemma {:induction false} AllRefsGrow(kept: seq<Item>, before: seq<Entity>, now: seq<Entity>, list: nat, src: seq<Item>, k: string)
    ensures Has(kept, k, ItemKey) ==> Has(KeepAllRefs(kept, before, now, list, src), k, ItemKey)
    decreases |before|
  {
    if before != [] {
      RefsGrow(kept, MissingOf(before[0], now), list, src, k);
      AllRefsGrow(KeepRefs(kept, MissingOf(before[0], now), list, src), before[1..], now, list, src, k);
    }
  }

  lemma {:induction false} AllRefsKept(kept: seq<Item>, before: seq<Entity>, now: seq<Entity>, list: nat, src: seq<Item>,
                                       j: nat, i: nat)
    requires j < |before| && i < |MissingOf(before[j], now)|
    requires var ref := RefOf(MissingOf(before[j], now)[i], list);
             ref.Some? && ref.value != "" && FindItem(src, ref.value).Some?
    ensures Has(KeepAllRefs(kept, before, now, list, src), RefOf(MissingOf(before[j], now)[i], list).value, ItemKey)
    decreases |before|
  {
    var next := KeepRefs(kept, MissingOf(before[0], now), list, src);
    if j == 0 {
      RefKept(kept, MissingOf(before[0], now), list, src, i);
      AllRefsGrow(next, before[1..], now, list, src, RefOf(MissingOf(before[0], now)[i], list).value);
    } else {
      AllRefsKept(next, before[1..], now, list, src, j - 1, i);
    }
  }

  // ---- main results ----

  /// Removing a pack keeps every published field of the packs reachable, archived where the
  /// packs no longer define it.
  lemma RemoveKeepsFields(c: TenantConfig, id: string, published: TenantConfig, e: string, f: string)
    requires IsConfig(c) && IsConfig(published) && HasField(PacksOf(published).entities, e, f)
    ensures HasField(PacksOf(RemovePack(c, id, Some(published))).entities, e, f)
    ensures !HasField(PacksOf(c.(packs := Without(c.packs, id))).entities, e, f) ==>
              var w := Winner(RetiredEntities(RemovePack(c, id, Some(published)).retired), e, f);
              w.Some? && w.value.archived
  {
    RetiredFieldArchived(c.(packs := Without(c.packs, id)), published, e, f);
  }

  /// So does installing or upgrading one, whatever the company layer becomes.
  lemma InstallKeepsFields(c: TenantConfig, p: Pack, company: Layer, published: TenantConfig, e: string, f: string)
    requires IsConfig(c) && IsConfig(published) && IsLayer(p.layer) && IsLayer(company)
    requires HasField(PacksOf(published).entities, e, f)
    ensures HasField(PacksOf(InstallPack(c, p, company, Some(published))).entities, e, f)
    ensures !HasField(PacksOf(c.(packs := WithPack(c.packs, p), company := company)).entities, e, f) ==>
              var w := Winner(RetiredEntities(InstallPack(c, p, company, Some(published)).retired), e, f);
              w.Some? && w.value.archived
  {
    RetiredFieldArchived(c.(packs := WithPack(c.packs, p), company := company), published, e, f);
  }

  lemma RetiredFieldArchived(next: TenantConfig, published: TenantConfig, e: string, f: string)
    requires IsConfig(next) && IsConfig(published) && HasField(PacksOf(published).entities, e, f)
    ensures HasField(PacksOf(Retire(next, Some(published))).entities, e, f)
    ensures !HasField(PacksOf(next).entities, e, f) ==>
              var w := Winner(RetiredEntities(Retire(next, Some(published)).retired), e, f);
              w.Some? && w.value.archived
  {
    RetireKeepsFields(next, published, e, f);
    RetiredIsEach(next, published);
    var was, before, now := RetiredEntities(next.retired), PacksOf(published).entities, PacksOf(next).entities;
    MergedEntitiesDistinct(PackLayers(next.packs, None) + Optional(next.retired));
    RetiredEachField(was, before, now, e, f);
    RetireExtends(was, before, now);
    PacksOfFields(next, e, f);
    WinnerKnown(RetireEach(was, before, now), e, f);
    if !HasField(now, e, f) { NewWinner(was, RetireEach(was, before, now), e, f); }
  }

  /// In a list that was only extended, a field that was not there is archived.
  lemma {:induction false} NewWinner(a: seq<Entity>, b: seq<Entity>, e: string, f: string)
    requires EntitiesExtended(a, b) && !HasField(a, e, f)
    ensures Winner(b, e, f).Some? ==> Winner(b, e, f).value.archived
  {
    if b != [] {
      var n := |b| - 1;
      if |a| == |b| {
        assert EntityExtended(a[n], b[n]);
        assert a == a[..n] + [a[n]];
        FieldConcat(a[..n], [a[n]], e, f);
        OneField(a[n], e, f);
        if b[n].key == e { NewLast(a[n].fields, b[n].fields, f); }
        NewWinner(a[..n], b[..n], e, f);
      } else {
        NewWinner(a, b[..n], e, f);
      }
    }
  }

  lemma NewLast(a: seq<Field>, b: seq<Field>, f: string)
    requires a <= b && Archived(b, |a|) && !HasKey(a, f)
    ensures LastField(b, f).Some? ==> LastField(b, f).value.archived
  {
    var r := LastField(b, f);
    if r.Some? {
      var i :| 0 <= i < |b| && b[i] == r.value;
      assert i < |a| ==> FieldKey(a[i]) == f;
    }
  }

  // ---- what a removal loses ----

  predicate WasPublished(published: Option<TenantConfig>, e: string, f: string)
    requires published.Some? ==> IsConfig(published.value)
  {
    published.Some? && HasField(PacksOf(published.value).entities, e, f)
  }

  /// The fields the packs and what they left behind define once a pack is gone: those of the
  /// other packs, with what their patches give to entities of the company, those retired
  /// before, and those of the packs that were published.
  ghost predicate StaysWithPacks(c: TenantConfig, id: string, published: Option<TenantConfig>, e: string, f: string)
    requires published.Some? ==> IsConfig(published.value)
  {
    || HasField(AllEntities(OwnLayers(Ordered(Without(c.packs, id)))), e, f)
    || Patched(Without(c.packs, id), Some(c.company), e, f)
    || InOptional(c.retired, e, f)
    || WasPublished(published, e, f)
  }

  /// Which fields a place has after a removal, whatever was published.
  lemma FieldsAfterRemoval(base: seq<Layer>, c: TenantConfig, id: string, published: Option<TenantConfig>, ids: seq<string>,
                           e: string, f: string)
    requires AreLayers(base) && IsConfig(c) && (published.Some? ==> IsConfig(published.value))
    ensures HasField(MergeLayers(LayersFor(base, RemovePack(c, id, published), ids)).entities, e, f)
       <==> || HasField(AllEntities(base), e, f) || HasField(c.company.entities, e, f)
            || HasField(AllEntities(Overrides(c.orgUnits, ids)), e, f) || StaysWithPacks(c, id, published, e, f)
  {
    var after := RemovePack(c, id, published);
    MergeKeepsFields(LayersFor(base, after, ids), e, f);
    EffectiveFields(base, after, ids, e, f);
    AfterRemoval(c, id, published, e, f);
  }

  /// A field is lost exactly when nothing that stays defines it. When the draft is what was
  /// published, these are fields that a patch gives to an entity of the company.
  lemma RemovalLoses(base: seq<Layer>, c: TenantConfig, id: string, published: Option<TenantConfig>, ids: seq<string>,
                     e: string, f: string)
    requires AreLayers(base) && IsConfig(c) && (published.Some? ==> IsConfig(published.value))
    requires HasField(MergeLayers(LayersFor(base, c, ids)).entities, e, f)
    ensures var lost := !HasField(MergeLayers(LayersFor(base, RemovePack(c, id, published), ids)).entities, e, f);
            && (lost <==> && !HasField(AllEntities(base), e, f) && !HasField(c.company.entities, e, f)
                          && !HasField(AllEntities(Overrides(c.orgUnits, ids)), e, f)
                          && !StaysWithPacks(c, id, published, e, f))
            && (lost && published == Some(c) ==> CompanyPatched(c, e, f))
  {
    FieldsAfterRemoval(base, c, id, published, ids, e, f);
    MergeKeepsFields(LayersFor(base, c, ids), e, f);
    EffectiveFields(base, c, ids, e, f);
    PacksOfFields(c, e, f);
    PackFields(c.packs, None, e, f);
    PackFields(c.packs, Some(c.company), e, f);
  }

  /// The fields of the packs and of what they left behind, after a removal.
  lemma AfterRemoval(c: TenantConfig, id: string, published: Option<TenantConfig>, e: string, f: string)
    requires IsConfig(c) && (published.Some? ==> IsConfig(published.value))
    ensures var after := RemovePack(c, id, published);
            && after.company == c.company && after.orgUnits == c.orgUnits
            && ((HasField(AllEntities(PackLayers(after.packs, Some(after.company))), e, f) || InOptional(after.retired, e, f))
                <==> StaysWithPacks(c, id, published, e, f))
  {
    var next := c.(packs := Without(c.packs, id));
    PackFields(next.packs, Some(c.company), e, f);
    if published.Some? {
      var after := Retire(next, published);
      RetireKeepsFields(next, published.value, e, f);
      RetiredIsEach(next, published.value);
      PacksOfFields(after, e, f);
      PacksOfFields(next, e, f);
      PackFields(next.packs, None, e, f);
      PatchedMore(next.packs, c.company, e, f);
    }
  }
}
