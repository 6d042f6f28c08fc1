/// What is left of an entity, a list or a pack after a rollback, a removal or an installation.

module ConfigLeftovers {
  import opened Basics
  import opened KeyedMerge
  import opened ConfigMerge
  import opened ConfigKeys
  import opened ConfigPacks
  import opened ConfigRollback
  import opened ConfigAfterRollback
  import opened ConfigRemoval

  // ---- entities only the current configuration has ----

  predicate MarkedArchived(x: Entity, was: Entity) {
    && x.props == was.props["archived" := "true"] && x.tax == was.tax && x.roles == was.roles
  }

  /// A patch that adds fields and nothing else.
  predicate FieldsOnly(x: Entity) { x.props == map[] && x.tax.None? && x.roles.None? }

  /// Left of an entity of `from`: archived as a whole, or where it is still defined elsewhere
  /// only its fields, and those archived.
  ghost predicate IsLeft(x: Entity, from: seq<Entity>, still: set<string>) {
    && Archived(x.fields, 0)
    && if x.key in still then FieldsOnly(x) else exists ce :: ce in from && ce.key == x.key && MarkedArchived(x, ce)
  }

  ghost predicate NewAreLeft(es: seq<Entity>, had: seq<Entity>, from: seq<Entity>, still: set<string>) {
    forall x :: x in es && !HasEntity(had, x.key) ==> IsLeft(x, from, still)
  }

  lemma {:induction false} KeptOneLeft(es: seq<Entity>, had: seq<Entity>, ce: Entity, from: seq<Entity>, still: set<string>)
    requires NewAreLeft(es, had, from, still) && ce in from
    ensures NewAreLeft(KeepOne(es, ce, still), had, from, still)
  {
    if es == [] {
      var x := Leftover(ce, still);
      assert Archived(x.fields, 0);
      if ce.key !in still { assert MarkedArchived(x, ce); }
    } else if es[0].key == ce.key {
      assert es[0] in es;
      assert es == [es[0]] + es[1..];
      AddedArchived(es[0].fields, ce.fields);
      var x := es[0].(fields := AddMissing(es[0].fields, ce.fields));
      if !HasEntity(had, x.key) { StillLeft(es[0], x, from, still); }
    } else {
      assert es == [es[0]] + es[1..];
      KeptOneLeft(es[1..], had, ce, from, still);
    }
  }

  lemma {:induction false} StillLeft(x: Entity, y: Entity, from: seq<Entity>, still: set<string>)
    requires IsLeft(x, from, still) && y == x.(fields := y.fields) && x.fields <= y.fields && Archived(y.fields, |x.fields|)
    ensures IsLeft(y, from, still)
  {
    forall k | 0 <= k < |y.fields| ensures y.fields[k].archived {
      if k < |x.fields| { assert y.fields[k] == x.fields[k]; }
    }
    if x.key !in still {
      var ce :| ce in from && ce.key == x.key && MarkedArchived(x, ce);
      assert MarkedArchived(y, ce);
    }
  }

  lemma {:induction false} KeptAllLeft(es: seq<Entity>, had: seq<Entity>, rest: seq<Entity>, from: seq<Entity>, still: set<string>)
    requires NewAreLeft(es, had, from, still) && forall ce :: ce in rest ==> ce in from
    ensures NewAreLeft(KeepEntities(es, rest, still), had, from, still)
    decreases |rest|
  {
    if rest != [] {
      KeptOneLeft(es, had, rest[0], from, still);
      KeptAllLeft(KeepOne(es, rest[0], still), had, rest[1..], from, still);
    }
  }

  lemma {:induction false} KeepLeaves(target: Layer, from: Layer, still: set<string>)
    requires IsLayer(target) && IsLayer(from)
    ensures NewAreLeft(Keep(target, from, still).entities, target.entities, from.entities, still)
  {
    forall x | x in target.entities ensures HasEntity(target.entities, x.key) {
      var i :| 0 <= i < |target.entities| && target.entities[i] == x;
      assert EntityKey(target.entities[i]) == x.key;
    }
    KeptAllLeft(target.entities, target.entities, from.entities, from.entities, still);
  }

  /// Users and units are always defined, other entities as far as the target's company has them.
  predicate StillDefined(target: TenantConfig, e: string) {
    e == "user" || e == "org_unit" || HasEntity(target.company.entities, e)
  }

  /// After a rollback an entity that a layer of the target lacks is archived, or adds archived
  /// fields only where the target's company or the platform defines it.
  lemma {:induction false} LeftAfterRollback(target: TenantConfig, current: TenantConfig, x: Entity)
    requires IsConfig(target) && IsConfig(current)
    requires x in WithArchivedLeftovers(target, current).company.entities && !HasEntity(target.company.entities, x.key)
    ensures Archived(x.fields, 0)
    ensures if x.key == "user" || x.key == "org_unit" then FieldsOnly(x)
            else exists ce :: ce in current.company.entities && ce.key == x.key && MarkedArchived(x, ce)
  {
    CompanyIs(target, current);
    LeftIn(target.company.entities, target.company, current.company, x);
  }

  lemma {:induction false} CompanyIs(target: TenantConfig, current: TenantConfig)
    requires IsConfig(target) && IsConfig(current)
    ensures WithArchivedLeftovers(target, current).company
         == Keep(target.company, current.company, KeysOf(target.company.entities) + BUILT_IN)
  {
  }

  lemma {:induction false} LeftInUnit(target: TenantConfig, current: TenantConfig, id: string, x: Entity)
    requires IsConfig(target) && IsConfig(current) && id in current.orgUnits
    requires x in WithArchivedLeftovers(target, current).orgUnits[id].entities
    requires id in target.orgUnits ==> !HasEntity(target.orgUnits[id].entities, x.key)
    ensures Archived(x.fields, 0)
    ensures if StillDefined(target, x.key) then FieldsOnly(x)
            else exists ce :: ce in current.orgUnits[id].entities && ce.key == x.key && MarkedArchived(x, ce)
  {
    var was := if id in target.orgUnits then target.orgUnits[id] else EMPTY_LAYER;
    UnitIs(target, current, id, was);
    NoEntities(x.key);
    LeftIn(target.company.entities, was, current.orgUnits[id], x);
  }

  lemma {:induction false} LeftIn(company: seq<Entity>, was: Layer, from: Layer, x: Entity)
    requires IsLayer(was) && IsLayer(from)
    requires x in Keep(was, from, KeysOf(company) + BUILT_IN).entities && !HasEntity(was.entities, x.key)
    ensures Archived(x.fields, 0)
    ensures if x.key == "user" || x.key == "org_unit" || HasEntity(company, x.key) then FieldsOnly(x)
            else exists ce :: ce in from.entities && ce.key == x.key && MarkedArchived(x, ce)
  {
    KeepLeaves(was, from, KeysOf(company) + BUILT_IN);
    KeysAre(company, x.key);
  }

  lemma {:induction false} UnitIs(target: TenantConfig, current: TenantConfig, id: string, was: Layer)
    requires IsConfig(target) && IsConfig(current) && id in current.orgUnits
    requires was == if id in target.orgUnits then target.orgUnits[id] else EMPTY_LAYER
    ensures IsLayer(was) && id in WithArchivedLeftovers(target, current).orgUnits
    ensures WithArchivedLeftovers(target, current).orgUnits[id]
         == Keep(was, current.orgUnits[id], KeysOf(target.company.entities) + BUILT_IN)
  {
  }

  lemma {:induction false} NoEntities(e: string)
    ensures !HasEntity(EMPTY_LAYER.entities, e)
  {
  }

  lemma {:induction false} KeysAre(es: seq<Entity>, e: string)
    ensures e in KeysOf(es) <==> HasEntity(es, e)
  {
    if HasEntity(es, e) {
      var i :| 0 <= i < |es| && EntityKey(es[i]) == e;
      assert es[i] in es;
    }
    if e in KeysOf(es) {
      var x :| x in es && x.key == e;
      var i :| 0 <= i < |es| && es[i] == x;
      assert EntityKey(es[i]) == e;
    }
  }

  // ---- picklists and number series ----

  /// The target's items come first and as they were, then one of each key they lack.
  lemma {:induction false} ItemsKept(xs: seq<Item>, from: seq<Item>, x: Item)
    ensures xs <= KeepItems(xs, from)
    ensures x in from && !Has(xs, x.key, ItemKey) ==> Has(KeepItems(xs, from), x.key, ItemKey)
    ensures x in KeepItems(xs, from) ==> x in xs || (x in from && !Has(xs, x.key, ItemKey))
    decreases |from|
  {
    if from != [] {
      var next := if Has(xs, from[0].key, ItemKey) then xs else xs + [from[0]];
      ItemsKept(next, from[1..], x);
      HasConcat(xs, [from[0]], x.key, ItemKey);
      assert [from[0]][0] == from[0];
      assert from == [from[0]] + from[1..];
      if Has(next, x.key, ItemKey) { KeptStays(next, from[1..], x.key); }
    }
  }

  lemma {:induction false} KeptStays(xs: seq<Item>, from: seq<Item>, k: string)
    requires Has(xs, k, ItemKey)
    ensures Has(KeepItems(xs, from), k, ItemKey)
    decreases |from|
  {
    if from != [] {
      var next := if Has(xs, from[0].key, ItemKey) then xs else xs + [from[0]];
      HasConcat(xs, [from[0]], k, ItemKey);
      KeptStays(next, from[1..], k);
    }
  }

  /// A rollback leaves no picklist and no number series of a layer behind.
  lemma {:induction false} ListsAfterRollback(target: TenantConfig, current: TenantConfig, list: nat, x: Item)
    requires IsConfig(target) && IsConfig(current) && (list == PICKLISTS || list == NUMBERING)
    ensures var after := WithArchivedLeftovers(target, current).company.lists[list];
            && target.company.lists[list] <= after
            && (x in current.company.lists[list] ==> Has(after, x.key, ItemKey))
  {
    var xs, from := target.company.lists[list], current.company.lists[list];
    ItemsKept(xs, from, x);
    if Has(xs, x.key, ItemKey) { KeptStays(xs, from, x.key); }
  }

  // ---- packs ----

  predicate FirstPack(packs: seq<Pack>, id: string, i: nat) {
    i < |packs| && packs[i].id == id && forall j :: 0 <= j < i ==> packs[j].id != id
  }

  /// An upgrade takes the place of the pack, a new pack comes last; the others stay.
  lemma {:induction false} PackUpgraded(packs: seq<Pack>, p: Pack, i: nat)
    requires FirstPack(packs, p.id, i)
    ensures WithPack(packs, p) == packs[i := p]
  {
    if i > 0 {
      assert forall j :: 0 <= j < i - 1 ==> packs[1..][j] == packs[j + 1];
      PackUpgraded(packs[1..], p, i - 1);
    }
  }

  lemma {:induction false} PackAdded(packs: seq<Pack>, p: Pack)
    requires forall q <- packs :: q.id != p.id
    ensures WithPack(packs, p) == packs + [p]
  {
    if packs != [] { PackAdded(packs[1..], p); }
  }

  /// A removal takes out every pack of the id and keeps the order of the others.
  lemma {:induction false} PackRemoved(packs: seq<Pack>, more: seq<Pack>, id: string, q: Pack)
    ensures q in Without(packs, id) <==> q in packs && q.id != id
    ensures Without(packs + more, id) == Without(packs, id) + Without(more, id)
    decreases |packs| + |more|
  {
    if more != [] {
      var n := |more| - 1;
      assert (packs + more)[..|packs + more| - 1] == packs + more[..n];
      PackRemoved(packs, more[..n], id, q);
    } else {
      assert packs + more == packs;
      if packs != [] {
        var n := |packs| - 1;
        assert packs == packs[..n] + [packs[n]];
        PackRemoved(packs[..n], [], id, q);
      }
    }
  }

  // ---- what packs leave behind ----

  /// An entity no pack of the target defines is kept, archived as a whole.
  lemma {:induction false} PackEntityLeft(es: seq<Entity>, packs: seq<Entity>, e: Entity)
    requires e in es && !HasEntity(packs, e.key)
    ensures exists x :: x in RetiredAll(es, packs) && x.key == e.key && MarkedArchived(x, e) && Archived(x.fields, 0)
  {
    var n := |es| - 1;
    assert es == es[..n] + [es[n]];
    if e == es[n] {
      var x := ArchiveEntity(e);
      assert RetiredFor(e, packs) == [x];
      assert x in RetiredAll(es, packs) && MarkedArchived(x, e);
    } else {
      PackEntityLeft(es[..n], packs, e);
    }
  }

  lemma {:induction false} PackEntityAfterRollback(target: TenantConfig, current: TenantConfig, e: Entity)
    requires IsConfig(target) && IsConfig(current)
    requires e in PacksOf(current).entities && !HasEntity(PacksOf(target).entities, e.key)
    ensures exists x :: x in RetiredEntities(WithArchivedLeftovers(target, current).retired)
              && x.key == e.key && MarkedArchived(x, e) && Archived(x.fields, 0)
  {
    PackEntityLeft(PacksOf(current).entities, PacksOf(target).entities, e);
    RetiredIs(target, current);
  }

  lemma {:induction false} CollectAdds(retired: seq<Entity>, made: Entity, missing: seq<Field>, x: Entity)
    ensures x in retired && x.key != made.key ==> x in Collect(retired, made, missing)
    ensures !HasEntity(retired, made.key) ==> made.(fields := AddMissing([], missing)) in Collect(retired, made, missing)
    ensures HasEntity(Collect(retired, made, missing), x.key) ==> HasEntity(retired, x.key) || x.key == made.key
  {
    var r := Collect(retired, made, missing);
    if retired == [] {
      OneKey(r[0], x.key);
    } else {
      assert retired == [retired[0]] + retired[1..] && r == [r[0]] + r[1..];
      HasSplit(retired, made.key, EntityKey);
      HasSplit(retired, x.key, EntityKey);
      HasSplit(r, x.key, EntityKey);
      if retired[0].key != made.key { CollectAdds(retired[1..], made, missing, x); }
    }
  }

  lemma {:induction false} OneKey(x: Entity, e: string)
    ensures HasEntity([x], e) <==> x.key == e
  {
    assert EntityKey([x][0]) == x.key;
  }

  /// Nothing is left of an entity all of whose fields a pack still has.
  lemma {:induction false} NothingElseLeft(es: seq<Entity>, packs: seq<Entity>, x: Entity)
    requires x in RetiredAll(es, packs)
    ensures x.fields != [] || !HasEntity(packs, x.key)
  {
    var n := |es| - 1;
    if x !in RetiredFor(es[n], packs) { NothingElseLeft(es[..n], packs, x); }
  }

  /// So is one that was published and that no pack defines after a removal or an installation.
  lemma {:induction false} RemovedEntityLeft(retired: seq<Entity>, before: seq<Entity>, now: seq<Entity>, e: Entity)
    requires e in before && !HasEntity(now, e.key) && !HasEntity(retired, e.key) && KeysDistinct(before, EntityKey)
    ensures exists x :: x in RetireEach(retired, before, now) && x.key == e.key && MarkedArchived(x, e) && Archived(x.fields, 0)
    decreases |before|
  {
    var b, rest := before[0], before[1..];
    assert before == [b] + rest;
    assert KeysDistinct(rest, EntityKey) by {
      forall i, k | 0 <= i < k < |rest| ensures EntityKey(rest[i]) != EntityKey(rest[k]) {
        assert EntityKey(before[i + 1]) != EntityKey(before[k + 1]);
      }
    }
    if e == b {
      var x := e.(props := e.props["archived" := "true"], fields := AddMissing([], MissingOf(e, now)));
      CollectAdds(retired, Collector(e, false), MissingOf(e, now), x);
      AddedArchived([], MissingOf(e, now));
      assert x in RetireOne(retired, e, now);
      FirstOnly(before, e);
      CollectedStays(RetireOne(retired, e, now), rest, now, x);
      assert MarkedArchived(x, e);
    } else {
      FirstOnly(before, e);
      CollectAdds(retired, Collector(b, FindEntity(now, b.key).Some?), MissingOf(b, now), e);
      RemovedEntityLeft(RetireOne(retired, b, now), rest, now, e);
    }
  }

  lemma {:induction false} FirstOnly(before: seq<Entity>, e: Entity)
    requires e in before && KeysDistinct(before, EntityKey)
    ensures e == before[0] ==> forall b <- before[1..] :: b.key != e.key
    ensures e != before[0] ==> before[0].key != e.key && e in before[1..]
  {
    var i :| 0 <= i < |before| && before[i] == e;
    forall k | 0 <= k < |before[1..]| ensures before[1..][k].key != before[0].key {
      assert EntityKey(before[0]) != EntityKey(before[k + 1]);
    }
    if i > 0 { assert before[1..][i - 1] == e; }
  }

  lemma {:induction false} CollectedStays(retired: seq<Entity>, before: seq<Entity>, now: seq<Entity>, x: Entity)
    requires x in retired && forall b <- before :: b.key != x.key
    ensures x in RetireEach(retired, before, now)
    decreases |before|
  {
    if before != [] {
      assert before[0] in before;
      CollectAdds(retired, Collector(before[0], FindEntity(now, before[0].key).Some?), MissingOf(before[0], now), x);
      CollectedStays(RetireOne(retired, before[0], now), before[1..], now, x);
    }
  }

  /// What an archived field of a published pack refers to stays, if a published pack defines it.
  lemma {:induction false} ReferredStays(next: TenantConfig, published: TenantConfig, list: nat, j: nat, i: nat, n: nat, k: nat)
    requires IsConfig(next) && IsConfig(published) && (list == PICKLISTS || list == NUMBERING)
    requires j < |PacksOf(published).entities|
    requires i < |MissingOf(PacksOf(published).entities[j], PacksOf(next).entities)|
    requires n < |PackLayers(published.packs, None)| && k < |PackLayers(published.packs, None)[n].lists[list]|
    requires var ref := RefOf(MissingOf(PacksOf(published).entities[j], PacksOf(next).entities)[i], list);
             ref == Some(PackLayers(published.packs, None)[n].lists[list][k].key) && ref.value != ""
    ensures var key := PackLayers(published.packs, None)[n].lists[list][k].key;
            var after := Retire(next, Some(published)).retired;
            after.Some? && Has(after.value.lists[list], key, ItemKey)
  {
    var layers := PackLayers(published.packs, None);
    DefinedItem(layers, list, n, k);
    ReferredIn(next, published, list, j, i, layers[n].lists[list][k].key);
  }

  lemma {:induction false} ReferredIn(next: TenantConfig, published: TenantConfig, list: nat, j: nat, i: nat, key: string)
    requires IsConfig(next) && IsConfig(published) && (list == PICKLISTS || list == NUMBERING) && key != ""
    requires j < |PacksOf(published).entities|
    requires i < |MissingOf(PacksOf(published).entities[j], PacksOf(next).entities)|
    requires RefOf(MissingOf(PacksOf(published).entities[j], PacksOf(next).entities)[i], list) == Some(key)
    requires Has(MergeLayers(PackLayers(published.packs, None)).lists[list], key, ItemKey)
    ensures var after := Retire(next, Some(published)).retired;
            after.Some? && Has(after.value.lists[list], key, ItemKey)
  {
    var src := MergeLayers(PackLayers(published.packs, None)).lists[list];
    var was := if next.retired.Some? then next.retired.value else EMPTY_LAYER;
    FoundItem(src, key);
    AllRefsKept(was.lists[list], PacksOf(published).entities, PacksOf(next).entities, list, src, j, i);
    RetiredLists(next, published, list, was, KeptRefs(was.lists[list], next, published, list), key);
  }

  lemma {:induction false} RetiredLists(next: TenantConfig, published: TenantConfig, list: nat, was: Layer,
                                        refs: seq<Item>, key: string)
    requires IsConfig(next) && IsConfig(published) && (list == PICKLISTS || list == NUMBERING)
    requires was == if next.retired.Some? then next.retired.value else EMPTY_LAYER
    requires refs == KeptRefs(was.lists[list], next, published, list) && Has(refs, key, ItemKey)
    ensures var after := Retire(next, Some(published)).retired;
            after.Some? && Has(after.value.lists[list], key, ItemKey)
  {
    RetiredListIs(next, published, was);
    NonEmptyStays(RetiredLayer(next, published), list);
  }

  lemma {:induction false} RetiredListIs(next: TenantConfig, published: TenantConfig, was: Layer)
    requires IsConfig(next) && IsConfig(published)
    requires was == if next.retired.Some? then next.retired.value else EMPTY_LAYER
    ensures IsLayer(was)
    ensures RetiredLayer(next, published).lists[PICKLISTS] == KeptRefs(was.lists[PICKLISTS], next, published, PICKLISTS)
    ensures RetiredLayer(next, published).lists[NUMBERING] == KeptRefs(was.lists[NUMBERING], next, published, NUMBERING)
  {
  }

  lemma {:induction false} NonEmptyStays(l: Layer, list: nat)
    requires IsLayer(l) && (list == PICKLISTS || list == NUMBERING) && l.lists[list] != []
    ensures NonEmpty(l) == Some(l)
  {
  }

  lemma {:induction false} DefinedItem(ls: seq<Layer>, list: nat, n: nat, k: nat)
    requires AreLayers(ls) && list < LISTS && n < |ls| && k < |ls[n].lists[list]|
    ensures Has(MergeLayers(ls).lists[list], ls[n].lists[list][k].key, ItemKey)
  {
    var key := ls[n].lists[list][k].key;
    ReplacingLaws();
    ItemListed(ls, list, n, k);
    FoldKeys([], AllItems(ls, list), ItemKey, LaterItem, key);
  }

  lemma {:induction false} ItemListed(ls: seq<Layer>, list: nat, n: nat, k: nat)
    requires AreLayers(ls) && list < LISTS && n < |ls| && k < |ls[n].lists[list]|
    ensures Has(AllItems(ls, list), ls[n].lists[list][k].key, ItemKey)
  {
    var l, key := |ls| - 1, ls[n].lists[list][k].key;
    HasConcat(AllItems(ls[..l], list), ls[l].lists[list], key, ItemKey);
    if n == l {
      assert ItemKey(ls[l].lists[list][k]) == key;
    } else {
      ItemListed(ls[..l], list, n, k);
    }
  }

  lemma {:induction false} FoundItem(xs: seq<Item>, k: string)
    requires Has(xs, k, ItemKey)
    ensures FindItem(xs, k).Some?
  {
    HasSplit(xs, k, ItemKey);
    if xs[0].key != k { FoundItem(xs[1..], k); }
  }

  // ---- patches of packs ----

  /// A patch that has something to add adds it to every entity with its role.
  lemma {:induction false} PatchAdds(ps: seq<Patch>, keys: seq<string>, es: seq<Entity>, i: nat, e: string)
    requires i < |ps| && e in keys && HasRole(es, e, ps[i].role) && (ps[i].fieldsFor(e) != [] || ps[i].tax.Some?)
    ensures Entity(e, map[], ps[i].tax, None, ps[i].fieldsFor(e)) in PatchAll(ps, keys, es)
  {
    var n := |ps| - 1;
    if i < n { PatchAdds(ps[..n], keys, es, i, e); } else { PatchAddsOn(ps[n], keys, es, e); }
  }

  lemma {:induction false} PatchAddsOn(p: Patch, keys: seq<string>, es: seq<Entity>, e: string)
    requires e in keys && HasRole(es, e, p.role) && (p.fieldsFor(e) != [] || p.tax.Some?)
    ensures Entity(e, map[], p.tax, None, p.fieldsFor(e)) in PatchOn(p, keys, es)
  {
    var n := |keys| - 1;
    if e != keys[n] {
      assert keys == keys[..n] + [keys[n]];
      PatchAddsOn(p, keys[..n], es, e);
    }
  }

  /// The fields and the tax settings of a patch reach every entity of its role, of the packs
  /// and of the company.
  lemma {:induction false} PatchReaches(packs: seq<Pack>, company: Layer, i: nat, e: string)
    requires i < |AllPatches(Ordered(packs))| && packs != []
    requires var p := AllPatches(Ordered(packs))[i];
             && HasRole(AllEntities(OwnLayers(Ordered(packs)) + [company]), e, p.role)
             && (p.fieldsFor(e) != [] || p.tax.Some?)
    ensures var p, layers := AllPatches(Ordered(packs))[i], PackLayers(packs, Some(company));
            layers != [] && Entity(e, map[], p.tax, None, p.fieldsFor(e)) in layers[|layers| - 1].entities
  {
    var es := AllEntities(OwnLayers(Ordered(packs)) + [company]);
    RolesListed(es, e, AllPatches(Ordered(packs))[i].role);
    MergedRolesKeep(WithRoles(es), e);
    PatchAdds(AllPatches(Ordered(packs)), MergedRoles(WithRoles(es)), es, i, e);
  }
}
