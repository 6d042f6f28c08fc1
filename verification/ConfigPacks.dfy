/// Installed packs as layers, and the layers that apply at a place in the organization.

module ConfigPacks {
  import opened Basics
  import opened KeyedMerge
  import opened ConfigMerge
  import opened ConfigKeys

  /// Added to every entity with the role; `fieldsFor` gives the fields for an entity key.
  datatype Patch = Patch(role: string, fieldsFor: string -> seq<Field>, tax: Option<map<string, string>>)

  datatype Pack = Pack(id: string, version: string, country: bool, layer: Layer, patches: seq<Patch>)

  datatype TenantConfig = TenantConfig(
    company: Layer, orgUnits: map<string, Layer>, packs: seq<Pack>, retired: Option<Layer>)

  predicate ArePacks(packs: seq<Pack>) { forall i :: 0 <= i < |packs| ==> IsLayer(packs[i].layer) }

  predicate IsConfig(c: TenantConfig) {
    && IsLayer(c.company) && (c.retired.Some? ==> IsLayer(c.retired.value)) && ArePacks(c.packs)
    && forall id :: id in c.orgUnits ==> IsLayer(c.orgUnits[id])
  }

  // ---- pack layers ----

  function OfKind(packs: seq<Pack>, country: bool): (r: seq<Pack>)
    ensures ArePacks(packs) ==> ArePacks(r)
  {
    if packs == [] then []
    else
      var rest := OfKind(packs[..|packs| - 1], country);
      if packs[|packs| - 1].country == country then rest + [packs[|packs| - 1]] else rest
  }

  /// Country packs come first.
  function Ordered(packs: seq<Pack>): (r: seq<Pack>)
    ensures ArePacks(packs) ==> ArePacks(r)
  {
    OfKind(packs, true) + OfKind(packs, false)
  }

  function OwnLayers(packs: seq<Pack>): (r: seq<Layer>)
    ensures |r| == |packs| && (ArePacks(packs) ==> AreLayers(r))
  {
    seq(|packs|, i requires 0 <= i < |packs| => packs[i].layer)
  }

  function AllPatches(packs: seq<Pack>): seq<Patch> {
    if packs == [] then [] else AllPatches(packs[..|packs| - 1]) + packs[|packs| - 1].patches
  }

  predicate HasRole(es: seq<Entity>, e: string, role: string) {
    exists i :: 0 <= i < |es| && es[i].key == e && es[i].roles.Some? && role in es[i].roles.value
  }

  function WithRoles(es: seq<Entity>): seq<string> {
    if es == [] then []
    else
      var rest, last := WithRoles(es[..|es| - 1]), es[|es| - 1];
      if last.roles.Some? then rest + [last.key] else rest
  }

  /// The entities a patch reaches, each with what the patch adds.
  function PatchOn(p: Patch, keys: seq<string>, es: seq<Entity>): seq<Entity> {
    if keys == [] then []
    else
      var rest, k := PatchOn(p, keys[..|keys| - 1], es), keys[|keys| - 1];
      if HasRole(es, k, p.role) && (p.fieldsFor(k) != [] || p.tax.Some?)
      then rest + [Entity(k, map[], p.tax, None, p.fieldsFor(k))] else rest
  }

  function PatchAll(ps: seq<Patch>, keys: seq<string>, es: seq<Entity>): seq<Entity> {
    if ps == [] then []
    else PatchAll(ps[..|ps| - 1], keys, es) + PatchOn(ps[|ps| - 1], keys, es)
  }

  function Optional(l: Option<Layer>): (r: seq<Layer>)
    ensures (l.Some? ==> IsLayer(l.value)) ==> AreLayers(r)
  {
    if l.Some? then [l.value] else []
  }

  function PatchLayer(packs: seq<Pack>, company: Option<Layer>): Layer {
    var es := AllEntities(OwnLayers(Ordered(packs)) + Optional(company));
    Layer(PatchAll(AllPatches(Ordered(packs)), MergedRoles(WithRoles(es)), es), NO_ITEMS, None, map[])
  }

  /// One layer for each pack, and if there are patches one more for all of them; what `company`
  /// contributes is which entities have which roles.
  function PackLayers(packs: seq<Pack>, company: Option<Layer>): (r: seq<Layer>)
    ensures ArePacks(packs) ==> AreLayers(r)
  {
    if packs == [] then []
    else if AllPatches(Ordered(packs)) == [] then OwnLayers(Ordered(packs))
    else OwnLayers(Ordered(packs)) + [PatchLayer(packs, company)]
  }

  // ---- the layers at a place ----

  function Overrides(units: map<string, Layer>, ids: seq<string>): (r: seq<Layer>)
    ensures (forall id :: id in units ==> IsLayer(units[id])) ==> AreLayers(r)
  {
    if ids == [] then []
    else
      var rest, id := Overrides(units, ids[..|ids| - 1]), ids[|ids| - 1];
      if id in units then rest + [units[id]] else rest
  }

  /// Platform, packs, what packs left behind, the company, then the overrides on the path.
  function LayersFor(base: seq<Layer>, c: TenantConfig, ids: seq<string>): (r: seq<Layer>)
    ensures AreLayers(base) && IsConfig(c) ==> AreLayers(r)
  {
    base + PackLayers(c.packs, Some(c.company)) + Optional(c.retired) + [c.company] + Overrides(c.orgUnits, ids)
  }

  /// The packs and what they left behind, as rollback and pack removal look at them: without
  /// the company's entities.
  function PacksOf(c: TenantConfig): Layer
    requires IsConfig(c)
  {
    MergeLayers(PackLayers(c.packs, None) + Optional(c.retired))
  }

  // ---- the fields of pack layers ----

  ghost predicate Reaches(ps: seq<Patch>, es: seq<Entity>, e: string, f: string) {
    exists i :: 0 <= i < |ps| && HasRole(es, e, ps[i].role) && HasKey(ps[i].fieldsFor(e), f)
  }

  /// The fields patches add to an entity of the company or of a pack.
  ghost predicate Patched(packs: seq<Pack>, company: Option<Layer>, e: string, f: string) {
    Reaches(AllPatches(Ordered(packs)), AllEntities(OwnLayers(Ordered(packs)) + Optional(company)), e, f)
  }

  lemma {:induction false} PatchOnFields(p: Patch, keys: seq<string>, es: seq<Entity>, e: string, f: string)
    ensures HasField(PatchOn(p, keys, es), e, f) <==> e in keys && HasRole(es, e, p.role) && HasKey(p.fieldsFor(e), f)
  {
    if keys != [] {
      var n := |keys| - 1;
      var rest, k := PatchOn(p, keys[..n], es), keys[n];
      PatchOnFields(p, keys[..n], es, e, f);
      assert keys == keys[..n] + [k];
      var x := Entity(k, map[], p.tax, None, p.fieldsFor(k));
      FieldConcat(rest, [x], e, f);
      OneField(x, e, f);
    }
  }

  lemma {:induction false} PatchAllFields(ps: seq<Patch>, keys: seq<string>, es: seq<Entity>, e: string, f: string)
    requires forall role :: HasRole(es, e, role) ==> e in keys
    ensures HasField(PatchAll(ps, keys, es), e, f) <==> Reaches(ps, es, e, f)
  {
    if ps != [] {
      var n := |ps| - 1;
      PatchAllFields(ps[..n], keys, es, e, f);
      FieldConcat(PatchAll(ps[..n], keys, es), PatchOn(ps[n], keys, es), e, f);
      PatchOnFields(ps[n], keys, es, e, f);
      ReachesLast(ps, es, e, f);
    }
  }

  lemma ReachesLast(ps: seq<Patch>, es: seq<Entity>, e: string, f: string)
    requires ps != []
    ensures var n := |ps| - 1;
            Reaches(ps, es, e, f)
            <==> Reaches(ps[..n], es, e, f) || (HasRole(es, e, ps[n].role) && HasKey(ps[n].fieldsFor(e), f))
  {
    var n := |ps| - 1;
    if Reaches(ps[..n], es, e, f) {
      var i :| 0 <= i < n && HasRole(es, e, ps[..n][i].role) && HasKey(ps[..n][i].fieldsFor(e), f);
      assert ps[i] == ps[..n][i];
    }
    if Reaches(ps, es, e, f) {
      var i :| 0 <= i < |ps| && HasRole(es, e, ps[i].role) && HasKey(ps[i].fieldsFor(e), f);
      if i < n { assert ps[..n][i] == ps[i]; }
    }
  }

  lemma {:induction false} RolesListed(es: seq<Entity>, e: string, role: string)
    requires HasRole(es, e, role)
    ensures e in WithRoles(es)
  {
    var n := |es| - 1;
    var i :| 0 <= i < |es| && es[i].key == e && es[i].roles.Some? && role in es[i].roles.value;
    if i < n {
      assert es[..n][i] == es[i];
      RolesListed(es[..n], e, role);
    }
  }

  lemma {:induction false} MergedRolesKeep(rs: seq<string>, r: string)
    ensures r in MergedRoles(rs) <==> r in rs
  {
    ReplacingLaws();
    FoldKeys([], rs, SameText, LaterText, r);
    InAsHas(rs, r);
    InAsHas(MergedRoles(rs), r);
    assert !Has([], r, SameText);
  }

  lemma InAsHas(rs: seq<string>, r: string)
    ensures r in rs <==> Has(rs, r, SameText)
  {
    if r in rs {
      var i :| 0 <= i < |rs| && rs[i] == r;
      assert SameText(rs[i]) == r;
    }
  }

  /// The fields of pack layers: those of the packs, and those patches add.
  lemma PackFields(packs: seq<Pack>, company: Option<Layer>, e: string, f: string)
    ensures HasField(AllEntities(PackLayers(packs, company)), e, f)
       <==> HasField(AllEntities(OwnLayers(Ordered(packs))), e, f) || Patched(packs, company, e, f)
  {
    var own := OwnLayers(Ordered(packs));
    var es := AllEntities(own + Optional(company));
    var ps := AllPatches(Ordered(packs));
    if packs == [] {
      assert own == [] && ps == [];
    } else if ps != [] {
      var layer := PatchLayer(packs, company);
      EntitiesApart(own, [layer]);
      OneLayer(layer);
      FieldConcat(AllEntities(own), layer.entities, e, f);
      forall role | HasRole(es, e, role) ensures e in MergedRoles(WithRoles(es)) {
        RolesListed(es, e, role);
        MergedRolesKeep(WithRoles(es), e);
      }
      PatchAllFields(ps, MergedRoles(WithRoles(es)), es, e, f);
    }
  }

  lemma RoleConcat(xs: seq<Entity>, ys: seq<Entity>, e: string, role: string)
    ensures HasRole(xs, e, role) ==> HasRole(xs + ys, e, role)
  {
    if HasRole(xs, e, role) {
      var i :| 0 <= i < |xs| && xs[i].key == e && xs[i].roles.Some? && role in xs[i].roles.value;
      assert (xs + ys)[i] == xs[i];
    }
  }

  /// What patches reach without the company they also reach with it.
  lemma PatchedMore(packs: seq<Pack>, company: Layer, e: string, f: string)
    ensures Patched(packs, None, e, f) ==> Patched(packs, Some(company), e, f)
  {
    var own := OwnLayers(Ordered(packs));
    var ps := AllPatches(Ordered(packs));
    assert own + [] == own;
    EntitiesApart(own, [company]);
    if Patched(packs, None, e, f) {
      var i :| 0 <= i < |ps| && HasRole(AllEntities(own), e, ps[i].role) && HasKey(ps[i].fieldsFor(e), f);
      RoleConcat(AllEntities(own), AllEntities([company]), e, ps[i].role);
    }
  }

  lemma FieldsApart(xs: seq<Layer>, ys: seq<Layer>, e: string, f: string)
    ensures HasField(AllEntities(xs + ys), e, f) <==> HasField(AllEntities(xs), e, f) || HasField(AllEntities(ys), e, f)
  {
    EntitiesApart(xs, ys);
    FieldConcat(AllEntities(xs), AllEntities(ys), e, f);
  }

  ghost predicate InOptional(l: Option<Layer>, e: string, f: string) { l.Some? && HasField(l.value.entities, e, f) }

  lemma OptionalFields(l: Option<Layer>, e: string, f: string)
    ensures HasField(AllEntities(Optional(l)), e, f) <==> InOptional(l, e, f)
  {
    if l.Some? { OneLayer(l.value); }
  }

  lemma PacksOfFields(c: TenantConfig, e: string, f: string)
    requires IsConfig(c)
    ensures HasField(PacksOf(c).entities, e, f)
       <==> HasField(AllEntities(PackLayers(c.packs, None)), e, f) || InOptional(c.retired, e, f)
  {
    MergeKeepsFields(PackLayers(c.packs, None) + Optional(c.retired), e, f);
    FieldsApart(PackLayers(c.packs, None), Optional(c.retired), e, f);
    OptionalFields(c.retired, e, f);
  }

  /// Where a field at a place can come from.
  lemma EffectiveFields(base: seq<Layer>, c: TenantConfig, ids: seq<string>, e: string, f: string)
    ensures HasField(AllEntities(LayersFor(base, c, ids)), e, f)
       <==> || HasField(AllEntities(base), e, f) || HasField(AllEntities(PackLayers(c.packs, Some(c.company))), e, f)
            || InOptional(c.retired, e, f) || HasField(c.company.entities, e, f)
            || HasField(AllEntities(Overrides(c.orgUnits, ids)), e, f)
  {
    var packs, left := PackLayers(c.packs, Some(c.company)), Optional(c.retired);
    FieldsApart(base + packs + left + [c.company], Overrides(c.orgUnits, ids), e, f);
    FieldsApart(base + packs + left, [c.company], e, f);
    FieldsApart(base + packs, left, e, f);
    FieldsApart(base, packs, e, f);
    OneLayer(c.company);
    OptionalFields(c.retired, e, f);
  }
}
