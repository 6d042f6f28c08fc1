/// Concrete configurations where a rollback or a removal loses or hides a field.

module ConfigExamples {
  import opened Basics
  import opened ConfigMerge
  import opened ConfigKeys
  import opened ConfigPacks
  import opened ConfigReach
  import opened ConfigRollback
  import opened ConfigAfterRollback
  import opened ConfigRemoval
  import opened ConfigAfterRemoval

  const GST: Field := Field("gst", false, None, None, "")

  const CUSTOMER: Entity := Entity("customer", map[], None, Some(["party"]), [])

  const COMPANY: Layer := Layer([CUSTOMER], NO_ITEMS, None, map[])

  /// A country pack that adds a tax number to every entity with the role "party".
  function TaxPack(): Pack { Pack("tax", "1.0.0", true, EMPTY_LAYER, [Patch("party", k => [GST], None)]) }

  function WithTaxPack(): TenantConfig { TenantConfig(COMPANY, map[], [TaxPack()], None) }

  lemma TaxPackLayers()
    ensures Ordered([TaxPack()]) == [TaxPack()] && OwnLayers([TaxPack()]) == [EMPTY_LAYER]
    ensures AllPatches([TaxPack()]) == TaxPack().patches
    ensures AllEntities([EMPTY_LAYER]) == []
  {
    var p := TaxPack();
    assert [p][..0] == [];
    assert OfKind([p], true) == [p] && OfKind([p], false) == [];
    assert [EMPTY_LAYER][..0] == [];
  }

  lemma CompanyReached()
    ensures IsConfig(WithTaxPack()) && CompanyPatched(WithTaxPack(), "customer", "gst")
    ensures !HasField(PacksOf(WithTaxPack()).entities, "customer", "gst")
  {
    var c := WithTaxPack();
    var own := OwnLayers(Ordered(c.packs));
    TaxPackLayers();
    EntitiesApart(own, [COMPANY]);
    OneLayer(COMPANY);
    var es := AllEntities(own + Optional(Some(COMPANY)));
    assert es == [CUSTOMER];
    assert "party" in CUSTOMER.roles.value by { assert ["party"][0] == "party"; }
    assert HasRole(es, "customer", "party") by { assert es[0] == CUSTOMER; }
    assert HasKey([GST], "gst") by { assert FieldKey([GST][0]) == "gst"; }
    assert AllPatches(Ordered(c.packs))[0].role == "party";
    assert Patched(c.packs, Some(c.company), "customer", "gst");
    NoRoles();
    PackFields(c.packs, None, "customer", "gst");
    PacksOfFields(c, "customer", "gst");
  }

  lemma NoRoles()
    ensures !Patched(WithTaxPack().packs, None, "customer", "gst")
    ensures !HasField(AllEntities(OwnLayers(Ordered(WithTaxPack().packs))), "customer", "gst")
  {
    TaxPackLayers();
    assert [EMPTY_LAYER] + [] == [EMPTY_LAYER];
  }

  lemma TaxNumberThere()
    ensures IsConfig(WithTaxPack()) && HasField(MergeLayers(LayersFor([], WithTaxPack(), [])).entities, "customer", "gst")
    ensures !HasField(COMPANY.entities, "customer", "gst")
  {
    var c := WithTaxPack();
    CompanyReached();
    MergeKeepsFields(LayersFor([], c, []), "customer", "gst");
    EffectiveFields([], c, [], "customer", "gst");
    PackFields(c.packs, Some(c.company), "customer", "gst");
    OneField(CUSTOMER, "customer", "gst");
  }

  lemma NoPacks(company: Option<Layer>, e: string, f: string)
    ensures !Patched([], company, e, f) && !HasField(AllEntities(PackLayers([], company)), e, f)
  {
    assert Ordered([]) == [];
  }

  lemma NothingStaysWithPacks()
    ensures IsConfig(WithTaxPack()) && !StaysWithPacks(WithTaxPack(), "tax", Some(WithTaxPack()), "customer", "gst")
  {
    var c := WithTaxPack();
    CompanyReached();
    assert c.packs[..0] == [];
    assert Without(c.packs, "tax") == [];
    NoPacks(Some(c.company), "customer", "gst");
    NoPatches({}, "customer", "gst");
  }

  /// Removing the tax pack loses the tax number of the company's customers.
  lemma RemovalExample()
    ensures IsConfig(WithTaxPack())
    ensures HasField(MergeLayers(LayersFor([], WithTaxPack(), [])).entities, "customer", "gst")
    ensures !HasField(MergeLayers(LayersFor([], RemovePack(WithTaxPack(), "tax", Some(WithTaxPack())), [])).entities,
                      "customer", "gst")
  {
    TaxNumberThere();
    NothingStaysWithPacks();
    RemovalLoses([], WithTaxPack(), "tax", Some(WithTaxPack()), [], "customer", "gst");
  }

  /// So does a rollback to the configuration from before the installation.
  lemma RollbackExample()
    ensures var current := WithTaxPack();
            var target := current.(packs := []);
            && IsConfig(current) && IsConfig(target)
            && HasField(MergeLayers(LayersFor([], current, [])).entities, "customer", "gst")
            && !HasField(MergeLayers(LayersFor([], WithArchivedLeftovers(target, current), [])).entities, "customer", "gst")
  {
    var current := WithTaxPack();
    var target := current.(packs := []);
    TaxNumberThere();
    CompanyReached();
    RollbackLoses([], target, current, [], "customer", "gst");
    NothingStays();
  }

  lemma NoPatches(roles: set<string>, e: string, f: string)
    ensures PatchesGive([], roles, e, f) == None && !HasField(AllEntities(OwnLayers(Ordered([]))), e, f)
  {
    assert Ordered([]) == [] && OwnLayers([]) == [];
  }

  lemma NothingStays()
    ensures IsConfig(WithTaxPack()) && !StaysDefined([], WithTaxPack().(packs := []), WithTaxPack(), [], "customer", "gst")
  {
    var current := WithTaxPack();
    var target := current.(packs := []);
    CompanyReached();
    OneField(CUSTOMER, "customer", "gst");
    NoPatches(RolesThere(target.packs, target.company, "customer") + RolesAdded(target, current, "customer"), "customer", "gst");
  }

  // ---- a leftover hides a field ----

  /// A pack with an entity of its own that has a tax number.
  function BasePack(): Pack {
    Pack("base", "1.0.0", false, Layer([Entity("customer", map[], None, None, [GST])], NO_ITEMS, None, map[]), [])
  }

  /// Both packs give the company's customers the tax number.
  function WithBoth(): TenantConfig { TenantConfig(COMPANY, map[], [TaxPack(), BasePack()], None) }

  lemma BaseRemoved()
    ensures IsConfig(WithBoth()) && WithBoth().(packs := Without(WithBoth().packs, "base")) == WithTaxPack()
  {
    var ps := WithBoth().packs;
    assert ps[..1] == [TaxPack()] && ps[..1][..0] == [];
    assert Without(ps[..1], "base") == [] + [TaxPack()];
  }

  lemma BothLayers()
    ensures AllEntities(OwnLayers(Ordered(WithBoth().packs))) == BasePack().layer.entities
  {
    var t, b := TaxPack(), BasePack();
    var ps := [t, b];
    assert ps[..1] == [t] && ps[..1][..0] == [];
    assert OfKind([], true) == [] && OfKind([], false) == [];
    assert OfKind([t], true) == [] + [t];
    assert OfKind([t], false) == [];
    assert OfKind(ps, true) == [t] && OfKind(ps, false) == [] + [b];
    assert Ordered(ps) == ps;
    assert OwnLayers(ps) == [EMPTY_LAYER] + [b.layer];
    EntitiesApart([EMPTY_LAYER], [b.layer]);
    OneLayer(EMPTY_LAYER);
    OneLayer(b.layer);
  }

  lemma BasePublished()
    ensures IsConfig(WithBoth()) && HasField(PacksOf(WithBoth()).entities, "customer", "gst")
  {
    PackFields(WithBoth().packs, None, "customer", "gst");
    PacksOfFields(WithBoth(), "customer", "gst");
    BothLayers();
    OneField(BasePack().layer.entities[0], "customer", "gst");
    assert HasKey([GST], "gst") by { assert FieldKey([GST][0]) == "gst"; }
  }

  lemma TaxNumberActive()
    ensures IsConfig(WithTaxPack()) && FieldAt([], WithTaxPack(), [], "customer", "gst") == Some(GST)
  {
    CompanyReached();
    FieldAtIs([], WithTaxPack(), [], "customer", "gst");
    UpperIs(WithTaxPack(), [], "customer", "gst");
    OneWinner(CUSTOMER, "customer", "gst");
    assert WithTaxPack().company.entities + [] == [CUSTOMER];
    TaxPackGives();
  }

  lemma TaxPackGives()
    ensures PatchesGive([TaxPack()], RolesThere([TaxPack()], COMPANY, "customer"), "customer", "gst") == Some(GST)
  {
    TaxPackLayers();
    assert [] + COMPANY.entities == [CUSTOMER];
    RolesOfOne(CUSTOMER, "customer");
    assert "party" in CUSTOMER.roles.value by { assert ["party"][0] == "party"; }
    assert LastField([GST], "gst") == Some(GST);
    assert Gives(TaxPack().patches[0], OwnRoles(CUSTOMER), "customer", "gst");
  }

  /// Removing the one archives the tax number, though the other still gives it.
  lemma HiddenByLeftoverExample()
    ensures IsConfig(WithBoth()) && IsConfig(WithTaxPack())
    ensures FieldAt([], WithBoth().(packs := Without(WithBoth().packs, "base")), [], "customer", "gst") == Some(GST) && !GST.archived
    ensures var now := FieldAt([], RemovePack(WithBoth(), "base", Some(WithBoth())), [], "customer", "gst");
            now.Some? && now.value.archived
  {
    BaseRemoved();
    BasePublished();
    TaxNumberActive();
    CompanyReached();
    OneField(CUSTOMER, "customer", "gst");
    FieldAfterRemoval([], WithBoth(), "base", Some(WithBoth()), [], "customer", "gst");
  }

  // ---- an override hides a field ----

  const MEMO: Field := Field("memo", false, None, None, "")

  const INVOICE: Entity := Entity("invoice", map[], None, None, [MEMO])

  const SALES: Layer := Layer([INVOICE], NO_ITEMS, None, map[])

  function Plain(): TenantConfig { TenantConfig(SALES, map[], [], None) }

  /// One unit has its own version of the field.
  function WithOverride(): TenantConfig { TenantConfig(SALES, map["unit" := SALES], [], None) }

  lemma OverrideThere()
    ensures IsConfig(Plain()) && IsConfig(WithOverride())
    ensures LastAt(Plain(), WithOverride(), ["unit"], "invoice", "memo") == Some(2)
    ensures !HasField(Places(Plain(), ["unit"])[2], "invoice", "memo")
  {
    assert HasKey([MEMO], "memo") by { assert FieldKey([MEMO][0]) == "memo"; }
    OneField(INVOICE, "invoice", "memo");
    PlaceIs(WithOverride(), ["unit"], 2);
    PlaceIs(Plain(), ["unit"], 2);
    assert HasAt(Plain(), WithOverride(), ["unit"], 2, "invoice", "memo");
    LastAtIsLast(Plain(), WithOverride(), ["unit"], 2, "invoice", "memo");
  }

  /// Rolling back the override leaves the field archived at the unit, though the target has
  /// it active for the whole company.
  lemma HiddenFieldExample()
    ensures IsConfig(Plain()) && IsConfig(WithOverride())
    ensures FieldAt([], Plain(), ["unit"], "invoice", "memo") == Some(MEMO)
    ensures var now := FieldAt([], WithArchivedLeftovers(Plain(), WithOverride()), ["unit"], "invoice", "memo");
            now.Some? && now.value.archived
  {
    OverrideThere();
    FieldAfterRollback([], Plain(), WithOverride(), ["unit"], "invoice", "memo");
    PlainMemo();
  }

  lemma PlainMemo()
    ensures FieldAt([], Plain(), ["unit"], "invoice", "memo") == Some(MEMO)
  {
    MergeTakesLast(LayersFor([], Plain(), ["unit"]), "invoice", "memo");
    assert ["unit"][..0] == [];
    assert LayersFor([], Plain(), ["unit"]) == [SALES];
    OneLayer(SALES);
    OneWinner(INVOICE, "invoice", "memo");
    assert [MEMO][..0] == [];
  }

  // ---- a leftover brings a role back ----

  function PartyPatches(): seq<Patch> { [Patch("party", k => [GST], None)] }

  /// A pack with entities of its own, and a tax number for every entity with the role "party".
  function PartyPack(own: seq<Entity>): Pack {
    Pack("party", "1.0.0", false, Layer(own, NO_ITEMS, None, map[]), PartyPatches())
  }

  /// The company had its own customer entity, with the role.
  function Before(own: seq<Entity>): TenantConfig { TenantConfig(EMPTY_LAYER, map[], [PartyPack(own)], None) }

  function Since(own: seq<Entity>): TenantConfig { TenantConfig(COMPANY, map[], [PartyPack(own)], None) }

  lemma PartyPackIs(own: seq<Entity>)
    ensures Ordered([PartyPack(own)]) == [PartyPack(own)] && AllEntities(OwnLayers([PartyPack(own)])) == own
    ensures AllPatches([PartyPack(own)]) == PartyPack(own).patches
  {
    var p := PartyPack(own);
    assert [p][..0] == [];
    assert OfKind([], true) == [] && OfKind([], false) == [];
    assert OfKind([p], true) == [];
    assert OfKind([p], false) == [] + [p];
    assert OwnLayers([p]) == [p.layer];
    assert AllPatches([]) == [];
    OneLayer(p.layer);
  }

  lemma RoleComesBack(own: seq<Entity>)
    requires RolesOf(own, "customer") == {}
    ensures IsConfig(Before(own)) && IsConfig(Since(own))
    ensures RolesThere(Before(own).packs, EMPTY_LAYER, "customer") == {}
    ensures RolesAdded(Before(own), Since(own), "customer") == {"party"}
  {
    PartyPackIs(own);
    assert own + [] == own;
    assert FindEntity(COMPANY.entities, "customer") == Some(CUSTOMER);
    assert "party" in CUSTOMER.roles.value by { assert ["party"][0] == "party"; }
    assert OwnRoles(CUSTOMER) == {"party"};
  }

  lemma PatchComesIn(own: seq<Entity>)
    requires RolesOf(own, "customer") == {}
    ensures IsConfig(Before(own)) && IsConfig(Since(own))
    ensures PatchedAnew(Before(own), Since(own), 0, "customer", "gst") && PatchField(Before(own), 0, "customer", "gst") == Some(GST)
  {
    RoleComesBack(own);
    PartyPackIs(own);
    PatchGives();
    assert AllPatches(Ordered(Before(own).packs)) == PartyPatches();
  }

  lemma PatchGives()
    ensures |PartyPatches()| == 1 && ComesLast(PartyPatches(), {}, {"party"}, 0, "customer", "gst")
    ensures LastField(PartyPatches()[0].fieldsFor("customer"), "gst") == Some(GST)
  {
    assert PartyPatches()[0].fieldsFor("customer") == [GST];
    assert LastField([GST], "gst") == Some(GST);
  }

  lemma NotInCompany(own: seq<Entity>)
    requires IsConfig(Before(own)) && IsConfig(Since(own))
    ensures !HasAt(Before(own), Since(own), [], 1, "customer", "gst")
  {
    PlaceIs(Before(own), [], 1);
    PlaceIs(Since(own), [], 1);
    OneField(CUSTOMER, "customer", "gst");
  }

  lemma SamePacks(own: seq<Entity>)
    requires IsConfig(Before(own)) && IsConfig(Since(own))
    ensures PacksOf(Before(own)) == PacksOf(Since(own))
  {
    assert Before(own).packs == Since(own).packs && Before(own).retired == Since(own).retired;
  }

  lemma NotRetired(own: seq<Entity>)
    requires IsConfig(Before(own)) && IsConfig(Since(own))
    ensures !HasAt(Before(own), Since(own), [], 0, "customer", "gst")
  {
    SamePacks(own);
    assert Before(own).retired == None;
  }

  lemma NowhereButInPacks(own: seq<Entity>)
    requires IsConfig(Before(own)) && IsConfig(Since(own))
    ensures LastAt(Before(own), Since(own), [], "customer", "gst") == None
  {
    NotInCompany(own);
    NotRetired(own);
    NoLast(Before(own), Since(own), "customer", "gst");
  }

  lemma NoLast(target: TenantConfig, current: TenantConfig, e: string, f: string)
    requires IsConfig(target) && IsConfig(current)
    requires !HasAt(target, current, [], 0, e, f) && !HasAt(target, current, [], 1, e, f)
    ensures LastAt(target, current, [], e, f) == None
  {
    LastAtIsLast(target, current, [], 0, e, f);
    LastAtIsLast(target, current, [], 1, e, f);
  }

  const OTHER_GST: Field := Field("gst", false, None, None, "of the pack itself")

  /// The target's own definition of a field is replaced after the rollback.
  lemma RedefinedExample()
    ensures var own := [Entity("customer", map[], None, None, [OTHER_GST])];
            && IsConfig(Before(own)) && IsConfig(Since(own))
            && FieldAt([], Before(own), [], "customer", "gst") == Some(OTHER_GST)
            && FieldAt([], WithArchivedLeftovers(Before(own), Since(own)), [], "customer", "gst") == Some(GST)
  {
    var x := Entity("customer", map[], None, None, [OTHER_GST]);
    RolesOfOne(x, "customer");
    PatchComesIn([x]);
    NowhereButInPacks([x]);
    PackFieldAfter([], Before([x]), Since([x]), [], "customer", "gst");
    NothingThere([x]);
    OneWinner(x, "customer", "gst");
  }

  /// A field is active on an entity that the rollback has archived.
  lemma ActiveLeftoverExample()
    ensures IsConfig(Before([])) && IsConfig(Since([]))
    ensures FieldAt([], Before([]), [], "customer", "gst") == None && !GST.archived
    ensures FieldAt([], WithArchivedLeftovers(Before([]), Since([])), [], "customer", "gst") == Some(GST)
  {
    PatchComesIn([]);
    NowhereButInPacks([]);
    PackFieldAfter([], Before([]), Since([]), [], "customer", "gst");
    NothingThere([]);
  }

  lemma NothingThere(own: seq<Entity>)
    requires IsConfig(Before(own)) && RolesOf(own, "customer") == {}
    ensures FieldAt([], Before(own), [], "customer", "gst") == Winner(own, "customer", "gst")
  {
    PartyPackIs(own);
    assert own + [] == own;
    FieldAtIs([], Before(own), [], "customer", "gst");
    JoinedPlaces(Before(own), []);
    assert Given(PartyPack(own).patches[..0], {}, "customer", "gst") == None;
    assert RolesThere(Before(own).packs, EMPTY_LAYER, "customer") == {};
  }
}
