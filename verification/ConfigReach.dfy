/// Which entities the patches of packs reach, by role, and which patch has the last word.

module ConfigReach {
  import opened Basics
  import opened ConfigMerge
  import opened ConfigKeys
  import opened ConfigPacks

  /// The roles of one entity.
  function OwnRoles(x: Entity): set<string> {
    if x.roles.Some? then (set role | role in x.roles.value) else {}
  }

  /// The roles that entities with the key have.
  function RolesOf(es: seq<Entity>, e: string): set<string> {
    if es == [] then {}
    else RolesOf(es[..|es| - 1], e) + (if es[|es| - 1].key == e then OwnRoles(es[|es| - 1]) else {})
  }

  lemma {:induction false} RoleFound(es: seq<Entity>, e: string, role: string)
    ensures role in RolesOf(es, e) <==> HasRole(es, e, role)
  {
    if es != [] {
      var n := |es| - 1;
      RoleFound(es[..n], e, role);
      if HasRole(es[..n], e, role) {
        var i :| 0 <= i < n && es[..n][i].key == e && es[..n][i].roles.Some? && role in es[..n][i].roles.value;
        assert es[i] == es[..n][i];
      }
      if HasRole(es, e, role) {
        var i :| 0 <= i < |es| && es[i].key == e && es[i].roles.Some? && role in es[i].roles.value;
        if i < n { assert es[..n][i] == es[i]; }
      }
    }
  }

  lemma {:induction false} RolesConcat(xs: seq<Entity>, ys: seq<Entity>, e: string)
    ensures RolesOf(xs + ys, e) == RolesOf(xs, e) + RolesOf(ys, e)
  {
    if ys == [] {
      assert xs + ys == xs;
    } else {
      assert (xs + ys)[..|xs + ys| - 1] == xs + ys[..|ys| - 1];
      RolesConcat(xs, ys[..|ys| - 1], e);
    }
  }

  lemma RolesHead(es: seq<Entity>, e: string)
    requires es != []
    ensures RolesOf(es, e) == (if es[0].key == e then OwnRoles(es[0]) else {}) + RolesOf(es[1..], e)
  {
    assert es == [es[0]] + es[1..];
    RolesConcat([es[0]], es[1..], e);
    RolesOfOne(es[0], e);
  }

  lemma RolesOfOne(x: Entity, e: string)
    ensures RolesOf([x], e) == if x.key == e then OwnRoles(x) else {}
  {
    assert [x][..0] == [];
  }

  /// A patch reaches one of the roles and has the field.
  predicate Gives(p: Patch, roles: set<string>, e: string, f: string) {
    p.role in roles && LastField(p.fieldsFor(e), f).Some?
  }

  /// What the last such patch gives.
  function Given(ps: seq<Patch>, roles: set<string>, e: string, f: string): Option<Field> {
    if ps == [] then None
    else if Gives(ps[|ps| - 1], roles, e, f) then LastField(ps[|ps| - 1].fieldsFor(e), f)
    else Given(ps[..|ps| - 1], roles, e, f)
  }

  lemma {:induction false} LastGiven(ps: seq<Patch>, roles: set<string>, i: int, e: string, f: string)
    requires 0 <= i < |ps| && Gives(ps[i], roles, e, f) && forall k :: i < k < |ps| ==> !Gives(ps[k], roles, e, f)
    ensures Given(ps, roles, e, f) == LastField(ps[i].fieldsFor(e), f)
  {
    var n := |ps| - 1;
    if i < n {
      forall k | i < k < n ensures !Gives(ps[..n][k], roles, e, f) { assert ps[..n][k] == ps[k]; }
      LastGiven(ps[..n], roles, i, e, f);
    }
  }

  /// With more roles, what is given changes only where a patch comes in through a new one
  /// after all those that came in before.
  lemma {:induction false} GivenMore(ps: seq<Patch>, roles: set<string>, more: set<string>, e: string, f: string)
    ensures Given(ps, roles + more, e, f) == Given(ps, roles, e, f) || exists i :: ComesLast(ps, roles, more, i, e, f)
  {
    if ps != [] && !Gives(ps[|ps| - 1], roles, e, f) {
      var n := |ps| - 1;
      if Gives(ps[n], roles + more, e, f) {
        assert ComesLast(ps, roles, more, n, e, f);
      } else {
        GivenMore(ps[..n], roles, more, e, f);
        if i :| ComesLast(ps[..n], roles, more, i, e, f) { StillLast(ps, roles, more, i, e, f); }
      }
    }
  }

  lemma StillLast(ps: seq<Patch>, roles: set<string>, more: set<string>, i: int, e: string, f: string)
    requires ps != [] && !Gives(ps[|ps| - 1], roles + more, e, f) && ComesLast(ps[..|ps| - 1], roles, more, i, e, f)
    ensures ComesLast(ps, roles, more, i, e, f)
  {
    var n := |ps| - 1;
    forall k | i < k < |ps| ensures !Gives(ps[k], roles + more, e, f) {
      if k < n { assert ps[k] == ps[..n][k]; }
    }
  }

  lemma LastThroughNew(ps: seq<Patch>, roles: set<string>, more: set<string>, i: int, e: string, f: string)
    requires ComesLast(ps, roles, more, i, e, f)
    ensures Given(ps, roles + more, e, f) == LastField(ps[i].fieldsFor(e), f)
  {
    LastGiven(ps, roles + more, i, e, f);
  }

  /// Patch `i` gives the field, through one of the roles in `more` only, and none after it
  /// gives it through any role.
  ghost predicate ComesLast(ps: seq<Patch>, roles: set<string>, more: set<string>, i: int, e: string, f: string) {
    && 0 <= i < |ps| && Gives(ps[i], more, e, f) && ps[i].role !in roles
    && forall k :: i < k < |ps| ==> !Gives(ps[k], roles + more, e, f)
  }

  // ---- what pack layers say of a field ----

  lemma {:induction false} PatchOnWinner(p: Patch, keys: seq<string>, es: seq<Entity>, e: string, f: string)
    ensures Winner(PatchOn(p, keys, es), e, f)
         == if e in keys && Gives(p, RolesOf(es, e), e, f) then LastField(p.fieldsFor(e), f) else None
  {
    if keys != [] {
      var n := |keys| - 1;
      var rest, k := PatchOn(p, keys[..n], es), keys[n];
      PatchOnWinner(p, keys[..n], es, e, f);
      assert keys == keys[..n] + [k];
      var x := Entity(k, map[], p.tax, None, p.fieldsFor(k));
      WinnerConcat(rest, [x], e, f);
      OneWinner(x, e, f);
      RoleFound(es, e, p.role);
      assert p.fieldsFor(e) == [] ==> LastField(p.fieldsFor(e), f).None?;
    }
  }

  lemma {:induction false} PatchAllWinner(ps: seq<Patch>, keys: seq<string>, es: seq<Entity>, e: string, f: string)
    requires RolesOf(es, e) != {} ==> e in keys
    ensures Winner(PatchAll(ps, keys, es), e, f) == Given(ps, RolesOf(es, e), e, f)
  {
    if ps != [] {
      var n := |ps| - 1;
      PatchAllWinner(ps[..n], keys, es, e, f);
      PatchOnWinner(ps[n], keys, es, e, f);
      WinnerConcat(PatchAll(ps[..n], keys, es), PatchOn(ps[n], keys, es), e, f);
    }
  }

  lemma RolesListedIn(es: seq<Entity>, e: string)
    ensures RolesOf(es, e) != {} ==> e in MergedRoles(WithRoles(es))
  {
    if RolesOf(es, e) != {} {
      var role :| role in RolesOf(es, e);
      RoleFound(es, e, role);
      RolesListed(es, e, role);
      MergedRolesKeep(WithRoles(es), e);
    }
  }

  /// The roles an entity has for the patches of the packs.
  function RolesThere(packs: seq<Pack>, company: Layer, e: string): set<string> {
    RolesOf(AllEntities(OwnLayers(Ordered(packs))) + company.entities, e)
  }

  function PatchesGive(packs: seq<Pack>, roles: set<string>, e: string, f: string): Option<Field> {
    Given(AllPatches(Ordered(packs)), roles, e, f)
  }

  function OwnWinner(packs: seq<Pack>, e: string, f: string): Option<Field> {
    Winner(AllEntities(OwnLayers(Ordered(packs))), e, f)
  }

  /// Patches have the last word in the layers of packs.
  lemma PackWinner(packs: seq<Pack>, company: Layer, e: string, f: string)
    ensures Winner(AllEntities(PackLayers(packs, Some(company))), e, f)
         == var given := PatchesGive(packs, RolesThere(packs, company, e), e, f);
            if given.Some? then given else OwnWinner(packs, e, f)
  {
    var own := OwnLayers(Ordered(packs));
    var es := AllEntities(own + Optional(Some(company)));
    var ps := AllPatches(Ordered(packs));
    EntitiesApart(own, [company]);
    OneLayer(company);
    if packs == [] {
      assert own == [] && ps == [];
    } else if ps != [] {
      var layer := PatchLayer(packs, Some(company));
      EntitiesApart(own, [layer]);
      OneLayer(layer);
      RolesListedIn(es, e);
      PatchAllWinner(ps, MergedRoles(WithRoles(es)), es, e, f);
      WinnerConcat(AllEntities(own), layer.entities, e, f);
    }
  }

  /// Which fields pack layers have, by the roles there.
  lemma PackFieldsByRole(packs: seq<Pack>, company: Layer, e: string, f: string)
    ensures HasField(AllEntities(PackLayers(packs, Some(company))), e, f)
       <==> HasField(AllEntities(OwnLayers(Ordered(packs))), e, f)
            || PatchesGive(packs, RolesThere(packs, company, e), e, f).Some?
  {
    PackWinner(packs, company, e, f);
    WinnerKnown(AllEntities(PackLayers(packs, Some(company))), e, f);
    WinnerKnown(AllEntities(OwnLayers(Ordered(packs))), e, f);
  }
}
