/// Commands that read the tree before their transaction and commit on a tree that others may
/// have changed meanwhile. Nothing guards the commit.

module OrgRaces {
  import opened Basics
  import opened OrgTree
  import opened OrgService

  // ---- the same path in two trees ----

  lemma SameDepth(a: map<Id, Unit>, b: map<Id, Unit>, x: Id)
    requires IsTree(a) && IsTree(b) && x in a && x in b && a[x].path == b[x].path
    ensures a[x].depth == b[x].depth && (a[x].parent.Some? <==> b[x].parent.Some?)
  {
    PathNamesAncestors(a, x);
    PathNamesAncestors(b, x);
    assert UnitFits(a, x) && UnitFits(b, x);
  }

  /// A path that starts with a unit's former path shows that the unit is still there.
  lemma {:induction false} StartShowsUnit(units: map<Id, Unit>, above: string, id: Id, x: Id)
    requires IsTree(units) && id in units && x in units && IsId(id)
    requires above != "" && above[|above| - 1] == '/' && above + id + "/" <= units[x].path
    ensures units[id].path == above + id + "/"
    decreases units[x].depth
  {
    var p := above + id + "/";
    AboveOf(units, x);
    if p == units[x].path {
      SameEnd(above, id, Above(units, x), x);
    } else {
      PrefixEnds(p, Above(units, x), x);
      assert UnitFits(units, x);
      if units[x].parent.Some? { StartShowsUnit(units, above, id, units[x].parent.value); }
    }
  }

  // ---- moving ----

  /// The commit: paths and depths by what was read, the parent in any case.
  function LateMove(early: map<Id, Unit>, later: map<Id, Unit>, id: Id, parent: Id): map<Id, Unit>
    requires id in early && parent in early
  {
    var oldPath, newPath := early[id].path, early[parent].path + id + "/";
    var delta := early[parent].depth + 1 - early[id].depth;
    map x | x in later ::
      var up := if x == id then Some(parent) else later[x].parent;
      if !(oldPath <= later[x].path) then later[x].(parent := up)
      else Unit(up, newPath + later[x].path[|oldPath|..], Max(0, later[x].depth + delta), later[x].active)
  }

  /// The unit and the parent are where they were, and the move still fits.
  predicate StillFits(early: map<Id, Unit>, later: map<Id, Unit>, id: Id, parent: Id)
    requires id in early && parent in early && id in later && parent in later
  {
    && later[parent].path == early[parent].path && (later[id].active ==> later[parent].active) && DepthFits(later, id, parent)
  }

  /// A move that was decided on an earlier tree keeps the tree exactly when unit and parent
  /// are in place and the move still fits, or the unit has already been moved there.
  lemma LateMoveFits(early: map<Id, Unit>, later: map<Id, Unit>, id: Id, parent: Id)
    requires IsTree(early) && CanMove(early, id, parent) && IsTree(later) && id in later && parent in later
    ensures IsTree(LateMove(early, later, id, parent))
       <==> if later[id].path == early[id].path then StillFits(early, later, id, parent)
            else later[id].parent == Some(parent)
  {
    if later[id].path == early[id].path {
      SameDepth(early, later, id);
      if StillFits(early, later, id, parent) {
        SameDepth(early, later, parent);
        LateIsMoved(early, later, id, parent);
        MoveKeepsTree(later, id, parent);
      } else if IsTree(LateMove(early, later, id, parent)) {
        StaleBreaks(early, later, id, parent);
      }
    } else {
      NothingRebased(early, later, id, parent);
      if later[id].parent == Some(parent) {
        assert later[id := later[id].(parent := Some(parent))] == later;
      } else if IsTree(LateMove(early, later, id, parent)) {
        SameParent(early, later, id, parent);
      }
    }
  }

  lemma LateIsMoved(early: map<Id, Unit>, later: map<Id, Unit>, id: Id, parent: Id)
    requires id in early && parent in early && id in later && parent in later
    requires later[id].path == early[id].path && later[id].depth == early[id].depth
    requires later[parent].path == early[parent].path && later[parent].depth == early[parent].depth
    ensures LateMove(early, later, id, parent) == Moved(later, id, parent)
  {
  }

  lemma StaleBreaks(early: map<Id, Unit>, later: map<Id, Unit>, id: Id, parent: Id)
    requires IsTree(early) && CanMove(early, id, parent) && IsTree(later) && id in later && parent in later
    requires later[id].path == early[id].path && later[id].depth == early[id].depth
    requires IsTree(LateMove(early, later, id, parent))
    ensures StillFits(early, later, id, parent)
  {
    var after := LateMove(early, later, id, parent);
    assert UnitFits(after, id);
    assert later[id].path[|early[id].path|..] == "";
    assert after[id].path == early[parent].path + id + "/";
    SameLength(after[parent].path, early[parent].path, id);
    assert !(early[id].path <= later[parent].path);
    SameDepth(early, later, parent);
    forall x | x in later && later[id].path <= later[x].path
      ensures later[x].depth + later[parent].depth + 1 - later[id].depth < MAX_DEPTH
    {
      assert UnitFits(after, x);
    }
  }

  lemma SameLength(p: string, q: string, id: string)
    requires p + id + "/" == q + id + "/"
    ensures p == q
  {
    assert p == (p + id + "/")[..|p|] && q == (q + id + "/")[..|q|];
  }

  lemma NothingRebased(early: map<Id, Unit>, later: map<Id, Unit>, id: Id, parent: Id)
    requires IsTree(early) && id in early && parent in early && IsTree(later) && id in later
    requires later[id].path != early[id].path
    ensures LateMove(early, later, id, parent) == later[id := later[id].(parent := Some(parent))]
  {
    AboveOf(early, id);
    forall x | x in later ensures !(early[id].path <= later[x].path) {
      if early[id].path <= later[x].path { StartShowsUnit(later, Above(early, id), id, x); }
    }
  }

  lemma SameParent(early: map<Id, Unit>, later: map<Id, Unit>, id: Id, parent: Id)
    requires IsTree(later) && id in later && parent in later && id != parent
    requires IsTree(later[id := later[id].(parent := Some(parent))])
    ensures later[id].parent == Some(parent)
  {
    var after := later[id := later[id].(parent := Some(parent))];
    assert UnitFits(after, id);
    AboveOf(later, id);
    PathShape(later, parent);
    SameEnd(later[parent].path, id, Above(later, id), id);
    if later[id].parent.Some? { PathsDiffer(later, later[id].parent.value, parent); }
  }

  // ---- creating ----

  function LateCreate(early: map<Id, Unit>, later: map<Id, Unit>, id: Id, parent: Id): map<Id, Unit>
    requires parent in early
  {
    later[id := Unit(Some(parent), early[parent].path + id + "/", early[parent].depth + 1, true)]
  }

  /// A unit made under a parent read earlier keeps the tree exactly when the parent is still
  /// in place and active.
  lemma LateCreateFits(early: map<Id, Unit>, later: map<Id, Unit>, id: Id, parent: Id)
    requires IsTree(early) && parent in early && early[parent].active && early[parent].depth + 1 < MAX_DEPTH
    requires IsTree(later) && parent in later && IsId(id) && id !in later
    ensures IsTree(LateCreate(early, later, id, parent)) <==> later[parent].path == early[parent].path && later[parent].active
  {
    var after := LateCreate(early, later, id, parent);
    if IsTree(after) {
      assert UnitFits(after, id);
      SameLength(later[parent].path, early[parent].path, id);
    }
    if later[parent].path == early[parent].path && later[parent].active {
      SameDepth(early, later, parent);
      CreateKeepsTree(later, id, parent);
      assert after == WithUnit(later, id, parent);
    }
  }

  // ---- deactivating, and the top unit ----

  /// A unit is deactivated without harm exactly when no child has become active meanwhile.
  lemma LateDeactivateFits(later: map<Id, Unit>, id: Id)
    requires IsTree(later) && id in later && later[id].parent.Some?
    ensures IsTree(Inactive(later, id)) <==> !HasActiveChild(later, id)
  {
    if HasActiveChild(later, id) {
      var c :| c in later && later[c].parent == Some(id) && later[c].active;
      assert UnitFits(later, c);
      assert !UnitFits(Inactive(later, id), c);
    } else {
      DeactivateKeepsTree(later, id);
    }
  }

  /// A top unit is made without harm exactly when there still is none.
  lemma LateBootstrapFits(later: map<Id, Unit>, id: Id)
    requires IsTree(later) && IsId(id) && id !in later
    ensures IsTree(later[id := Unit(None, "/" + id + "/", 0, true)]) <==> later == map[]
  {
    var after := later[id := Unit(None, "/" + id + "/", 0, true)];
    if later != map[] {
      RootOrEmpty(later);
      var r :| IsRoot(later, r);
      assert IsRoot(after, r) && IsRoot(after, id) && r != id;
    } else {
      assert UnitFits(after, id);
    }
  }
}
