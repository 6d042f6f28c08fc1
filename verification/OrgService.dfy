/// Commands on the organization tree.

module OrgService {
  import opened Basics
  import opened OrgTree

  datatype Move = Move(unit: Id, oldPath: string, newPath: string)

  datatype OrgError =
    | NotFound | Forbidden | ParentInactive | TooDeep | RootFixed | UnderItself | HasActiveChildren

  datatype Result<T> = Ok(value: T) | Err(error: OrgError)

  // ---- moving a subtree ----

  /// A path after a move: the old prefix is replaced.
  function Rebase(path: string, oldPath: string, newPath: string): string {
    if oldPath <= path then newPath + path[|oldPath|..] else path
  }

  function Moved(units: map<Id, Unit>, id: Id, parent: Id): map<Id, Unit>
    requires id in units && parent in units
  {
    var oldPath, newPath := units[id].path, units[parent].path + id + "/";
    var delta := units[parent].depth + 1 - units[id].depth;
    map x | x in units ::
      if !(oldPath <= units[x].path) then units[x]
      else Unit(if x == id then Some(parent) else units[x].parent,
                newPath + units[x].path[|oldPath|..], Max(0, units[x].depth + delta), units[x].active)
  }

  function Max(a: int, b: int): nat
    requires a >= 0
  {
    if a < b then b else a
  }

  /// The move keeps every unit of the subtree within the depth limit.
  predicate DepthFits(units: map<Id, Unit>, id: Id, parent: Id)
    requires id in units && parent in units
  {
    forall x :: x in units && units[id].path <= units[x].path ==>
      units[x].depth + units[parent].depth + 1 - units[id].depth < MAX_DEPTH
  }

  /// The move keeps the tree one.
  predicate MoveFits(units: map<Id, Unit>, id: Id, parent: Id) {
    && id in units && parent in units && units[id].parent.Some? && (units[id].active ==> units[parent].active)
    && !(units[id].path <= units[parent].path) && DepthFits(units, id, parent)
  }

  predicate CanMove(units: map<Id, Unit>, id: Id, parent: Id) { MoveFits(units, id, parent) && units[parent].active }

  lemma DeeperBelow(units: map<Id, Unit>, a: Id, b: Id)
    requires IsTree(units) && a in units && b in units && AtOrAbove(units, a, b)
    ensures units[a].depth <= units[b].depth && (a != b ==> units[a].depth < units[b].depth)
    decreases units[b].depth
  {
    assert UnitFits(units, b);
    if a != b { DeeperBelow(units, a, units[b].parent.value); }
  }

  /// A unit below the moved one has its parent in the subtree; any other unit outside.
  lemma SubtreeParent(units: map<Id, Unit>, id: Id, x: Id)
    requires IsTree(units) && id in units && x in units && x != id && units[x].parent.Some?
    ensures units[x].parent.value in units
    ensures units[id].path <= units[x].path <==> units[id].path <= units[units[x].parent.value].path
  {
    assert UnitFits(units, x);
    PrefixIsAbove(units, id, x);
    PrefixIsAbove(units, id, units[x].parent.value);
  }

  lemma MovedUnitFits(units: map<Id, Unit>, id: Id, parent: Id, x: Id)
    requires IsTree(units) && MoveFits(units, id, parent) && x in units
    ensures UnitFits(Moved(units, id, parent), x)
  {
    var after := Moved(units, id, parent);
    var oldPath := units[id].path;
    assert UnitFits(units, x);
    if x == id {
      assert units[x].path[|oldPath|..] == "";
    } else if oldPath <= units[x].path {
      BelowFits(units, id, parent, x);
    } else if units[x].parent.Some? {
      SubtreeParent(units, id, x);
    }
  }

  lemma BelowFits(units: map<Id, Unit>, id: Id, parent: Id, x: Id)
    requires IsTree(units) && MoveFits(units, id, parent) && x in units && x != id && units[id].path <= units[x].path
    ensures UnitFits(Moved(units, id, parent), x)
  {
    var after := Moved(units, id, parent);
    assert UnitFits(units, x);
    PrefixIsAbove(units, id, x);
    var up := units[x].parent.value;
    SubtreeParent(units, id, x);
    BelowPath(units, id, parent, x, up);
    BelowDepth(units, id, parent, x, up);
    assert after[x].parent == Some(up) && after[x].active == units[x].active && after[up].active == units[up].active;
  }

  lemma BelowPath(units: map<Id, Unit>, id: Id, parent: Id, x: Id, up: Id)
    requires id in units && parent in units && x in units && up in units
    requires units[x].path == units[up].path + x + "/" && units[id].path <= units[up].path
    ensures Moved(units, id, parent)[x].path == Moved(units, id, parent)[up].path + x + "/"
  {
    CutBehind(units[id].path, units[up].path, x, units[parent].path + id + "/");
  }

  lemma BelowDepth(units: map<Id, Unit>, id: Id, parent: Id, x: Id, up: Id)
    requires IsTree(units) && MoveFits(units, id, parent) && x in units && up in units
    requires units[id].path <= units[up].path && units[id].path <= units[x].path && units[x].depth == units[up].depth + 1
    ensures Moved(units, id, parent)[x].depth == Moved(units, id, parent)[up].depth + 1
    ensures Moved(units, id, parent)[x].depth < MAX_DEPTH
  {
    PrefixIsAbove(units, id, up);
    DeeperBelow(units, id, up);
  }

  lemma CutBehind(oldPath: string, up: string, x: string, newPath: string)
    requires oldPath <= up
    ensures newPath + (up + x + "/")[|oldPath|..] == newPath + up[|oldPath|..] + x + "/"
  {
  }

  lemma MoveKeepsTree(units: map<Id, Unit>, id: Id, parent: Id)
    requires IsTree(units) && MoveFits(units, id, parent)
    ensures IsTree(Moved(units, id, parent))
  {
    var after := Moved(units, id, parent);
    forall x | x in after ensures UnitFits(after, x) {
      MovedUnitFits(units, id, parent, x);
    }
    forall a, b | IsRoot(after, a) && IsRoot(after, b) ensures a == b {
      assert IsRoot(units, a) && IsRoot(units, b);
    }
  }

  /// A move changes exactly the units at or below the moved one: their paths get the new
  /// prefix, their depths shift alike, and only the moved unit gets another parent.
  lemma MoveChangesSubtree(units: map<Id, Unit>, id: Id, parent: Id, x: Id)
    requires IsTree(units) && CanMove(units, id, parent) && x in units
    ensures var after := Moved(units, id, parent);
            && after.Keys == units.Keys
            && after[x].path == Rebase(units[x].path, units[id].path, after[id].path)
            && (!AtOrAbove(units, id, x) ==> after[x] == units[x])
            && (AtOrAbove(units, id, x) ==> after[x].depth - after[id].depth == units[x].depth - units[id].depth)
            && (AtOrAbove(units, id, x) && units[id].parent != Some(parent) ==> after[x].path != units[x].path)
            && (x != id ==> after[x].parent == units[x].parent) && after[id].parent == Some(parent)
  {
    PrefixIsAbove(units, id, x);
    var after := Moved(units, id, parent);
    assert units[id].path[|units[id].path|..] == "";
    if AtOrAbove(units, id, x) {
      DeeperBelow(units, id, x);
      if units[id].parent != Some(parent) { NewPathDiffers(units, id, parent, x); }
    }
  }

  lemma NewPathDiffers(units: map<Id, Unit>, id: Id, parent: Id, x: Id)
    requires IsTree(units) && CanMove(units, id, parent) && x in units && units[id].path <= units[x].path
    requires units[id].parent != Some(parent)
    ensures units[parent].path + id + "/" + units[x].path[|units[id].path|..] != units[x].path
  {
    assert UnitFits(units, id);
    var up := units[id].parent.value;
    var newPath := units[parent].path + id + "/";
    if newPath + units[x].path[|units[id].path|..] == units[x].path {
      assert |newPath| == |units[id].path|;
      assert newPath == units[x].path[..|newPath|] == units[id].path;
      PathShape(units, parent);
      PathShape(units, up);
      SameEnd(units[parent].path, id, units[up].path, id);
      PathsDiffer(units, parent, up);
    }
  }

  // ---- the service ----

  function WithUnit(units: map<Id, Unit>, id: Id, parent: Id): map<Id, Unit>
    requires parent in units
  {
    units[id := Unit(Some(parent), units[parent].path + id + "/", units[parent].depth + 1, true)]
  }

  /// A caller acts at a path when it is at or below one of the caller's paths.
  predicate InScope(path: string, scopes: seq<string>) { exists i :: 0 <= i < |scopes| && scopes[i] <= path }

  class OrgUnits {
    var units: map<Id, Unit>
    /// The moves published so far, and the tree before each of them and now.
    var moves: seq<Move>
    ghost var trees: seq<map<Id, Unit>>

    ghost predicate Valid()
      reads this
    {
      IsTree(units) && IsHistory(trees, moves) && trees[|moves|] == units
    }

    constructor ()
      ensures Valid() && units == map[] && moves == []
    {
      units := map[];
      moves := [];
      trees := [map[]];
    }

    /// Makes the top unit, once.
    method Bootstrap(id: Id) returns (root: Id)
      requires Valid() && IsId(id) && id !in units
      modifies this
      ensures Valid() && moves == old(moves) && IsRoot(units, root)
      ensures if exists r :: IsRoot(old(units), r) then units == old(units)
              else root == id && units == old(units)[id := Unit(None, "/" + id + "/", 0, true)]
    {
      if r :| r in units && units[r].parent.None? {
        assert IsRoot(units, r);
        return r;
      }
      RootOrEmpty(units);
      assert forall r :: !IsRoot(units, r);
      assert units == map[];
      units := units[id := Unit(None, "/" + id + "/", 0, true)];
      HistoryGrows(trees, moves, units);
      trees := trees[|moves| := units];
      root := id;
    }

    method Create(id: Id, parent: Id, scopes: seq<string>) returns (r: Result<Id>)
      requires Valid() && IsId(id) && id !in units
      modifies this
      ensures Valid() && moves == old(moves)
      ensures r == if parent !in old(units) then Err(NotFound)
                   else if !InScope(old(units)[parent].path, scopes) then Err(Forbidden)
                   else if !old(units)[parent].active then Err(ParentInactive)
                   else if old(units)[parent].depth + 1 >= 15 then Err(TooDeep) else Ok(id)
      ensures units == if r.Err? then old(units) else WithUnit(old(units), id, parent)
    {
      if parent !in units { return Err(NotFound); }
      var p := units[parent];
      if !InScope(p.path, scopes) { return Err(Forbidden); }
      if !p.active { return Err(ParentInactive); }
      if p.depth + 1 >= MAX_DEPTH { return Err(TooDeep); }
      CreateKeepsTree(units, id, parent);
      HistoryGrows(trees, moves, WithUnit(units, id, parent));
      units := WithUnit(units, id, parent);
      trees := trees[|moves| := units];
      r := Ok(id);
    }

    method MoveUnit(id: Id, parent: Id, scopes: seq<string>) returns (r: Result<Id>)
      requires Valid()
      modifies this
      ensures Valid()
      ensures var was := old(units);
              r == if id !in was then Err(NotFound)
                   else if was[id].parent.None? then Err(RootFixed)
                   else if parent !in was then Err(NotFound)
                   else if !InScope(was[id].path, scopes) || !InScope(was[parent].path, scopes) then Err(Forbidden)
                   else if was[id].path <= was[parent].path then Err(UnderItself)
                   else if !was[parent].active then Err(ParentInactive)
                   else if was[id].parent == Some(parent) then Ok(id)
                   else if !DepthFits(was, id, parent) then Err(TooDeep) else Ok(id)
      ensures if r.Err? || old(units)[id].parent == Some(parent) then units == old(units) && moves == old(moves)
              else units == Moved(old(units), id, parent)
                   && moves == old(moves) + [Move(id, old(units)[id].path, units[id].path)]
    {
      if id !in units { return Err(NotFound); }
      var unit := units[id];
      if unit.parent.None? { return Err(RootFixed); }
      if parent !in units { return Err(NotFound); }
      if !InScope(unit.path, scopes) || !InScope(units[parent].path, scopes) { return Err(Forbidden); }
      if unit.path <= units[parent].path { return Err(UnderItself); }
      if !units[parent].active { return Err(ParentInactive); }
      if unit.parent == Some(parent) { return Ok(id); }
      if !DepthFits(units, id, parent) { return Err(TooDeep); }
      var after := Moved(units, id, parent);
      MoveKeepsTree(units, id, parent);
      MoveIsStep(units, id, parent);
      var move := Move(id, unit.path, after[id].path);
      HistoryMoves(trees, moves, move, after);
      trees := trees + [after];
      moves := moves + [move];
      units := after;
      r := Ok(id);
    }

    method Deactivate(id: Id, scopes: seq<string>) returns (r: Result<Id>)
      requires Valid()
      modifies this
      ensures Valid() && moves == old(moves)
      ensures var was := old(units);
              r == if id !in was then Err(NotFound)
                   else if !InScope(was[id].path, scopes) then Err(Forbidden)
                   else if was[id].parent.None? then Err(RootFixed)
                   else if HasActiveChild(was, id) then Err(HasActiveChildren)
                   else Ok(id)
      ensures units == if r.Err? then old(units) else Inactive(old(units), id)
    {
      if id !in units { return Err(NotFound); }
      if !InScope(units[id].path, scopes) { return Err(Forbidden); }
      if units[id].parent.None? { return Err(RootFixed); }
      if HasActiveChild(units, id) { return Err(HasActiveChildren); }
      DeactivateKeepsTree(units, id);
      HistoryGrows(trees, moves, Inactive(units, id));
      units := Inactive(units, id);
      trees := trees[|moves| := units];
      r := Ok(id);
    }
  }

  lemma RootOrEmpty(units: map<Id, Unit>)
    requires IsTree(units)
    ensures units == map[] || exists r :: IsRoot(units, r)
  {
    if units != map[] {
      var x :| x in units;
      RootAbove(units, x);
    }
  }

  lemma {:induction false} RootAbove(units: map<Id, Unit>, x: Id)
    requires IsTree(units) && x in units
    ensures exists r :: IsRoot(units, r)
    decreases units[x].depth
  {
    assert UnitFits(units, x);
    if units[x].parent.Some? { RootAbove(units, units[x].parent.value); } else { assert IsRoot(units, x); }
  }

  lemma CreateKeepsTree(units: map<Id, Unit>, id: Id, parent: Id)
    requires IsTree(units) && IsId(id) && id !in units && parent in units && units[parent].active
    requires units[parent].depth + 1 < MAX_DEPTH
    ensures IsTree(WithUnit(units, id, parent))
  {
    var after := WithUnit(units, id, parent);
    forall x | x in after ensures UnitFits(after, x) {
      if x != id {
        assert UnitFits(units, x);
        StillFits(units, after, x);
      }
    }
    SameRoots(units, after);
  }

  lemma StillFits(units: map<Id, Unit>, after: map<Id, Unit>, x: Id)
    requires IsTree(units) && x in units && x in after && after[x] == units[x]
    requires forall y :: y in units ==> y in after && after[y].path == units[y].path && after[y].depth == units[y].depth
    requires forall y :: y in units && units[x].parent == Some(y) && units[x].active ==> after[y].active
    ensures UnitFits(after, x)
  {
    assert UnitFits(units, x);
  }

  lemma SameRoots(units: map<Id, Unit>, after: map<Id, Unit>)
    requires IsTree(units) && forall x :: IsRoot(after, x) ==> IsRoot(units, x)
    ensures forall a, b :: IsRoot(after, a) && IsRoot(after, b) ==> a == b
  {
  }

  predicate HasActiveChild(units: map<Id, Unit>, id: Id) {
    exists c :: c in units && units[c].parent == Some(id) && units[c].active
  }

  function Inactive(units: map<Id, Unit>, id: Id): map<Id, Unit>
    requires id in units
  {
    units[id := units[id].(active := false)]
  }

  lemma DeactivateKeepsTree(units: map<Id, Unit>, id: Id)
    requires IsTree(units) && id in units && units[id].parent.Some?
    requires !HasActiveChild(units, id)
    ensures IsTree(Inactive(units, id))
  {
    var after := Inactive(units, id);
    forall x | x in after ensures UnitFits(after, x) {
      assert UnitFits(units, x);
      if x != id { StillFits(units, after, x); }
    }
    SameRoots(units, after);
  }

  // ---- history ----

  /// From one tree to the next: a move rebases the paths of all units there were.
  ghost predicate IsStep(before: map<Id, Unit>, after: map<Id, Unit>, m: Move) {
    && m.unit in before && m.oldPath == before[m.unit].path
    && forall x :: x in before ==> x in after && after[x].path == Rebase(before[x].path, m.oldPath, m.newPath)
  }

  /// The tree before each move and the tree now.
  ghost predicate IsHistory(trees: seq<map<Id, Unit>>, moves: seq<Move>) {
    && |trees| == |moves| + 1
    && forall i {:trigger FitsAt(trees, moves, i)} :: 0 <= i <= |moves| ==> FitsAt(trees, moves, i)
  }

  ghost predicate FitsAt(trees: seq<map<Id, Unit>>, moves: seq<Move>, i: nat)
    requires |trees| == |moves| + 1 && i <= |moves|
  {
    IsTree(trees[i]) && (i < |moves| ==> IsStep(trees[i], trees[i + 1], moves[i]))
  }

  lemma StepAt(trees: seq<map<Id, Unit>>, moves: seq<Move>, i: nat)
    requires IsHistory(trees, moves) && i <= |moves|
    ensures |trees| == |moves| + 1 && IsTree(trees[i])
    ensures i < |moves| ==> IsStep(trees[i], trees[i + 1], moves[i]) && IsTree(trees[i + 1])
  {
    assert FitsAt(trees, moves, i);
    if i < |moves| { assert FitsAt(trees, moves, i + 1); }
  }

  lemma MoveIsStep(units: map<Id, Unit>, id: Id, parent: Id)
    requires IsTree(units) && CanMove(units, id, parent)
    ensures IsStep(units, Moved(units, id, parent), Move(id, units[id].path, Moved(units, id, parent)[id].path))
  {
    forall x | x in units
      ensures Moved(units, id, parent)[x].path
           == Rebase(units[x].path, units[id].path, Moved(units, id, parent)[id].path)
    {
      MoveChangesSubtree(units, id, parent, x);
    }
  }

  lemma HistoryMoves(trees: seq<map<Id, Unit>>, moves: seq<Move>, m: Move, after: map<Id, Unit>)
    requires IsHistory(trees, moves) && IsTree(after) && IsStep(trees[|moves|], after, m)
    ensures IsHistory(trees + [after], moves + [m])
  {
    var ts, ms := trees + [after], moves + [m];
    forall i | 0 <= i <= |ms| ensures FitsAt(ts, ms, i) {
      if i <= |moves| { StepAt(trees, moves, i); }
    }
  }

  /// Between moves units are added or deactivated; no path changes.
  lemma HistoryGrows(trees: seq<map<Id, Unit>>, moves: seq<Move>, after: map<Id, Unit>)
    requires IsHistory(trees, moves) && IsTree(after)
    requires forall x :: x in trees[|moves|] ==> x in after && after[x].path == trees[|moves|][x].path
    ensures IsHistory(trees[|moves| := after], moves)
  {
    var ts := trees[|moves| := after];
    forall i | 0 <= i <= |moves| ensures FitsAt(ts, moves, i) {
      StepAt(trees, moves, i);
    }
  }
}
