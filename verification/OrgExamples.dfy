/// A move that a copy of a path misses, and two moves that cross.

module OrgExamples {
  import opened Basics
  import opened OrgTree
  import opened OrgService
  import opened OrgPaths
  import opened OrgRaces

  // ---- a copy that stays wrong ----

  function Top(): map<Id, Unit> { map["r" := Unit(None, "/r/", 0, true)] }

  function TwoBranches(): map<Id, Unit> { WithUnit(WithUnit(Top(), "a", "r"), "b", "r") }

  function BeforeMove(): map<Id, Unit> { WithUnit(TwoBranches(), "x", "a") }

  lemma AllInScope(path: string)
    requires path != "" && path[0] == '/'
    ensures InScope(path, ["/"])
  {
    assert ["/"][0] <= path;
  }

  /// A top unit with two units below it, and one below the first of them.
  method FourUnits() returns (org: OrgUnits)
    ensures fresh(org) && org.Valid() && org.units == BeforeMove() && org.moves == []
    ensures "x" in org.units && org.units["x"].path == "/r/a/x/"
  {
    org := new OrgUnits();
    assert forall r :: !IsRoot(org.units, r);
    var _ := org.Bootstrap("r");
    assert "/" + "r" + "/" == "/r/";
    AllInScope("/r/");
    var _ := org.Create("a", "r", ["/"]);
    var _ := org.Create("b", "r", ["/"]);
    assert org.units == TwoBranches();
    AllInScope("/r/a/");
    assert org.units["a"].path == "/r/a/";
    var _ := org.Create("x", "a", ["/"]);
    PathsBefore();
  }

  lemma PathsBefore()
    ensures var units := BeforeMove();
            && units["x"] == Unit(Some("a"), "/r/a/x/", 2, true) && units["b"] == Unit(Some("r"), "/r/b/", 1, true)
            && forall u :: u in units ==> units[u].depth <= 2 && units[u].path[..1] == "/"
  {
  }

  lemma CanMoveX()
    requires IsTree(BeforeMove())
    ensures CanMove(BeforeMove(), "x", "b") && Moved(BeforeMove(), "x", "b")["x"].path == "/r/b/x/"
  {
    PathsBefore();
  }

  /// A move is handled, and then a path stored that was read before it.
  method StoreLate(copies: PathCopies, path: string, m: Move, ghost before: map<Id, Unit>, ghost after: map<Id, Unit>)
    requires copies.Valid() && copies.feed == NewFeed(before) && "x" in before && path == before["x"].path
    requires IsTree(after) && IsStep(before, after, m)
    modifies copies
    ensures copies.Valid() && copies.feed.moves == [m] && copies.feed.trees == [before, after] && copies.feed.next == 1
    ensures "record" in copies.paths && copies.paths["record"] == path
  {
    copies.Happens(TreeMoves(m, after));
    copies.HandleMove(0, m);
    copies.Add("record", path, "x", 0);
  }

  /// The event comes again.
  method DeliverAgain(copies: PathCopies, m: Move, again: nat)
    requires copies.Valid() && copies.feed.moves == [m] && copies.feed.next == 1
    modifies copies
    ensures copies.Valid() && copies.feed == old(copies.feed) && copies.paths == old(copies.paths)
  {
    var i := 0;
    while i < again
      invariant copies.Valid() && copies.feed == old(copies.feed)
    {
      copies.HandleMove(0, m);
      i := i + 1;
    }
  }

  /// The unit of a new record moves, and the move is handled, between the reading of its path
  /// and the insert. However often the event comes again, the record keeps the old path.
  method MissedMove(again: nat) returns (org: OrgUnits, copies: PathCopies)
    ensures org.Valid() && "x" in org.units
    ensures copies.Valid() && copies.feed.next == |copies.feed.moves| && copies.feed.trees[copies.feed.next] == org.units
    ensures "record" in copies.paths && copies.paths["record"] != org.units["x"].path
  {
    org := FourUnits();
    copies := new PathCopies(org.units);
    ghost var before := org.units;
    var path := org.units["x"].path;
    MoveX(org);
    StoreLate(copies, path, org.moves[0], before, org.units);
    DeliverAgain(copies, org.moves[0], again);
    BranchesDiffer();
  }

  lemma BranchesDiffer()
    ensures "/r/a/x/" != "/r/b/x/"
  {
    assert "/r/a/x/"[3] != "/r/b/x/"[3];
  }

  method MoveX(org: OrgUnits)
    requires org.Valid() && org.units == BeforeMove() && org.moves == []
    modifies org
    ensures org.Valid() && "x" in org.units && org.units["x"].path == "/r/b/x/"
    ensures |org.moves| == 1 && IsTree(org.units) && IsStep(old(org.units), org.units, org.moves[0])
  {
    PathsBefore();
    CanMoveX();
    AllInScope("/r/a/x/");
    AllInScope("/r/b/");
    MoveIsStep(org.units, "x", "b");
    var _ := org.MoveUnit("x", "b", ["/"]);
  }

  // ---- two moves that cross ----

  lemma BranchPaths()
    ensures var units := TwoBranches();
            && units["a"] == Unit(Some("r"), "/r/a/", 1, true) && units["b"] == Unit(Some("r"), "/r/b/", 1, true)
            && forall u :: u in units ==> units[u].depth <= 1
  {
  }

  lemma BranchesAreTree()
    ensures IsTree(TwoBranches())
  {
    assert "/" + "r" + "/" == "/r/";
    assert UnitFits(Top(), "r");
    CreateKeepsTree(Top(), "a", "r");
    CreateKeepsTree(WithUnit(Top(), "a", "r"), "b", "r");
  }

  lemma MovesCross()
    ensures CanMove(TwoBranches(), "a", "b") && CanMove(TwoBranches(), "b", "a")
  {
    BranchPaths();
    assert "/r/a/"[3] != "/r/b/"[3];
  }

  /// Two units are moved at the same time, each under the other. Both moves are accepted, and
  /// each unit ends up as the parent of the other.
  lemma CrossedMoves()
    ensures var units := TwoBranches();
            && IsTree(units) && CanMove(units, "a", "b") && CanMove(units, "b", "a")
            && var first := Moved(units, "a", "b");
               var second := LateMove(units, first, "b", "a");
               IsTree(first) && !IsTree(second) && second["a"].parent == Some("b") && second["b"].parent == Some("a")
  {
    var units := TwoBranches();
    BranchesAreTree();
    MovesCross();
    MoveKeepsTree(units, "a", "b");
    CrossedPaths();
    LateMoveFits(units, Moved(units, "a", "b"), "b", "a");
  }

  lemma CrossedPaths()
    ensures CanMove(TwoBranches(), "a", "b")
    ensures var first := Moved(TwoBranches(), "a", "b");
            && first["b"].path == "/r/b/" == TwoBranches()["b"].path
            && first["a"].path != TwoBranches()["a"].path && first["a"].parent == Some("b")
  {
    MovesCross();
    BranchPaths();
    assert "/r/b/" + "a" + "/" == "/r/b/a/";
    assert |"/r/b/a/"| != |"/r/a/"|;
  }
}
