/// What other services do with paths: who may act where, who holds a role nearest, and
/// copies of paths that follow the published moves.

module OrgPaths {
  import opened Basics
  import opened OrgTree
  import opened OrgService

  // ---- permissions ----

  /// One role assignment in a token.
  datatype AclEntry = AclEntry(unit: Id, path: string, granted: seq<string>)

  predicate Grants(granted: seq<string>, perm: string, matches: (string, string) -> bool) {
    exists i :: 0 <= i < |granted| && matches(granted[i], perm)
  }

  /// The loop behind `acl.some`; `matches` compares a granted permission with a wanted one.
  method HasPermission(acl: seq<AclEntry>, platform: seq<string>, perm: string, target: Option<string>,
                       matches: (string, string) -> bool) returns (r: bool)
    ensures r <==> perm in platform || exists i :: 0 <= i < |acl| && Grants(acl[i].granted, perm, matches)
                                         && (target.Some? ==> acl[i].path <= target.value)
  {
    if perm in platform { return true; }
    var i := 0;
    while i < |acl|
      invariant i <= |acl|
      invariant forall k :: 0 <= k < i ==>
                  !(Grants(acl[k].granted, perm, matches) && (target.Some? ==> acl[k].path <= target.value))
    {
      if Grants(acl[i].granted, perm, matches) && (target.None? || acl[i].path <= target.value) { return true; }
      i := i + 1;
    }
    r := false;
  }

  /// The paths where a permission is granted.
  function ScopePathsFor(acl: seq<AclEntry>, perm: string, matches: (string, string) -> bool): (r: seq<string>)
    ensures forall p :: p in r <==> exists i :: 0 <= i < |acl| && Grants(acl[i].granted, perm, matches) && acl[i].path == p
  {
    if acl == [] then []
    else
      var n := |acl| - 1;
      assert forall i :: 0 <= i < n ==> acl[..n][i] == acl[i];
      var rest := ScopePathsFor(acl[..n], perm, matches);
      if Grants(acl[n].granted, perm, matches) then rest + [acl[n].path] else rest
  }

  /// Tokens name the units' current paths.
  ghost predicate Current(acl: seq<AclEntry>, units: map<Id, Unit>) {
    forall i :: 0 <= i < |acl| ==> acl[i].unit in units && acl[i].path == units[acl[i].unit].path
  }

  /// A unit is in scope exactly when the permission is granted at it or above it.
  lemma ScopeIsAncestry(acl: seq<AclEntry>, perm: string, matches: (string, string) -> bool, units: map<Id, Unit>, b: Id)
    requires IsTree(units) && b in units && Current(acl, units)
    ensures InScope(units[b].path, ScopePathsFor(acl, perm, matches))
       <==> exists i :: 0 <= i < |acl| && Grants(acl[i].granted, perm, matches) && AtOrAbove(units, acl[i].unit, b)
  {
    var scopes := ScopePathsFor(acl, perm, matches);
    if InScope(units[b].path, scopes) {
      var k :| 0 <= k < |scopes| && scopes[k] <= units[b].path;
      assert scopes[k] in scopes;
      var i :| 0 <= i < |acl| && Grants(acl[i].granted, perm, matches) && acl[i].path == scopes[k];
      PrefixIsAbove(units, acl[i].unit, b);
    }
    if i :| 0 <= i < |acl| && Grants(acl[i].granted, perm, matches) && AtOrAbove(units, acl[i].unit, b) {
      PrefixIsAbove(units, acl[i].unit, b);
      assert acl[i].path in scopes;
      var k :| 0 <= k < |scopes| && scopes[k] == acl[i].path;
    }
  }

  // ---- the nearest holders of a role ----

  datatype Assignment = Assignment(user: string, role: string, unit: Id, path: string)

  predicate HeldAt(list: seq<Assignment>, role: string, path: string) {
    exists i :: 0 <= i < |list| && list[i].role == role && list[i].path == path
  }

  function HoldersAt(list: seq<Assignment>, role: string, path: string): (r: seq<string>)
    ensures forall u :: u in r <==> exists i :: 0 <= i < |list| && list[i].role == role && list[i].path == path && list[i].user == u
    ensures forall i, k :: 0 <= i < k < |r| ==> r[i] != r[k]
  {
    if list == [] then []
    else
      var n := |list| - 1;
      assert forall i :: 0 <= i < n ==> list[..n][i] == list[i];
      var rest, last := HoldersAt(list[..n], role, path), list[n];
      if last.role == role && last.path == path && last.user !in rest then rest + [last.user] else rest
  }

  /// The path of the first `i` ids.
  function PathTo(ids: seq<string>, i: nat): string
    requires i <= |ids|
  {
    "/" + Segments(ids[..i])
  }

  /// The unit of the first assignment of the role at the path.
  function UnitAt(list: seq<Assignment>, role: string, path: string): (r: Option<Id>)
    ensures r.Some? <==> HeldAt(list, role, path)
    ensures r.Some? ==> exists i :: 0 <= i < |list| && list[i].role == role && list[i].path == path && list[i].unit == r.value
                                    && forall k :: 0 <= k < i ==> list[k].role != role || list[k].path != path
  {
    if list == [] then None
    else if list[0].role == role && list[0].path == path then Some(list[0].unit)
    else
      assert forall i :: 0 < i < |list| ==> list[i] == list[1..][i - 1];
      assert forall i :: 0 <= i < |list| - 1 ==> list[1..][i] == list[i + 1];
      UnitAt(list[1..], role, path)
  }

  /// The prefixes of the path, longest first.
  method RoleHolders(list: seq<Assignment>, role: string, path: string)
    returns (unit: Option<Id>, users: seq<string>, ghost level: nat)
    ensures var ids := PathIds(path);
            && level <= |ids|
            && (forall k :: level < k <= |ids| ==> !HeldAt(list, role, PathTo(ids, k)))
            && (level == 0 ==> unit == None && users == [])
            && (level > 0 ==> unit.Some? && unit == UnitAt(list, role, PathTo(ids, level))
                              && users == HoldersAt(list, role, PathTo(ids, level)))
  {
    var ids := PathIds(path);
    var k: nat := |ids|;
    while k > 0
      invariant k <= |ids|
      invariant forall j :: k < j <= |ids| ==> !HeldAt(list, role, PathTo(ids, j))
    {
      if HeldAt(list, role, PathTo(ids, k)) {
        return UnitAt(list, role, PathTo(ids, k)), HoldersAt(list, role, PathTo(ids, k)), k;
      }
      k := k - 1;
    }
    return None, [], 0;
  }

  /// For a unit of the tree, level `k` is its `k`th ancestor from the top, itself included:
  /// so the holders found are those at the nearest unit at or above it that has any.
  lemma LevelsAreAncestors(units: map<Id, Unit>, b: Id, k: nat)
    requires IsTree(units) && b in units && 0 < k <= units[b].depth + 1
    ensures var ids := PathIds(units[b].path);
            && |ids| == units[b].depth + 1 && ids[k - 1] in units && AtOrAbove(units, ids[k - 1], b)
            && PathTo(ids, k) == units[ids[k - 1]].path && units[ids[k - 1]].depth == k - 1
  {
    PathNamesAncestors(units, b);
    ChainIds(units, b);
    var ids := Chain(units, b);
    var a := ids[k - 1];
    assert a in ids;
    ChainAbove(units, a, b);
    PathOfChain(units, a);
    assert Chain(units, a) == ids[..k];
  }

  // ---- copies of paths ----

  /// The path after the moves from the `n`th up to the `j`th.
  function Replay(path: string, moves: seq<Move>, n: nat, j: nat): string
    requires n <= j <= |moves|
    decreases j, path, moves
  {
    if n == j then path else Rebase(Replay(path, moves, n, j - 1), moves[j - 1].oldPath, moves[j - 1].newPath)
  }

  lemma {:induction false} ReplayTwice(path: string, moves: seq<Move>, n: nat, k: nat, j: nat)
    requires n <= k <= j <= |moves|
    ensures Replay(Replay(path, moves, n, k), moves, k, j) == Replay(path, moves, n, j)
    decreases j
  {
    if k < j { ReplayTwice(path, moves, n, k, j - 1); }
  }

  /// A copy that is right stays right.
  lemma {:induction false} CopyFollows(trees: seq<map<Id, Unit>>, moves: seq<Move>, i: nat, j: nat, x: Id)
    requires IsHistory(trees, moves) && i <= j <= |moves| && |trees| == |moves| + 1 && x in trees[i]
    ensures x in trees[j] && Replay(trees[i][x].path, moves, i, j) == trees[j][x].path
    decreases j
  {
    if i < j {
      CopyFollows(trees, moves, i, j - 1, x);
      StepAt(trees, moves, j - 1);
    }
  }

  predicate EndsInSlash(s: string) { s != "" && s[|s| - 1] == '/' }

  lemma RebaseEnds(path: string, oldPath: string, newPath: string)
    requires EndsInSlash(path) && EndsInSlash(newPath)
    ensures EndsInSlash(Rebase(path, oldPath, newPath))
  {
  }

  lemma MoveEnds(before: map<Id, Unit>, after: map<Id, Unit>, m: Move)
    requires IsTree(before) && IsTree(after) && IsStep(before, after, m)
    ensures EndsInSlash(m.newPath) && |m.oldPath| >= 3 && EndsInSlash(m.oldPath)
  {
    assert after[m.unit].path == m.newPath + m.oldPath[|m.oldPath|..];
    assert after[m.unit].path == m.newPath;
    PathShape(after, m.unit);
    PathShape(before, m.unit);
  }

  lemma MoveEndsAt(trees: seq<map<Id, Unit>>, moves: seq<Move>, i: nat)
    requires IsHistory(trees, moves) && i < |moves|
    ensures EndsInSlash(moves[i].newPath) && |moves[i].oldPath| >= 3 && EndsInSlash(moves[i].oldPath)
  {
    StepAt(trees, moves, i);
    MoveEnds(trees[i], trees[i + 1], moves[i]);
  }

  lemma {:induction false} ReplayEnds(trees: seq<map<Id, Unit>>, moves: seq<Move>, path: string, n: nat, i: nat)
    requires IsHistory(trees, moves) && n <= i <= |moves| && EndsInSlash(path)
    ensures EndsInSlash(Replay(path, moves, n, i))
    decreases i
  {
    if n < i {
      ReplayEnds(trees, moves, path, n, i - 1);
      MoveEndsAt(trees, moves, i - 1);
      RebaseEnds(Replay(path, moves, n, i - 1), moves[i - 1].oldPath, moves[i - 1].newPath);
    }
  }

  /// One move on a path that ends in `x`: it moves the part above, or it is a move of `x`
  /// itself from exactly there, or it does nothing.
  lemma RebaseLast(above: string, x: string, oldPath: string, newPath: string)
    requires IsId(x) && above != "" && oldPath != "" && oldPath[|oldPath| - 1] == '/'
    ensures oldPath == above + x + "/" || Rebase(above + x + "/", oldPath, newPath) == Rebase(above, oldPath, newPath) + x + "/"
  {
    var path := above + x + "/";
    if oldPath <= above {
      CutBehind(oldPath, above, x, newPath);
    } else if oldPath <= path && oldPath != path {
      PrefixEnds(oldPath, above, x);
    }
  }

  /// Replaying on a unit's final path: either the replay has met the unit, or it moves with
  /// the part above.
  lemma {:induction false} MetOrAbove(trees: seq<map<Id, Unit>>, moves: seq<Move>, n: nat, i: nat, x: Id, above: string)
    requires IsHistory(trees, moves) && n <= i <= |moves| && |trees| == |moves| + 1 && IsId(x) && above != "" && above[|above| - 1] == '/'
    ensures var r := Replay(above + x + "/", moves, n, i);
            (x in trees[i] && r == trees[i][x].path) || r == Replay(above, moves, n, i) + x + "/"
    decreases i
  {
    if n < i {
      MetOrAbove(trees, moves, n, i - 1, x, above);
      ReplayEnds(trees, moves, above, n, i - 1);
      StepAt(trees, moves, i - 1);
      MetStep(trees[i - 1], trees[i], moves[i - 1], x, Replay(above + x + "/", moves, n, i - 1), Replay(above, moves, n, i - 1));
    }
  }

  lemma MetStep(before: map<Id, Unit>, after: map<Id, Unit>, m: Move, x: Id, path: string, top: string)
    requires IsTree(before) && IsTree(after) && IsStep(before, after, m) && IsId(x)
    requires top != "" && top[|top| - 1] == '/'
    requires (x in before && path == before[x].path) || path == top + x + "/"
    ensures var r := Rebase(path, m.oldPath, m.newPath);
            (x in after && r == after[x].path) || r == Rebase(top, m.oldPath, m.newPath) + x + "/"
  {
    if !(x in before && path == before[x].path) {
      MoveEnds(before, after, m);
      RebaseLast(top, x, m.oldPath, m.newPath);
      if m.oldPath == top + x + "/" {
        AboveOf(before, m.unit);
        SameEnd(Above(before, m.unit), m.unit, top, x);
      }
    }
  }

  /// A copy made before older moves were handled: they leave it where it is in the end.
  lemma {:induction false} OldMovesHarmless(trees: seq<map<Id, Unit>>, moves: seq<Move>, n: nat, k: nat, x: Id)
    requires IsHistory(trees, moves) && n <= k <= |moves| && |trees| == |moves| + 1 && x in trees[k]
    ensures Replay(trees[k][x].path, moves, n, k) == trees[k][x].path
    decreases trees[k][x].depth
  {
    var units := trees[k];
    StepAt(trees, moves, k);
    AboveOf(units, x);
    MetOrAbove(trees, moves, n, k, x, Above(units, x));
    if units[x].parent.Some? {
      assert UnitFits(units, x);
      OldMovesHarmless(trees, moves, n, k, units[x].parent.value);
    } else {
      SlashStays(trees, moves, n, k);
    }
  }

  lemma {:induction false} SlashStays(trees: seq<map<Id, Unit>>, moves: seq<Move>, n: nat, k: nat)
    requires IsHistory(trees, moves) && n <= k <= |moves|
    ensures Replay("/", moves, n, k) == "/"
    decreases k
  {
    if n < k {
      SlashStays(trees, moves, n, k - 1);
      MoveEndsAt(trees, moves, k - 1);
    }
  }

  /// A copy made at any time, while any number of earlier moves are still on their way, is
  /// the unit's path once as many moves are handled as the tree has made.
  lemma CopiesCatchUp(trees: seq<map<Id, Unit>>, moves: seq<Move>, handled: nat, made: nat, now: nat, x: Id)
    requires IsHistory(trees, moves) && handled <= made <= now <= |moves| && |trees| == |moves| + 1
    requires x in trees[made]
    ensures x in trees[now] && Replay(trees[made][x].path, moves, handled, now) == trees[now][x].path
  {
    ReplayTwice(trees[made][x].path, moves, handled, made, now);
    OldMovesHarmless(trees, moves, handled, made, x);
    CopyFollows(trees, moves, made, now, x);
  }

  // ---- the feed of move events ----

  /// Where a copy comes from: the unit, how many moves the tree had made when its path was
  /// read, and how many were handled when the copy was stored.
  datatype Origin = Origin(unit: Id, made: nat, handled: nat)

  /// The trees after each move, the moves, the copies of the paths by record or assignment,
  /// and how many moves are handled.
  datatype Feed = Feed(
    trees: seq<map<Id, Unit>>, moves: seq<Move>, paths: map<string, string>, origins: map<string, Origin>, next: nat)

  datatype FeedStep =
    | TreeMoves(m: Move, after: map<Id, Unit>)
    | TreeChanges(after: map<Id, Unit>)
    | Copy(d: string, unit: Id, made: nat)
    | Deliver(index: nat)

  /// Events come in the order of the moves; any may come again. A path that is stored may have
  /// been read at any earlier time.
  ghost predicate Enabled(w: Feed, s: FeedStep)
    requires |w.trees| == |w.moves| + 1
  {
    var tree := w.trees[|w.moves|];
    match s
    case TreeMoves(m, after) => IsTree(after) && IsStep(tree, after, m)
    case TreeChanges(after) => IsTree(after) && forall x :: x in tree ==> x in after && after[x].path == tree[x].path
    case Copy(_, unit, made) => made <= |w.moves| && unit in w.trees[made]
    case Deliver(index) => index < |w.moves| && index <= w.next
  }

  function Handled(paths: map<string, string>, m: Move): map<string, string> {
    map d | d in paths :: Rebase(paths[d], m.oldPath, m.newPath)
  }

  ghost function Apply(w: Feed, s: FeedStep): Feed
    requires |w.trees| == |w.moves| + 1 && Enabled(w, s)
  {
    match s
    case TreeMoves(m, after) => w.(trees := w.trees + [after], moves := w.moves + [m])
    case TreeChanges(after) => w.(trees := w.trees[|w.moves| := after])
    case Copy(d, unit, made) =>
      w.(paths := w.paths[d := w.trees[made][unit].path], origins := w.origins[d := Origin(unit, made, w.next)])
    case Deliver(index) =>
      if index < w.next then w else w.(paths := Handled(w.paths, w.moves[index]), next := w.next + 1)
  }

  /// Each copy is the path that was read, with the moves handled since it was stored replayed.
  ghost predicate FeedFits(w: Feed) {
    && IsHistory(w.trees, w.moves) && |w.trees| == |w.moves| + 1 && w.next <= |w.moves| && w.paths.Keys == w.origins.Keys
    && forall d :: d in w.origins ==> CopyFits(w, d)
  }

  ghost predicate CopyFits(w: Feed, d: string)
    requires |w.trees| == |w.moves| + 1 && w.next <= |w.moves| && d in w.origins && w.paths.Keys == w.origins.Keys
  {
    var o := w.origins[d];
    && o.made <= |w.moves| && o.handled <= w.next && o.unit in w.trees[o.made]
    && w.paths[d] == Replay(w.trees[o.made][o.unit].path, w.moves, o.handled, w.next)
  }

  lemma {:induction false} ReplayPrefix(path: string, moves: seq<Move>, m: Move, n: nat, j: nat)
    requires n <= j <= |moves|
    ensures Replay(path, moves + [m], n, j) == Replay(path, moves, n, j)
    decreases j
  {
    if n < j { ReplayPrefix(path, moves, m, n, j - 1); }
  }

  lemma MoveKeepsFeed(w: Feed, m: Move, after: map<Id, Unit>)
    requires FeedFits(w) && Enabled(w, TreeMoves(m, after))
    ensures FeedFits(Apply(w, TreeMoves(m, after)))
  {
    var r := Apply(w, TreeMoves(m, after));
    HistoryMoves(w.trees, w.moves, m, after);
    forall d | d in w.origins ensures CopyFits(r, d) {
      assert CopyFits(w, d);
      ReplayPrefix(w.trees[w.origins[d].made][w.origins[d].unit].path, w.moves, m, w.origins[d].handled, w.next);
    }
  }

  lemma ChangeKeepsFeed(w: Feed, after: map<Id, Unit>)
    requires FeedFits(w) && Enabled(w, TreeChanges(after))
    ensures FeedFits(Apply(w, TreeChanges(after)))
  {
    var r := Apply(w, TreeChanges(after));
    HistoryGrows(w.trees, w.moves, after);
    forall d | d in w.origins ensures CopyFits(r, d) { assert CopyFits(w, d); }
  }

  lemma CopyKeepsFeed(w: Feed, d: string, unit: Id, made: nat)
    requires FeedFits(w) && Enabled(w, Copy(d, unit, made))
    ensures FeedFits(Apply(w, Copy(d, unit, made)))
  {
    var r := Apply(w, Copy(d, unit, made));
    forall x | x in r.origins ensures CopyFits(r, x) {
      if x != d { assert CopyFits(w, x); }
    }
  }

  lemma DeliveryKeepsFeed(w: Feed, index: nat)
    requires FeedFits(w) && Enabled(w, Deliver(index))
    ensures FeedFits(Apply(w, Deliver(index)))
  {
    if index == w.next { NextDelivered(w, Apply(w, Deliver(index))); }
  }

  lemma NextDelivered(w: Feed, r: Feed)
    requires FeedFits(w) && w.next < |w.moves| && r == w.(paths := Handled(w.paths, w.moves[w.next]), next := w.next + 1)
    ensures FeedFits(r)
  {
    forall d | d in w.origins ensures CopyFits(r, d) { CopyDelivered(w, r, d); }
  }

  lemma CopyDelivered(w: Feed, r: Feed, d: string)
    requires |w.trees| == |w.moves| + 1 && w.next < |w.moves| && d in w.origins && w.paths.Keys == w.origins.Keys
    requires CopyFits(w, d) && r == w.(paths := Handled(w.paths, w.moves[w.next]), next := w.next + 1)
    ensures CopyFits(r, d)
  {
  }

  lemma FeedStepKeeps(w: Feed, s: FeedStep)
    requires FeedFits(w) && Enabled(w, s)
    ensures FeedFits(Apply(w, s))
  {
    match s
    case TreeMoves(m, after) => MoveKeepsFeed(w, m, after);
    case TreeChanges(after) => ChangeKeepsFeed(w, after);
    case Copy(d, unit, made) => CopyKeepsFeed(w, d, unit, made);
    case Deliver(index) => DeliveryKeepsFeed(w, index);
  }

  /// Steps that cannot be taken are passed over.
  ghost function RunFeed(w: Feed, steps: seq<FeedStep>): (r: Feed)
    requires FeedFits(w)
    ensures FeedFits(r)
  {
    if steps == [] then w
    else
      var v := RunFeed(w, steps[..|steps| - 1]);
      var s := steps[|steps| - 1];
      if !Enabled(v, s) then v else
      FeedStepKeeps(v, s);
      Apply(v, s)
  }

  function NewFeed(tree: map<Id, Unit>): Feed { Feed([tree], [], map[], map[], 0) }

  /// The copy is the path its unit has after the moves handled so far.
  ghost predicate IsRight(w: Feed, d: string)
    requires w.next < |w.trees| && d in w.paths && d in w.origins
  {
    w.origins[d].unit in w.trees[w.next] && w.paths[d] == w.trees[w.next][w.origins[d].unit].path
  }

  /// The path was read before moves of the unit that were handled before the copy was stored,
  /// so they never reach it.
  ghost predicate Missed(w: Feed, o: Origin)
    requires o.made < |w.trees| && o.unit in w.trees[o.made] && o.handled < |w.trees|
  {
    o.made < o.handled && !(o.unit in w.trees[o.handled] && w.trees[o.handled][o.unit].path == w.trees[o.made][o.unit].path)
  }

  lemma OriginFits(w: Feed, d: string)
    requires FeedFits(w) && d in w.paths
    ensures d in w.origins && w.origins[d].made <= |w.moves| && w.origins[d].unit in w.trees[w.origins[d].made]
    ensures w.origins[d].handled <= w.next <= |w.moves|
  {
    assert CopyFits(w, d);
  }

  /// A copy that missed nothing is right once the moves before its reading are handled.
  lemma NothingMissed(w: Feed, d: string)
    requires FeedFits(w) && d in w.paths
    ensures d in w.origins && w.origins[d].made <= |w.moves| && w.origins[d].unit in w.trees[w.origins[d].made]
    ensures w.origins[d].handled <= |w.moves|
    ensures w.origins[d].made <= w.next && !Missed(w, w.origins[d]) ==> IsRight(w, d)
  {
    OriginFits(w, d);
    var o := w.origins[d];
    if o.made <= w.next && !Missed(w, o) {
      assert CopyFits(w, d);
      if o.handled <= o.made {
        CopiesCatchUp(w.trees, w.moves, o.handled, o.made, w.next, o.unit);
      } else {
        CopyFollows(w.trees, w.moves, o.handled, w.next, o.unit);
      }
    }
  }

  /// When a copy is stored after the moves before its reading are handled, it is right exactly
  /// when it missed nothing.
  lemma RightWhenStored(w: Feed, d: string)
    requires FeedFits(w) && d in w.paths
    ensures d in w.origins && w.origins[d].made <= |w.moves| && w.origins[d].unit in w.trees[w.origins[d].made]
    ensures w.origins[d].handled <= |w.moves|
    ensures w.origins[d].made <= w.next == w.origins[d].handled ==> (IsRight(w, d) <==> !Missed(w, w.origins[d]))
  {
    OriginFits(w, d);
    assert CopyFits(w, d);
    NothingMissed(w, d);
  }

  /// Over every run of moves, other changes, copies and deliveries, with any event delivered
  /// again at any time: a copy is right as soon as the moves before its reading are handled,
  /// unless moves of its unit in between were handled before it was stored; and then it is
  /// wrong from the start.
  lemma DeliveriesCatchUp(tree: map<Id, Unit>, steps: seq<FeedStep>, d: string)
    requires IsTree(tree)
    ensures FeedFits(NewFeed(tree))
    ensures var w := RunFeed(NewFeed(tree), steps);
            d in w.paths ==>
              var o := w.origins[d];
              && o.made <= |w.moves| && o.unit in w.trees[o.made] && o.handled <= w.next
              && (o.made <= w.next && !Missed(w, o) ==> IsRight(w, d))
              && (o.made <= w.next == o.handled && Missed(w, o) ==> !IsRight(w, d))
  {
    var w := RunFeed(NewFeed(tree), steps);
    if d in w.paths {
      OriginFits(w, d);
      NothingMissed(w, d);
      RightWhenStored(w, d);
    }
  }

  /// A copy that is right stays right, whatever happens other than storing it anew.
  lemma StepStaysRight(w: Feed, s: FeedStep, d: string)
    requires |w.trees| == |w.moves| + 1 && w.next <= |w.moves| && d in w.paths && d in w.origins && IsRight(w, d)
    requires Enabled(w, s) && !(s.Copy? && s.d == d)
    requires w.next < |w.moves| ==> IsStep(w.trees[w.next], w.trees[w.next + 1], w.moves[w.next])
    ensures var r := Apply(w, s); r.next < |r.trees| && d in r.paths && d in r.origins && IsRight(r, d)
  {
    if !s.Deliver? {
      OthersStayRight(w, s, d);
    } else if s.index == w.next {
      NextStaysRight(w, d);
    }
  }

  lemma OthersStayRight(w: Feed, s: FeedStep, d: string)
    requires |w.trees| == |w.moves| + 1 && w.next <= |w.moves| && d in w.paths && d in w.origins && IsRight(w, d)
    requires Enabled(w, s) && !s.Deliver? && !(s.Copy? && s.d == d)
    ensures var r := Apply(w, s); r.next == w.next < |r.trees| && d in r.paths && d in r.origins && IsRight(r, d)
  {
  }

  lemma NextStaysRight(w: Feed, d: string)
    requires |w.trees| == |w.moves| + 1 && w.next < |w.moves| && d in w.paths && d in w.origins && IsRight(w, d)
    requires IsStep(w.trees[w.next], w.trees[w.next + 1], w.moves[w.next])
    ensures IsRight(w.(paths := Handled(w.paths, w.moves[w.next]), next := w.next + 1), d)
  {
  }

  lemma {:induction false} StaysRight(w: Feed, steps: seq<FeedStep>, d: string)
    requires FeedFits(w) && d in w.paths && IsRight(w, d)
    requires forall i :: 0 <= i < |steps| ==> !(steps[i].Copy? && steps[i].d == d)
    ensures d in RunFeed(w, steps).paths && IsRight(RunFeed(w, steps), d)
  {
    if steps != [] {
      var n := |steps| - 1;
      StaysRight(w, steps[..n], d);
      var v := RunFeed(w, steps[..n]);
      StepAt(v.trees, v.moves, v.next);
      if Enabled(v, steps[n]) { StepStaysRight(v, steps[n], d); }
    }
  }

  /// The consumer of move events in another service.
  class PathCopies {
    var paths: map<string, string>
    /// Markers of handled events, by their position in the stream.
    var processed: set<nat>
    ghost var feed: Feed

    ghost predicate Valid()
      reads this
    {
      FeedFits(feed) && feed.paths == paths && forall i: nat :: i in processed <==> i < feed.next
    }

    constructor (ghost tree: map<Id, Unit>)
      requires IsTree(tree)
      ensures Valid() && feed == NewFeed(tree)
    {
      paths := map[];
      processed := {};
      feed := NewFeed(tree);
    }

    /// The tree changes, which the consumer learns of later.
    ghost method Happens(s: FeedStep)
      requires Valid() && Enabled(feed, s) && (s.TreeMoves? || s.TreeChanges?)
      modifies this`feed
      ensures Valid() && feed == Apply(old(feed), s)
    {
      FeedStepKeeps(feed, s);
      feed := Apply(feed, s);
    }

    /// Handles an event of the stream, in one transaction with its marker.
    method HandleMove(index: nat, m: Move)
      requires Valid() && Enabled(feed, Deliver(index)) && feed.moves[index] == m
      modifies this
      ensures Valid() && feed == Apply(old(feed), Deliver(index))
    {
      FeedStepKeeps(feed, Deliver(index));
      if index in processed { return; }
      processed := processed + {index};
      paths := Handled(paths, m);
      feed := Apply(feed, Deliver(index));
    }

    /// Stores a path that was read when the tree had made `made` moves.
    method Add(d: string, path: string, ghost unit: Id, ghost made: nat)
      requires Valid() && Enabled(feed, Copy(d, unit, made)) && path == feed.trees[made][unit].path
      modifies this`paths, this`feed
      ensures Valid() && feed == Apply(old(feed), Copy(d, unit, made))
    {
      FeedStepKeeps(feed, Copy(d, unit, made));
      paths := paths[d := path];
      feed := Apply(feed, Copy(d, unit, made));
    }
  }
}
