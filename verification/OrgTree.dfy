/// The organization tree, with each unit's place stored as a path of ids.

module OrgTree {
  import opened Basics
  import opened Text

  type Id = string

  const MAX_DEPTH: nat := 15

  /// Name, code, type and custom fields do not matter here.
  datatype Unit = Unit(parent: Option<Id>, path: string, depth: nat, active: bool)

  /// Ids are texts without a slash.
  predicate IsId(id: string) { id != "" && '/' !in id }

  predicate UnitFits(units: map<Id, Unit>, id: Id)
    requires id in units
  {
    var u := units[id];
    && IsId(id) && u.depth < MAX_DEPTH
    && match u.parent
       case None => u.path == "/" + id + "/" && u.depth == 0 && u.active
       case Some(p) =>
         && p in units && u.path == units[p].path + id + "/" && u.depth == units[p].depth + 1
         && (u.active ==> units[p].active)
  }

  predicate IsRoot(units: map<Id, Unit>, id: Id) { id in units && units[id].parent.None? }

  /// One root; every unit lies at its parent's path plus its id, one level deeper, and is
  /// active only under an active parent.
  ghost predicate IsTree(units: map<Id, Unit>) {
    && (forall id {:trigger UnitFits(units, id)} :: id in units ==> UnitFits(units, id))
    && (forall a, b :: IsRoot(units, a) && IsRoot(units, b) ==> a == b)
  }

  /// `a` is `b` or above it.
  predicate AtOrAbove(units: map<Id, Unit>, a: Id, b: Id)
    requires forall id {:trigger UnitFits(units, id)} :: id in units ==> UnitFits(units, id)
    requires b in units
    decreases units[b].depth
  {
    assert UnitFits(units, b);
    a == b || (units[b].parent.Some? && AtOrAbove(units, a, units[b].parent.value))
  }

  // ---- paths ----

  lemma {:induction false} PathShape(units: map<Id, Unit>, id: Id)
    requires IsTree(units) && id in units
    ensures |units[id].path| >= 3 && units[id].path[0] == '/' && units[id].path[|units[id].path| - 1] == '/'
    decreases units[id].depth
  {
    assert UnitFits(units, id);
    if units[id].parent.Some? { PathShape(units, units[id].parent.value); }
  }

  /// The path above a unit.
  function Above(units: map<Id, Unit>, x: Id): string
    requires x in units && (units[x].parent.Some? ==> units[x].parent.value in units)
  {
    if units[x].parent.Some? then units[units[x].parent.value].path else "/"
  }

  lemma AboveOf(units: map<Id, Unit>, x: Id)
    requires IsTree(units) && x in units
    ensures units[x].parent.Some? ==> units[x].parent.value in units
    ensures units[x].path == Above(units, x) + x + "/" && IsId(x)
    ensures Above(units, x) != "" && Above(units, x)[|Above(units, x)| - 1] == '/'
  {
    assert UnitFits(units, x);
    if units[x].parent.Some? { PathShape(units, units[x].parent.value); }
  }

  /// A path's end is a slash, so a shorter path that is a prefix ends before the last id.
  lemma PrefixEnds(p: string, q: string, id: string)
    requires IsId(id) && p != "" && p[|p| - 1] == '/'
    requires p <= q + id + "/" && p != q + id + "/"
    ensures p <= q
  {
    var all := q + id + "/";
    forall k | |q| <= k < |all| - 1 ensures all[k] != '/' {
      assert all[k] == id[k - |q|];
    }
    assert p[|p| - 1] == all[|p| - 1];
  }

  lemma SameEnd(p: string, a: string, q: string, b: string)
    requires IsId(a) && IsId(b) && p + a + "/" == q + b + "/"
    requires p != "" && p[|p| - 1] == '/' && q != "" && q[|q| - 1] == '/'
    ensures p == q && a == b
  {
    PrefixEnds(p, q, b);
    PrefixEnds(q, p, a);
    assert a == (p + a + "/")[|p|..|p| + |a|];
    assert b == (q + b + "/")[|q|..|q| + |b|];
  }

  /// Different units have different paths.
  lemma PathsDiffer(units: map<Id, Unit>, a: Id, b: Id)
    requires IsTree(units) && a in units && b in units && units[a].path == units[b].path
    ensures a == b
  {
    assert UnitFits(units, a) && UnitFits(units, b);
    var p := if units[a].parent.Some? then units[units[a].parent.value].path else "/";
    var q := if units[b].parent.Some? then units[units[b].parent.value].path else "/";
    if units[a].parent.Some? { PathShape(units, units[a].parent.value); }
    if units[b].parent.Some? { PathShape(units, units[b].parent.value); }
    SameEnd(p, a, q, b);
  }

  /// A path is a prefix of another exactly when its unit is the other or above it.
  lemma {:induction false} PrefixIsAbove(units: map<Id, Unit>, a: Id, b: Id)
    requires IsTree(units) && a in units && b in units
    ensures units[a].path <= units[b].path <==> AtOrAbove(units, a, b)
    decreases units[b].depth
  {
    assert UnitFits(units, a) && UnitFits(units, b);
    PathShape(units, a);
    var p, q := units[a].path, units[b].path;
    if p == q {
      PathsDiffer(units, a, b);
    } else if units[b].parent.Some? {
      var up := units[b].parent.value;
      PrefixIsAbove(units, a, up);
      if p <= q { PrefixEnds(p, units[up].path, b); }
    } else {
      if p <= q { PrefixEnds(p, "/", b); }
    }
  }

  // ---- the ids of a path ----

  function Chain(units: map<Id, Unit>, id: Id): (ids: seq<Id>)
    requires forall x {:trigger UnitFits(units, x)} :: x in units ==> UnitFits(units, x)
    requires id in units
    ensures |ids| == units[id].depth + 1
    decreases units[id].depth
  {
    assert UnitFits(units, id);
    if units[id].parent.None? then [id] else Chain(units, units[id].parent.value) + [id]
  }

  function Segments(ids: seq<string>): string {
    if ids == [] then "" else ids[0] + "/" + Segments(ids[1..])
  }

  lemma {:induction false} SegmentsSnoc(ids: seq<string>, id: string)
    ensures Segments(ids + [id]) == Segments(ids) + id + "/"
  {
    if ids == [] {
      assert [id][1..] == [];
    } else {
      assert (ids + [id])[1..] == ids[1..] + [id];
      SegmentsSnoc(ids[1..], id);
    }
  }

  lemma {:induction false} PathOfChain(units: map<Id, Unit>, id: Id)
    requires IsTree(units) && id in units
    ensures units[id].path == "/" + Segments(Chain(units, id))
    decreases units[id].depth
  {
    assert UnitFits(units, id);
    if units[id].parent.Some? {
      var up := units[id].parent.value;
      PathOfChain(units, up);
      SegmentsSnoc(Chain(units, up), id);
    } else {
      SegmentsSnoc([], id);
      assert [] + [id] == [id];
    }
  }

  function NonEmpty(parts: seq<string>): seq<string> {
    if parts == [] then []
    else
      var rest, last := NonEmpty(parts[..|parts| - 1]), parts[|parts| - 1];
      if last == "" then rest else rest + [last]
  }

  /// `path.split('/').filter(Boolean)`.
  function PathIds(path: string): seq<string> { NonEmpty(Split(path, "/")) }

  lemma {:induction false} NonEmptyConcat(xs: seq<string>, ys: seq<string>)
    ensures NonEmpty(xs + ys) == NonEmpty(xs) + NonEmpty(ys)
  {
    if ys == [] {
      assert xs + ys == xs;
    } else {
      assert (xs + ys)[..|xs + ys| - 1] == xs + ys[..|ys| - 1];
      NonEmptyConcat(xs, ys[..|ys| - 1]);
    }
  }

  lemma {:induction false} IdsOfSegments(ids: seq<string>)
    requires forall i :: 0 <= i < |ids| ==> IsId(ids[i])
    ensures NonEmpty(SplitFrom(Segments(ids), 0, "/")) == ids
  {
    if ids == [] {
      assert SplitFrom("", 0, "/") == [""];
      assert [""][..0] == [];
    } else {
      var rest := Segments(ids[1..]);
      SplitHead(ids[0], rest, "/", 0);
      IdsOfSegments(ids[1..]);
      NonEmptyConcat([ids[0]], SplitFrom(rest, 0, "/"));
      assert [ids[0]][..0] == [];
      assert ids == [ids[0]] + ids[1..];
    }
  }

  lemma IdsOfPath(ids: seq<string>)
    requires forall i :: 0 <= i < |ids| ==> IsId(ids[i])
    ensures PathIds("/" + Segments(ids)) == ids
  {
    LeadingSlash(Segments(ids));
    IdsOfSegments(ids);
  }

  lemma LeadingSlash(rest: string)
    ensures PathIds("/" + rest) == NonEmpty(SplitFrom(rest, 0, "/"))
  {
    assert "/" + rest == "" + "/" + rest;
    SplitHead("", rest, "/", 0);
    NonEmptyConcat([""], SplitFrom(rest, 0, "/"));
    assert [""][..0] == [];
  }

  lemma {:induction false} ChainIds(units: map<Id, Unit>, id: Id)
    requires IsTree(units) && id in units
    ensures forall i :: 0 <= i < |Chain(units, id)| ==> Chain(units, id)[i] in units && IsId(Chain(units, id)[i])
    ensures forall i :: 0 <= i < |Chain(units, id)| ==> Chain(units, Chain(units, id)[i]) == Chain(units, id)[..i + 1]
    decreases units[id].depth
  {
    assert UnitFits(units, id);
    if units[id].parent.Some? {
      var up := units[id].parent.value;
      ChainIds(units, up);
      var c, d := Chain(units, id), Chain(units, up);
      forall i | 0 <= i < |c| ensures c[i] in units && IsId(c[i]) && Chain(units, c[i]) == c[..i + 1] {
        if i < |d| { assert c[i] == d[i] && d[..i + 1] == c[..i + 1]; } else { assert c[..i + 1] == c; }
      }
    }
  }

  /// The ids of a unit's path are the units from the top down to it, so the depth is the
  /// number of ids above it.
  lemma PathNamesAncestors(units: map<Id, Unit>, id: Id)
    requires IsTree(units) && id in units
    ensures PathIds(units[id].path) == Chain(units, id) && |PathIds(units[id].path)| == units[id].depth + 1
  {
    PathOfChain(units, id);
    ChainIds(units, id);
    IdsOfPath(Chain(units, id));
  }

  /// The loop that looks the ids up; units that are gone are left out.
  method InternalAncestors(units: map<Id, Unit>, id: Id) returns (r: seq<Id>)
    requires IsTree(units) && id in units
    ensures r == Chain(units, id)
    ensures forall a :: a in r ==> a in units && AtOrAbove(units, a, id)
  {
    PathNamesAncestors(units, id);
    ChainIds(units, id);
    var ids := PathIds(units[id].path);
    r := Known(units, ids);
    forall a | a in r ensures AtOrAbove(units, a, id) {
      ChainAbove(units, a, id);
    }
  }

  method Known(units: map<Id, Unit>, ids: seq<Id>) returns (r: seq<Id>)
    ensures (forall i :: 0 <= i < |ids| ==> ids[i] in units) ==> r == ids
    ensures forall id :: id in r <==> id in ids && id in units
  {
    r := [];
    var i := 0;
    while i < |ids|
      invariant i <= |ids|
      invariant (forall k :: 0 <= k < i ==> ids[k] in units) ==> r == ids[..i]
      invariant forall id :: id in r <==> id in ids[..i] && id in units
    {
      assert ids[..i + 1] == ids[..i] + [ids[i]];
      if ids[i] in units { r := r + [ids[i]]; }
      i := i + 1;
    }
    assert ids[..i] == ids;
  }

  lemma {:induction false} ChainAbove(units: map<Id, Unit>, a: Id, id: Id)
    requires IsTree(units) && id in units
    ensures a in Chain(units, id) <==> AtOrAbove(units, a, id)
    decreases units[id].depth
  {
    assert UnitFits(units, id);
    if units[id].parent.Some? { ChainAbove(units, a, units[id].parent.value); }
  }
}
