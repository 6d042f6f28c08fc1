/// Lists merged by key, as a JavaScript `Map` merges them: an item with a known key is
/// combined with the one there, in its place; others are added at the end.

module KeyedMerge {
  import opened Basics

  function Put<T>(list: seq<T>, x: T, key: T -> string, combine: (T, T) -> T): (r: seq<T>)
    ensures r != []
  {
    if list == [] then [x]
    else if key(list[0]) == key(x) then [combine(list[0], x)] + list[1..]
    else [list[0]] + Put(list[1..], x, key, combine)
  }

  function Fold<T>(acc: seq<T>, items: seq<T>, key: T -> string, combine: (T, T) -> T): seq<T>
    decreases |items|, acc, key, combine
  {
    if items == [] then acc else Fold(Put(acc, items[0], key, combine), items[1..], key, combine)
  }

  /// The same as a loop.
  method MergeByKey<T>(acc: seq<T>, items: seq<T>, key: T -> string, combine: (T, T) -> T) returns (r: seq<T>)
    ensures r == Fold(acc, items, key, combine)
  {
    r := acc;
    var i := 0;
    while i < |items|
      invariant i <= |items|
      invariant Fold(r, items[i..], key, combine) == Fold(acc, items, key, combine)
    {
      r := Put(r, items[i], key, combine);
      i := i + 1;
    }
  }

  predicate Has<T>(list: seq<T>, k: string, key: T -> string) { exists i :: 0 <= i < |list| && key(list[i]) == k }

  ghost predicate KeysDistinct<T>(list: seq<T>, key: T -> string) {
    forall i, k :: 0 <= i < k < |list| ==> key(list[i]) != key(list[k])
  }

  /// Combining keeps the key and does not depend on grouping.
  ghost predicate Lawful<T(!new)>(key: T -> string, combine: (T, T) -> T) {
    && (forall a, b {:trigger combine(a, b)} :: key(a) == key(b) ==> key(combine(a, b)) == key(a))
    && (forall a, b, c {:trigger combine(combine(a, b), c)} {:trigger combine(a, combine(b, c))} ::
          key(a) == key(b) == key(c) ==> combine(combine(a, b), c) == combine(a, combine(b, c)))
  }

  // ---- putting ----

  lemma {:induction false} PutKeys<T(!new)>(list: seq<T>, x: T, key: T -> string, combine: (T, T) -> T, k: string)
    requires Lawful(key, combine)
    ensures Has(Put(list, x, key, combine), k, key) <==> Has(list, k, key) || k == key(x)
  {
    var r := Put(list, x, key, combine);
    if list == [] {
      assert r[0] == x;
    } else if key(list[0]) == key(x) {
      assert r[0] == combine(list[0], x);
      assert forall i :: 0 < i < |list| ==> r[i] == list[i];
      HasSplit(list, k, key);
      HasSplit(r, k, key);
    } else {
      PutKeys(list[1..], x, key, combine, k);
      assert r[1..] == Put(list[1..], x, key, combine);
      HasSplit(list, k, key);
      HasSplit(r, k, key);
    }
  }

  lemma HasSplit<T>(list: seq<T>, k: string, key: T -> string)
    requires list != []
    ensures Has(list, k, key) <==> key(list[0]) == k || Has(list[1..], k, key)
  {
    if Has(list, k, key) {
      var i :| 0 <= i < |list| && key(list[i]) == k;
      if i > 0 { assert list[1..][i - 1] == list[i]; }
    }
    if Has(list[1..], k, key) {
      var i :| 0 <= i < |list[1..]| && key(list[1..][i]) == k;
      assert list[i + 1] == list[1..][i];
    }
  }

  lemma {:induction false} PutDistinct<T(!new)>(list: seq<T>, x: T, key: T -> string, combine: (T, T) -> T)
    requires Lawful(key, combine) && KeysDistinct(list, key)
    ensures KeysDistinct(Put(list, x, key, combine), key)
  {
    if list != [] && key(list[0]) != key(x) {
      var rest := Put(list[1..], x, key, combine);
      PutDistinct(list[1..], x, key, combine);
      PutKeys(list[1..], x, key, combine, key(list[0]));
      forall k | 0 <= k < |rest| ensures key(rest[k]) != key(list[0]) {
        assert !Has(list[1..], key(list[0]), key);
      }
    }
  }

  lemma {:induction false} PutTwice<T(!new)>(list: seq<T>, m: T, x: T, key: T -> string, combine: (T, T) -> T)
    requires Lawful(key, combine) && key(m) == key(x)
    ensures Put(Put(list, m, key, combine), x, key, combine) == Put(list, combine(m, x), key, combine)
  {
    if list != [] && key(list[0]) != key(x) {
      PutTwice(list[1..], m, x, key, combine);
    }
  }

  lemma {:induction false} PutSwaps<T(!new)>(list: seq<T>, x: T, y: T, key: T -> string, combine: (T, T) -> T)
    requires Lawful(key, combine) && key(x) != key(y) && Has(list, key(x), key)
    ensures Put(Put(list, y, key, combine), x, key, combine) == Put(Put(list, x, key, combine), y, key, combine)
  {
    if key(list[0]) != key(x) {
      HasSplit(list, key(x), key);
      if key(list[0]) != key(y) { PutSwaps(list[1..], x, y, key, combine); }
    }
  }

  // ---- folding ----

  lemma {:induction false} FoldAppend<T>(acc: seq<T>, xs: seq<T>, ys: seq<T>, key: T -> string, combine: (T, T) -> T)
    ensures Fold(acc, xs + ys, key, combine) == Fold(Fold(acc, xs, key, combine), ys, key, combine)
    decreases |xs|
  {
    if xs == [] {
      assert xs + ys == ys;
    } else {
      assert (xs + ys)[1..] == xs[1..] + ys;
      FoldAppend(Put(acc, xs[0], key, combine), xs[1..], ys, key, combine);
    }
  }

  lemma {:induction false} FoldKeys<T(!new)>(acc: seq<T>, items: seq<T>, key: T -> string, combine: (T, T) -> T, k: string)
    requires Lawful(key, combine)
    ensures Has(Fold(acc, items, key, combine), k, key) <==> Has(acc, k, key) || Has(items, k, key)
    decreases |items|
  {
    if items != [] {
      PutKeys(acc, items[0], key, combine, k);
      FoldKeys(Put(acc, items[0], key, combine), items[1..], key, combine, k);
      HasSplit(items, k, key);
    }
  }

  lemma {:induction false} FoldDistinct<T(!new)>(acc: seq<T>, items: seq<T>, key: T -> string, combine: (T, T) -> T)
    requires Lawful(key, combine) && KeysDistinct(acc, key)
    ensures KeysDistinct(Fold(acc, items, key, combine), key)
    decreases |items|
  {
    if items != [] {
      PutDistinct(acc, items[0], key, combine);
      FoldDistinct(Put(acc, items[0], key, combine), items[1..], key, combine);
    }
  }

  /// An item whose key is there may be put before or after others.
  lemma {:induction false} FoldSwaps<T(!new)>(acc: seq<T>, items: seq<T>, x: T, key: T -> string, combine: (T, T) -> T)
    requires Lawful(key, combine) && Has(acc, key(x), key) && !Has(items, key(x), key)
    ensures Fold(Put(acc, x, key, combine), items, key, combine) == Put(Fold(acc, items, key, combine), x, key, combine)
    decreases |items|
  {
    if items != [] {
      HasSplit(items, key(x), key);
      PutSwaps(acc, x, items[0], key, combine);
      PutKeys(acc, items[0], key, combine, key(x));
      FoldSwaps(Put(acc, items[0], key, combine), items[1..], x, key, combine);
    }
  }

  lemma {:induction false} FoldPut<T(!new)>(acc: seq<T>, items: seq<T>, x: T, key: T -> string, combine: (T, T) -> T)
    requires Lawful(key, combine) && KeysDistinct(items, key)
    ensures Fold(acc, Put(items, x, key, combine), key, combine) == Put(Fold(acc, items, key, combine), x, key, combine)
    decreases |items|
  {
    if items != [] {
      var m, rest := items[0], items[1..];
      if key(m) == key(x) {
        assert Put(items, x, key, combine)[1..] == rest;
        PutTwice(acc, m, x, key, combine);
        PutKeys(acc, m, key, combine, key(x));
        assert !Has(rest, key(x), key);
        FoldSwaps(Put(acc, m, key, combine), rest, x, key, combine);
      } else {
        assert Put(items, x, key, combine)[1..] == Put(rest, x, key, combine);
        FoldPut(Put(acc, m, key, combine), rest, x, key, combine);
      }
    }
  }

  /// Merging a list that was merged on its own is merging its items.
  lemma {:induction false} FoldMerged<T(!new)>(acc: seq<T>, items: seq<T>, key: T -> string, combine: (T, T) -> T)
    requires Lawful(key, combine)
    ensures Fold(acc, Fold([], items, key, combine), key, combine) == Fold(acc, items, key, combine)
    decreases |items|
  {
    if items != [] {
      var n := |items| - 1;
      var before, x := items[..n], items[n];
      assert items == before + [x];
      FoldAppend([], before, [x], key, combine);
      FoldAppend(acc, before, [x], key, combine);
      FoldDistinct([], before, key, combine);
      FoldMerged(acc, before, key, combine);
      FoldPut(acc, Fold([], before, key, combine), x, key, combine);
    }
  }

  /// Items merged beforehand, on the left or on the right, merge the same.
  lemma FoldLeft<T(!new)>(xs: seq<T>, ys: seq<T>, key: T -> string, combine: (T, T) -> T)
    requires Lawful(key, combine)
    ensures Fold([], Fold([], xs, key, combine) + ys, key, combine) == Fold([], xs + ys, key, combine)
  {
    FoldAppend([], Fold([], xs, key, combine), ys, key, combine);
    FoldMerged([], xs, key, combine);
    FoldAppend([], xs, ys, key, combine);
  }

  lemma FoldRight<T(!new)>(xs: seq<T>, ys: seq<T>, key: T -> string, combine: (T, T) -> T)
    requires Lawful(key, combine)
    ensures Fold([], xs + Fold([], ys, key, combine), key, combine) == Fold([], xs + ys, key, combine)
  {
    FoldAppend([], xs, Fold([], ys, key, combine), key, combine);
    FoldMerged(Fold([], xs, key, combine), ys, key, combine);
    FoldAppend([], xs, ys, key, combine);
  }

  lemma MergeThree<T(!new)>(xs: seq<T>, ys: seq<T>, zs: seq<T>, key: T -> string, combine: (T, T) -> T)
    requires Lawful(key, combine)
    ensures Fold([], Fold([], xs + ys, key, combine) + zs, key, combine)
         == Fold([], xs + Fold([], ys + zs, key, combine), key, combine)
  {
    FoldLeft(xs + ys, zs, key, combine);
    FoldRight(xs, ys + zs, key, combine);
    Regroup(xs, ys, zs);
  }

  /// Merging two lists and then their results is merging all items at once.
  lemma MergeGroups<T(!new)>(xs: seq<T>, ys: seq<T>, key: T -> string, combine: (T, T) -> T)
    requires Lawful(key, combine)
    ensures Fold([], Fold([], xs, key, combine) + Fold([], ys, key, combine), key, combine)
         == Fold([], xs + ys, key, combine)
  {
    FoldLeft(xs, Fold([], ys, key, combine), key, combine);
    FoldRight(xs, ys, key, combine);
  }
}
