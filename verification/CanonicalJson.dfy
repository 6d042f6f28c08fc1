/// Canonical JSON: one text for each meaning, whatever the order of keys.

module CanonicalJson {
  import opened Text

  /// A JavaScript value as events carry them; numbers are whole. Object members are in
  /// the order they were added.
  datatype Json =
    | Null
    | Undefined
    | Bool(b: bool)
    | Number(n: int)
    | Str(s: string)
    | Date(iso: string)
    | Arr(items: seq<Json>)
    | Obj(members: seq<Member>)

  datatype Member = Member(key: string, value: Json)

  predicate HasKey(ms: seq<Member>, key: string) { exists i :: 0 <= i < |ms| && ms[i].key == key }

  /// Objects have each key once.
  predicate WellFormed(j: Json) {
    match j
    case Arr(items) => forall i :: 0 <= i < |items| ==> WellFormed(items[i])
    case Obj(ms) =>
      && (forall i :: 0 <= i < |ms| ==> WellFormed(ms[i].value))
      && (forall i, k :: 0 <= i < k < |ms| ==> ms[i].key != ms[k].key)
    case _ => true
  }

  // ---- the order of keys ----

  predicate IsArrayIndex(s: string) {
    && s != "" && IsDigits(s) && (s[0] == '0' ==> |s| == 1) && Num(s) <= 4_294_967_294
  }

  predicate LexLess(a: string, b: string) {
    if b == "" then false
    else if a == "" then true
    else a[0] < b[0] || (a[0] == b[0] && LexLess(a[1..], b[1..]))
  }

  /// How a JavaScript object orders sorted keys: array indices first, by value.
  predicate KeyLess(a: string, b: string) {
    if IsArrayIndex(a) && IsArrayIndex(b) then |a| < |b| || (|a| == |b| && LexLess(a, b))
    else if IsArrayIndex(a) || IsArrayIndex(b) then IsArrayIndex(a)
    else LexLess(a, b)
  }

  lemma {:induction false} LexTotal(a: string, b: string)
    ensures a == b || LexLess(a, b) || LexLess(b, a)
    ensures !(LexLess(a, b) && LexLess(b, a)) && !LexLess(a, a)
  {
    if a != "" { assert a == [a[0]] + a[1..]; }
    if b != "" { assert b == [b[0]] + b[1..]; }
    if a != "" && b != "" { LexTotal(a[1..], b[1..]); LexTotal(a[1..], a[1..]); }
    else if a != "" { LexTotal(a[1..], a[1..]); }
  }

  lemma {:induction false} LexTransitive(a: string, b: string, c: string)
    requires LexLess(a, b) && LexLess(b, c)
    ensures LexLess(a, c)
  {
    if a != "" && a[0] == b[0] && b[0] == c[0] { LexTransitive(a[1..], b[1..], c[1..]); }
  }

  lemma KeyTotal(a: string, b: string)
    ensures a == b || KeyLess(a, b) || KeyLess(b, a)
    ensures !(KeyLess(a, b) && KeyLess(b, a)) && !KeyLess(a, a)
  {
    LexTotal(a, b);
    LexTotal(a, a);
  }

  lemma KeyTransitive(a: string, b: string, c: string)
    requires KeyLess(a, b) && KeyLess(b, c)
    ensures KeyLess(a, c)
  {
    if LexLess(a, b) && LexLess(b, c) { LexTransitive(a, b, c); }
  }

  // ---- normal form ----

  /// Adds a member at its place.
  function Insert(m: Member, ms: seq<Member>): (r: seq<Member>)
    ensures |r| == |ms| + 1
  {
    if ms == [] || KeyLess(m.key, ms[0].key) then [m] + ms else [ms[0]] + Insert(m, ms[1..])
  }

  /// What is left of a value to hash: members in the order of their keys, all the way down,
  /// without undefined ones and without `__proto__`, which sets the prototype when assigned;
  /// a date becomes its text, and an undefined item of an array null.
  function Normalize(j: Json): Json
    decreases j
  {
    match j
    case Date(iso) => Str(iso)
    case Arr(items) =>
      Arr(seq(|items|, i requires 0 <= i < |items| => if items[i] == Undefined then Null else Normalize(items[i])))
    case Obj(ms) => Obj(NormalMembers(ms))
    case _ => j
  }

  predicate Dropped(m: Member) { m.value == Undefined || m.key == "__proto__" }

  function NormalMembers(ms: seq<Member>): seq<Member>
    decreases ms
  {
    if ms == [] then []
    else
      var rest := NormalMembers(ms[1..]);
      if Dropped(ms[0]) then rest else Insert(Member(ms[0].key, Normalize(ms[0].value)), rest)
  }

  predicate Sorted(ms: seq<Member>) {
    forall i, k :: 0 <= i < k < |ms| ==> KeyLess(ms[i].key, ms[k].key)
  }

  /// What `Normalize` gives: no dates, nothing undefined, keys in order.
  predicate IsNormal(j: Json) {
    match j
    case Date(_) | Undefined => false
    case Arr(items) => forall i :: 0 <= i < |items| ==> IsNormal(items[i])
    case Obj(ms) => (forall i :: 0 <= i < |ms| ==> IsNormal(ms[i].value)) && Sorted(ms)
    case _ => true
  }

  lemma {:induction false} InsertKeeps(m: Member, ms: seq<Member>)
    requires Sorted(ms) && !HasKey(ms, m.key)
    ensures Sorted(Insert(m, ms))
    ensures forall x :: x in Insert(m, ms) <==> x == m || x in ms
  {
    if ms == [] {
    } else if KeyLess(m.key, ms[0].key) {
      forall k | 0 <= k < |ms| ensures KeyLess(m.key, ms[k].key) {
        if k > 0 { KeyTransitive(m.key, ms[0].key, ms[k].key); }
      }
    } else {
      assert ms[0].key != m.key;
      KeyTotal(m.key, ms[0].key);
      assert !HasKey(ms[1..], m.key) by {
        assert forall i :: 0 <= i < |ms[1..]| ==> ms[1..][i] == ms[i + 1];
      }
      InsertKeeps(m, ms[1..]);
      var r := Insert(m, ms[1..]);
      assert ms == [ms[0]] + ms[1..];
      forall k | 0 <= k < |r| ensures KeyLess(ms[0].key, r[k].key) {
        assert r[k] in r;
        if r[k] != m {
          assert r[k] in ms[1..];
        }
      }
    }
  }

  /// `x` is a member of `ms` that is kept, in normal form.
  ghost predicate NormalMember(ms: seq<Member>, x: Member) {
    exists i :: 0 <= i < |ms| && !Dropped(ms[i]) && x == Member(ms[i].key, Normalize(ms[i].value))
  }

  lemma {:induction false} NormalMembersOf(ms: seq<Member>)
    requires WellFormed(Obj(ms))
    ensures Sorted(NormalMembers(ms))
    ensures forall x :: x in NormalMembers(ms) <==> NormalMember(ms, x)
    decreases ms
  {
    if ms != [] {
      var rest := NormalMembers(ms[1..]);
      assert WellFormed(Obj(ms[1..])) by {
        assert forall i :: 0 <= i < |ms[1..]| ==> ms[1..][i] == ms[i + 1];
      }
      NormalMembersOf(ms[1..]);
      var m := Member(ms[0].key, Normalize(ms[0].value));
      forall i | 0 <= i < |rest| ensures rest[i].key != ms[0].key {
        assert rest[i] in rest;
        var k :| 0 <= k < |ms[1..]| && !Dropped(ms[1..][k]) && rest[i] == Member(ms[1..][k].key, Normalize(ms[1..][k].value));
        assert ms[1..][k] == ms[k + 1];
      }
      if !Dropped(ms[0]) { InsertKeeps(m, rest); }
      NormalStep(ms, rest, NormalMembers(ms));
    }
  }

  lemma NormalStep(ms: seq<Member>, rest: seq<Member>, r: seq<Member>)
    requires ms != []
    requires forall x :: x in rest <==> NormalMember(ms[1..], x)
    requires forall x :: x in r <==> x in rest || (!Dropped(ms[0]) && x == Member(ms[0].key, Normalize(ms[0].value)))
    ensures forall x :: x in r <==> NormalMember(ms, x)
  {
    forall x ensures x in r <==> NormalMember(ms, x) {
      if x in rest {
        var i :| 0 <= i < |ms[1..]| && !Dropped(ms[1..][i]) && x == Member(ms[1..][i].key, Normalize(ms[1..][i].value));
        assert ms[i + 1] == ms[1..][i];
      }
      if NormalMember(ms, x) {
        var i :| 0 <= i < |ms| && !Dropped(ms[i]) && x == Member(ms[i].key, Normalize(ms[i].value));
        if i > 0 { assert ms[1..][i - 1] == ms[i]; }
      }
    }
  }

  lemma {:induction false} NormalizeIsNormal(j: Json)
    requires WellFormed(j) && j != Undefined
    ensures IsNormal(Normalize(j))
    decreases j
  {
    match j
    case Arr(items) =>
      forall i | 0 <= i < |items| ensures IsNormal(Normalize(j).items[i]) {
        if items[i] != Undefined { NormalizeIsNormal(items[i]); }
      }
    case Obj(ms) =>
      NormalMembersOf(ms);
      var r := NormalMembers(ms);
      forall k | 0 <= k < |r| ensures IsNormal(r[k].value) {
        assert r[k] in r;
        var i :| 0 <= i < |ms| && !Dropped(ms[i]) && r[k] == Member(ms[i].key, Normalize(ms[i].value));
        NormalizeIsNormal(ms[i].value);
      }
    case _ =>
  }

  // ---- meaning ----

  /// Two values mean the same when they differ only in the order of keys, in members that
  /// are dropped, and in dates against their text.
  ghost predicate SameMeaning(a: Json, b: Json)
    decreases a, 0
  {
    match a
    case Str(_) | Date(_) => (b.Str? || b.Date?) && TextOf(a) == TextOf(b)
    case Arr(xs) =>
      b.Arr? && |xs| == |b.items| && forall i :: 0 <= i < |xs| ==> SameItem(xs[i], b.items[i])
    case Obj(ms) =>
      && b.Obj?
      && (forall i :: 0 <= i < |ms| && !Dropped(ms[i]) ==> HasMatch(ms[i], b.members))
      && (forall k :: 0 <= k < |b.members| && !Dropped(b.members[k]) ==> KeepsKey(ms, b.members[k].key))
    case _ => a == b
  }

  ghost predicate HasMatch(m: Member, ys: seq<Member>)
    decreases m, 1
  {
    exists k :: 0 <= k < |ys| && !Dropped(ys[k]) && ys[k].key == m.key && SameMeaning(m.value, ys[k].value)
  }

  predicate KeepsKey(ms: seq<Member>, key: string) {
    exists i :: 0 <= i < |ms| && !Dropped(ms[i]) && ms[i].key == key
  }

  ghost predicate SameItem(a: Json, b: Json)
    decreases a, 1
  {
    if a == Undefined then b == Undefined || b == Null
    else if a == Null then b == Undefined || b == Null
    else b != Undefined && SameMeaning(a, b)
  }

  function TextOf(j: Json): string
    requires j.Str? || j.Date?
  {
    if j.Str? then j.s else j.iso
  }

  /// Strictly sorted lists with the same members are equal.
  lemma {:induction false} SortedEqual(xs: seq<Member>, ys: seq<Member>)
    requires Sorted(xs) && Sorted(ys) && forall m :: m in xs <==> m in ys
    ensures xs == ys
  {
    assert ys == [] || ys[0] in xs;
    if xs != [] {
      assert xs[0] in ys;
      HeadsEqual(xs, ys);
      assert xs == [xs[0]] + xs[1..] && ys == [ys[0]] + ys[1..];
      forall m ensures m in xs[1..] <==> m in ys[1..] {
        NotInTail(xs, m);
        NotInTail(ys, m);
      }
      SortedEqual(xs[1..], ys[1..]);
    }
  }

  lemma HeadsEqual(xs: seq<Member>, ys: seq<Member>)
    requires Sorted(xs) && Sorted(ys) && xs != [] && ys != [] && xs[0] in ys && ys[0] in xs
    ensures xs[0] == ys[0]
  {
    var i :| 0 <= i < |ys| && ys[i] == xs[0];
    var k :| 0 <= k < |xs| && xs[k] == ys[0];
    KeyTotal(xs[0].key, ys[0].key);
    KeyTotal(xs[0].key, xs[0].key);
  }

  lemma NotInTail(xs: seq<Member>, m: Member)
    requires Sorted(xs) && xs != []
    ensures m in xs[1..] <==> m in xs && m != xs[0]
  {
    KeyTotal(xs[0].key, xs[0].key);
    assert xs == [xs[0]] + xs[1..];
  }

  lemma {:induction false} SameNormalForm(a: Json, b: Json)
    requires WellFormed(a) && WellFormed(b)
    ensures SameMeaning(a, b) <==> Normalize(a) == Normalize(b)
    decreases a
  {
    match a
    case Arr(xs) => if b.Arr? { SameArrays(xs, b.items); }
    case Obj(ms) => if b.Obj? { SameObjects(ms, b.members); }
    case _ =>
  }

  lemma {:induction false} SameArrays(xs: seq<Json>, ys: seq<Json>)
    requires WellFormed(Arr(xs)) && WellFormed(Arr(ys))
    ensures SameMeaning(Arr(xs), Arr(ys)) <==> Normalize(Arr(xs)) == Normalize(Arr(ys))
    decreases xs, 1
  {
    var a, b := Normalize(Arr(xs)).items, Normalize(Arr(ys)).items;
    if |xs| == |ys| {
      forall i | 0 <= i < |xs| ensures SameItem(xs[i], ys[i]) <==> a[i] == b[i] {
        if xs[i] != Undefined && ys[i] != Undefined { SameNormalForm(xs[i], ys[i]); }
        NormalDefined(xs[i]);
        NormalDefined(ys[i]);
      }
    }
  }

  lemma NormalDefined(j: Json)
    ensures Normalize(j) == Undefined <==> j == Undefined
    ensures Normalize(j) == Null <==> j == Null
  {
  }

  lemma {:induction false} SameObjects(xs: seq<Member>, ys: seq<Member>)
    requires WellFormed(Obj(xs)) && WellFormed(Obj(ys))
    ensures SameMeaning(Obj(xs), Obj(ys)) <==> Normalize(Obj(xs)) == Normalize(Obj(ys))
    decreases xs, 1
  {
    var a, b := NormalMembers(xs), NormalMembers(ys);
    NormalMembersOf(xs);
    NormalMembersOf(ys);
    forall i, k | 0 <= i < |xs| && 0 <= k < |ys|
      ensures SameMeaning(xs[i].value, ys[k].value) <==> Normalize(xs[i].value) == Normalize(ys[k].value)
    {
      SameNormalForm(xs[i].value, ys[k].value);
    }
    if SameMeaning(Obj(xs), Obj(ys)) {
      forall x ensures x in a <==> x in b {
        if NormalMember(xs, x) { MemberThere(xs, ys, x); }
        if NormalMember(ys, x) { MemberBack(xs, ys, x); }
      }
      SortedEqual(a, b);
    } else if a == b {
      EqualMembers(xs, ys);
    }
  }

  ghost predicate Agree(xs: seq<Member>, ys: seq<Member>) {
    forall i, k :: 0 <= i < |xs| && 0 <= k < |ys| ==>
      (SameMeaning(xs[i].value, ys[k].value) <==> Normalize(xs[i].value) == Normalize(ys[k].value))
  }

  lemma MemberThere(xs: seq<Member>, ys: seq<Member>, x: Member)
    requires Agree(xs, ys) && NormalMember(xs, x)
    requires forall i :: 0 <= i < |xs| && !Dropped(xs[i]) ==> HasMatch(xs[i], ys)
    ensures NormalMember(ys, x)
  {
    var i :| 0 <= i < |xs| && !Dropped(xs[i]) && x == Member(xs[i].key, Normalize(xs[i].value));
    assert HasMatch(xs[i], ys);
    var k :| 0 <= k < |ys| && !Dropped(ys[k]) && ys[k].key == xs[i].key && SameMeaning(xs[i].value, ys[k].value);
    assert x == Member(ys[k].key, Normalize(ys[k].value));
  }

  lemma MemberBack(xs: seq<Member>, ys: seq<Member>, x: Member)
    requires WellFormed(Obj(ys)) && Agree(xs, ys) && NormalMember(ys, x)
    requires forall i :: 0 <= i < |xs| && !Dropped(xs[i]) ==> HasMatch(xs[i], ys)
    requires forall k :: 0 <= k < |ys| && !Dropped(ys[k]) ==> KeepsKey(xs, ys[k].key)
    ensures NormalMember(xs, x)
  {
    var k :| 0 <= k < |ys| && !Dropped(ys[k]) && x == Member(ys[k].key, Normalize(ys[k].value));
    assert KeepsKey(xs, ys[k].key);
    var i :| 0 <= i < |xs| && !Dropped(xs[i]) && xs[i].key == ys[k].key;
    assert HasMatch(xs[i], ys);
    var l :| 0 <= l < |ys| && !Dropped(ys[l]) && ys[l].key == xs[i].key && SameMeaning(xs[i].value, ys[l].value);
    assert l == k;
    assert x == Member(xs[i].key, Normalize(xs[i].value));
  }

  lemma EqualMembers(xs: seq<Member>, ys: seq<Member>)
    requires Agree(xs, ys) && forall x :: NormalMember(xs, x) <==> NormalMember(ys, x)
    ensures SameMeaning(Obj(xs), Obj(ys))
  {
    forall i | 0 <= i < |xs| && !Dropped(xs[i]) ensures HasMatch(xs[i], ys) {
      var x := Member(xs[i].key, Normalize(xs[i].value));
      assert NormalMember(xs, x);
      var k :| 0 <= k < |ys| && !Dropped(ys[k]) && x == Member(ys[k].key, Normalize(ys[k].value));
      assert SameMeaning(xs[i].value, ys[k].value);
    }
    forall k | 0 <= k < |ys| && !Dropped(ys[k]) ensures KeepsKey(xs, ys[k].key) {
      var x := Member(ys[k].key, Normalize(ys[k].value));
      assert NormalMember(ys, x);
      var i :| 0 <= i < |xs| && !Dropped(xs[i]) && x == Member(xs[i].key, Normalize(xs[i].value));
    }
  }
}
