/// The text of canonical JSON, and that it determines the value.

module CanonicalText {
  import opened Basics
  import opened Text
  import opened CanonicalJson

  function Hex(d: nat): (c: char)
    requires d < 16
  {
    if d < 10 then ('0' as int + d) as char else ('a' as int + d - 10) as char
  }

  /// A character inside a JSON string.
  function EscapeChar(c: char): string {
    if c == '"' then "\\\""
    else if c == '\\' then "\\\\"
    else if c == '\U{0008}' then "\\b"
    else if c == '\t' then "\\t"
    else if c == '\n' then "\\n"
    else if c == '\U{000C}' then "\\f"
    else if c == '\r' then "\\r"
    else if c < ' ' then "\\u00" + [Hex(c as int / 16), Hex(c as int % 16)]
    else [c]
  }

  function Escaped(s: string): string {
    if s == "" then "" else EscapeChar(s[0]) + Escaped(s[1..])
  }

  function Quote(s: string): string { "\"" + Escaped(s) + "\"" }

  /// `JSON.stringify` of a value in normal form.
  function Stringify(j: Json): string
    requires IsNormal(j)
    decreases j, 2
  {
    match j
    case Null => "null"
    case Bool(b) => if b then "true" else "false"
    case Number(n) => DecInt(n)
    case Str(s) => Quote(s)
    case Arr(items) => "[" + (if items == [] then "]" else Stringify(items[0]) + ItemsTail(items, 1))
    case Obj(ms) => "{" + (if ms == [] then "}" else MemberText(ms[0]) + MembersTail(ms, 1))
  }

  /// The items from the `i`th on, with the closing bracket.
  function ItemsTail(items: seq<Json>, i: nat): string
    requires i <= |items| && forall k :: 0 <= k < |items| ==> IsNormal(items[k])
    decreases items, 1, |items| - i
  {
    if i == |items| then "]" else "," + Stringify(items[i]) + ItemsTail(items, i + 1)
  }

  function MemberText(m: Member): string
    requires IsNormal(m.value)
    decreases m, 1
  {
    Quote(m.key) + ":" + Stringify(m.value)
  }

  function MembersTail(ms: seq<Member>, i: nat): string
    requires i <= |ms| && forall k :: 0 <= k < |ms| ==> IsNormal(ms[k].value)
    decreases ms, 1, |ms| - i
  {
    if i == |ms| then "}" else "," + MemberText(ms[i]) + MembersTail(ms, i + 1)
  }

  function Canonical(j: Json): string
    requires WellFormed(j) && j != Undefined
  {
    NormalizeIsNormal(j);
    Stringify(Normalize(j))
  }

  // ---- the text determines the value ----

  predicate Stops(x: string) { x == "" || x[0] == ',' || x[0] == ']' || x[0] == '}' }

  lemma CutEqual(p: string, x: string, q: string, y: string)
    requires p + x == q + y && |p| == |q|
    ensures p == q && x == y
  {
    assert p == (p + x)[..|p|] && q == (q + y)[..|q|];
    assert x == (p + x)[|p|..] && y == (q + y)[|q|..];
  }

  /// Both texts start with `c`.
  lemma CutLead(c: string, p: string, x: string, q: string, y: string)
    requires (c + p) + x == (c + q) + y
    ensures p + x == q + y
  {
    Regroup(c, p, x);
    Regroup(c, q, y);
    CutEqual(c, p + x, c, q + y);
  }

  lemma FirstOf(p: string, x: string)
    requires p != ""
    ensures p + x != "" && (p + x)[0] == p[0]
  {
  }

  lemma DigitsNotLonger(s: string, x: string, t: string, y: string)
    requires IsDigits(s) && IsDigits(t) && s + x == t + y && (x != "" ==> !IsDigit(x[0]))
    ensures |s| >= |t|
  {
    if x != "" {
      assert (s + x)[|s|] == x[0];
      assert forall k :: 0 <= k < |t| ==> IsDigit((t + y)[k]);
    }
  }

  lemma DigitsEnd(s: string, x: string, t: string, y: string)
    requires IsDigits(s) && IsDigits(t) && s + x == t + y
    requires (x != "" ==> !IsDigit(x[0])) && (y != "" ==> !IsDigit(y[0]))
    ensures s == t && x == y
  {
    DigitsNotLonger(s, x, t, y);
    DigitsNotLonger(t, y, s, x);
    CutEqual(s, x, t, y);
  }

  lemma NaturalsDiffer(n: nat, x: string, m: nat, y: string)
    requires Dec(n) + x == Dec(m) + y && Stops(x) && Stops(y)
    ensures n == m && x == y
  {
    DigitsEnd(Dec(n), x, Dec(m), y);
    NumDec(n);
    NumDec(m);
  }

  lemma SignShows(n: int)
    ensures DecInt(n) != "" && (DecInt(n)[0] == '-' <==> n < 0) && (n >= 0 ==> IsDigit(DecInt(n)[0]))
  {
  }

  lemma NumbersDiffer(n: int, x: string, m: int, y: string)
    requires DecInt(n) + x == DecInt(m) + y && Stops(x) && Stops(y)
    ensures n == m && x == y
  {
    SignShows(n);
    SignShows(m);
    FirstOf(DecInt(n), x);
    FirstOf(DecInt(m), y);
    if n < 0 {
      CutLead("-", Dec(-n), x, Dec(-m), y);
      NaturalsDiffer(-n, x, -m, y);
    } else {
      NaturalsDiffer(n, x, m, y);
    }
  }

  lemma EscapesDiffer(c: char, u: string, d: char, v: string)
    requires EscapeChar(c) + u == EscapeChar(d) + v
    ensures c == d && u == v
  {
    var p, q := EscapeChar(c), EscapeChar(d);
    assert (p + u)[0] == p[0] && (q + v)[0] == q[0];
    if p[0] == '\\' {
      assert (p + u)[1] == p[1] && (q + v)[1] == q[1];
      if p[1] == 'u' {
        assert (p + u)[4] == p[4] && (q + v)[4] == q[4];
        assert (p + u)[5] == p[5] && (q + v)[5] == q[5];
      }
    }
    CutEqual(p, u, q, v);
  }

  lemma EscapeStart(c: char)
    ensures EscapeChar(c) != "" && EscapeChar(c)[0] != '"'
  {
  }

  /// The first character of a quoted text's rest: a quote exactly at its end.
  lemma QuoteEnds(s: string, x: string)
    ensures Escaped(s) + ("\"" + x) != ""
    ensures s == "" <==> (Escaped(s) + ("\"" + x))[0] == '"'
  {
    if s != "" {
      EscapeStart(s[0]);
      FirstOf(EscapeChar(s[0]), Escaped(s[1..]));
      FirstOf(Escaped(s), "\"" + x);
    }
  }

  lemma {:induction false} QuotesDiffer(s: string, x: string, t: string, y: string)
    requires Escaped(s) + ("\"" + x) == Escaped(t) + ("\"" + y)
    ensures s == t && x == y
  {
    QuoteEnds(s, x);
    QuoteEnds(t, y);
    if s != "" {
      var u, v := Escaped(s[1..]) + ("\"" + x), Escaped(t[1..]) + ("\"" + y);
      Regroup(EscapeChar(s[0]), Escaped(s[1..]), "\"" + x);
      Regroup(EscapeChar(t[0]), Escaped(t[1..]), "\"" + y);
      EscapesDiffer(s[0], u, t[0], v);
      QuotesDiffer(s[1..], x, t[1..], y);
      assert s == [s[0]] + s[1..] && t == [t[0]] + t[1..];
    } else {
      assert Escaped(s) + ("\"" + x) == "\"" + x && Escaped(t) + ("\"" + y) == "\"" + y;
      CutEqual("\"", x, "\"", y);
    }
  }

  lemma QuotedDiffer(s: string, x: string, t: string, y: string)
    requires Quote(s) + x == Quote(t) + y
    ensures s == t && x == y
  {
    QuoteText(s, x);
    QuoteText(t, y);
    CutEqual("\"", Escaped(s) + ("\"" + x), "\"", Escaped(t) + ("\"" + y));
    QuotesDiffer(s, x, t, y);
  }

  lemma QuoteText(s: string, x: string)
    ensures Quote(s) + x == "\"" + (Escaped(s) + ("\"" + x))
  {
  }

  /// Which kind of value a first character belongs to.
  function KindOf(c: char): int {
    if c == 'n' then 0 else if c == 't' || c == 'f' then 1 else if c == '-' || IsDigit(c) then 2
    else if c == '"' then 3 else if c == '[' then 4 else if c == '{' then 5 else 6
  }

  function Kind(j: Json): int {
    match j
    case Null => 0
    case Bool(_) => 1
    case Number(_) => 2
    case Str(_) => 3
    case Arr(_) => 4
    case Obj(_) => 5
    case _ => 7
  }

  lemma FirstChar(j: Json, x: string)
    requires IsNormal(j)
    ensures Stringify(j) != "" && KindOf((Stringify(j) + x)[0]) == Kind(j)
  {
    match j
    case Number(n) => assert DecInt(n)[0] == '-' || IsDigit(DecInt(n)[0]);
    case _ =>
  }

  lemma {:induction false} ValuesDiffer(a: Json, b: Json, x: string, y: string)
    requires IsNormal(a) && IsNormal(b) && Stops(x) && Stops(y)
    requires Stringify(a) + x == Stringify(b) + y
    ensures a == b && x == y
    decreases a, 2
  {
    FirstChar(a, x);
    FirstChar(b, y);
    match a
    case Null => CutEqual("null", x, "null", y);
    case Bool(p) =>
      assert (Stringify(a) + x)[0] == (if p then 't' else 'f') && (Stringify(b) + y)[0] == (if b.b then 't' else 'f');
      CutEqual(Stringify(a), x, Stringify(b), y);
    case Number(n) => NumbersDiffer(n, x, b.n, y);
    case Str(s) =>
      QuotedDiffer(s, x, b.s, y);
    case Arr(items) =>
      ArraysDiffer(items, b.items, x, y);
    case Obj(ms) =>
      ObjectsDiffer(ms, b.members, x, y);
  }

  /// The items with the closing bracket.
  function ItemsText(items: seq<Json>): string
    requires IsNormal(Arr(items))
  {
    if items == [] then "]" else Stringify(items[0]) + ItemsTail(items, 1)
  }

  lemma ItemsStart(items: seq<Json>, x: string)
    requires IsNormal(Arr(items))
    ensures ItemsText(items) + x != ""
    ensures items == [] <==> (ItemsText(items) + x)[0] == ']'
  {
    if items != [] {
      FirstChar(items[0], "");
      FirstChar(items[0], ItemsTail(items, 1));
      FirstOf(ItemsText(items), x);
    }
  }

  lemma {:induction false} ArraysDiffer(a: seq<Json>, b: seq<Json>, x: string, y: string)
    requires IsNormal(Arr(a)) && IsNormal(Arr(b)) && Stops(x) && Stops(y)
    requires Stringify(Arr(a)) + x == Stringify(Arr(b)) + y
    ensures a == b && x == y
    decreases a, 1, |a| + 1
  {
    CutLead("[", ItemsText(a), x, ItemsText(b), y);
    ItemsStart(a, x);
    ItemsStart(b, y);
    if a != [] {
      FirstItem(a, x);
      FirstItem(b, y);
      ValuesDiffer(a[0], b[0], ItemsTail(a, 1) + x, ItemsTail(b, 1) + y);
      TailsDiffer(a, b, 1, x, y);
    } else {
      CutEqual("]", x, "]", y);
    }
  }

  lemma FirstItem(items: seq<Json>, x: string)
    requires IsNormal(Arr(items)) && items != []
    ensures ItemsText(items) + x == Stringify(items[0]) + (ItemsTail(items, 1) + x) && Stops(ItemsTail(items, 1) + x)
  {
    Regroup(Stringify(items[0]), ItemsTail(items, 1), x);
    TailStart(items, 1, x);
  }

  lemma TailStart(items: seq<Json>, i: nat, x: string)
    requires IsNormal(Arr(items)) && i <= |items|
    ensures ItemsTail(items, i) + x != ""
    ensures (ItemsTail(items, i) + x)[0] == if i == |items| then ']' else ','
  {
    FirstOf(ItemsTail(items, i), x);
  }

  /// An item that is not the first: comma, value, rest.
  lemma NextItem(items: seq<Json>, i: nat, x: string)
    requires IsNormal(Arr(items)) && i < |items|
    ensures ItemsTail(items, i) + x == "," + (Stringify(items[i]) + (ItemsTail(items, i + 1) + x))
    ensures Stops(ItemsTail(items, i + 1) + x)
  {
    var v, t := Stringify(items[i]), ItemsTail(items, i + 1);
    assert ("," + v + t) + x == "," + (v + (t + x));
    TailStart(items, i + 1, x);
  }

  lemma {:induction false} TailsDiffer(a: seq<Json>, b: seq<Json>, i: nat, x: string, y: string)
    requires IsNormal(Arr(a)) && IsNormal(Arr(b)) && Stops(x) && Stops(y)
    requires i <= |a| && i <= |b| && ItemsTail(a, i) + x == ItemsTail(b, i) + y
    ensures |a| == |b| && x == y && forall k :: i <= k < |a| ==> a[k] == b[k]
    decreases a, 1, |a| - i
  {
    TailsTogether(a, b, i, x, y);
    if i < |a| {
      ValuesDiffer(a[i], b[i], ItemsTail(a, i + 1) + x, ItemsTail(b, i + 1) + y);
      TailsDiffer(a, b, i + 1, x, y);
    }
  }

  lemma TailsTogether(a: seq<Json>, b: seq<Json>, i: nat, x: string, y: string)
    requires IsNormal(Arr(a)) && IsNormal(Arr(b)) && Stops(x) && Stops(y)
    requires i <= |a| && i <= |b| && ItemsTail(a, i) + x == ItemsTail(b, i) + y
    ensures i == |a| <==> i == |b|
    ensures i == |a| ==> x == y
    ensures i < |a| ==>
              var u, v := ItemsTail(a, i + 1) + x, ItemsTail(b, i + 1) + y;
              Stops(u) && Stops(v) && Stringify(a[i]) + u == Stringify(b[i]) + v
  {
    TailStart(a, i, x);
    TailStart(b, i, y);
    if i == |a| {
      CutEqual("]", x, "]", y);
    } else {
      NextItem(a, i, x);
      NextItem(b, i, y);
      CutEqual(",", Stringify(a[i]) + (ItemsTail(a, i + 1) + x), ",", Stringify(b[i]) + (ItemsTail(b, i + 1) + y));
    }
  }

  lemma MemberParts(m: Member, x: string)
    requires IsNormal(m.value)
    ensures MemberText(m) + x == Quote(m.key) + (":" + (Stringify(m.value) + x))
  {
    var k, v := Quote(m.key), Stringify(m.value);
    assert (k + ":" + v) + x == k + (":" + (v + x));
  }

  lemma {:induction false} MembersDiffer(m: Member, n: Member, x: string, y: string)
    requires IsNormal(m.value) && IsNormal(n.value) && Stops(x) && Stops(y)
    requires MemberText(m) + x == MemberText(n) + y
    ensures m == n && x == y
    decreases m, 3
  {
    MemberParts(m, x);
    MemberParts(n, y);
    QuotedDiffer(m.key, ":" + (Stringify(m.value) + x), n.key, ":" + (Stringify(n.value) + y));
    CutEqual(":", Stringify(m.value) + x, ":", Stringify(n.value) + y);
    ValuesDiffer(m.value, n.value, x, y);
  }

  /// The members with the closing brace.
  function MembersText(ms: seq<Member>): string
    requires IsNormal(Obj(ms))
  {
    if ms == [] then "}" else MemberText(ms[0]) + MembersTail(ms, 1)
  }

  lemma MembersStart(ms: seq<Member>, x: string)
    requires IsNormal(Obj(ms))
    ensures MembersText(ms) + x != ""
    ensures ms == [] <==> (MembersText(ms) + x)[0] == '}'
  {
    if ms != [] {
      MemberParts(ms[0], MembersTail(ms, 1) + x);
      Regroup(MemberText(ms[0]), MembersTail(ms, 1), x);
      QuoteText(ms[0].key, ":" + (Stringify(ms[0].value) + (MembersTail(ms, 1) + x)));
    }
  }

  lemma {:induction false} ObjectsDiffer(a: seq<Member>, b: seq<Member>, x: string, y: string)
    requires IsNormal(Obj(a)) && IsNormal(Obj(b)) && Stops(x) && Stops(y)
    requires Stringify(Obj(a)) + x == Stringify(Obj(b)) + y
    ensures a == b && x == y
    decreases a, 1, |a| + 1
  {
    CutLead("{", MembersText(a), x, MembersText(b), y);
    MembersStart(a, x);
    MembersStart(b, y);
    if a != [] {
      Regroup(MemberText(a[0]), MembersTail(a, 1), x);
      Regroup(MemberText(b[0]), MembersTail(b, 1), y);
      MemberTailStart(a, 1, x);
      MemberTailStart(b, 1, y);
      MembersDiffer(a[0], b[0], MembersTail(a, 1) + x, MembersTail(b, 1) + y);
      MemberTailsDiffer(a, b, 1, x, y);
    } else {
      CutEqual("}", x, "}", y);
    }
  }

  lemma MemberTailStart(ms: seq<Member>, i: nat, x: string)
    requires IsNormal(Obj(ms)) && i <= |ms|
    ensures MembersTail(ms, i) + x != ""
    ensures (MembersTail(ms, i) + x)[0] == if i == |ms| then '}' else ','
  {
    FirstOf(MembersTail(ms, i), x);
  }

  lemma NextMember(ms: seq<Member>, i: nat, x: string)
    requires IsNormal(Obj(ms)) && i < |ms|
    ensures MembersTail(ms, i) + x == "," + (MemberText(ms[i]) + (MembersTail(ms, i + 1) + x))
    ensures Stops(MembersTail(ms, i + 1) + x)
  {
    var v, t := MemberText(ms[i]), MembersTail(ms, i + 1);
    assert ("," + v + t) + x == "," + (v + (t + x));
    MemberTailStart(ms, i + 1, x);
  }

  lemma {:induction false} MemberTailsDiffer(a: seq<Member>, b: seq<Member>, i: nat, x: string, y: string)
    requires IsNormal(Obj(a)) && IsNormal(Obj(b)) && Stops(x) && Stops(y)
    requires i <= |a| && i <= |b| && MembersTail(a, i) + x == MembersTail(b, i) + y
    ensures |a| == |b| && x == y && forall k :: i <= k < |a| ==> a[k] == b[k]
    decreases a, 1, |a| - i
  {
    MemberTailsTogether(a, b, i, x, y);
    if i < |a| {
      MembersDiffer(a[i], b[i], MembersTail(a, i + 1) + x, MembersTail(b, i + 1) + y);
      MemberTailsDiffer(a, b, i + 1, x, y);
    }
  }

  lemma MemberTailsTogether(a: seq<Member>, b: seq<Member>, i: nat, x: string, y: string)
    requires IsNormal(Obj(a)) && IsNormal(Obj(b)) && Stops(x) && Stops(y)
    requires i <= |a| && i <= |b| && MembersTail(a, i) + x == MembersTail(b, i) + y
    ensures i == |a| <==> i == |b|
    ensures i == |a| ==> x == y
    ensures i < |a| ==>
              var u, v := MembersTail(a, i + 1) + x, MembersTail(b, i + 1) + y;
              Stops(u) && Stops(v) && MemberText(a[i]) + u == MemberText(b[i]) + v
  {
    MemberTailStart(a, i, x);
    MemberTailStart(b, i, y);
    if i == |a| {
      CutEqual("}", x, "}", y);
    } else {
      NextMember(a, i, x);
      NextMember(b, i, y);
      CutEqual(",", MemberText(a[i]) + (MembersTail(a, i + 1) + x), ",", MemberText(b[i]) + (MembersTail(b, i + 1) + y));
    }
  }

  // ---- main result ----

  /// Two values have the same canonical text exactly when they mean the same.
  lemma SameCanonical(a: Json, b: Json)
    requires WellFormed(a) && WellFormed(b) && a != Undefined && b != Undefined
    ensures Canonical(a) == Canonical(b) <==> SameMeaning(a, b)
  {
    NormalizeIsNormal(a);
    NormalizeIsNormal(b);
    SameNormalForm(a, b);
    if Canonical(a) == Canonical(b) {
      assert Stringify(Normalize(a)) + "" == Stringify(Normalize(b)) + "";
      ValuesDiffer(Normalize(a), Normalize(b), "", "");
    }
  }
}
