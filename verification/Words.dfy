/// Whole numbers in English words, and reading them back.

module Words {
  import opened Basics
  import opened Text

  datatype System = Indian | International

  function Ones(k: nat): string
    requires k < 20
  {
    ["", "One", "Two", "Three", "Four", "Five", "Six", "Seven", "Eight", "Nine", "Ten", "Eleven", "Twelve",
     "Thirteen", "Fourteen", "Fifteen", "Sixteen", "Seventeen", "Eighteen", "Nineteen"][k]
  }

  function Tens(k: nat): string
    requires k < 10
  {
    ["", "", "Twenty", "Thirty", "Forty", "Fifty", "Sixty", "Seventy", "Eighty", "Ninety"][k]
  }

  /// Reading past the end of the list gives `undefined`, which prints as such.
  function One(n: nat): string { if n < 20 then Ones(n) else "undefined" }

  /// Texts joined by single spaces are lists of words here; empty texts drop out.
  function Word(w: string): seq<string> { if w == "" then [] else [w] }

  function Below100(n: nat): seq<string>
    requires n < 100
  {
    if n < 20 then Word(Ones(n)) else Word(Tens(n / 10)) + Word(Ones(n % 10))
  }

  function Below1000(n: nat): seq<string> {
    (if n / 100 > 0 then [One(n / 100), "Hundred"] else []) + (if n % 100 > 0 then Below100(n % 100) else [])
  }

  datatype Scale = Scale(size: nat, name: string)

  function Scales(system: System): (r: seq<Scale>)
    ensures r != [] && forall i :: 0 <= i < |r| ==> r[i].size >= 1000
  {
    match system
    case Indian => [Scale(10_000_000, "Crore"), Scale(100_000, "Lakh"), Scale(1000, "Thousand")]
    case International =>
      [Scale(1_000_000_000_000, "Trillion"), Scale(1_000_000_000, "Billion"), Scale(1_000_000, "Million"),
       Scale(1000, "Thousand")]
  }

  function Count(n: nat, system: System): seq<string> {
    if system == Indian && n < 100 then Below100(n) else Below1000(n)
  }

  function Quot(n: nat, size: nat): nat
    requires size > 0
  {
    n / size
  }

  function Rem(n: nat, size: nat): nat
    requires size > 0
  {
    n % size
  }

  /// The parts for the scales from the `i`th on, and the rest below a thousand.
  function PartsFrom(n: nat, system: System, i: nat): seq<string>
    requires i <= |Scales(system)|
    decreases |Scales(system)| - i, n
  {
    if i == |Scales(system)| then (if n > 0 then Below1000(n) else [])
    else
      var s := Scales(system)[i];
      if n >= s.size then Count(Quot(n, s.size), system) + [s.name] + PartsFrom(Rem(n, s.size), system, i + 1)
      else PartsFrom(n, system, i + 1)
  }

  const CRORE: nat := 10_000_000
  const TRILLION: nat := 1_000_000_000_000

  /// Amounts beyond the largest Indian scale repeat it: "One Thousand Crore".
  function InWords(n: nat, system: System): seq<string> {
    if n == 0 then ["Zero"]
    else if system == Indian && n >= CRORE * 1000
    then InWords(Quot(n, CRORE), system) + ["Crore"] + PartsFrom(Rem(n, CRORE), system, 0)
    else PartsFrom(n, system, 0)
  }

  method IntegerInWords(value: int, system: System) returns (words: seq<string>)
    ensures words == InWords(if value < 0 then -value else value, system)
    decreases if value < 0 then -value else value
  {
    var n: nat := if value < 0 then -value else value;
    if n == 0 { return ["Zero"]; }
    words := [];
    if n >= CRORE * 1000 && system == Indian {
      var top := IntegerInWords(n / CRORE, system);
      words := top + ["Crore"];
      n := n % CRORE;
    }
    var parts := Parts(n, system);
    words := words + parts;
  }

  /// The loop over the scales.
  method Parts(n: nat, system: System) returns (words: seq<string>)
    ensures words == PartsFrom(n, system, 0)
  {
    words := [];
    var scales := Scales(system);
    var left: nat := n;
    var i := 0;
    while i < |scales|
      invariant i <= |scales| && words + PartsFrom(left, system, i) == PartsFrom(n, system, 0)
    {
      var s := scales[i];
      ghost var before := words;
      if left >= s.size {
        var quotient, rest := Quot(left, s.size), Rem(left, s.size);
        words := words + (Count(quotient, system) + [s.name]);
        Regroup(before, Count(quotient, system) + [s.name], PartsFrom(rest, system, i + 1));
        left := rest;
      }
      i := i + 1;
    }
    if left > 0 { words := words + Below1000(left); }
  }

  // ---- reading ----

  datatype Meaning = Number(n: nat) | Hundred | Times(size: nat) | AllTimes(size: nat) | Unknown

  /// What was read: the finished part, and the group being read.
  datatype Reading = Reading(total: nat, group: nat)

  function ReadWord(r: Reading, m: Meaning): Option<Reading> {
    match m
    case Number(n) => Some(Reading(r.total, r.group + n))
    case Hundred => Some(Reading(r.total, r.group * 100))
    case Times(size) => Some(Reading(r.total + r.group * size, 0))
    case AllTimes(size) => Some(Reading((r.total + r.group) * size, 0))
    case Unknown => None
  }

  /// How a reader takes one word.
  type Reader = (Reading, string) -> Option<Reading>

  function ReadWords(r: Option<Reading>, ws: seq<string>, reader: Reader): Option<Reading>
    decreases |ws|, r
  {
    if ws == [] || r.None? then r else ReadWords(reader(r.value, ws[0]), ws[1..], reader)
  }

  /// The number some words stand for.
  function Read(ws: seq<string>, reader: Reader): Option<nat> {
    var r := ReadWords(Some(Reading(0, 0)), ws, reader);
    if r.None? then None else Some(r.value.total + r.value.group)
  }

  /// The reader takes the word as having this meaning.
  ghost predicate Takes(reader: Reader, w: string, m: Meaning) {
    forall r :: reader(r, w) == ReadWord(r, m)
  }

  /// The reader knows the words of `InWords`. The quantifier only keeps `Knows` folded up.
  ghost predicate Understands(reader: Reader) {
    forall k: int {:trigger OnDemand(k)} :: OnDemand(k) ==> Knows(reader)
  }

  predicate OnDemand(k: int) { k == 0 }

  ghost predicate Knows(reader: Reader) {
    && Takes(reader, "Zero", Number(0)) && Takes(reader, "Hundred", Hundred) && Takes(reader, "undefined", Unknown)
    && (forall k :: 1 <= k < 20 ==> Ones(k) != "" && Takes(reader, Ones(k), Number(k)))
    && (forall k :: 2 <= k < 10 ==> Tens(k) != "" && Takes(reader, Tens(k), Number(10 * k)))
    && Takes(reader, "Thousand", Times(1000)) && Takes(reader, "Lakh", Times(100_000)) && Takes(reader, "Crore", AllTimes(CRORE))
    && Takes(reader, "Million", Times(1_000_000)) && Takes(reader, "Billion", Times(1_000_000_000))
    && Takes(reader, "Trillion", Times(TRILLION))
  }

  lemma Understood(reader: Reader)
    ensures Understands(reader) <==> Knows(reader)
  {
    assert OnDemand(0);
  }

  lemma ZeroAndCrore(reader: Reader)
    requires Understands(reader)
    ensures Takes(reader, "Zero", Number(0)) && Takes(reader, "Crore", AllTimes(CRORE))
  {
    Understood(reader);
  }

  lemma {:induction false} ReadConcat(r: Option<Reading>, xs: seq<string>, ys: seq<string>, reader: Reader)
    ensures ReadWords(r, xs + ys, reader) == ReadWords(ReadWords(r, xs, reader), ys, reader)
    decreases |xs|
  {
    if xs == [] {
      assert xs + ys == ys;
    } else if r.Some? {
      assert (xs + ys)[1..] == xs[1..] + ys;
      ReadConcat(reader(r.value, xs[0]), xs[1..], ys, reader);
    }
  }

  lemma ReadOne(r: Reading, w: string, reader: Reader)
    ensures ReadWords(Some(r), [w], reader) == reader(r, w)
  {
    assert [w][1..] == [];
  }

  lemma ReadPair(r: Reading, v: string, w: string, reader: Reader, s: Reading)
    requires reader(r, v) == Some(s)
    ensures ReadWords(Some(r), [v, w], reader) == reader(s, w)
  {
    assert [v, w] == [v] + [w];
    ReadConcat(Some(r), [v], [w], reader);
    ReadOne(r, v, reader);
    ReadOne(s, w, reader);
  }

  // ---- reading undoes writing ----

  lemma Form100(n: nat)
    requires 0 < n < 100
    ensures Below100(n) == if n < 20 then [Ones(n)]
                           else if n % 10 > 0 then [Tens(n / 10), Ones(n % 10)] else [Tens(n / 10)]
  {
  }

  lemma ReadBelow100(n: nat, total: nat, group: nat, reader: Reader)
    requires Understands(reader) && 0 < n < 100
    ensures ReadWords(Some(Reading(total, group)), Below100(n), reader) == Some(Reading(total, group + n))
  {
    Form100(n);
    if n < 20 {
      Understood(reader);
      ReadOne(Reading(total, group), Ones(n), reader);
    } else {
      ReadTens(n / 10, n % 10, total, group, reader);
    }
  }

  lemma ReadTens(t: nat, u: nat, total: nat, group: nat, reader: Reader)
    requires Understands(reader) && 2 <= t < 10 && u < 10
    ensures ReadWords(Some(Reading(total, group)), if u > 0 then [Tens(t), Ones(u)] else [Tens(t)], reader)
         == Some(Reading(total, group + 10 * t + u))
  {
    Understood(reader);
    ReadOne(Reading(total, group), Tens(t), reader);
    if u > 0 { ReadPair(Reading(total, group), Tens(t), Ones(u), reader, Reading(total, group + 10 * t)); }
  }

  lemma Form1000(n: nat)
    ensures Below1000(n) == if n / 100 == 0 then (if n % 100 > 0 then Below100(n % 100) else [])
                            else if n % 100 > 0 then [One(n / 100), "Hundred"] + Below100(n % 100)
                            else [One(n / 100), "Hundred"]
  {
  }

  /// Up to "Nineteen Hundred Ninety Nine".
  lemma ReadBelow1000(n: nat, total: nat, reader: Reader)
    requires Understands(reader) && 0 < n < 2000
    ensures ReadWords(Some(Reading(total, 0)), Below1000(n), reader) == Some(Reading(total, n))
  {
    Form1000(n);
    if n / 100 > 0 { ReadHundreds(n / 100, n % 100, total, reader); } else { ReadBelow100(n % 100, total, 0, reader); }
  }

  lemma ReadHundreds(h: nat, u: nat, total: nat, reader: Reader)
    requires Understands(reader) && 0 < h < 20 && u < 100
    ensures ReadWords(Some(Reading(total, 0)), if u > 0 then [One(h), "Hundred"] + Below100(u) else [One(h), "Hundred"], reader)
         == Some(Reading(total, 100 * h + u))
  {
    Understood(reader);
    ReadPair(Reading(total, 0), Ones(h), "Hundred", reader, Reading(total, h));
    if u > 0 {
      ReadConcat(Some(Reading(total, 0)), [One(h), "Hundred"], Below100(u), reader);
      ReadBelow100(u, total, 100 * h, reader);
    }
  }

  /// Beyond that a word is missing.
  lemma UnreadableBelow1000(n: nat, total: nat, reader: Reader)
    requires Understands(reader) && n >= 2000
    ensures ReadWords(Some(Reading(total, 0)), Below1000(n), reader) == None
  {
    Understood(reader);
    var tail := ["Hundred"] + (if n % 100 > 0 then Below100(n % 100) else []);
    assert Below1000(n) == ["undefined"] + tail;
    ReadConcat(Some(Reading(total, 0)), ["undefined"], tail, reader);
    ReadOne(Reading(total, 0), "undefined", reader);
  }

  lemma ReadCount(n: nat, system: System, total: nat, reader: Reader)
    requires Understands(reader) && 0 < n < 2000
    ensures ReadWords(Some(Reading(total, 0)), Count(n, system), reader) == Some(Reading(total, n))
  {
    if system == Indian && n < 100 { ReadBelow100(n, total, 0, reader); } else { ReadBelow1000(n, total, reader); }
  }

  /// One scale: its count and its name.
  lemma ReadScale(count: seq<string>, q: nat, name: string, size: nat, amount: nat, total: nat, reader: Reader)
    requires ReadWords(Some(Reading(total, 0)), count, reader) == Some(Reading(total, q)) && amount == q * size
    requires Takes(reader, name, Times(size)) || (Takes(reader, name, AllTimes(size)) && total == 0)
    ensures ReadWords(Some(Reading(total, 0)), count + [name], reader) == Some(Reading(total + amount, 0))
  {
    ReadConcat(Some(Reading(total, 0)), count, [name], reader);
    ReadOne(Reading(total, q), name, reader);
  }

  /// What a scale means, and how far counts may go at each.
  lemma ScaleMeans(system: System, i: nat, reader: Reader)
    requires Understands(reader) && i < |Scales(system)|
    ensures var s := Scales(system)[i];
            Takes(reader, s.name, if system == Indian && i == 0 then AllTimes(s.size) else Times(s.size))
    ensures i + 1 < |Scales(system)| ==> Scales(system)[i].size <= 1000 * Scales(system)[i + 1].size
    ensures i + 1 == |Scales(system)| ==> Scales(system)[i].size == 1000
  {
    Understood(reader);
  }

  function Size(system: System, i: nat): nat
    requires i <= |Scales(system)|
  {
    if i < |Scales(system)| then Scales(system)[i].size else 1
  }

  /// Reading the parts adds the number, whatever was read before; only "Crore" at the start
  /// of the Indian scales multiplies what was read, so nothing may come before it.
  lemma {:induction false} ReadParts(n: nat, system: System, i: nat, total: nat, reader: Reader)
    requires Understands(reader) && i <= |Scales(system)| && n < 2000 * Size(system, i)
    requires system == Indian && i == 0 && n >= CRORE ==> total == 0
    ensures ReadWords(Some(Reading(total, 0)), PartsFrom(n, system, i), reader).Some?
    ensures var r := ReadWords(Some(Reading(total, 0)), PartsFrom(n, system, i), reader).value;
            r.total + r.group == total + n
    decreases |Scales(system)| - i
  {
    if i == |Scales(system)| {
      if n > 0 { ReadBelow1000(n, total, reader); }
    } else {
      if n >= Size(system, i) {
        var q, amount, rest := LargestFirst(n, system, i);
        ReadFirst(q, amount, system, i, total, reader);
        ReadRest(Largest(q, system, i), amount, rest, system, i, total, reader);
      } else {
        ReadParts(n, system, i + 1, total, reader);
      }
    }
  }

  /// The words of one scale.
  function Largest(q: nat, system: System, i: nat): seq<string>
    requires i < |Scales(system)|
  {
    Count(q, system) + [Scales(system)[i].name]
  }

  /// The largest scale that fits, and what is left for the others.
  lemma LargestFirst(n: nat, system: System, i: nat) returns (q: nat, amount: nat, rest: nat)
    requires i < |Scales(system)| && n >= Size(system, i)
    ensures amount == q * Size(system, i) && n == amount + rest && (n < 2000 * Size(system, i) ==> 0 < q < 2000)
    ensures PartsFrom(n, system, i) == Largest(q, system, i) + PartsFrom(rest, system, i + 1)
    ensures rest < 2000 * Size(system, i + 1)
  {
    var size := Size(system, i);
    q, rest := Quot(n, size), Rem(n, size);
    amount := q * size;
    DivMod(n, size);
    if n < 2000 * size { FewTimes(q, size, 2000, n); }
    SmallRest(system, i, rest);
  }

  lemma FewTimes(q: nat, size: nat, limit: nat, n: nat)
    requires size > 0 && size <= n < limit * size && q * size <= n < q * size + size
    ensures 0 < q < limit
  {
    if q >= limit { MoreTimes(q, limit, size); }
  }

  lemma ReadFirst(q: nat, amount: nat, system: System, i: nat, total: nat, reader: Reader)
    requires Understands(reader) && i < |Scales(system)| && 0 < q < 2000 && amount == q * Size(system, i)
    requires system == Indian && i == 0 ==> total == 0
    ensures ReadWords(Some(Reading(total, 0)), Largest(q, system, i), reader) == Some(Reading(total + amount, 0))
  {
    var s := Scales(system)[i];
    ScaleMeans(system, i, reader);
    ReadCount(q, system, total, reader);
    ReadScale(Count(q, system), q, s.name, s.size, amount, total, reader);
  }

  lemma {:induction false} ReadRest(head: seq<string>, amount: nat, rest: nat, system: System, i: nat, total: nat, reader: Reader)
    requires Understands(reader) && i < |Scales(system)| && rest < 2000 * Size(system, i + 1)
    requires ReadWords(Some(Reading(total, 0)), head, reader) == Some(Reading(total + amount, 0))
    ensures var r := ReadWords(Some(Reading(total, 0)), head + PartsFrom(rest, system, i + 1), reader);
            r.Some? && r.value.total + r.value.group == total + amount + rest
    decreases |Scales(system)| - i, 0
  {
    ReadParts(rest, system, i + 1, total + amount, reader);
    ReadBoth(head, PartsFrom(rest, system, i + 1), total, amount, rest, reader);
  }

  lemma SmallRest(system: System, i: nat, rest: nat)
    requires i < |Scales(system)| && rest < Size(system, i)
    ensures rest < 2000 * Size(system, i + 1)
  {
  }

  lemma ReadBoth(head: seq<string>, tail: seq<string>, total: nat, amount: nat, rest: nat, reader: Reader)
    requires ReadWords(Some(Reading(total, 0)), head, reader) == Some(Reading(total + amount, 0))
    requires var r := ReadWords(Some(Reading(total + amount, 0)), tail, reader);
             r.Some? && r.value.total + r.value.group == total + amount + rest
    ensures var r := ReadWords(Some(Reading(total, 0)), head + tail, reader);
            r.Some? && r.value.total + r.value.group == total + amount + rest
  {
    ReadConcat(Some(Reading(total, 0)), head, tail, reader);
  }

  lemma DivMod(n: nat, size: nat)
    requires size > 0
    ensures n == Quot(n, size) * size + Rem(n, size) && Rem(n, size) < size
  {
  }

  lemma MoreTimes(a: nat, b: nat, c: nat)
    requires a >= b
    ensures a * c >= b * c
  {
  }

  // ---- main results ----

  /// The Indian words read back as the number, however large.
  lemma {:induction false} ReadIndian(n: nat, reader: Reader)
    requires Understands(reader)
    ensures ReadWords(Some(Reading(0, 0)), InWords(n, Indian), reader).Some?
    ensures var r := ReadWords(Some(Reading(0, 0)), InWords(n, Indian), reader).value; r.total + r.group == n
  {
    ZeroAndCrore(reader);
    if n == 0 {
      ReadOne(Reading(0, 0), "Zero", reader);
    } else if n >= CRORE * 1000 {
      var q, rest := Quot(n, CRORE), Rem(n, CRORE);
      DivMod(n, CRORE);
      ReadIndian(q, reader);
      ReadParts(rest, Indian, 0, q * CRORE, reader);
      ReadCrores(q, rest, InWords(q, Indian), PartsFrom(rest, Indian, 0), reader);
    } else {
      ReadParts(n, Indian, 0, 0, reader);
    }
  }

  lemma ReadCrores(q: nat, rest: nat, top: seq<string>, tail: seq<string>, reader: Reader)
    requires Takes(reader, "Crore", AllTimes(CRORE))
    requires ReadWords(Some(Reading(0, 0)), top, reader).Some?
    requires var r := ReadWords(Some(Reading(0, 0)), top, reader).value; r.total + r.group == q
    requires var r := ReadWords(Some(Reading(q * CRORE, 0)), tail, reader);
             r.Some? && r.value.total + r.value.group == q * CRORE + rest
    ensures ReadWords(Some(Reading(0, 0)), top + ["Crore"] + tail, reader).Some?
    ensures var r := ReadWords(Some(Reading(0, 0)), top + ["Crore"] + tail, reader).value;
            r.total + r.group == q * CRORE + rest
  {
    var r := ReadWords(Some(Reading(0, 0)), top, reader).value;
    ReadConcat(Some(Reading(0, 0)), top, ["Crore"], reader);
    ReadOne(r, "Crore", reader);
    ReadBoth(top + ["Crore"], tail, 0, q * CRORE, rest, reader);
  }

  /// The international words read back as the number exactly below two thousand trillion;
  /// beyond, the count of trillions has no words.
  lemma ReadInternational(n: nat, reader: Reader)
    requires Understands(reader)
    ensures Read(InWords(n, International), reader) == if n < 2000 * TRILLION then Some(n) else None
  {
    ZeroAndCrore(reader);
    if n == 0 {
      ReadOne(Reading(0, 0), "Zero", reader);
    } else if n < 2000 * TRILLION {
      ReadParts(n, International, 0, 0, reader);
    } else {
      var q := n / TRILLION;
      var tail := ["Trillion"] + PartsFrom(n % TRILLION, International, 1);
      assert PartsFrom(n, International, 0) == Below1000(q) + ["Trillion"] + PartsFrom(n % TRILLION, International, 1);
      Regroup(Below1000(q), ["Trillion"], PartsFrom(n % TRILLION, International, 1));
      ReadConcat(Some(Reading(0, 0)), Below1000(q), tail, reader);
      UnreadableBelow1000(q, 0, reader);
    }
  }

  // ---- as text ----

  function Join(ws: seq<string>): string {
    if ws == [] then "" else if |ws| == 1 then ws[0] else ws[0] + " " + Join(ws[1..])
  }

  lemma {:induction false} SplitJoin(ws: seq<string>)
    requires ws != [] && forall w :: w in ws ==> ' ' !in w
    ensures Split(Join(ws), " ") == ws
  {
    assert ws[0] in ws;
    if |ws| == 1 {
      SplitNone(ws[0], 0, " ");
    } else {
      SplitJoin(ws[1..]);
      SplitHead(ws[0], Join(ws[1..]), " ", 0);
      assert ws == [ws[0]] + ws[1..];
    }
  }

  predicate NoSpaces(ws: seq<string>) { forall w :: w in ws ==> ' ' !in w }

  lemma OnesNoSpaces(k: nat)
    requires k < 20
    ensures ' ' !in Ones(k) && (k > 0 ==> Ones(k) != "")
  {
  }

  lemma TensNoSpaces(k: nat)
    requires k < 10
    ensures ' ' !in Tens(k) && (k > 1 ==> Tens(k) != "")
  {
  }

  lemma WordNoSpaces(w: string)
    requires ' ' !in w
    ensures NoSpaces(Word(w)) && (w != "" ==> Word(w) != [])
  {
  }

  lemma Below100NoSpaces(n: nat)
    requires n < 100
    ensures NoSpaces(Below100(n)) && (n > 0 ==> Below100(n) != [])
  {
    if n < 20 {
      OnesNoSpaces(n);
      WordNoSpaces(Ones(n));
    } else {
      TensNoSpaces(n / 10);
      OnesNoSpaces(n % 10);
      WordNoSpaces(Tens(n / 10));
      WordNoSpaces(Ones(n % 10));
      BothNoSpaces(Word(Tens(n / 10)), Word(Ones(n % 10)));
    }
  }

  lemma HundredsNoSpaces(n: nat)
    ensures NoSpaces([One(n), "Hundred"])
  {
    if n < 20 { OnesNoSpaces(n); }
    assert ' ' !in "Hundred" && ' ' !in "undefined";
  }

  lemma Below1000NoSpaces(n: nat)
    ensures NoSpaces(Below1000(n)) && (n > 0 ==> Below1000(n) != [])
  {
    var high := if n / 100 > 0 then [One(n / 100), "Hundred"] else [];
    var low := if n % 100 > 0 then Below100(n % 100) else [];
    HundredsNoSpaces(n / 100);
    Below100NoSpaces(n % 100);
    BothNoSpaces(high, low);
  }

  lemma BothNoSpaces(xs: seq<string>, ys: seq<string>)
    requires NoSpaces(xs) && NoSpaces(ys)
    ensures NoSpaces(xs + ys)
  {
  }

  lemma LargestParts(n: nat, system: System, i: nat) returns (q: nat, rest: nat)
    requires i < |Scales(system)| && n >= Size(system, i)
    ensures PartsFrom(n, system, i) == Largest(q, system, i) + PartsFrom(rest, system, i + 1)
  {
    var amount;
    q, amount, rest := LargestFirst(n, system, i);
  }

  lemma {:induction false} PartsNoSpaces(n: nat, system: System, i: nat)
    requires i <= |Scales(system)|
    ensures NoSpaces(PartsFrom(n, system, i)) && (n > 0 ==> PartsFrom(n, system, i) != [])
    decreases |Scales(system)| - i
  {
    if i == |Scales(system)| {
      Below1000NoSpaces(n);
    } else if n >= Size(system, i) {
      var q, rest := LargestParts(n, system, i);
      LargestNoSpaces(q, system, i);
      PartsNoSpaces(rest, system, i + 1);
      BothNoSpaces(Largest(q, system, i), PartsFrom(rest, system, i + 1));
    } else {
      PartsNoSpaces(n, system, i + 1);
    }
  }

  lemma LargestNoSpaces(q: nat, system: System, i: nat)
    requires i < |Scales(system)|
    ensures NoSpaces(Largest(q, system, i)) && Largest(q, system, i) != []
  {
    if q < 100 { Below100NoSpaces(q); }
    Below1000NoSpaces(q);
    ScaleNoSpaces(system, i);
    NamedNoSpaces(Count(q, system), Scales(system)[i].name);
  }

  lemma ScaleNoSpaces(system: System, i: nat)
    requires i < |Scales(system)|
    ensures ' ' !in Scales(system)[i].name
  {
  }

  lemma NamedNoSpaces(count: seq<string>, name: string)
    requires NoSpaces(count) && ' ' !in name
    ensures NoSpaces(count + [name])
  {
    BothNoSpaces(count, [name]);
  }

  lemma {:induction false} InWordsNoSpaces(n: nat, system: System)
    ensures NoSpaces(InWords(n, system)) && InWords(n, system) != []
  {
    assert ' ' !in "Zero" && ' ' !in "Crore";
    if n > 0 {
      if system == Indian && n >= CRORE * 1000 {
        InWordsNoSpaces(Quot(n, CRORE), system);
        PartsNoSpaces(Rem(n, CRORE), system, 0);
      } else {
        PartsNoSpaces(n, system, 0);
      }
    }
  }

  /// The text in words determines the number: in the Indian system for every number, in the
  /// international one exactly below two thousand trillion.
  lemma ReadBack(n: nat, system: System, reader: Reader)
    requires Understands(reader)
    ensures Read(Split(Join(InWords(n, system)), " "), reader)
         == if system == Indian || n < 2000 * TRILLION then Some(n) else None
  {
    InWordsNoSpaces(n, system);
    SplitJoin(InWords(n, system));
    if system == Indian { ReadIndian(n, reader); } else { ReadInternational(n, reader); }
  }
}
