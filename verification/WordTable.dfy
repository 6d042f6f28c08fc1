/// The table of English number words, and reading texts with it.

module WordTable {
  import opened Basics
  import opened Text
  import opened Words

  datatype Entry = Entry(word: string, meaning: Meaning)

  /// The number words.
  const TABLE: seq<Entry> := [
    Entry("One", Number(1)), Entry("Six", Number(6)), Entry("Ten", Number(10)), Entry("Two", Number(2)),
    Entry("Five", Number(5)), Entry("Four", Number(4)), Entry("Lakh", Times(100_000)),
    Entry("Nine", Number(9)), Entry("Zero", Number(0)), Entry("Crore", AllTimes(CRORE)),
    Entry("Eight", Number(8)), Entry("Fifty", Number(50)), Entry("Forty", Number(40)),
    Entry("Seven", Number(7)), Entry("Sixty", Number(60)), Entry("Three", Number(3)),
    Entry("Eighty", Number(80)), Entry("Eleven", Number(11)), Entry("Ninety", Number(90)),
    Entry("Thirty", Number(30)), Entry("Twelve", Number(12)), Entry("Twenty", Number(20)),
    Entry("Billion", Times(1_000_000_000)), Entry("Fifteen", Number(15)), Entry("Hundred", Hundred),
    Entry("Million", Times(1_000_000)), Entry("Seventy", Number(70)), Entry("Sixteen", Number(16)),
    Entry("Eighteen", Number(18)), Entry("Fourteen", Number(14)), Entry("Nineteen", Number(19)),
    Entry("Thirteen", Number(13)), Entry("Thousand", Times(1000)), Entry("Trillion", Times(TRILLION)),
    Entry("Seventeen", Number(17))]

  function Lookup(table: seq<Entry>, w: string): Meaning {
    if table == [] then Unknown else if table[0].word == w then table[0].meaning else Lookup(table[1..], w)
  }

  function MeaningOf(w: string): Meaning { Lookup(TABLE, w) }

  // ---- the words are told apart ----

  /// A number for each word: its length, its first three letters and its last.
  function Code(w: string): nat {
    if |w| < 3 then 0
    else (((|w| * 128 + w[0] as int) * 128 + w[1] as int) * 128 + w[2] as int) * 128 + w[|w| - 1] as int
  }

  const CODES: seq<nat> := [
    972_796_645, 981_105_784, 983_136_110, 983_431_151, 1_222_277_989, 1_222_376_178, 1_234_728_424,
    1_239_054_181, 1_264_154_991, 1_484_568_549, 1_488_614_388, 1_490_711_417, 1_490_811_257, 1_517_910_894,
    1_517_976_697, 1_520_056_677, 1_757_049_849, 1_757_098_734, 1_775_925_113, 1_788_491_001, 1_788_736_229,
    1_788_736_249, 2_019_194_478, 2_027_582_318, 2_031_974_244, 2_042_263_150, 2_054_781_817, 2_054_847_598,
    2_293_920_750, 2_296_117_998, 2_312_796_014, 2_325_361_902, 2_325_362_660, 2_325_525_742, 2_591_652_718]

  lemma Codes0(k: nat)
    requires 0 <= k < 7
    ensures Code(TABLE[k].word) == CODES[k]
  {
    assert Code("One") == 972_796_645;
    assert Code("Six") == 981_105_784;
    assert Code("Ten") == 983_136_110;
    assert Code("Two") == 983_431_151;
    assert Code("Five") == 1_222_277_989;
    assert Code("Four") == 1_222_376_178;
    assert Code("Lakh") == 1_234_728_424;
  }

  lemma Codes1(k: nat)
    requires 7 <= k < 14
    ensures Code(TABLE[k].word) == CODES[k]
  {
    assert Code("Nine") == 1_239_054_181;
    assert Code("Zero") == 1_264_154_991;
    assert Code("Crore") == 1_484_568_549;
    assert Code("Eight") == 1_488_614_388;
    assert Code("Fifty") == 1_490_711_417;
    assert Code("Forty") == 1_490_811_257;
    assert Code("Seven") == 1_517_910_894;
  }

  lemma Codes2(k: nat)
    requires 14 <= k < 21
    ensures Code(TABLE[k].word) == CODES[k]
  {
    assert Code("Sixty") == 1_517_976_697;
    assert Code("Three") == 1_520_056_677;
    assert Code("Eighty") == 1_757_049_849;
    assert Code("Eleven") == 1_757_098_734;
    assert Code("Ninety") == 1_775_925_113;
    assert Code("Thirty") == 1_788_491_001;
    assert Code("Twelve") == 1_788_736_229;
  }

  lemma Codes3(k: nat)
    requires 21 <= k < 28
    ensures Code(TABLE[k].word) == CODES[k]
  {
    assert Code("Twenty") == 1_788_736_249;
    assert Code("Billion") == 2_019_194_478;
    assert Code("Fifteen") == 2_027_582_318;
    assert Code("Hundred") == 2_031_974_244;
    assert Code("Million") == 2_042_263_150;
    assert Code("Seventy") == 2_054_781_817;
    assert Code("Sixteen") == 2_054_847_598;
  }

  lemma Codes4(k: nat)
    requires 28 <= k < 35
    ensures Code(TABLE[k].word) == CODES[k]
  {
    assert Code("Eighteen") == 2_293_920_750;
    assert Code("Fourteen") == 2_296_117_998;
    assert Code("Nineteen") == 2_312_796_014;
    assert Code("Thirteen") == 2_325_361_902;
    assert Code("Thousand") == 2_325_362_660;
    assert Code("Trillion") == 2_325_525_742;
    assert Code("Seventeen") == 2_591_652_718;
  }

  lemma CodeAt(k: nat)
    requires k < |TABLE|
    ensures |CODES| == |TABLE| && Code(TABLE[k].word) == CODES[k]
  {
    if k < 7 { Codes0(k); }
    else if k < 14 { Codes1(k); }
    else if k < 21 { Codes2(k); }
    else if k < 28 { Codes3(k); }
    else { Codes4(k); }
  }

  lemma {:induction false} CodesAscend(i: nat, k: nat)
    requires i < k < |CODES|
    ensures CODES[i] < CODES[k]
  {
    CodesStep(k - 1);
    if i < k - 1 { CodesAscend(i, k - 1); }
  }

  lemma CodesStep(i: nat)
    requires i + 1 < |CODES|
    ensures CODES[i] < CODES[i + 1]
  {
  }

  lemma {:induction false} LookupAt(table: seq<Entry>, k: nat)
    requires k < |table| && forall i :: 0 <= i < k ==> table[i].word != table[k].word
    ensures Lookup(table, table[k].word) == table[k].meaning
  {
    if k > 0 {
      assert forall i :: 0 <= i < k - 1 ==> table[1..][i] == table[i + 1];
      LookupAt(table[1..], k - 1);
    }
  }

  lemma Listed(k: nat)
    requires k < |TABLE|
    ensures MeaningOf(TABLE[k].word) == TABLE[k].meaning
  {
    CodeAt(k);
    forall i | 0 <= i < k ensures TABLE[i].word != TABLE[k].word {
      CodeAt(i);
      CodesAscend(i, k);
    }
    LookupAt(TABLE, k);
  }

  lemma {:induction false} NotListed(table: seq<Entry>, w: string)
    requires forall i :: 0 <= i < |table| ==> table[i].word != w
    ensures Lookup(table, w) == Unknown
  {
    if table != [] {
      assert forall i :: 0 <= i < |table[1..]| ==> table[1..][i] == table[i + 1];
      NotListed(table[1..], w);
    }
  }

  lemma UndefinedUnknown()
    ensures MeaningOf("undefined") == Unknown
  {
    assert Code("undefined") == 2_663_101_028;
    forall i | 0 <= i < |TABLE| ensures TABLE[i].word != "undefined" {
      CodeAt(i);
      if i < |CODES| - 1 { CodesAscend(i, |CODES| - 1); }
    }
    NotListed(TABLE, "undefined");
  }

  /// Where the table has the ones and the tens.
  const ONES_AT: seq<nat> := [0, 0, 3, 15, 5, 4, 1, 13, 10, 7, 2, 17, 20, 31, 29, 23, 27, 34, 28, 30]
  const TENS_AT: seq<nat> := [0, 0, 21, 19, 12, 11, 14, 26, 16, 18]

  lemma OneListed(k: nat)
    requires 1 <= k < 20
    ensures |ONES_AT| == 20 && ONES_AT[k] < |TABLE|
    ensures TABLE[ONES_AT[k]].word == Ones(k) && TABLE[ONES_AT[k]].meaning == Number(k) && Ones(k) != ""
  {
  }

  lemma TenListed(k: nat)
    requires 2 <= k < 10
    ensures |TENS_AT| == 10 && TENS_AT[k] < |TABLE|
    ensures TABLE[TENS_AT[k]].word == Tens(k) && TABLE[TENS_AT[k]].meaning == Number(10 * k) && Tens(k) != ""
  {
  }

  /// A reader that looks every word up in the table.
  function TableReader(r: Reading, w: string): Option<Reading> { ReadWord(r, MeaningOf(w)) }

  lemma TableTakes(w: string, m: Meaning)
    requires MeaningOf(w) == m
    ensures Takes(TableReader, w, m)
  {
  }

  lemma NumbersTaken()
    ensures forall k :: 1 <= k < 20 ==> Ones(k) != "" && Takes(TableReader, Ones(k), Number(k))
    ensures forall k :: 2 <= k < 10 ==> Tens(k) != "" && Takes(TableReader, Tens(k), Number(10 * k))
  {
    forall k | 1 <= k < 20 ensures Ones(k) != "" && Takes(TableReader, Ones(k), Number(k)) {
      OneListed(k);
      Listed(ONES_AT[k]);
    }
    forall k | 2 <= k < 10 ensures Tens(k) != "" && Takes(TableReader, Tens(k), Number(10 * k)) {
      TenListed(k);
      Listed(TENS_AT[k]);
    }
  }

  /// The table understands every word that is written.
  lemma TableUnderstands()
    ensures Understands(TableReader)
  {
    NumbersTaken();
    OthersListed();
    UndefinedUnknown();
    TableTakes("undefined", Unknown);
    Understood(TableReader);
  }

  lemma OthersListed()
    ensures Takes(TableReader, "Zero", Number(0)) && Takes(TableReader, "Hundred", Hundred)
    ensures Takes(TableReader, "Thousand", Times(1000)) && Takes(TableReader, "Lakh", Times(100_000)) && Takes(TableReader, "Crore", AllTimes(CRORE))
    ensures Takes(TableReader, "Million", Times(1_000_000)) && Takes(TableReader, "Billion", Times(1_000_000_000))
    ensures Takes(TableReader, "Trillion", Times(TRILLION))
  {
    assert TABLE[8].word == "Zero";
    Listed(8);
    assert TABLE[24].word == "Hundred";
    Listed(24);
    assert TABLE[32].word == "Thousand";
    Listed(32);
    assert TABLE[6].word == "Lakh";
    Listed(6);
    assert TABLE[9].word == "Crore";
    Listed(9);
    assert TABLE[25].word == "Million";
    Listed(25);
    assert TABLE[22].word == "Billion";
    Listed(22);
    assert TABLE[33].word == "Trillion";
    Listed(33);
  }

  /// The text in words, read with the table.
  lemma WordsReadBack(n: nat, system: System)
    ensures Read(Split(Join(InWords(n, system)), " "), TableReader)
         == if system == Indian || n < 2000 * TRILLION then Some(n) else None
  {
    TableUnderstands();
    ReadBack(n, system, TableReader);
  }
}
