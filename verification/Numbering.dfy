/// Number series: reading and checking a pattern, writing a number, and handing out
/// running numbers from counters.

module Numbering {
  import opened Basics
  import opened Text
  import opened Calendar
  import opened Buckets

  // ---- patterns ----

  /// A piece of a pattern: a plain character, or `{NAME}` or `{NAME:width}`.
  datatype Piece = Literal(c: char) | Token(name: string, width: string)

  predicate IsUpper(c: char) { 'A' <= c <= 'Z' }

  function UpperEnd(s: string, i: nat): (j: nat)
    requires i <= |s|
    ensures i <= j <= |s|
    decreases |s| - i
  {
    if i < |s| && IsUpper(s[i]) then UpperEnd(s, i + 1) else i
  }

  predicate CharAt(s: string, i: nat, c: char) { i < |s| && s[i] == c }

  predicate DigitAt(s: string, i: nat) { i < |s| && IsDigit(s[i]) }

  datatype Match = Match(token: Piece, end: nat)

  /// The token that starts at `i`, if one does; at most two digits of width.
  function TokenAt(s: string, i: nat): (m: Option<Match>)
    requires i < |s|
    ensures m.Some? ==> i < m.value.end <= |s| && m.value.token.Token? && IsDigits(m.value.token.width)
  {
    var j := UpperEnd(s, i + 1);
    if s[i] != '{' || j == i + 1 then None
    else if CharAt(s, j, '}') then Some(Match(Token(s[i + 1..j], ""), j + 1))
    else if !CharAt(s, j, ':') || !DigitAt(s, j + 1) then None
    else if CharAt(s, j + 2, '}') then Some(Match(Token(s[i + 1..j], s[j + 1..j + 2]), j + 3))
    else if DigitAt(s, j + 2) && CharAt(s, j + 3, '}')
    then Some(Match(Token(s[i + 1..j], s[j + 1..j + 3]), j + 4))
    else None
  }

  function Pieces(s: string, i: nat): (ps: seq<Piece>)
    requires i <= |s|
    ensures forall p :: p in ps && p.Token? ==> IsDigits(p.width)
    decreases |s| - i
  {
    if i == |s| then []
    else if TokenAt(s, i).Some?
    then [TokenAt(s, i).value.token] + Pieces(s, TokenAt(s, i).value.end)
    else [Literal(s[i])] + Pieces(s, i + 1)
  }

  // ---- checking ----

  datatype PatternError = BadLength | UnknownToken(name: string) | BadWidth | NoWidth(name: string) | NotOneSeq | BadLiteral

  const ALLOWED: set<string> := {"FY", "YYYY", "YY", "MM", "DD", "BRANCH", "SEQ"}

  predicate IsLiteral(c: char) {
    IsDigit(c) || IsUpper(c) || 'a' <= c <= 'z' || c in "/-_.# "
  }

  function WidthOf(width: string): nat
    requires IsDigits(width)
  {
    if width == "" then 1 else Num(width)
  }

  function TokenErrors(p: Piece): seq<PatternError>
    requires p.Token? ==> IsDigits(p.width)
  {
    match p
    case Literal(_) => []
    case Token(name, width) =>
      (if name in ALLOWED then [] else [UnknownToken(name)])
      + (if name == "SEQ" then (if 1 <= WidthOf(width) <= 12 then [] else [BadWidth])
         else if width != "" then [NoWidth(name)] else [])
  }

  predicate IsSeq(p: Piece) { p.Token? && p.name == "SEQ" }

  function SeqCount(ps: seq<Piece>): nat {
    if ps == [] then 0 else SeqCount(ps[..|ps| - 1]) + (if IsSeq(ps[|ps| - 1]) then 1 else 0)
  }

  predicate WellFormed(p: Piece) {
    match p
    case Literal(c) => IsLiteral(c)
    case Token(name, width) =>
      name in ALLOWED && IsDigits(width) && (if name == "SEQ" then 1 <= WidthOf(width) <= 12 else width == "")
  }

  predicate ValidPattern(s: string) {
    1 <= |s| <= 60 && SeqCount(Pieces(s, 0)) == 1 && forall p :: p in Pieces(s, 0) ==> WellFormed(p)
  }

  lemma TokenErrorsOf(p: Piece)
    requires p.Token? && IsDigits(p.width)
    ensures TokenErrors(p) == [] <==> WellFormed(p)
    ensures BadLength !in TokenErrors(p) && NotOneSeq !in TokenErrors(p) && BadLiteral !in TokenErrors(p)
  {
  }

  predicate TokensFine(ps: seq<Piece>) { forall p :: p in ps && p.Token? ==> WellFormed(p) }

  predicate LiteralsFine(ps: seq<Piece>) { forall p :: p in ps && p.Literal? ==> IsLiteral(p.c) }

  lemma FineStep(ps: seq<Piece>, i: nat)
    requires i < |ps|
    ensures TokensFine(ps[..i + 1]) <==> TokensFine(ps[..i]) && (ps[i].Token? ==> WellFormed(ps[i]))
    ensures LiteralsFine(ps[..i + 1]) <==> LiteralsFine(ps[..i]) && (ps[i].Literal? ==> IsLiteral(ps[i].c))
    ensures SeqCount(ps[..i + 1]) == SeqCount(ps[..i]) + if IsSeq(ps[i]) then 1 else 0
  {
    var qs := ps[..i + 1];
    assert qs[..i] == ps[..i] && qs[i] == ps[i];
    assert forall p :: p in qs <==> p in ps[..i] || p == ps[i];
  }

  method ValidateNumberingPattern(pattern: string) returns (errors: seq<PatternError>)
    ensures errors == [] <==> ValidPattern(pattern)
    ensures BadLength in errors <==> !(1 <= |pattern| <= 60)
    ensures NotOneSeq in errors <==> SeqCount(Pieces(pattern, 0)) != 1
    ensures BadLiteral in errors <==> !LiteralsFine(Pieces(pattern, 0))
  {
    var sized := 1 <= |pattern| <= 60;
    errors := if sized then [] else [BadLength];
    var ps := Pieces(pattern, 0);
    var count := 0;
    var plain := true;
    var i := 0;
    while i < |ps|
      invariant i <= |ps|
      invariant count == SeqCount(ps[..i]) && (plain <==> LiteralsFine(ps[..i]))
      invariant BadLength in errors <==> !sized
      invariant NotOneSeq !in errors && BadLiteral !in errors
      invariant errors == [] <==> sized && TokensFine(ps[..i])
    {
      FineStep(ps, i);
      var p := ps[i];
      match p {
        case Literal(c) =>
          if !IsLiteral(c) { plain := false; }
        case Token(name, _) =>
          assert p in ps;
          TokenErrorsOf(p);
          var found := TokenErrors(p);
          errors := errors + found;
          if name == "SEQ" { count := count + 1; }
      }
      i := i + 1;
    }
    assert ps[..|ps|] == ps;
    if count != 1 { errors := errors + [NotOneSeq]; }
    if !plain { errors := errors + [BadLiteral]; }
    FineIsWellFormed(ps);
  }

  lemma FineIsWellFormed(ps: seq<Piece>)
    requires forall p :: p in ps && p.Token? ==> IsDigits(p.width)
    ensures TokensFine(ps) && LiteralsFine(ps) <==> forall p :: p in ps ==> WellFormed(p)
  {
  }

  // ---- writing a number ----

  datatype Series = Series(key: string, pattern: string, reset: Reset, perOrgUnit: bool)
  datatype Reset = Never | Yearly | Monthly

  function NumberingPeriod(reset: Reset, date: int, fyStart: int): string {
    match reset
    case Never => "all"
    case Yearly => "FY" + DecInt(FiscalYearOf(date, fyStart))
    case Monthly => Take(Iso(date), 7)
  }

  datatype RenderInput = RenderInput(date: int, fyStart: int, number: nat, branch: string)

  function RenderPiece(p: Piece, input: RenderInput): string
    requires p.Token? ==> IsDigits(p.width)
  {
    match p
    case Literal(c) => [c]
    case Token(name, width) =>
      if name == "FY" then FiscalYearLabel(input.date, input.fyStart)
      else if name == "YYYY" then DecInt(YearOf(input.date))
      else if name == "YY" then Pad2(YearOf(input.date) % 100)
      else if name == "MM" then Pad2(Month0Of(input.date) + 1)
      else if name == "DD" then DayText(input.date)
      else if name == "BRANCH" then input.branch
      else if name == "SEQ" then Pad(Dec(input.number), WidthOf(width))
      else ""
  }

  function DayText(n: int): string {
    DayBounds(n);
    Pad2(DayOf(n))
  }

  function RenderPieces(ps: seq<Piece>, input: RenderInput): string
    requires forall p :: p in ps && p.Token? ==> IsDigits(p.width)
  {
    if ps == [] then "" else RenderPiece(ps[0], input) + RenderPieces(ps[1..], input)
  }

  function RenderNumber(pattern: string, input: RenderInput): string {
    RenderPieces(Pieces(pattern, 0), input)
  }

  // ---- numbers differ when the running numbers differ ----

  /// Years, calendar and fiscal, that are written with four digits.
  predicate PlainYears(input: RenderInput) {
    FourDigitYear(input.date) && 1000 <= FiscalYearOf(input.date, input.fyStart) <= 9999
  }

  predicate SameSetting(a: RenderInput, b: RenderInput) {
    a.fyStart == b.fyStart && a.branch == b.branch && PlainYears(a) && PlainYears(b)
  }

  lemma LabelLength(n: int, fyStart: int)
    requires 1000 <= FiscalYearOf(n, fyStart) <= 9999
    ensures |FiscalYearLabel(n, fyStart)| == if fyStart == 1 then 4 else 7
  {
    FourDigits(FiscalYearOf(n, fyStart));
    TwoDigits((FiscalYearOf(n, fyStart) + 1) % 100);
  }

  lemma SamePieceLength(p: Piece, a: RenderInput, b: RenderInput)
    requires SameSetting(a, b) && !IsSeq(p) && (p.Token? ==> IsDigits(p.width))
    ensures |RenderPiece(p, a)| == |RenderPiece(p, b)|
  {
    LabelLength(a.date, a.fyStart);
    LabelLength(b.date, b.fyStart);
    DateLengths(a.date);
    DateLengths(b.date);
  }

  lemma DateLengths(n: int)
    requires FourDigitYear(n)
    ensures |DecInt(YearOf(n))| == 4 && |Pad2(YearOf(n) % 100)| == 2
    ensures |Pad2(Month0Of(n) + 1)| == 2 && |DayText(n)| == 2
  {
    FourDigits(YearOf(n));
    DayBounds(n);
    TwoDigits(YearOf(n) % 100);
    TwoDigits(Month0Of(n) + 1);
    TwoDigits(DayOf(n));
  }

  predicate NoSeq(ps: seq<Piece>) { forall p :: p in ps ==> !IsSeq(p) }

  lemma {:induction false} SameLength(ps: seq<Piece>, a: RenderInput, b: RenderInput)
    requires forall p :: p in ps && p.Token? ==> IsDigits(p.width)
    requires SameSetting(a, b) && NoSeq(ps)
    ensures |RenderPieces(ps, a)| == |RenderPieces(ps, b)|
  {
    if ps != [] {
      SamePieceLength(ps[0], a, b);
      SameLength(ps[1..], a, b);
    }
  }

  lemma {:induction false} CountZero(ps: seq<Piece>)
    requires SeqCount(ps) == 0
    ensures NoSeq(ps)
  {
    if ps != [] { CountZero(ps[..|ps| - 1]); }
  }

  lemma {:induction false} CountConcat(ps: seq<Piece>, qs: seq<Piece>)
    ensures SeqCount(ps + qs) == SeqCount(ps) + SeqCount(qs)
  {
    if qs == [] {
      assert ps + qs == ps;
    } else {
      assert (ps + qs)[..|ps + qs| - 1] == ps + qs[..|qs| - 1];
      CountConcat(ps, qs[..|qs| - 1]);
    }
  }

  /// With one running number in the pattern, texts of equal length parts show it.
  lemma {:induction false} NumberShows(ps: seq<Piece>, a: RenderInput, b: RenderInput)
    requires forall p :: p in ps && p.Token? ==> IsDigits(p.width)
    requires SameSetting(a, b) && SeqCount(ps) == 1
    requires RenderPieces(ps, a) == RenderPieces(ps, b)
    ensures a.number == b.number
  {
    if ps == [] {
    } else {
      var rest := ps[1..];
      assert ps == [ps[0]] + rest;
      CountConcat([ps[0]], rest);
      HeadCount(ps[0]);
      var ha, hb, ta, tb := RenderPiece(ps[0], a), RenderPiece(ps[0], b), RenderPieces(rest, a), RenderPieces(rest, b);
      if IsSeq(ps[0]) {
        CountZero(rest);
        SameLength(rest, a, b);
        SplitEqual(ha, ta, hb, tb);
        NumPad(a.number, WidthOf(ps[0].width));
        NumPad(b.number, WidthOf(ps[0].width));
      } else {
        SamePieceLength(ps[0], a, b);
        SplitEqual(ha, ta, hb, tb);
        NumberShows(rest, a, b);
      }
    }
  }

  lemma HeadCount(p: Piece)
    ensures SeqCount([p]) == if IsSeq(p) then 1 else 0
  {
    assert [p][..0] == [];
  }

  lemma SplitEqual(ha: string, ta: string, hb: string, tb: string)
    requires ha + ta == hb + tb && (|ha| == |hb| || |ta| == |tb|)
    ensures ha == hb && ta == tb
  {
    assert ha == (ha + ta)[..|ha|] && hb == (hb + tb)[..|hb|];
    assert ta == (ha + ta)[|ha|..] && tb == (hb + tb)[|hb|..];
  }

  // ---- handing out running numbers ----

  datatype Counter = Counter(series: string, bucket: string, period: string)

  datatype NumberError = UnknownSeries | NeedsOrgUnit | CouldNotAllocate

  datatype Issued = Issued(number: string, seqNo: nat, series: string, period: string)

  datatype Result<T> = Ok(value: T) | Err(error: NumberError)

  datatype NumberRequest = NumberRequest(
    series: string, orgUnitId: Option<string>, pathIds: seq<string>, orgCode: Option<string>, date: int)

  /// The configuration in force: the merged series, the series keys of each org unit's own
  /// layer, and the fiscal start month.
  datatype Effective = Effective(numbering: seq<Series>, layers: map<string, set<string>>, fyStart: int)

  function FindSeries(list: seq<Series>, key: string): (r: Option<Series>)
    ensures r.Some? ==> r.value in list && r.value.key == key
    ensures r.None? ==> forall s :: s in list ==> s.key != key
  {
    if list == [] then None else if list[0].key == key then Some(list[0]) else FindSeries(list[1..], key)
  }

  /// The lowest unit on the path whose own layer defines the series, else the company.
  function DefiningLayer(ids: seq<string>, layers: map<string, set<string>>, key: string): string {
    if ids == [] then "company"
    else
      var id := ids[|ids| - 1];
      if id in layers && key in layers[id] then id else DefiningLayer(ids[..|ids| - 1], layers, key)
  }

  function BranchCode(req: NumberRequest): string {
    if req.orgCode.Some? then req.orgCode.value
    else if req.orgUnitId.None? then ""
    else
      var id := req.orgUnitId.value;
      Upper(if |id| > 4 then id[|id| - 4..] else id)
  }

  function CounterFor(cfg: Effective, s: Series, req: NumberRequest): Counter
    requires s.perOrgUnit ==> req.orgUnitId.Some?
  {
    Counter(s.key, if s.perOrgUnit then req.orgUnitId.value else DefiningLayer(req.pathIds, cfg.layers, s.key),
            NumberingPeriod(s.reset, req.date, cfg.fyStart))
  }

  predicate LacksUnit(s: Series, req: NumberRequest) {
    s.perOrgUnit && (req.orgUnitId.None? || req.orgUnitId.value == "")
  }

  function Occurrences(cs: seq<Counter>, c: Counter): nat {
    if cs == [] then 0 else Occurrences(cs[..|cs| - 1], c) + (if cs[|cs| - 1] == c then 1 else 0)
  }

  class CounterStore {
    var rows: map<Counter, nat>
    /// The counters of all numbers handed out so far.
    ghost var issued: seq<Counter>

    ghost predicate Valid()
      reads this
    {
      forall c :: (if c in rows then rows[c] else 0) == Occurrences(issued, c)
    }

    constructor ()
      ensures Valid() && issued == []
    {
      rows := map[];
      issued := [];
    }

    /// The first `races` upserts lose the race for a new row; three tries are made.
    method NextNumber(cfg: Effective, req: NumberRequest, races: nat) returns (r: Result<Issued>)
      requires Valid()
      modifies this
      ensures Valid()
      ensures var s := FindSeries(cfg.numbering, req.series);
              if s.None? then r == Err(UnknownSeries) && issued == old(issued)
              else if LacksUnit(s.value, req) then r == Err(NeedsOrgUnit) && issued == old(issued)
              else if races >= 3 then r == Err(CouldNotAllocate) && issued == old(issued)
              else
                var c := CounterFor(cfg, s.value, req);
                var number := Occurrences(old(issued), c) + 1;
                && issued == old(issued) + [c]
                && r == Ok(Issued(RenderNumber(s.value.pattern,
                                               RenderInput(req.date, cfg.fyStart, number, BranchCode(req))),
                                  number, s.value.key, c.period))
      ensures r.Err? ==> rows == old(rows)
    {
      var found := FindSeries(cfg.numbering, req.series);
      if found.None? { return Err(UnknownSeries); }
      var s := found.value;
      if LacksUnit(s, req) { return Err(NeedsOrgUnit); }
      var c := CounterFor(cfg, s, req);
      var number: Option<nat> := None;
      var attempt := 0;
      while attempt < 3 && number.None?
        invariant 0 <= attempt <= 3
        invariant number.None? ==> rows == old(rows) && issued == old(issued) && attempt <= races
        invariant number.Some? ==> attempt - 1 == races && number == Some(Occurrences(old(issued), c) + 1)
        invariant number.Some? ==> issued == old(issued) + [c] && rows == old(rows)[c := number.value]
      {
        if attempt >= races {
          number := Some((if c in rows then rows[c] else 0) + 1);
          rows := rows[c := number.value];
          issued := issued + [c];
        }
        attempt := attempt + 1;
      }
      if number.None? { return Err(CouldNotAllocate); }
      assert issued[..|issued| - 1] == old(issued);
      r := Ok(Issued(RenderNumber(s.pattern, RenderInput(req.date, cfg.fyStart, number.value, BranchCode(req))),
                     number.value, s.key, c.period));
    }
  }

  // ---- main results ----

  /// The running number of the `k`th allocation.
  function RunningNumber(cs: seq<Counter>, k: nat): nat
    requires k < |cs|
  {
    Occurrences(cs[..k], cs[k]) + 1
  }

  lemma {:induction false} OccurrencesGrow(cs: seq<Counter>, i: nat, j: nat, c: Counter)
    requires i <= j <= |cs|
    ensures Occurrences(cs[..i], c) <= Occurrences(cs[..j], c)
  {
    if i < j {
      assert cs[..j][..j - 1] == cs[..j - 1];
      OccurrencesGrow(cs, i, j - 1, c);
    }
  }

  /// Running numbers of a counter increase, and every number up to the last was handed out.
  lemma {:induction false} NumbersIncrease(cs: seq<Counter>, i: nat, j: nat)
    requires i < j < |cs| && cs[i] == cs[j]
    ensures RunningNumber(cs, i) < RunningNumber(cs, j)
  {
    assert cs[..i + 1][..i] == cs[..i];
    OccurrencesGrow(cs, i + 1, j, cs[i]);
  }

  lemma {:induction false} NoGaps(cs: seq<Counter>, c: Counter, v: nat) returns (k: nat)
    requires 1 <= v <= Occurrences(cs, c)
    ensures k < |cs| && cs[k] == c && RunningNumber(cs, k) == v
  {
    var n := |cs| - 1;
    assert cs[..n] + [cs[n]] == cs;
    if cs[n] == c && v == Occurrences(cs, c) {
      k := n;
    } else {
      k := NoGaps(cs[..n], c, v);
      assert cs[..n][..k] == cs[..k];
    }
  }

  /// Two different allocations from one counter, under the same valid pattern, branch code
  /// and fiscal start, give different numbers whatever the dates.
  lemma NumbersNeverRepeat(cs: seq<Counter>, i: nat, j: nat, pattern: string, a: RenderInput, b: RenderInput)
    requires i < j < |cs| && cs[i] == cs[j]
    requires a.number == RunningNumber(cs, i) && b.number == RunningNumber(cs, j)
    requires ValidPattern(pattern) && SameSetting(a, b)
    ensures RenderNumber(pattern, a) != RenderNumber(pattern, b)
  {
    NumbersIncrease(cs, i, j);
    if RenderNumber(pattern, a) == RenderNumber(pattern, b) {
      NumberShows(Pieces(pattern, 0), a, b);
    }
  }
}
