/// Patterns as written: how their pieces are spelled, and which patterns are valid.

module NumberingPatterns {
  import opened Basics
  import opened Text
  import opened Numbering

  /// A piece as it stands in a pattern.
  function SpellPiece(p: Piece): string {
    match p
    case Literal(c) => [c]
    case Token(name, width) => "{" + name + (if width == "" then "" else ":" + width) + "}"
  }

  function Spell(ps: seq<Piece>): string { if ps == [] then "" else SpellPiece(ps[0]) + Spell(ps[1..]) }

  predicate IsName(name: string) { name != "" && forall c <- name :: 'A' <= c <= 'Z' }

  /// Plain characters but the opening brace, and tokens with a width of at most two digits.
  predicate IsPiece(p: Piece) {
    match p
    case Literal(c) => c != '{'
    case Token(name, width) => IsName(name) && IsDigits(width) && |width| <= 2
  }

  /// The text stands in `s` at `i`.
  predicate Stands(s: string, i: nat, t: string) { i + |t| <= |s| && forall k :: 0 <= k < |t| ==> t[k] == s[i + k] }

  lemma {:induction false} SliceIs(s: string, i: nat, t: string)
    ensures Stands(s, i, t) <==> i + |t| <= |s| && s[i..i + |t|] == t
  {
    if i + |t| <= |s| {
      var u := s[i..i + |t|];
      assert forall k :: 0 <= k < |t| ==> u[k] == s[i + k];
    }
  }

  lemma {:induction false} PartStands(s: string, i: nat, t: string, from: nat, part: string)
    requires Stands(s, i, t) && from + |part| <= |t| && t[from..from + |part|] == part
    ensures Stands(s, i + from, part) && s[i + from..i + from + |part|] == part
  {
    forall k | 0 <= k < |part| ensures part[k] == s[i + from + k] {
      assert t[from..from + |part|][k] == t[from + k];
    }
    SliceIs(s, i + from, part);
  }

  lemma {:induction false} NameEnds(s: string, i: nat, name: string)
    requires Stands(s, i, name) && i + |name| < |s| && (forall c <- name :: 'A' <= c <= 'Z')
    requires !IsUpper(s[i + |name|])
    ensures UpperEnd(s, i) == i + |name|
    decreases |name|
  {
    if name != "" {
      assert name[0] in name;
      var rest := name[1..];
      forall c | c in rest ensures 'A' <= c <= 'Z' { assert c in name; }
      NameEnds(s, i + 1, rest);
    }
  }

  lemma {:induction false} WidthRead(s: string, j: nat, width: string)
    requires IsDigits(width) && 1 <= |width| <= 2 && Stands(s, j, ":" + width + "}")
    ensures CharAt(s, j, ':') && DigitAt(s, j + 1) && s[j + 1..j + 1 + |width|] == width
    ensures CharAt(s, j + 1 + |width|, '}') && (|width| == 2 ==> DigitAt(s, j + 2) && !CharAt(s, j + 2, '}'))
  {
    var t := ":" + width + "}";
    assert t[0] == ':' && t[1] == width[0] && t[1 + |width|] == '}';
    PartStands(s, j, t, 1, width);
    if |width| == 2 { assert t[2] == width[1]; }
  }

  lemma {:induction false} PlainToken(s: string, i: nat, name: string)
    requires i < |s| && s[i] == '{' && name != "" && i + 1 + |name| <= |s| && s[i + 1..i + 1 + |name|] == name
    requires UpperEnd(s, i + 1) == i + 1 + |name| && CharAt(s, i + 1 + |name|, '}')
    ensures TokenAt(s, i) == Some(Match(Token(name, ""), i + |name| + 2))
  {
  }

  lemma {:induction false} WideToken(s: string, i: nat, j: nat, name: string, width: string)
    requires i < |s| && s[i] == '{' && name != "" && j == i + 1 + |name| <= |s| && s[i + 1..j] == name
    requires UpperEnd(s, i + 1) == j && IsDigits(width) && 1 <= |width| <= 2 && Stands(s, j, ":" + width + "}")
    ensures TokenAt(s, i) == Some(Match(Token(name, width), j + |width| + 2))
  {
    WidthRead(s, j, width);
  }

  lemma {:induction false} TokenRead(s: string, i: nat, name: string, width: string)
    requires IsPiece(Token(name, width)) && Stands(s, i, SpellPiece(Token(name, width)))
    ensures TokenAt(s, i) == Some(Match(Token(name, width), i + |SpellPiece(Token(name, width))|))
  {
    var t := SpellPiece(Token(name, width));
    var tail := (if width == "" then "" else ":" + width) + "}";
    assert t == "{" + name + tail;
    TokenParts(s, i, name, tail);
    if width == "" { PlainToken(s, i, name); } else { WideToken(s, i, i + 1 + |name|, name, width); }
  }

  lemma {:induction false} TokenParts(s: string, i: nat, name: string, tail: string)
    requires IsName(name) && tail != "" && !IsUpper(tail[0]) && Stands(s, i, "{" + name + tail)
    ensures i < |s| && s[i] == '{' && i + 1 + |name| <= |s| && s[i + 1..i + 1 + |name|] == name
    ensures UpperEnd(s, i + 1) == i + 1 + |name| && Stands(s, i + 1 + |name|, tail)
  {
    var t := "{" + name + tail;
    assert t[0] == '{' && t[1 + |name|] == tail[0];
    assert t[1..1 + |name|] == name && t[1 + |name|..1 + |name| + |tail|] == tail;
    PartStands(s, i, t, 1, name);
    PartStands(s, i, t, 1 + |name|, tail);
    NameEnds(s, i + 1, name);
  }

  lemma {:induction false} PieceRead(s: string, i: nat, p: Piece)
    requires IsPiece(p) && Stands(s, i, SpellPiece(p))
    ensures i < |s| && Pieces(s, i) == [p] + Pieces(s, i + |SpellPiece(p)|)
  {
    match p
    case Literal(c) => assert SpellPiece(p)[0] == c && s[i] == c;
    case Token(name, width) =>
      assert SpellPiece(p) != "";
      TokenRead(s, i, name, width);
  }

  predicate ArePieces(ps: seq<Piece>) { forall k :: 0 <= k < |ps| ==> IsPiece(ps[k]) }

  lemma {:induction false} SpellFirst(p: Piece, rest: seq<Piece>)
    ensures Spell([p] + rest) == SpellPiece(p) + Spell(rest)
  {
    assert ([p] + rest)[1..] == rest;
  }

  lemma {:induction false} RestArePieces(p: Piece, rest: seq<Piece>)
    requires ArePieces([p] + rest)
    ensures IsPiece(p) && ArePieces(rest)
  {
    assert ([p] + rest)[0] == p && forall k :: 0 <= k < |rest| ==> rest[k] == ([p] + rest)[k + 1];
  }

  lemma {:induction false} PiecesFrom(s: string, i: nat, ps: seq<Piece>)
    requires i <= |s| && s[i..] == Spell(ps) && ArePieces(ps)
    ensures Pieces(s, i) == ps
    decreases |ps|
  {
    if ps == [] {
      assert i == |s|;
    } else {
      var p, rest := ps[0], ps[1..];
      assert ps == [p] + rest;
      RestArePieces(p, rest);
      SpellFirst(p, rest);
      FirstFrom(s, i, p, rest);
      PiecesFrom(s, i + |SpellPiece(p)|, rest);
    }
  }

  lemma {:induction false} FirstFrom(s: string, i: nat, p: Piece, rest: seq<Piece>)
    requires i <= |s| && s[i..] == SpellPiece(p) + Spell(rest) && IsPiece(p)
    ensures i + |SpellPiece(p)| <= |s| && s[i + |SpellPiece(p)|..] == Spell(rest)
    ensures Pieces(s, i) == [p] + Pieces(s, i + |SpellPiece(p)|)
  {
    HeadAndTail(s, i, SpellPiece(p), Spell(rest));
    PieceRead(s, i, p);
  }

  lemma {:induction false} HeadAndTail(s: string, i: nat, first: string, rest: string)
    requires i <= |s| && s[i..] == first + rest
    ensures Stands(s, i, first) && i + |first| <= |s| && s[i + |first|..] == rest
  {
    forall k | 0 <= k < |first| ensures first[k] == s[i + k] { assert s[i..][k] == first[k]; }
    assert s[i + |first|..] == s[i..][|first|..] == rest;
  }

  /// A pattern is read as the pieces it was spelled from.
  lemma {:induction false} PiecesRead(ps: seq<Piece>)
    requires ArePieces(ps)
    ensures Pieces(Spell(ps), 0) == ps
  {
    assert Spell(ps)[0..] == Spell(ps);
    PiecesFrom(Spell(ps), 0, ps);
  }

  /// The seven tokens; only the running number has a width, of 1 to 12.
  predicate IsKnown(p: Piece) {
    match p
    case Literal(c) => '0' <= c <= '9' || 'A' <= c <= 'Z' || 'a' <= c <= 'z' || c in ['/', '-', '_', '.', '#', ' ']
    case Token(name, width) =>
      if name == "SEQ" then IsDigits(width) && (width == "" || 1 <= Num(width) <= 12)
      else
        && width == ""
        && (name == "FY" || name == "YYYY" || name == "YY" || name == "MM" || name == "DD" || name == "BRANCH")
  }

  lemma {:induction false} KnownIsWellFormed(p: Piece)
    requires p.Token? ==> IsDigits(p.width)
    ensures WellFormed(p) <==> IsKnown(p)
  {
    assert "/-_.# " == ['/', '-', '_', '.', '#', ' '];
  }

  /// A pattern is valid when it has 1 to 60 characters, one running number, and known pieces only.
  lemma {:induction false} SpelledIsValid(ps: seq<Piece>)
    requires ArePieces(ps)
    ensures ValidPattern(Spell(ps)) <==>
              && 1 <= |Spell(ps)| <= 60 && (forall p <- ps :: IsKnown(p))
              && exists i :: 0 <= i < |ps| && IsOnlySeq(ps, i)
  {
    PiecesRead(ps);
    forall k | 0 <= k < |ps| ensures WellFormed(ps[k]) <==> IsKnown(ps[k]) {
      assert IsPiece(ps[k]);
      KnownIsWellFormed(ps[k]);
    }
    if SeqCount(ps) == 1 { var i := OneSeq(ps); }
    if i :| 0 <= i < |ps| && IsOnlySeq(ps, i) { CountOne(ps, i); }
  }

  /// Piece `i` is the running number, and no other one is.
  predicate IsOnlySeq(ps: seq<Piece>, i: nat)
    requires i < |ps|
  {
    IsSeq(ps[i]) && forall j :: 0 <= j < |ps| && j != i ==> !IsSeq(ps[j])
  }

  lemma {:induction false} OneSeq(ps: seq<Piece>) returns (i: nat)
    requires SeqCount(ps) == 1
    ensures i < |ps| && IsOnlySeq(ps, i)
  {
    var n := |ps| - 1;
    if IsSeq(ps[n]) {
      i := n;
      CountZero(ps[..n]);
      assert forall j :: 0 <= j < n ==> ps[j] in ps[..n];
    } else {
      i := OneSeq(ps[..n]);
      assert forall j :: 0 <= j < n ==> ps[..n][j] == ps[j];
    }
  }

  lemma {:induction false} CountNone(ps: seq<Piece>)
    requires forall j :: 0 <= j < |ps| ==> !IsSeq(ps[j])
    ensures SeqCount(ps) == 0
  {
    if ps != [] { CountNone(ps[..|ps| - 1]); }
  }

  lemma {:induction false} CountOne(ps: seq<Piece>, i: nat)
    requires i < |ps| && IsOnlySeq(ps, i)
    ensures SeqCount(ps) == 1
  {
    var n := |ps| - 1;
    if i == n {
      CountNone(ps[..n]);
    } else {
      assert forall j :: 0 <= j < n ==> ps[..n][j] == ps[j];
      CountOne(ps[..n], i);
    }
  }

  // ---- numbers of a pattern ----

  /// A number shows the pieces of its pattern one after the other, plain characters as they are.
  lemma {:induction false} NumberOfPattern(p: Piece, ps: seq<Piece>, input: RenderInput)
    requires ArePieces([p] + ps)
    ensures p.Token? ==> IsDigits(p.width)
    ensures RenderNumber(Spell([p] + ps), input)
         == (if p.Literal? then [p.c] else RenderPiece(p, input)) + RenderNumber(Spell(ps), input)
    ensures RenderNumber(Spell([]), input) == ""
  {
    RestArePieces(p, ps);
    PiecesRead([p] + ps);
    PiecesRead(ps);
    PiecesRead([]);
    assert ([p] + ps)[1..] == ps;
  }
}
