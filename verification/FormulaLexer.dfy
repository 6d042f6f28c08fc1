/// The tokenizer, a way to spell tokens as text, and the round trip from trees to source
/// text and back.

module FormulaLexer {
  import opened FormulaSyntax

  datatype LexError = TooLong | InvalidNumber | UnclosedText | UnexpectedChar(c: char)
  datatype Lexed = Tokens(ts: seq<Token>) | Rejected(e: LexError)

  const MAX_LENGTH: nat := 2000

  datatype Class = Digits | NameChars

  predicate IsDigit(c: char) { '0' <= c <= '9' }

  predicate IsNameStart(c: char) { 'A' <= c <= 'Z' || 'a' <= c <= 'z' || c == '_' }

  predicate In(c: char, cls: Class) {
    match cls
    case Digits => IsDigit(c)
    case NameChars => IsNameStart(c) || IsDigit(c)
  }

  predicate IsSpace(c: char) {
    || c == ' ' || '\t' <= c <= '\r' || c == '\U{00A0}' || c == '\U{FEFF}' || c == '\U{1680}'
    || '\U{2000}' <= c <= '\U{200A}' || c == '\U{2028}' || c == '\U{2029}' || c == '\U{202F}'
    || c == '\U{205F}' || c == '\U{3000}'
  }

  /// The end of the run of characters of a class starting at `i`.
  function Scan(s: string, i: nat, cls: Class): (j: nat)
    requires i <= |s|
    ensures i <= j <= |s|
    ensures forall k :: i <= k < j ==> In(s[k], cls)
    ensures j < |s| ==> !In(s[j], cls)
    decreases |s| - i
  {
    if i < |s| && In(s[i], cls) then Scan(s, i + 1, cls) else i
  }

  predicate HasAt(s: string, i: nat, cls: Class) {
    i < |s| && In(s[i], cls)
  }

  /// Digits, optionally with a point that has digits behind it; 0 when there are none.
  function MantissaLen(s: string): (m: nat)
    ensures m <= |s|
  {
    var a := Scan(s, 0, Digits);
    if a < |s| && s[a] == '.' && HasAt(s, a + 1, Digits) then Scan(s, a + 1, Digits) else a
  }

  /// The end of an exponent that starts at `m`, or `m` when none does.
  function ExponentEnd(s: string, m: nat): (n: nat)
    requires m <= |s|
    ensures m <= n <= |s|
  {
    if m < |s| && (s[m] == 'e' || s[m] == 'E') then
      var e := if m + 1 < |s| && (s[m + 1] == '+' || s[m + 1] == '-') then m + 2 else m + 1;
      if HasAt(s, e, Digits) then Scan(s, e, Digits) else m
    else m
  }

  /// The length of the number the text starts with; 0 when it starts with none.
  function NumberLen(s: string): (n: nat)
    ensures n <= |s|
  {
    if MantissaLen(s) == 0 then 0 else ExponentEnd(s, MantissaLen(s))
  }

  /// A name, optionally with one dotted part.
  function NameLen(s: string): (n: nat)
    requires s != "" && IsNameStart(s[0])
    ensures 0 < n <= |s|
  {
    var a := Scan(s, 1, NameChars);
    if a + 1 < |s| && s[a] == '.' && IsNameStart(s[a + 1]) then Scan(s, a + 2, NameChars) else a
  }

  datatype Quoted = Closed(text: string, used: nat) | Open

  /// The text up to the closing quote, a backslash standing for the character after it.
  function Unquote(s: string, quote: char): (r: Quoted)
    ensures r.Closed? ==> 0 < r.used <= |s|
  {
    if s == "" then Open
    else if s[0] == quote then Closed("", 1)
    else
      var skip := if s[0] == '\\' && |s| > 1 then 2 else 1;
      match Unquote(s[skip..], quote)
      case Open => Open
      case Closed(t, used) => Closed([s[skip - 1]] + t, used + skip)
  }

  /// `<>` and `=` are the spreadsheet spellings of `!=` and `==`.
  function TwoCharOp(s: string): (op: seq<Op>)
    ensures |op| <= 1
  {
    if |s| < 2 then []
    else if s[0] == '<' && s[1] == '=' then [Le]
    else if s[0] == '>' && s[1] == '=' then [Ge]
    else if s[0] == '=' && s[1] == '=' then [Eq]
    else if s[0] == '!' && s[1] == '=' then [Ne]
    else if s[0] == '&' && s[1] == '&' then [And]
    else if s[0] == '|' && s[1] == '|' then [Or]
    else if s[0] == '<' && s[1] == '>' then [Ne]
    else []
  }

  function OneCharOp(c: char): (op: seq<Op>)
    ensures |op| <= 1
  {
    if c == '+' then [Plus] else if c == '-' then [Minus] else if c == '*' then [Star]
    else if c == '/' then [Slash] else if c == '%' then [Percent] else if c == '(' then [LParen]
    else if c == ')' then [RParen] else if c == '<' then [Lt] else if c == '>' then [Gt]
    else if c == ',' then [Comma] else if c == '!' then [Bang] else if c == '&' then [Amp]
    else if c == '=' then [Eq] else []
  }

  datatype Step = Skip | Emit(t: Token, used: nat) | Stop(e: LexError)

  /// What the tokenizer does at the start of the remaining text.
  function Next(s: string): (r: Step)
    requires s != ""
    ensures r.Emit? ==> 0 < r.used <= |s|
  {
    var c := s[0];
    if IsSpace(c) then Skip
    else if IsDigit(c) || c == '.' then
      var n := NumberLen(s);
      if n == 0 then Stop(InvalidNumber) else Emit(NumTok(s[..n]), n)
    else if c == '"' || c == '\'' then
      match Unquote(s[1..], c)
      case Open => Stop(UnclosedText)
      case Closed(t, used) => Emit(StrTok(t), used + 1)
    else if IsNameStart(c) then Emit(IdTok(s[..NameLen(s)]), NameLen(s))
    else if TwoCharOp(s) != [] then Emit(OpTok(TwoCharOp(s)[0]), 2)
    else if OneCharOp(c) != [] then Emit(OpTok(OneCharOp(c)[0]), 1)
    else Stop(UnexpectedChar(c))
  }

  function Lex(s: string): Lexed {
    if s == "" then Tokens([Eof])
    else
      match Next(s)
      case Stop(e) => Rejected(e)
      case Skip => Lex(s[1..])
      case Emit(t, used) => After([t], Lex(s[used..]))
  }

  function After(done: seq<Token>, rest: Lexed): Lexed {
    if rest.Tokens? then Tokens(done + rest.ts) else rest
  }

  function TokenizeSpec(src: string): Lexed {
    if |src| > MAX_LENGTH then Rejected(TooLong) else Lex(src)
  }

  method Tokenize(src: string) returns (r: Lexed)
    ensures r == TokenizeSpec(src)
  {
    if |src| > MAX_LENGTH {
      return Rejected(TooLong);
    }
    assert src[0..] == src;
    ghost var rest := seq(|src| + 1, i requires 0 <= i <= |src| => Lex(src[i..]));
    r := ReadAll(src, rest);
    assert OnDemand(0);
  }

  /// Marks where the tokens from a position on are wanted.
  predicate OnDemand(i: nat) { true }

  /// The tokens from each position on.
  ghost predicate IsRest(rest: seq<Lexed>, src: string) {
    && |rest| == |src| + 1
    && forall i {:trigger OnDemand(i)} :: 0 <= i <= |src| && OnDemand(i) ==> rest[i] == Lex(src[i..])
  }

  method ReadAll(src: string, ghost rest: seq<Lexed>) returns (r: Lexed)
    requires IsRest(rest, src)
    ensures r == rest[0]
  {
    var out: seq<Token> := [];
    var i := 0;
    while i < |src|
      invariant i <= |src| && rest[0] == After(out, rest[i])
    {
      var step := ReadNext(src, i, rest);
      match step
      case Skip =>
        i := i + 1;
      case Stop(e) =>
        return Rejected(e);
      case Emit(t, used) =>
        AfterOne(out, t, rest[i + used]);
        out := out + [t];
        i := i + used;
    }
    LexEnd(src, rest);
    r := Tokens(out + [Eof]);
  }

  /// One step of the loop.
  method ReadNext(src: string, i: nat, ghost rest: seq<Lexed>) returns (step: Step)
    requires i < |src| && IsRest(rest, src)
    ensures step.Skip? ==> rest[i] == rest[i + 1]
    ensures step.Stop? ==> rest[i] == Rejected(step.e)
    ensures step.Emit? ==> 0 < step.used <= |src| - i && rest[i] == After([step.t], rest[i + step.used])
  {
    step := Next(src[i..]);
    assert OnDemand(i);
    match step
    case Skip =>
      LexSkip(src, i);
      assert OnDemand(i + 1);
    case Stop(_) =>
    case Emit(t, used) =>
      LexToken(src, i, t, used);
      assert OnDemand(i + used);
  }

  lemma LexEnd(src: string, rest: seq<Lexed>)
    requires IsRest(rest, src)
    ensures rest[|src|] == Tokens([Eof])
  {
    assert OnDemand(|src|) && src[|src|..] == "";
  }

  lemma LexSkip(src: string, i: nat)
    requires i < |src| && Next(src[i..]) == Skip
    ensures Lex(src[i..]) == Lex(src[i + 1..])
  {
    assert src[i..][1..] == src[i + 1..];
  }

  lemma LexToken(src: string, i: nat, t: Token, used: nat)
    requires i < |src| && Next(src[i..]) == Emit(t, used)
    ensures Lex(src[i..]) == After([t], Lex(src[i + used..]))
  {
    assert src[i..][used..] == src[i + used..];
  }

  lemma AfterOne(done: seq<Token>, t: Token, rest: Lexed)
    ensures After(done + [t], rest) == After(done, After([t], rest))
  {
    if rest.Tokens? { assert done + [t] + rest.ts == done + ([t] + rest.ts); }
  }

  // ---- spelling tokens ----

  function EscapeOne(c: char): string { if c == '"' || c == '\\' then ['\\', c] else [c] }

  function Escape(v: string): string {
    if v == "" then "" else EscapeOne(v[0]) + Escape(v[1..])
  }

  function Spell(t: Token): string {
    match t
    case NumTok(v) => v
    case StrTok(v) => "\"" + Escape(v) + "\""
    case IdTok(v) => v
    case OpTok(op) => OpText(op)
    case Eof => ""
  }

  function SpellAll(ts: seq<Token>): string {
    if ts == [] then "" else Spell(ts[0]) + " " + SpellAll(ts[1..])
  }

  predicate IsNumber(v: string) {
    v != "" && (IsDigit(v[0]) || v[0] == '.') && NumberLen(v) == |v|
  }

  predicate IsName(v: string) {
    v != "" && IsNameStart(v[0]) && NameLen(v) == |v|
  }

  /// Tokens the tokenizer can produce.
  predicate Lexical(t: Token) {
    match t
    case NumTok(v) => IsNumber(v)
    case IdTok(v) => IsName(v)
    case StrTok(_) => true
    case OpTok(_) => true
    case Eof => false
  }

  lemma {:induction false} ScanPrefix(v: string, w: string, i: nat, cls: Class)
    requires i <= |v| && w != "" && w[0] == ' '
    ensures Scan(v + w, i, cls) == Scan(v, i, cls)
    decreases |v| - i
  {
    if i < |v| {
      assert (v + w)[i] == v[i];
      if In(v[i], cls) { ScanPrefix(v, w, i + 1, cls); }
    } else {
      assert (v + w)[i] == w[0];
    }
  }

  lemma SpaceBehind(v: string, w: string)
    requires w != "" && w[0] == ' '
    ensures |v + w| > |v| && (v + w)[|v|] == ' ' && forall k :: 0 <= k < |v| ==> (v + w)[k] == v[k]
  {
  }

  lemma MantissaPrefix(v: string, w: string)
    requires w != "" && w[0] == ' '
    ensures MantissaLen(v + w) == MantissaLen(v)
  {
    SpaceBehind(v, w);
    ScanPrefix(v, w, 0, Digits);
    var a := Scan(v, 0, Digits);
    if a < |v| { ScanPrefix(v, w, a + 1, Digits); }
  }

  lemma ExponentPrefix(v: string, w: string, m: nat)
    requires m <= |v| && w != "" && w[0] == ' '
    ensures ExponentEnd(v + w, m) == ExponentEnd(v, m)
  {
    SpaceBehind(v, w);
    if m < |v| { ScanPrefix(v, w, m + 1, Digits); }
    if m + 1 < |v| { ScanPrefix(v, w, m + 2, Digits); }
  }

  lemma NumberPrefix(v: string, w: string)
    requires IsNumber(v) && w != "" && w[0] == ' '
    ensures NumberLen(v + w) == |v|
  {
    MantissaPrefix(v, w);
    ExponentPrefix(v, w, MantissaLen(v));
  }

  lemma NamePrefix(v: string, w: string)
    requires IsName(v) && w != "" && w[0] == ' '
    ensures NameLen(v + w) == |v|
  {
    SpaceBehind(v, w);
    ScanPrefix(v, w, 1, NameChars);
    var a := Scan(v, 1, NameChars);
    if a + 1 < |v| { ScanPrefix(v, w, a + 2, NameChars); }
  }

  lemma {:induction false} UnquoteEscape(v: string, w: string)
    ensures Unquote(Escape(v) + "\"" + w, '"') == Closed(v, |Escape(v)| + 1)
  {
    if v != "" {
      UnquoteEscape(v[1..], w);
      UnquoteOne(v, Escape(v[1..]) + "\"" + w);
      assert Escape(v) + "\"" + w == EscapeOne(v[0]) + (Escape(v[1..]) + "\"" + w);
    } else {
      assert (Escape(v) + "\"" + w)[0] == '"';
    }
  }

  /// One escaped character in front.
  lemma UnquoteOne(v: string, rest: string)
    requires v != "" && Unquote(rest, '"') == Closed(v[1..], |Escape(v[1..])| + 1) && rest != ""
    ensures Unquote(EscapeOne(v[0]) + rest, '"') == Closed(v, |Escape(v)| + 1)
  {
    var s := EscapeOne(v[0]) + rest;
    assert s[|EscapeOne(v[0])|..] == rest;
    assert v == [v[0]] + v[1..];
  }

  /// Spelled with a space behind it, a token is read back and nothing else is consumed.
  lemma NextSpell(t: Token, w: string)
    requires Lexical(t) && w != "" && w[0] == ' '
    ensures Next(Spell(t) + w) == Emit(t, |Spell(t)|)
  {
    match t
    case NumTok(v) => NextNumber(v, w);
    case IdTok(v) => NextName(v, w);
    case StrTok(v) => NextText(v, w);
    case OpTok(op) => NextOp(op, w);
  }

  lemma NextNumber(v: string, w: string)
    requires IsNumber(v) && w != "" && w[0] == ' '
    ensures Next(v + w) == Emit(NumTok(v), |v|)
  {
    SpaceBehind(v, w);
    NumberPrefix(v, w);
    assert (v + w)[..|v|] == v;
  }

  lemma NextName(v: string, w: string)
    requires IsName(v) && w != "" && w[0] == ' '
    ensures Next(v + w) == Emit(IdTok(v), |v|)
  {
    SpaceBehind(v, w);
    NamePrefix(v, w);
    assert (v + w)[..|v|] == v;
  }

  lemma NextText(v: string, w: string)
    ensures Next(Spell(StrTok(v)) + w) == Emit(StrTok(v), |Spell(StrTok(v))|)
  {
    var s := Spell(StrTok(v)) + w;
    UnquoteEscape(v, w);
    assert s[0] == '"' && s[1..] == Escape(v) + "\"" + w;
  }

  lemma NextOp(op: Op, w: string)
    requires w != "" && w[0] == ' '
    ensures Next(OpText(op) + w) == Emit(OpTok(op), |OpText(op)|)
  {
    SpaceBehind(OpText(op), w);
  }

  lemma LexSpace(w: string)
    ensures Lex(" " + w) == Lex(w)
  {
    var s := " " + w;
    assert s[0] == ' ' && s[1..] == w;
  }

  lemma LexEmit(s: string, w: string, t: Token)
    requires s + w != "" && Next(s + w) == Emit(t, |s|)
    ensures Lex(s + w) == After([t], Lex(w))
  {
    assert (s + w)[|s|..] == w;
  }

  lemma LexFirst(s: string, t: Token, w: string, ts: seq<Token>)
    requires Lexical(t) && s == Spell(t) + " " + w && Lex(w) == Tokens(ts)
    ensures Lex(s) == Tokens([t] + ts)
  {
    NextSpell(t, " " + w);
    LexEmit(Spell(t), " " + w, t);
    LexSpace(w);
    assert s == Spell(t) + (" " + w);
  }

  ghost predicate AllLexical(ts: seq<Token>) {
    forall t {:trigger Lexical(t)} :: t in ts ==> Lexical(t)
  }

  lemma LexHead(ts: seq<Token>, rest: seq<Token>)
    requires ts != [] && AllLexical(ts) && Lex(SpellAll(ts[1..])) == Tokens(rest)
    ensures Lex(SpellAll(ts)) == Tokens([ts[0]] + rest)
  {
    assert Lexical(ts[0]);
    LexFirst(SpellAll(ts), ts[0], SpellAll(ts[1..]), rest);
  }

  lemma LexicalTail(ts: seq<Token>)
    requires ts != [] && AllLexical(ts)
    ensures AllLexical(ts[1..]) && [ts[0]] + (ts[1..] + [Eof]) == ts + [Eof]
  {
  }

  lemma {:induction false} LexSpellAll(ts: seq<Token>)
    requires AllLexical(ts)
    ensures Lex(SpellAll(ts)) == Tokens(ts + [Eof])
  {
    if ts == [] {
      assert ts + [Eof] == [Eof];
    } else {
      LexicalTail(ts);
      LexSpellAll(ts[1..]);
      LexHead(ts, ts[1..] + [Eof]);
    }
  }
}
