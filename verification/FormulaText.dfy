/// From source text to tree and back.

module FormulaText {
  import opened FormulaSyntax
  import opened FormulaParser
  import opened FormulaPrinter
  import opened FormulaLexer

  datatype Read = Tree(n: Node) | LexFailure(le: LexError) | ParseFailure(pe: Error)

  /// Source text to tree, as `compileFormula` does it.
  function ReadFormula(src: string): Read {
    match TokenizeSpec(src)
    case Rejected(e) => LexFailure(e)
    case Tokens(ts) =>
      match ParseAll(ts)
      case Ok(n, _) => Tree(n)
      case Fail(e) => ParseFailure(e)
  }

  function Source(n: Node): string {
    SpellAll(Print(n, 0))
  }

  /// Numbers and names in the tree are ones the tokenizer can produce.
  predicate Spelled(n: Node) {
    match n
    case Num(v) => IsNumber(v)
    case Str(_) => true
    case Const(_) => true
    case Field(name) => IsName(name)
    case Unary(_, arg) => Spelled(arg)
    case Binary(_, l, r) => Spelled(l) && Spelled(r)
    case Call(_, args) => forall a <- args :: Spelled(a)
  }

  lemma PlainName(v: string)
    requires v != "" && IsNameStart(v[0]) && forall c <- v :: In(c, NameChars)
    ensures IsName(v)
  {
    assert forall k :: 0 <= k < |v| ==> In(v[k], NameChars);
    assert Scan(v, 1, NameChars) == |v|;
  }

  lemma FnNames(fn: Fn)
    ensures IsName(FnText(fn))
  {
    PlainName(FnText(fn));
  }

  lemma {:induction false} PrintLexical(n: Node, q: nat)
    requires Spelled(n)
    ensures AllLexical(Print(n, q)) && AllLexical(Bare(n))
    decreases n, 1
  {
    BareLexical(n);
  }

  lemma {:induction false} BareLexical(n: Node)
    requires Spelled(n)
    ensures AllLexical(Bare(n))
    decreases n, 0
  {
    match n
    case Const(w) => PlainName(WordText(w));
    case Unary(_, arg) => PrintLexical(arg, TIGHTEST);
    case Binary(op, l, r) =>
      PrintLexical(l, Precedence(op));
      PrintLexical(r, Precedence(op) + 1);
    case Call(fn, args) =>
      FnNames(fn);
      if args != [] { ArgsLexical(args, true); }
    case _ =>
  }

  lemma {:induction false} ArgsLexical(args: seq<Node>, first: bool)
    requires args != [] && forall a <- args :: Spelled(a)
    ensures AllLexical(PrintArgs(args, first))
    decreases args
  {
    PrintLexical(args[0], 0);
    if |args| > 1 { ArgsLexical(args[1..], false); }
  }

  /// Text to tree inverts tree to text, up to the two limits the language sets.
  lemma SourceRoundTrip(n: Node)
    requires WellFormed(n) && Spelled(n)
    ensures ReadFormula(Source(n))
         == if |Source(n)| > 2000 then LexFailure(TooLong)
            else if Nesting(n) > 50 then ParseFailure(TooDeep)
            else Tree(n)
  {
    PrintLexical(n, 0);
    LexSpellAll(Print(n, 0));
    ParsePrint(n);
  }
}
