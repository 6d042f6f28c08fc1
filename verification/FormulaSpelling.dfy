/// What the tokenizer reads besides the spelling of its own printer.

module FormulaSpelling {
  import opened FormulaSyntax
  import opened FormulaLexer

  /// White space between tokens is left out.
  lemma {:induction false} SpaceIsSkipped(c: char, s: string)
    requires c == ' ' || c == '\t' || c == '\n' || c == '\r'
    ensures Lex([c] + s) == Lex(s)
  {
    assert ([c] + s)[0] == c && ([c] + s)[1..] == s;
  }

  /// The equality sign may be written once or twice, the inequality sign in two ways.
  lemma {:induction false} EqualityIsRead(s: string)
    ensures (s == "" || s[0] != '=') ==> Lex("=" + s) == After([OpTok(Eq)], Lex(s))
    ensures Lex("==" + s) == After([OpTok(Eq)], Lex(s))
    ensures Lex("!=" + s) == After([OpTok(Ne)], Lex(s)) && Lex("<>" + s) == After([OpTok(Ne)], Lex(s))
  {
    assert ("=" + s)[1..] == s && ("==" + s)[2..] == s && ("!=" + s)[2..] == s && ("<>" + s)[2..] == s;
    assert ("=" + s)[0] == '=' && (s != "" ==> ("=" + s)[1] == s[0]);
    assert ("==" + s)[0] == '=' && ("==" + s)[1] == '=';
    assert ("!=" + s)[0] == '!' && ("!=" + s)[1] == '=';
    assert ("<>" + s)[0] == '<' && ("<>" + s)[1] == '>';
  }
}
