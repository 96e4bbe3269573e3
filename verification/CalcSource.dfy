/** Expressions as users write them: length cap, lexer and parser together. */
module CalcSource {
  import opened CalcSyntax
  import opened CalcLexer
  import opened CalcPrinter
  import G = CalcGrammar
  import P = CalcParser
  import O = CalcParserObject

  datatype Refusal = EmptySource | TooLong | NotLexed(l: LexProblem) | NotParsed(p: P.Problem)

  datatype Source = Tree(root: CalcSyntax.Tree) | Refused(why: Refusal)

  /** How many bytes the white-space character at the start of s takes: the ASCII ones, and
      U+0085, U+00A0, U+1680, U+2000 to U+200A, U+2028, U+2029, U+202F, U+205F and U+3000. */
  function SpaceAt(s: string): (n: nat)
    ensures n <= |s|
  {
    if s == "" then 0
    else
      var c := s[0] as int;
      if 9 <= c <= 13 || c == 32 then 1
      else if c == 0xC2 && |s| > 1 && s[1] as int in {0x85, 0xA0} then 2
      else if |s| > 2 && WideSpace(c, s[1] as int, s[2] as int) then 3
      else 0
  }

  predicate WideSpace(a: int, b: int, c: int) {
    || (a == 0xE1 && b == 0x9A && c == 0x80)
    || (a == 0xE2 && b == 0x80 && (0x80 <= c <= 0x8A || c in {0xA8, 0xA9, 0xAF}))
    || (a == 0xE2 && b == 0x81 && c == 0x9F)
    || (a == 0xE3 && b == 0x80 && c == 0x80)
  }

  /** Only white space, which is nothing to parse. */
  predicate Blank(s: string) { s == "" || (SpaceAt(s) > 0 && Blank(s[SpaceAt(s)..])) }

  function ParseSource(src: string, pf: FloatParser): Source {
    if Blank(src) then Refused(EmptySource)
    else if |src| > MAX_LENGTH then Refused(TooLong)
    else
      match Lex(src, pf)
      case LexErr(w) => Refused(NotLexed(w))
      case Toks(toks) =>
        match P.Parse(toks)
        case Invalid(e) => Refused(NotParsed(e))
        case Expr(t) => Source.Tree(t)
  }

  method Parse(src: string, pf: FloatParser) returns (r: Source)
    ensures r == ParseSource(src, pf)
  {
    if Blank(src) { return Refused(EmptySource); }
    if |src| > MAX_LENGTH { return Refused(TooLong); }
    var l := Scan(src, pf);
    if l.LexErr? { return Refused(NotLexed(l.why)); }
    var p := O.ParseTokens(l.toks);
    r := if p.Invalid? then Refused(NotParsed(p.problem)) else Source.Tree(p.root);
  }

  lemma {:induction false} LexHasNoEnd(s: string, pf: FloatParser)
    requires Lex(s, pf).Toks?
    ensures End !in Lex(s, pf).toks
  {
    var ws := LexSpells(s, pf);
    assert forall i :: 0 <= i < |ws| ==> Spelling(Lex(s, pf).toks[i], ws[i], pf);
  }

  /** A tree within the caps, printed and spelled in at most MAX_LENGTH characters, reads back. */
  lemma {:induction false} SourceRoundTrip(t: CalcSyntax.Tree, ws: seq<string>, pf: FloatParser)
    requires WithinCaps(t) && Spellings(Yield(Show(t)), ws, pf) && |Spaced(ws)| <= MAX_LENGTH
    ensures ParseSource(Spaced(ws), pf) == Source.Tree(t)
  {
    hide Spelling, P.Rung, Lex;
    var toks := Yield(Show(t));
    RoundTrip(t);
    LexReadsBack(toks, ws, pf);
    ShowReads(t);
    G.YieldFirst(Show(t));
    var rest := if |ws| == 1 then "" else " " + Spaced(ws[1..]);
    assert Spaced(ws) == ws[0] + rest;
    NotBlank(toks[0], ws[0], rest, pf);
  }

  lemma {:induction false} NotBlank(t: Token, w: string, rest: string, pf: FloatParser)
    requires Spelling(t, w, pf)
    ensures !Blank(w + rest)
  {
    hide SymbolOf;
    var s := w + rest;
    OneExact(t, w, "", pf);
    if |w| > 0 { assert s[0] == w[0] && s[0] in s; }
    if t.Op? || t.LParen? || t.RParen? || t.Comma? { SymbolVisible(w); }
  }

  lemma {:induction false} SymbolVisible(w: string)
    requires SymbolOf(w).Some?
    ensures w != [] && 32 < w[0] as int < 127
  {
  }

  /** Whatever parses is a tree within the caps, so it prints and parses back to itself. */
  lemma {:induction false} SourceWithinCaps(src: string, pf: FloatParser)
    requires ParseSource(src, pf).Tree?
    ensures WithinCaps(ParseSource(src, pf).root)
    ensures var t := ParseSource(src, pf).root; P.Parse(Yield(Show(t))) == P.Expr(t)
  {
    hide P.Rung, Lex;
    LexHasNoEnd(src, pf);
    TreeWithinCaps(Lex(src, pf).toks);
    RoundTrip(ParseSource(src, pf).root);
  }
}
