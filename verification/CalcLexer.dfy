/** The lexer of internal/calcfield/lex.go. A string stands for a sequence of bytes. */
module CalcLexer {
  import opened Options
  import opened CalcSyntax

  const MAX_LENGTH: nat := 500
  const MAX_IDENT: nat := 200
  const MAX_INT: nat := 0x7fff_ffff_ffff_ffff

  predicate IsSpace(c: char) { c == ' ' || c == '\t' || c == '\n' || c == '\r' }
  predicate IsWordStart(c: char) { c == '_' || 'a' <= c <= 'z' || 'A' <= c <= 'Z' }
  predicate IsDigit(c: char) { '0' <= c <= '9' }
  predicate IsWordPart(c: char) { IsWordStart(c) || IsDigit(c) || c == '.' }
  predicate IsRefused(c: char) { c == '"' || c == '\\' || c == '\0' }

  datatype LexProblem =
    | IdentTooLong
    | BadNumber
    | NumberFollowedBy(c: char)
    | NulInString
    | UnterminatedString
    | UnterminatedIdent
    | BadIdent
    | UnexpectedChar(c: char)

  /** One token and its length, or what is wrong. */
  datatype One = Tok(t: Token, n: nat) | Bad(why: LexProblem)

  datatype Lexed = Toks(toks: seq<Token>) | LexErr(why: LexProblem)

  /** What the standard library's float parser makes of a literal; it is a parameter. */
  type FloatParser = string -> Option<real>

  /** The length of the longest prefix of s whose characters satisfy p. */
  function Span(s: string, p: char -> bool): (n: nat)
    ensures n <= |s|
    ensures forall i :: 0 <= i < n ==> p(s[i])
    ensures n < |s| ==> !p(s[n])
  {
    if s == [] || !p(s[0]) then 0 else 1 + Span(s[1..], p)
  }

  function DigitsValue(w: string): nat {
    if w == [] then 0 else DigitsValue(w[..|w| - 1]) * 10 + (w[|w| - 1] as int - '0' as int) % 10
  }

  // ----- the scanners -----

  function LexWord(s: string): One
    requires s != [] && IsWordStart(s[0])
  {
    var n := Span(s, IsWordPart);
    if n > MAX_IDENT then Bad(IdentTooLong)
    else
      var low := ToLower(s[..n]);
      Tok(Word(if Reserved(low) then low else s[..n]), n)
  }

  /** The length of the number at the start of s. */
  function NumberEnd(s: string): (m: nat)
    ensures m <= |s|
  {
    var n := Span(s, IsDigit);
    if n + 1 < |s| && s[n] == '.' && IsDigit(s[n + 1]) then n + 1 + Span(s[n + 1..], IsDigit) else n
  }

  function NumberToken(w: string, pf: FloatParser): One {
    if '.' !in w && DigitsValue(w) <= MAX_INT then Tok(NumberT(Whole(DigitsValue(w))), |w|)
    else
      match pf(w)
      case None => Bad(BadNumber)
      case Some(r) => Tok(NumberT(Frac(r)), |w|)
  }

  function LexNumber(s: string, pf: FloatParser): One
    requires s != [] && IsDigit(s[0])
  {
    var m := NumberEnd(s);
    if m < |s| && (IsWordStart(s[m]) || s[m] == '.') then Bad(NumberFollowedBy(s[m]))
    else NumberToken(s[..m], pf)
  }

  /** The text of a string literal after its opening quote. */
  function StringBody(s: string): (r: One)
    ensures r.Tok? ==> r.t.StringT? && 1 <= r.n <= |s|
  {
    if s == [] then Bad(UnterminatedString)
    else if s[0] == '\0' then Bad(NulInString)
    else if s[0] != '\'' then AfterChar(s[0], 1, StringBody(s[1..]))
    else if |s| > 1 && s[1] == '\'' then AfterChar('\'', 2, StringBody(s[2..]))
    else Tok(StringT(""), 1)
  }

  function AfterChar(c: char, n: nat, rest: One): One
    requires rest.Tok? ==> rest.t.StringT?
  {
    match rest
    case Bad(w) => Bad(w)
    case Tok(t, m) => Tok(StringT([c] + t.text), m + n)
  }

  function LexString(s: string): One
    requires s != []
  {
    match StringBody(s[1..])
    case Bad(w) => Bad(w)
    case Tok(t, n) => Tok(t, n + 1)
  }

  function LexQuoted(s: string): One
    requires s != []
  {
    var end := Span(s[1..], c => c != '`');
    if end == |s| - 1 then Bad(UnterminatedIdent)
    else
      var name := s[1..1 + end];
      if name == "" || |name| > MAX_IDENT || exists c :: c in name && IsRefused(c) then Bad(BadIdent)
      else Tok(Quoted(name), end + 2)
  }

  function SymbolOf(w: string): Option<Token> {
    if w == "<=" then Some(Op(Le))
    else if w == ">=" then Some(Op(Ge))
    else if w == "!=" then Some(Op(NotEq))
    else if w == "<>" then Some(Op(LessGreater))
    else if w == "==" then Some(Op(EqEq))
    else if w == "+" then Some(Op(Add))
    else if w == "-" then Some(Op(Sub))
    else if w == "*" then Some(Op(Mul))
    else if w == "/" then Some(Op(Div))
    else if w == "%" then Some(Op(Mod))
    else if w == "=" then Some(Op(Eq))
    else if w == "<" then Some(Op(Lt))
    else if w == ">" then Some(Op(Gt))
    else if w == "(" then Some(LParen)
    else if w == ")" then Some(RParen)
    else if w == "," then Some(Comma)
    else None
  }

  function LexSymbol(s: string): One
    requires s != []
  {
    if |s| >= 2 && SymbolOf(s[..2]).Some? then Tok(SymbolOf(s[..2]).value, 2)
    else if SymbolOf(s[..1]).Some? then Tok(SymbolOf(s[..1]).value, 1)
    else Bad(UnexpectedChar(s[0]))
  }

  function LexOne(s: string, pf: FloatParser): (r: One)
    requires s != []
    ensures r.Tok? ==> 1 <= r.n <= |s|
  {
    var c := s[0];
    if IsDigit(c) then LexNumber(s, pf)
    else if IsWordStart(c) then LexWord(s)
    else if c == '\'' then LexString(s)
    else if c == '`' then LexQuoted(s)
    else LexSymbol(s)
  }

  /** The tokens of s; the parser takes the end of the list for the End token. */
  function Lex(s: string, pf: FloatParser): Lexed {
    if s == [] then Toks([])
    else if IsSpace(s[0]) then Lex(s[1..], pf)
    else
      match LexOne(s, pf)
      case Bad(w) => LexErr(w)
      case Tok(t, n) => Before(t, Lex(s[n..], pf))
  }

  function Before(t: Token, rest: Lexed): Lexed {
    match rest case LexErr(w) => LexErr(w) case Toks(ts) => Toks([t] + ts)
  }

  // ----- what a token may look like -----

  function Escaped(x: string): string {
    if x == [] then "" else (if x[0] == '\'' then "''" else [x[0]]) + Escaped(x[1..])
  }

  ghost predicate NumberShape(w: string) {
    || (w != [] && forall c :: c in w ==> IsDigit(c))
    || exists n :: 0 < n < |w| - 1 && w[n] == '.' && (forall i :: 0 <= i < |w| && i != n ==> IsDigit(w[i]))
  }

  /** w is a spelling of t. */
  ghost predicate Spelling(t: Token, w: string, pf: FloatParser) {
    match t
    case End => false
    case NumberT(_) => NumberShape(w) && NumberToken(w, pf) == Tok(t, |w|)
    case StringT(x) => '\0' !in x && w == "'" + Escaped(x) + "'"
    case Word(x) =>
      && 1 <= |w| <= MAX_IDENT && IsWordStart(w[0]) && (forall c :: c in w ==> IsWordPart(c))
      && x == if Reserved(ToLower(w)) then ToLower(w) else w
    case Quoted(x) =>
      1 <= |x| <= MAX_IDENT && '`' !in x && (forall c :: c in x ==> !IsRefused(c)) && w == "`" + x + "`"
    case _ => SymbolOf(w) == Some(t)
  }

  /** Nothing follows, or a space does. */
  predicate Apart(rest: string) { rest == "" || rest[0] == ' ' }

  lemma {:induction false} SpanExact(w: string, rest: string, p: char -> bool)
    requires (forall c :: c in w ==> p(c)) && (rest == "" || !p(rest[0]))
    ensures Span(w + rest, p) == |w|
  {
    if w == [] {
      assert w + rest == rest;
    } else {
      assert (w + rest)[1..] == w[1..] + rest;
      SpanExact(w[1..], rest, p);
    }
  }

  lemma {:induction false} StringBodyStep(c: char, tail: string)
    requires c != '\0'
    ensures c != '\'' ==> StringBody([c] + tail) == AfterChar(c, 1, StringBody(tail))
    ensures StringBody("''" + tail) == AfterChar('\'', 2, StringBody(tail))
  {
    assert ([c] + tail)[1..] == tail;
    assert ("''" + tail)[2..] == tail;
  }

  lemma {:induction false} StringBodyEnd(rest: string)
    requires Apart(rest)
    ensures StringBody("'" + rest) == Tok(StringT(""), 1)
  {
    var s := "'" + rest;
    assert |s| > 1 ==> s[1] == rest[0];
  }

  lemma {:induction false} StringBodyExact(x: string, rest: string)
    requires '\0' !in x && Apart(rest)
    ensures StringBody(Escaped(x) + "'" + rest) == Tok(StringT(x), |Escaped(x)| + 1)
  {
    hide StringBody, Apart;
    var s := Escaped(x) + "'" + rest;
    if x == [] {
      assert s == "'" + rest;
      StringBodyEnd(rest);
    } else {
      StringBodyExact(x[1..], rest);
      var tail := Escaped(x[1..]) + "'" + rest;
      StringBodyStep(x[0], tail);
      assert s == (if x[0] == '\'' then "''" else [x[0]]) + tail;
      assert [x[0]] + x[1..] == x;
    }
  }

  lemma {:induction false} NumberEndExact(w: string, rest: string)
    requires NumberShape(w) && Apart(rest)
    ensures NumberEnd(w + rest) == |w| && IsDigit(w[0])
  {
    var s := w + rest;
    if forall c :: c in w ==> IsDigit(c) {
      SpanExact(w, rest, IsDigit);
    } else {
      var n :| 0 < n < |w| - 1 && w[n] == '.' && (forall i :: 0 <= i < |w| && i != n ==> IsDigit(w[i]));
      DecimalEndExact(w, n, rest);
    }
  }

  lemma {:induction false} DecimalEndExact(w: string, n: nat, rest: string)
    requires 0 < n < |w| - 1 && w[n] == '.' && (forall i :: 0 <= i < |w| && i != n ==> IsDigit(w[i])) && Apart(rest)
    ensures NumberEnd(w + rest) == |w|
  {
    hide Span;
    var s := w + rest;
    assert s == w[..n] + (w[n..] + rest);
    SpanExact(w[..n], w[n..] + rest, IsDigit);
    assert s[n + 1..] == w[n + 1..] + rest;
    SpanExact(w[n + 1..], rest, IsDigit);
  }

  lemma {:induction false} NumberExact(t: Token, w: string, rest: string, pf: FloatParser)
    requires t.NumberT? && Spelling(t, w, pf) && Apart(rest)
    ensures LexOne(w + rest, pf) == Tok(t, |w|)
  {
    hide NumberEnd, NumberToken;
    NumberEndExact(w, rest);
    var s := w + rest;
    assert s[..|w|] == w && s[0] == w[0];
  }

  lemma {:induction false} SymbolExact(t: Token, w: string, rest: string, pf: FloatParser)
    requires SymbolOf(w) == Some(t) && Apart(rest)
    ensures w != [] && !IsSpace(w[0]) && LexOne(w + rest, pf) == Tok(t, |w|)
  {
    var s := w + rest;
    assert s[..|w|] == w;
    if |w| == 1 && |s| >= 2 { assert s[..2] == [w[0], ' ']; }
  }

  lemma {:induction false} QuotedExact(x: string, rest: string, pf: FloatParser)
    requires 1 <= |x| <= MAX_IDENT && '`' !in x && (forall c :: c in x ==> !IsRefused(c))
    ensures LexOne("`" + x + "`" + rest, pf) == Tok(Quoted(x), |x| + 2)
  {
    hide Span;
    var s := "`" + x + "`" + rest;
    assert s[1..] == x + ("`" + rest);
    SpanExact(x, "`" + rest, c => c != '`');
    assert s[1..1 + |x|] == x;
  }

  lemma {:induction false} WordExact(t: Token, w: string, rest: string, pf: FloatParser)
    requires t.Word? && Spelling(t, w, pf) && Apart(rest)
    ensures LexOne(w + rest, pf) == Tok(t, |w|)
  {
    hide Span, ToLower;
    SpanExact(w, rest, IsWordPart);
    assert (w + rest)[..|w|] == w;
  }

  /** A spelling followed by a space or nothing is read as its token. */
  lemma {:induction false} OneExact(t: Token, w: string, rest: string, pf: FloatParser)
    requires Spelling(t, w, pf) && Apart(rest)
    ensures w != [] && !IsSpace(w[0]) && LexOne(w + rest, pf) == Tok(t, |w|)
  {
    hide LexNumber, LexWord, LexQuoted, LexSymbol, StringBody, SymbolOf;
    if t.NumberT? { NumberExact(t, w, rest, pf); NumberEndExact(w, rest); }
    else if t.Word? { WordExact(t, w, rest, pf); }
    else if t.Quoted? { QuotedExact(t.text, rest, pf); }
    else if t.StringT? {
      StringBodyExact(t.text, rest);
      assert (w + rest)[1..] == Escaped(t.text) + "'" + rest;
    }
    else { SymbolExact(t, w, rest, pf); }
  }

  function Spaced(ws: seq<string>): string {
    if ws == [] then "" else if |ws| == 1 then ws[0] else ws[0] + " " + Spaced(ws[1..])
  }

  ghost predicate Spellings(ts: seq<Token>, ws: seq<string>, pf: FloatParser) {
    |ts| == |ws| && forall i :: 0 <= i < |ts| ==> Spelling(ts[i], ws[i], pf)
  }

  /** Spellings with spaces between them lex back to their tokens. */
  lemma {:induction false} LexReadsBack(ts: seq<Token>, ws: seq<string>, pf: FloatParser)
    requires Spellings(ts, ws, pf)
    ensures Lex(Spaced(ws), pf) == Toks(ts)
    decreases |ts|
  {
    if ts != [] {
      var rest := if |ws| == 1 then "" else " " + Spaced(ws[1..]);
      OneExact(ts[0], ws[0], rest, pf);
      var s := Spaced(ws);
      assert s == ws[0] + rest;
      assert s[|ws[0]|..] == rest;
      LexReadsBack(ts[1..], ws[1..], pf);
      if |ws| > 1 { assert rest[1..] == Spaced(ws[1..]); }
      assert [ts[0]] + ts[1..] == ts;
    }
  }

  // ----- every token the lexer returns is spelled by the text it took -----

  lemma {:induction false} StringBodySpells(s: string)
    requires StringBody(s).Tok?
    ensures var r := StringBody(s); '\0' !in r.t.text && s[..r.n] == Escaped(r.t.text) + "'"
  {
    var r := StringBody(s);
    if s[0] != '\'' {
      StringBodySpells(s[1..]);
      var b := StringBody(s[1..]);
      assert r.t.text[1..] == b.t.text;
      assert s[..r.n] == [s[0]] + s[1..][..b.n];
    } else if |s| > 1 && s[1] == '\'' {
      StringBodySpells(s[2..]);
      var b := StringBody(s[2..]);
      assert r.t.text[1..] == b.t.text;
      assert s[..r.n] == "''" + s[2..][..b.n];
    }
  }

  lemma {:induction false} NumberSpells(s: string, pf: FloatParser)
    requires s != [] && IsDigit(s[0]) && LexNumber(s, pf).Tok?
    ensures Spelling(LexNumber(s, pf).t, s[..LexNumber(s, pf).n], pf)
  {
    hide NumberToken;
    var m, n := NumberEnd(s), Span(s, IsDigit);
    var w := s[..m];
    if m == n {
      assert forall c :: c in w ==> IsDigit(c);
    } else {
      assert forall i :: n < i < m ==> w[i] == s[n + 1..][i - n - 1];
      assert 0 < n < |w| - 1 && w[n] == '.' && (forall i :: 0 <= i < |w| && i != n ==> IsDigit(w[i]));
    }
    NumberTokenLength(w, pf);
  }

  lemma {:induction false} NumberTokenLength(w: string, pf: FloatParser)
    requires NumberToken(w, pf).Tok?
    ensures NumberToken(w, pf).n == |w| && NumberToken(w, pf).t.NumberT?
  {
  }

  lemma {:induction false} OneSpells(s: string, pf: FloatParser)
    requires s != [] && LexOne(s, pf).Tok?
    ensures Spelling(LexOne(s, pf).t, s[..LexOne(s, pf).n], pf)
  {
    var r := LexOne(s, pf);
    var c := s[0];
    if IsDigit(c) { NumberSpells(s, pf); }
    else if IsWordStart(c) { WordSpells(s, pf); }
    else if c == '\'' {
      StringBodySpells(s[1..]);
      assert s[..r.n] == "'" + s[1..][..r.n - 1];
    } else if c == '`' { QuotedSpells(s, pf); }
    else { SymbolSpells(s, pf); }
  }

  lemma {:induction false} WordSpells(s: string, pf: FloatParser)
    requires s != [] && IsWordStart(s[0]) && LexWord(s).Tok?
    ensures Spelling(LexWord(s).t, s[..LexWord(s).n], pf)
  {
  }

  lemma {:induction false} QuotedSpells(s: string, pf: FloatParser)
    requires s != [] && s[0] == '`' && LexQuoted(s).Tok?
    ensures Spelling(LexQuoted(s).t, s[..LexQuoted(s).n], pf)
  {
    var end := Span(s[1..], c => c != '`');
    assert s[1..1 + end] == s[1..][..end];
    assert s[..end + 2] == "`" + s[1..1 + end] + "`";
  }

  lemma {:induction false} SymbolSpells(s: string, pf: FloatParser)
    requires s != [] && LexSymbol(s).Tok?
    ensures Spelling(LexSymbol(s).t, s[..LexSymbol(s).n], pf)
  {
  }

  /** Whatever lexes is a list of spelled tokens. */
  lemma {:induction false} LexSpells(s: string, pf: FloatParser) returns (ws: seq<string>)
    requires Lex(s, pf).Toks?
    ensures Spellings(Lex(s, pf).toks, ws, pf)
  {
    hide Spelling, LexOne;
    if s == [] {
      ws := [];
    } else if IsSpace(s[0]) {
      ws := LexSpells(s[1..], pf);
    } else {
      OneSpells(s, pf);
      var n := LexOne(s, pf).n;
      var rest := LexSpells(s[n..], pf);
      ws := [s[..n]] + rest;
    }
  }

  // ----- the scanning loops -----

  method ScanSpan(s: string, from: nat, p: char -> bool) returns (n: nat)
    requires from <= |s|
    ensures n == from + Span(s[from..], p)
  {
    n := from;
    while n < |s| && p(s[n])
      invariant from <= n <= |s|
      invariant from + Span(s[from..], p) == n + Span(s[n..], p)
    {
      n := n + 1;
    }
  }

  method ScanString(s: string) returns (r: One)
    requires s != []
    ensures r == LexString(s)
  {
    hide StringBody, Prefixed;
    var b := "";
    var i := 1;
    PrefixedNone(StringBody(s[1..]));
    while i < |s|
      invariant 1 <= i <= |s|
      invariant LexString(s) == Prefixed(b, i, StringBody(s[i..]))
    {
      BodyStep(s, i, b);
      if s[i] != '\'' {
        if s[i] == '\0' { return Bad(NulInString); }
        b := b + [s[i]];
      } else if i + 1 < |s| && s[i + 1] == '\'' {
        b := b + "'";
        i := i + 1;
      } else {
        return Tok(StringT(b), i + 1);
      }
      i := i + 1;
    }
    BodyEnds(s, b);
    r := Bad(UnterminatedString);
  }

  lemma {:induction false} PrefixedNone(rest: One)
    requires rest.Tok? ==> rest.t.StringT?
    ensures Prefixed("", 1, rest) == if rest.Bad? then rest else rest.(n := rest.n + 1)
  {
    if rest.Tok? { assert "" + rest.t.text == rest.t.text; }
  }

  /** What the character at i does to the text read so far. */
  lemma {:induction false} BodyStep(s: string, i: nat, b: string)
    requires i < |s|
    ensures var now := Prefixed(b, i, StringBody(s[i..]));
            if s[i] == '\0' then now == Bad(NulInString)
            else if s[i] != '\'' then now == Prefixed(b + [s[i]], i + 1, StringBody(s[i + 1..]))
            else if i + 1 < |s| && s[i + 1] == '\'' then now == Prefixed(b + "'", i + 2, StringBody(s[i + 2..]))
            else now == Tok(StringT(b), i + 1)
  {
    var t := s[i..];
    if s[i] != '\0' && s[i] != '\'' {
      assert t[1..] == s[i + 1..];
      PrefixedMore(b, [s[i]], StringBody(s[i + 1..]));
    } else if i + 1 < |s| && s[i + 1] == '\'' {
      assert t[2..] == s[i + 2..];
      PrefixedMore(b, "'", StringBody(s[i + 2..]));
    } else {
      assert b + "" == b;
    }
  }

  lemma {:induction false} PrefixedMore(b: string, c: string, rest: One)
    requires rest.Tok? ==> rest.t.StringT?
    ensures rest.Tok? ==> b + (c + rest.t.text) == (b + c) + rest.t.text
  {
  }

  lemma {:induction false} BodyEnds(s: string, b: string)
    ensures Prefixed(b, |s|, StringBody(s[|s|..])) == Bad(UnterminatedString)
  {
    assert s[|s|..] == [];
  }

  ghost function Prefixed(b: string, i: nat, rest: One): One
    requires rest.Tok? ==> rest.t.StringT?
  {
    match rest
    case Bad(w) => Bad(w)
    case Tok(t, n) => Tok(StringT(b + t.text), n + i)
  }

  method ScanNumber(s: string, pf: FloatParser) returns (r: One)
    requires s != [] && IsDigit(s[0])
    ensures r == LexNumber(s, pf)
  {
    hide NumberToken;
    var n := ScanSpan(s, 0, IsDigit);
    assert s[0..] == s;
    if n + 1 < |s| && s[n] == '.' && IsDigit(s[n + 1]) {
      n := ScanSpan(s, n + 1, IsDigit);
    }
    if n < |s| && (IsWordStart(s[n]) || s[n] == '.') { return Bad(NumberFollowedBy(s[n])); }
    r := NumberToken(s[..n], pf);
  }

  method ScanWord(s: string) returns (r: One)
    requires s != [] && IsWordStart(s[0])
    ensures r == LexWord(s)
  {
    var n := ScanSpan(s, 1, IsWordPart);
    if n > MAX_IDENT { return Bad(IdentTooLong); }
    var text := s[..n];
    if Reserved(ToLower(text)) { text := ToLower(text); }
    r := Tok(Word(text), n);
  }

  method ScanOne(s: string, pf: FloatParser) returns (r: One)
    requires s != []
    ensures r == LexOne(s, pf)
  {
    if IsDigit(s[0]) { r := ScanNumber(s, pf); }
    else if IsWordStart(s[0]) { r := ScanWord(s); }
    else if s[0] == '\'' { r := ScanString(s); }
    else if s[0] == '`' { r := LexQuoted(s); }
    else { r := LexSymbol(s); }
  }

  method Scan(src: string, pf: FloatParser) returns (r: Lexed)
    ensures r == Lex(src, pf)
  {
    hide Lex, LexOne, After;
    var toks: seq<Token> := [];
    var i := 0;
    assert src[0..] == src;
    AfterEnds(Lex(src, pf), toks, src, pf);
    while i < |src|
      invariant 0 <= i <= |src|
      invariant Lex(src, pf) == After(toks, Lex(src[i..], pf))
    {
      if IsSpace(src[i]) {
        SkipSpace(src, i, pf);
        i := i + 1;
        continue;
      }
      NextToken(src, i, toks, pf);
      var one := ScanOne(src[i..], pf);
      if one.Bad? { return LexErr(one.why); }
      toks := toks + [one.t];
      i := i + one.n;
    }
    AfterEnds(Lex(src, pf), toks, src, pf);
    r := Toks(toks);
  }

  lemma {:induction false} SkipSpace(src: string, i: nat, pf: FloatParser)
    requires i < |src| && IsSpace(src[i])
    ensures Lex(src[i..], pf) == Lex(src[i + 1..], pf)
  {
    assert src[i..][1..] == src[i + 1..];
  }

  lemma {:induction false} NextToken(src: string, i: nat, toks: seq<Token>, pf: FloatParser)
    requires i < |src| && !IsSpace(src[i])
    ensures match LexOne(src[i..], pf)
            case Bad(w) => After(toks, Lex(src[i..], pf)) == LexErr(w)
            case Tok(t, n) =>
              1 <= n && i + n <= |src| && After(toks, Lex(src[i..], pf)) == After(toks + [t], Lex(src[i + n..], pf))
  {
    hide LexOne;
    var one := LexOne(src[i..], pf);
    if one.Tok? {
      assert src[i..][one.n..] == src[i + one.n..];
      var rest := Lex(src[i + one.n..], pf);
      if rest.Toks? { assert toks + ([one.t] + rest.toks) == toks + [one.t] + rest.toks; }
    }
  }

  lemma {:induction false} AfterEnds(whole: Lexed, toks: seq<Token>, src: string, pf: FloatParser)
    ensures After([], whole) == whole
    ensures After(toks, Lex(src[|src|..], pf)) == Toks(toks)
  {
    assert src[|src|..] == [];
    assert toks + [] == toks;
    if whole.Toks? { assert [] + whole.toks == whole.toks; }
  }

  ghost function After(ts: seq<Token>, rest: Lexed): Lexed {
    match rest case LexErr(w) => LexErr(w) case Toks(us) => Toks(ts + us)
  }
}
