/** Printing a tree with the fewest brackets, and the theorems that tie the
    parser, the grammar and the printer together. */
module CalcPrinter {
  import opened Options
  import opened CalcSyntax
  import opened CalcParser
  import opened CalcGrammar
  import opened CalcSound

  /** Brackets p only when the ladder would not read it at the given rung. */
  function Wrap(p: Phrase, rung: nat): Phrase {
    if RungOf(p) >= rung then p else Group(p)
  }

  function Show(t: Tree): Phrase
    decreases t, 1
  {
    match t
    case Number(n) => Atom(NumberT(n))
    case Str(s) => Atom(StringT(s))
    case Ident(k) => Atom(Quoted(k))
    case Unary(Not, x) => Negate(Wrap(Show(x), NOT_RUNG))
    case Unary(Neg, x) => Signed(true, Wrap(Show(x), SIGN_RUNG))
    case Binary(op, l, r) => Infix(op, Wrap(Show(l), LeftRung(op)), Wrap(Show(r), OpRung(op) + 1))
    case Call(fn, args) => Apply(FnName(fn), ShowAll(args), false)
  }

  function ShowAll(ts: seq<Tree>): (ps: seq<Phrase>)
    ensures |ps| == |ts|
    decreases ts, 0
  {
    if ts == [] then [] else [Show(ts[0])] + ShowAll(ts[1..])
  }

  function Groups(p: Phrase): nat
    decreases p, 1
  {
    match p
    case Atom(_) => 0
    case Group(x) => 1 + Groups(x)
    case Apply(_, args, _) => GroupsAll(args)
    case Signed(_, x) => Groups(x)
    case Negate(x) => Groups(x)
    case Infix(_, l, r) => Groups(l) + Groups(r)
  }

  function GroupsAll(ps: seq<Phrase>): nat
    decreases ps, 0
  {
    if ps == [] then 0 else Groups(ps[0]) + GroupsAll(ps[1..])
  }

  lemma {:induction false} FnNameReads(fn: Fn)
    ensures FnOf(FnName(fn)) == Some(fn)
  {
    assert ToLower("coalesce") == "coalesce" && ToLower("if") == "if";
    assert ToLower("concat") == "concat" && ToLower("lower") == "lower";
  }

  lemma {:induction false} ShowReads(t: Tree)
    requires WellFormed(t)
    ensures Grammatical(Show(t)) && TreeOf(Show(t)) == t
    decreases t, 1
  {
    match t
    case Unary(_, x) => ShowReads(x);
    case Binary(_, l, r) => ShowReads(l); ShowReads(r);
    case Call(fn, args) => FnNameReads(fn); ShowAllReads(args);
    case _ =>
  }

  lemma {:induction false} ShowAllReads(ts: seq<Tree>)
    requires forall t :: t in ts ==> WellFormed(t)
    ensures forall p :: p in ShowAll(ts) ==> Grammatical(p)
    ensures TreesOf(ShowAll(ts)) == ts
    decreases ts, 0
  {
    if ts != [] {
      ShowReads(ts[0]);
      ShowAllReads(ts[1..]);
      assert ShowAll(ts)[1..] == ShowAll(ts[1..]);
    }
  }

  /** No phrase of a tree has fewer brackets or nests less deeply than the printed one. */
  lemma {:induction false} ShowIsLeast(p: Phrase, rung: nat)
    requires Grammatical(p) && RungOf(p) >= rung
    ensures WellFormed(TreeOf(p))
    ensures Groups(Wrap(Show(TreeOf(p)), rung)) <= Groups(p)
    ensures Height(Wrap(Show(TreeOf(p)), rung)) <= Height(p)
    decreases p, 1
  {
    match p
    case Atom(_) =>
    case Group(x) => ShowIsLeast(x, OR_RUNG);
    case Apply(name, args, _) => ShowAllIsLeast(args);
    case Signed(_, x) => ShowIsLeast(x, SIGN_RUNG);
    case Negate(x) => ShowIsLeast(x, NOT_RUNG);
    case Infix(op, l, r) => ShowIsLeast(l, LeftRung(op)); ShowIsLeast(r, OpRung(op) + 1);
  }

  lemma {:induction false} ShowAllIsLeast(args: seq<Phrase>)
    requires forall a :: a in args ==> Grammatical(a)
    ensures forall t :: t in TreesOf(args) ==> WellFormed(t)
    ensures GroupsAll(ShowAll(TreesOf(args))) <= GroupsAll(args)
    ensures HeightAll(ShowAll(TreesOf(args))) <= HeightAll(args)
    decreases args, 0
  {
    if args != [] {
      ShowIsLeast(args[0], OR_RUNG);
      ShowAllIsLeast(args[1..]);
      var ts := TreesOf(args);
      assert ts[1..] == TreesOf(args[1..]);
      assert ShowAll(ts)[1..] == ShowAll(ts[1..]);
    }
  }

  // ----- the theorems -----

  lemma {:induction false} YieldNoEnd(p: Phrase)
    requires Grammatical(p)
    ensures End !in Yield(p)
    decreases p, 1
  {
    match p
    case Atom(_) =>
    case Group(x) => YieldNoEnd(x);
    case Apply(_, args, trailing) => YieldAllNoEnd(args, trailing);
    case Signed(_, x) => YieldNoEnd(x);
    case Negate(x) => YieldNoEnd(x);
    case Infix(_, l, r) => YieldNoEnd(l); YieldNoEnd(r);
  }

  lemma {:induction false} YieldAllNoEnd(args: seq<Phrase>, trailing: bool)
    requires forall a :: a in args ==> Grammatical(a)
    ensures End !in YieldAll(args, trailing)
    decreases args, 0
  {
    if args != [] { YieldNoEnd(args[0]); YieldAllNoEnd(args[1..], trailing); }
  }

  lemma {:induction false} SentenceParses(p: Phrase, toks: seq<Token>)
    requires Sentence(p, toks)
    ensures Parse(toks) == Expr(TreeOf(p))
  {
    hide Rung;
    assert toks[0..|toks|] == toks;
    Complete(p, OR_RUNG, toks, 0, 0, 1);
  }

  lemma {:induction false} ParsedIsSentence(toks: seq<Token>) returns (p: Phrase)
    requires End !in toks && Parse(toks).Expr?
    ensures Sentence(p, toks) && TreeOf(p) == Parse(toks).root
  {
    hide Rung, Yield, TreeOf, Size, Height, Grammatical;
    p := Sound(OR_RUNG, toks, 0, 0, 1);
    assert toks[0..|toks|] == toks;
  }

  /** The parser accepts exactly the sentences of the grammar within the caps, and
      returns their tree. */
  lemma {:induction false} ParseIsGrammar(toks: seq<Token>, t: Tree)
    requires End !in toks
    ensures Parse(toks) == Expr(t) <==> exists p :: Sentence(p, toks) && TreeOf(p) == t
  {
    if Parse(toks) == Expr(t) {
      var p := ParsedIsSentence(toks);
    }
    forall p | Sentence(p, toks) ensures Parse(toks) == Expr(TreeOf(p)) {
      SentenceParses(p, toks);
    }
  }

  /** A tree within the caps: the printed form is the least deep, so it decides. */
  ghost predicate WithinCaps(t: Tree) {
    WellFormed(t) && Size(t) <= MAX_NODES && 1 + Height(Show(t)) <= MAX_DEPTH
  }

  /** Printing undoes parsing, and parsing undoes printing exactly within the caps. */
  lemma {:induction false} RoundTrip(t: Tree)
    requires WellFormed(t)
    ensures Parse(Yield(Show(t))) == Expr(t) <==> WithinCaps(t)
  {
    ShowReads(t);
    if WithinCaps(t) {
      SentenceParses(Show(t), Yield(Show(t)));
    }
    if Parse(Yield(Show(t))) == Expr(t) {
      YieldNoEnd(Show(t));
      TreeWithinCaps(Yield(Show(t)));
    }
  }

  /** Every successful parse gives a tree of at most MAX_NODES terms that prints within the caps. */
  lemma {:induction false} TreeWithinCaps(toks: seq<Token>)
    requires End !in toks && Parse(toks).Expr?
    ensures WithinCaps(Parse(toks).root)
  {
    var p := ParsedIsSentence(toks);
    ShowIsLeast(p, OR_RUNG);
  }
}
