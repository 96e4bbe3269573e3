/** The ladder reads exactly the grammar: every sentence within the caps parses
    to its tree, and everything that parses is such a sentence. */
module CalcGrammar {
  import opened Options
  import opened CalcSyntax
  import opened CalcParser

  // ----- completeness: a phrase parses to its tree -----

  /** ys stands in toks at pos. */
  ghost predicate At(toks: seq<Token>, pos: nat, ys: seq<Token>) {
    pos + |ys| <= |toks| && toks[pos..pos + |ys|] == ys
  }

  /** A token that ends a phrase of the given rung. */
  predicate Stops(rung: nat, t: Token) {
    !t.LParen? && (InfixOf(t).Some? ==> OpRung(InfixOf(t).value) < rung)
  }

  /** What a rung must return for p at pos. */
  ghost function Read(p: Phrase, pos: nat, nodes: nat): Step
    requires Grammatical(p)
  {
    Ok(TreeOf(p), pos + |Yield(p)|, nodes + Size(TreeOf(p)))
  }

  ghost predicate Fits(p: Phrase, nodes: nat, depth: nat)
    requires Grammatical(p)
  {
    nodes + Size(TreeOf(p)) <= MAX_NODES && depth + Height(p) <= MAX_DEPTH
  }

  lemma {:induction false} AtParts(toks: seq<Token>, pos: nat, a: seq<Token>, b: seq<Token>)
    requires At(toks, pos, a + b)
    ensures At(toks, pos + |a|, b)
    ensures toks[pos..pos + |a|] == a
    ensures b != [] ==> At(toks, pos, a) && Peek(toks, pos + |a|) == b[0]
  {
    var ys := a + b;
    assert toks[pos..pos + |a|] == ys[..|a|];
    assert toks[pos + |a|..pos + |ys|] == ys[|a|..];
  }

  lemma {:induction false} HeadOf(toks: seq<Token>, pos: nat, ys: seq<Token>)
    requires At(toks, pos, ys) && ys != []
    ensures Peek(toks, pos) == ys[0] && pos + |ys| <= |toks|
  {
    assert toks[pos] == toks[pos..pos + |ys|][0];
  }

  lemma {:induction false} YieldFirst(p: Phrase)
    requires Grammatical(p)
    ensures Yield(p) != []
    ensures RungOf(p) > NOT_RUNG ==> Yield(p)[0] != Word("not")
    ensures RungOf(p) > SIGN_RUNG ==> !IsSign(Yield(p)[0])
    ensures !Yield(p)[0].RParen? && !Yield(p)[0].End?
  {
    match p
    case Apply(name, _, _) => assert ToLower("not") == "not";
    case Infix(op, l, r) => YieldFirst(l);
    case _ =>
  }

  lemma {:induction false} InfixParts(p: Phrase, toks: seq<Token>, pos: nat)
    requires p.Infix? && At(toks, pos, Yield(p))
    ensures At(toks, pos, Yield(p.l)) && At(toks, pos + |Yield(p.l)| + 1, Yield(p.r))
    ensures toks[pos + |Yield(p.l)|] == OpToken(p.op)
    ensures |Yield(p)| == |Yield(p.l)| + 1 + |Yield(p.r)|
  {
    var op, l, r := p.op, p.l, p.r;
    assert Yield(p) == Yield(l) + ([OpToken(op)] + Yield(r));
    AtParts(toks, pos, Yield(l), [OpToken(op)] + Yield(r));
    AtParts(toks, pos + |Yield(l)|, [OpToken(op)], Yield(r));
  }

  /** What a grammatical infix phrase within the caps gives its operands. */
  lemma {:induction false} InfixFits(p: Phrase, rung: nat, nodes: nat, depth: nat)
    requires Grammatical(p) && p.Infix? && rung == RungOf(p) && Fits(p, nodes, depth)
    requires rung in {OR_RUNG, AND_RUNG, SUM_RUNG, PRODUCT_RUNG}
    ensures Grammatical(p.l) && rung <= RungOf(p.l) && Fits(p.l, nodes, depth)
    ensures Grammatical(p.r) && rung + 1 <= RungOf(p.r) && Fits(p.r, nodes + Size(TreeOf(p.l)), depth)
    ensures TreeOf(p) == Binary(p.op, TreeOf(p.l), TreeOf(p.r))
    ensures Size(TreeOf(p)) == Size(TreeOf(p.l)) + Size(TreeOf(p.r)) + 1
    ensures nodes + Size(TreeOf(p)) <= MAX_NODES && depth <= MAX_DEPTH
    ensures InfixOf(OpToken(p.op)) == Some(p.op) && Stops(rung + 1, OpToken(p.op)) && InfixAt(rung, OpToken(p.op))
  {
    hide Yield;
  }

  lemma {:induction false} DepthFits(p: Phrase, nodes: nat, depth: nat)
    requires Grammatical(p) && Fits(p, nodes, depth)
    ensures depth <= MAX_DEPTH
  {
  }

  // ----- single steps of the ladder -----

  lemma {:induction false} LadderStep(rung: nat, toks: seq<Token>, pos: nat, nodes: nat, depth: nat, l: Step)
    requires rung in {OR_RUNG, AND_RUNG, SUM_RUNG, PRODUCT_RUNG} && depth <= MAX_DEPTH
    requires l == Rung(rung + 1, toks, pos, nodes, depth) && l.Ok?
    ensures Rung(rung, toks, pos, nodes, depth) == Rest(rung, l.tree, toks, l.pos, l.nodes, depth)
  {
  }

  lemma {:induction false} RestStep(rung: nat, l: Tree, toks: seq<Token>, pos: nat, nodes: nat, depth: nat, r: Step)
    requires rung < SIGN_RUNG && pos <= |toks| && nodes <= MAX_NODES
    requires InfixAt(rung, Peek(toks, pos)) && r == Rung(rung + 1, toks, pos + 1, nodes, depth)
    requires r.Ok? && r.nodes < MAX_NODES
    ensures Rest(rung, l, toks, pos, nodes, depth)
         == Rest(rung, Binary(InfixOf(Peek(toks, pos)).value, l, r.tree), toks, r.pos, r.nodes + 1, depth)
  {
  }

  lemma {:induction false} RestStop(rung: nat, l: Tree, toks: seq<Token>, pos: nat, nodes: nat, depth: nat)
    requires rung < SIGN_RUNG && pos <= |toks| && nodes <= MAX_NODES && !InfixAt(rung, Peek(toks, pos))
    ensures Rest(rung, l, toks, pos, nodes, depth) == Ok(l, pos, nodes)
  {
  }

  /** A rung whose own operator does not occur returns what the next rung read. */
  lemma {:induction false} PassStep(rung: nat, toks: seq<Token>, pos: nat, nodes: nat, depth: nat, x: Step)
    requires rung < PRIMARY_RUNG && depth <= MAX_DEPTH
    requires x == Rung(rung + 1, toks, pos, nodes, depth) && x.Ok?
    requires rung == NOT_RUNG ==> Peek(toks, pos) != Word("not")
    requires rung == SIGN_RUNG ==> !IsSign(Peek(toks, pos))
    requires !InfixAt(rung, Peek(toks, x.pos))
    ensures Rung(rung, toks, pos, nodes, depth) == x
  {
    if rung in {OR_RUNG, AND_RUNG, SUM_RUNG, PRODUCT_RUNG} {
      LadderStep(rung, toks, pos, nodes, depth, x);
      RestStop(rung, x.tree, toks, x.pos, x.nodes, depth);
    }
  }

  lemma {:induction false} PrefixStep(toks: seq<Token>, pos: nat, nodes: nat, depth: nat, rung: nat, x: Step)
    requires (rung == NOT_RUNG && Peek(toks, pos) == Word("not")) || (rung == SIGN_RUNG && IsSign(Peek(toks, pos)))
    requires depth < MAX_DEPTH && x == Rung(rung, toks, pos + 1, nodes, depth + 1) && x.Ok?
    ensures Rung(rung, toks, pos, nodes, depth)
         == if rung == NOT_RUNG then Make(Unary(Not, x.tree), x.pos, x.nodes)
            else if Peek(toks, pos).op == Add then x
            else Make(Unary(Neg, x.tree), x.pos, x.nodes)
  {
  }

  lemma {:induction false} CompareStep(toks: seq<Token>, pos: nat, nodes: nat, depth: nat, l: Step, r: Step)
    requires l == Rung(SUM_RUNG, toks, pos, nodes, depth) && l.Ok? && InfixAt(COMPARE_RUNG, Peek(toks, l.pos))
    requires r == Rung(SUM_RUNG, toks, l.pos + 1, l.nodes, depth) && r.Ok?
    ensures Rung(COMPARE_RUNG, toks, pos, nodes, depth)
         == Make(Binary(InfixOf(Peek(toks, l.pos)).value, l.tree, r.tree), r.pos, r.nodes)
  {
  }

  lemma {:induction false} AtomStep(t: Token, toks: seq<Token>, pos: nat, nodes: nat, depth: nat)
    requires AtomOk(t) && Peek(toks, pos) == t && !Peek(toks, pos + 1).LParen? && nodes < MAX_NODES
    ensures Rung(PRIMARY_RUNG, toks, pos, nodes, depth) == Read(Atom(t), pos, nodes)
  {
  }

  lemma {:induction false} GroupStep(toks: seq<Token>, pos: nat, nodes: nat, depth: nat, x: Step)
    requires Peek(toks, pos).LParen? && x == Rung(OR_RUNG, toks, pos + 1, nodes, depth + 1)
    requires x.Ok? && Peek(toks, x.pos).RParen?
    ensures Rung(PRIMARY_RUNG, toks, pos, nodes, depth) == x.(pos := x.pos + 1)
  {
  }

  lemma {:induction false} CallStep(toks: seq<Token>, pos: nat, nodes: nat, depth: nat, x: ArgsStep)
    requires Peek(toks, pos).Word? && Peek(toks, pos + 1).LParen? && FnOf(Peek(toks, pos).text).Some?
    requires x == Actuals([], toks, pos + 2, nodes, depth) && x.Args? && Peek(toks, x.pos).RParen?
    requires ArityOk(FnOf(Peek(toks, pos).text).value, |x.args|)
    ensures Rung(PRIMARY_RUNG, toks, pos, nodes, depth)
         == Make(Call(FnOf(Peek(toks, pos).text).value, x.args), x.pos + 1, x.nodes)
  {
    assert Rung(PRIMARY_RUNG, toks, pos, nodes, depth) == Application(Peek(toks, pos).text, toks, pos, nodes, depth);
  }

  lemma {:induction false} ActualStep(done: seq<Tree>, toks: seq<Token>, pos: nat, nodes: nat, depth: nat, a: Step)
    requires !Peek(toks, pos).RParen? && |done| < MAX_CALL_ARGS
    requires a == Rung(OR_RUNG, toks, pos, nodes, depth + 1) && a.Ok?
    ensures Actuals(done, toks, pos, nodes, depth)
         == if Peek(toks, a.pos).Comma? then Actuals(done + [a.tree], toks, a.pos + 1, a.nodes, depth)
            else Args(done + [a.tree], a.pos, a.nodes)
  {
  }

  // ----- phrases in place -----

  lemma {:induction false} Complete(p: Phrase, rung: nat, toks: seq<Token>, pos: nat, nodes: nat, depth: nat)
    requires Grammatical(p) && rung <= RungOf(p)
    requires At(toks, pos, Yield(p)) && Stops(rung, Peek(toks, pos + |Yield(p)|))
    requires Fits(p, nodes, depth)
    ensures Rung(rung, toks, pos, nodes, depth) == Read(p, pos, nodes)
    decreases p, PRIMARY_RUNG - rung, 2
  {
    hide Rung, Rest, Yield, TreeOf, Size, Height, Grammatical, At;
    YieldFirst(p);
    HeadOf(toks, pos, Yield(p));
    if rung < RungOf(p) {
      Complete(p, rung + 1, toks, pos, nodes, depth);
      PassStep(rung, toks, pos, nodes, depth, Read(p, pos, nodes));
    } else if p.Infix? && rung != COMPARE_RUNG {
      Spine(p, rung, toks, pos, nodes, depth);
      RestStop(rung, TreeOf(p), toks, pos + |Yield(p)|, nodes + Size(TreeOf(p)), depth);
    } else {
      CompleteHere(p, toks, pos, nodes, depth);
    }
  }

  /** After the operands l and, say, r1 of l op r1 op r2 ..., the loop of the rung holds their tree. */
  lemma {:induction false} Spine(p: Phrase, rung: nat, toks: seq<Token>, pos: nat, nodes: nat, depth: nat)
    requires Grammatical(p) && rung <= RungOf(p)
    requires rung in {OR_RUNG, AND_RUNG, SUM_RUNG, PRODUCT_RUNG}
    requires At(toks, pos, Yield(p)) && Stops(rung + 1, Peek(toks, pos + |Yield(p)|))
    requires Fits(p, nodes, depth)
    ensures Rung(rung, toks, pos, nodes, depth)
         == Rest(rung, TreeOf(p), toks, pos + |Yield(p)|, nodes + Size(TreeOf(p)), depth)
    decreases p, PRIMARY_RUNG - rung, 1
  {
    hide Rung, Rest, Yield, TreeOf, Size, Height, Grammatical, Fits, Stops, InfixAt;
    if rung < RungOf(p) {
      DepthFits(p, nodes, depth);
      Complete(p, rung + 1, toks, pos, nodes, depth);
      LadderStep(rung, toks, pos, nodes, depth, Read(p, pos, nodes));
    } else {
      var op, l, r := p.op, p.l, p.r;
      InfixParts(p, toks, pos);
      InfixFits(p, rung, nodes, depth);
      Spine(l, rung, toks, pos, nodes, depth);
      var p1, n1 := pos + |Yield(l)|, nodes + Size(TreeOf(l));
      Complete(r, rung + 1, toks, p1 + 1, n1, depth);
      RestStep(rung, TreeOf(l), toks, p1, n1, depth, Read(r, p1 + 1, n1));
    }
  }

  /** A phrase read at its own rung, other than a left-associative operator. */
  lemma {:induction false} CompleteHere(p: Phrase, toks: seq<Token>, pos: nat, nodes: nat, depth: nat)
    requires Grammatical(p)
    requires p.Infix? ==> OpRung(p.op) == COMPARE_RUNG
    requires At(toks, pos, Yield(p)) && Stops(RungOf(p), Peek(toks, pos + |Yield(p)|))
    requires Fits(p, nodes, depth)
    ensures Rung(RungOf(p), toks, pos, nodes, depth) == Read(p, pos, nodes)
    decreases p, PRIMARY_RUNG - RungOf(p), 1
  {
    hide Rung;
    match p
    case Atom(t) =>
      assert Peek(toks, pos) == toks[pos..pos + 1][0];
      AtomStep(t, toks, pos, nodes, depth);
    case Group(_) => CompleteGroup(p, toks, pos, nodes, depth);
    case Apply(_, _, _) => CompleteCall(p, toks, pos, nodes, depth);
    case Infix(_, _, _) => CompleteCompare(p, toks, pos, nodes, depth);
    case _ => CompletePrefix(p, toks, pos, nodes, depth);
  }

  lemma {:induction false} GroupParts(p: Phrase, toks: seq<Token>, pos: nat)
    requires p.Group? && At(toks, pos, Yield(p))
    ensures Peek(toks, pos).LParen? && At(toks, pos + 1, Yield(p.inner))
    ensures Peek(toks, pos + 1 + |Yield(p.inner)|).RParen? && |Yield(p)| == |Yield(p.inner)| + 2
  {
    var x := p.inner;
    assert Yield(p) == [LParen] + (Yield(x) + [RParen]);
    AtParts(toks, pos, [LParen], Yield(x) + [RParen]);
    assert toks[pos] == toks[pos..pos + 1][0];
    AtParts(toks, pos + 1, Yield(x), [RParen]);
  }

  lemma {:induction false} CompleteGroup(p: Phrase, toks: seq<Token>, pos: nat, nodes: nat, depth: nat)
    requires Grammatical(p) && p.Group? && At(toks, pos, Yield(p)) && Fits(p, nodes, depth)
    ensures Rung(PRIMARY_RUNG, toks, pos, nodes, depth) == Read(p, pos, nodes)
    decreases p, 0, 0
  {
    hide Rung, Yield, At;
    var x := p.inner;
    GroupParts(p, toks, pos);
    Complete(x, OR_RUNG, toks, pos + 1, nodes, depth + 1);
    GroupStep(toks, pos, nodes, depth, Read(x, pos + 1, nodes));
  }

  lemma {:induction false} PrefixParts(p: Phrase, toks: seq<Token>, pos: nat)
    requires (p.Signed? || p.Negate?) && At(toks, pos, Yield(p))
    ensures At(toks, pos + 1, Yield(p.operand)) && |Yield(p)| == |Yield(p.operand)| + 1
    ensures Peek(toks, pos) == if p.Negate? then Word("not") else Op(if p.minus then Sub else Add)
  {
    AtParts(toks, pos, [Yield(p)[0]], Yield(p.operand));
    assert toks[pos] == toks[pos..pos + 1][0];
  }

  lemma {:induction false} CompletePrefix(p: Phrase, toks: seq<Token>, pos: nat, nodes: nat, depth: nat)
    requires Grammatical(p) && (p.Signed? || p.Negate?) && At(toks, pos, Yield(p)) && Fits(p, nodes, depth)
    requires Stops(RungOf(p), Peek(toks, pos + |Yield(p)|))
    ensures Rung(RungOf(p), toks, pos, nodes, depth) == Read(p, pos, nodes)
    decreases p, 0, 0
  {
    hide Rung, Yield, At;
    var x := p.operand;
    PrefixParts(p, toks, pos);
    Complete(x, RungOf(p), toks, pos + 1, nodes, depth + 1);
    PrefixStep(toks, pos, nodes, depth, RungOf(p), Read(x, pos + 1, nodes));
  }

  lemma {:induction false} CompleteCompare(p: Phrase, toks: seq<Token>, pos: nat, nodes: nat, depth: nat)
    requires Grammatical(p) && p.Infix? && OpRung(p.op) == COMPARE_RUNG
    requires At(toks, pos, Yield(p)) && Stops(COMPARE_RUNG, Peek(toks, pos + |Yield(p)|)) && Fits(p, nodes, depth)
    ensures Rung(COMPARE_RUNG, toks, pos, nodes, depth) == Read(p, pos, nodes)
    decreases p, 0, 0
  {
    hide Rung, Yield;
    var l, r := p.l, p.r;
    InfixParts(p, toks, pos);
    Complete(l, SUM_RUNG, toks, pos, nodes, depth);
    var p1, n1 := pos + |Yield(l)|, nodes + Size(TreeOf(l));
    Complete(r, SUM_RUNG, toks, p1 + 1, n1, depth);
    CompareStep(toks, pos, nodes, depth, Read(l, pos, nodes), Read(r, p1 + 1, n1));
  }

  lemma {:induction false} CallParts(p: Phrase, toks: seq<Token>, pos: nat)
    requires p.Apply? && At(toks, pos, Yield(p))
    ensures Peek(toks, pos) == Word(p.name) && Peek(toks, pos + 1).LParen?
    ensures var list := YieldAll(p.actuals, p.trailing);
            && At(toks, pos + 2, list + [RParen]) && Peek(toks, pos + 2 + |list|).RParen? && |Yield(p)| == |list| + 3
  {
    hide YieldAll;
    var list := YieldAll(p.actuals, p.trailing);
    assert Yield(p) == [Word(p.name)] + ([LParen] + (list + [RParen]));
    AtParts(toks, pos, [Word(p.name)], [LParen] + (list + [RParen]));
    assert toks[pos] == toks[pos..pos + 1][0];
    AtParts(toks, pos + 1, [LParen], list + [RParen]);
    AtParts(toks, pos + 2, list, [RParen]);
  }

  lemma {:induction false} CompleteCall(p: Phrase, toks: seq<Token>, pos: nat, nodes: nat, depth: nat)
    requires Grammatical(p) && p.Apply? && At(toks, pos, Yield(p)) && Fits(p, nodes, depth)
    ensures Rung(PRIMARY_RUNG, toks, pos, nodes, depth) == Read(p, pos, nodes)
    decreases p, 0, 0
  {
    hide Rung, Actuals, Yield, YieldAll, At;
    CallParts(p, toks, pos);
    CompleteActuals(p.actuals, p.trailing, [], toks, pos + 2, nodes, depth);
    assert [] + TreesOf(p.actuals) == TreesOf(p.actuals);
    CallStep(toks, pos, nodes, depth, Actuals([], toks, pos + 2, nodes, depth));
  }

  lemma {:induction false} ActualsEnd(done: seq<Tree>, toks: seq<Token>, pos: nat, nodes: nat, depth: nat)
    requires Peek(toks, pos).RParen?
    ensures Actuals(done, toks, pos, nodes, depth) == Args(done, pos, nodes)
  {
  }

  lemma {:induction false} ActualsParts(args: seq<Phrase>, trailing: bool, toks: seq<Token>, pos: nat)
    requires args != [] && Grammatical(args[0]) && At(toks, pos, YieldAll(args, trailing) + [RParen])
    ensures At(toks, pos, Yield(args[0])) && !Peek(toks, pos).RParen?
    ensures var p := pos + |Yield(args[0])|;
            if |args| > 1 then Peek(toks, p).Comma? && At(toks, p + 1, YieldAll(args[1..], trailing) + [RParen])
            else if trailing then Peek(toks, p).Comma? && Peek(toks, p + 1).RParen?
            else Peek(toks, p).RParen?
    ensures |YieldAll(args, trailing)|
         == |Yield(args[0])| + if |args| > 1 then 1 + |YieldAll(args[1..], trailing)| else if trailing then 1 else 0
  {
    hide Yield, At, YieldAll;
    YieldFirst(args[0]);
    var first := Yield(args[0]);
    var tail := AfterFirst(args, trailing);
    YieldSplits(args, trailing);
    FirstPart(toks, pos, first, tail);
    if |args| > 1 {
      SecondPart(toks, pos + |first|, Comma, YieldAll(args[1..], trailing) + [RParen]);
    } else if trailing {
      SecondPart(toks, pos + |first|, Comma, [RParen]);
    }
  }

  ghost function AfterFirst(args: seq<Phrase>, trailing: bool): seq<Token>
    requires args != []
  {
    if |args| > 1 then [Comma] + (YieldAll(args[1..], trailing) + [RParen])
    else if trailing then [Comma] + [RParen]
    else [RParen]
  }

  lemma {:induction false} YieldSplits(args: seq<Phrase>, trailing: bool)
    requires args != []
    ensures YieldAll(args, trailing) + [RParen] == Yield(args[0]) + AfterFirst(args, trailing)
  {
    hide Yield;
  }

  lemma {:induction false} FirstPart(toks: seq<Token>, pos: nat, a: seq<Token>, b: seq<Token>)
    requires a != [] && b != [] && At(toks, pos, a + b)
    ensures At(toks, pos, a) && At(toks, pos + |a|, b) && Peek(toks, pos) == a[0] && Peek(toks, pos + |a|) == b[0]
  {
    AtParts(toks, pos, a, b);
    assert toks[pos] == toks[pos..pos + |a|][0];
  }

  lemma {:induction false} SecondPart(toks: seq<Token>, pos: nat, t: Token, b: seq<Token>)
    requires b != [] && At(toks, pos, [t] + b)
    ensures At(toks, pos + 1, b) && Peek(toks, pos + 1) == b[0]
  {
    AtParts(toks, pos, [t], b);
  }

  lemma {:induction false} CompleteActuals(args: seq<Phrase>, trailing: bool, done: seq<Tree>,
                                           toks: seq<Token>, pos: nat, nodes: nat, depth: nat)
    requires args != [] && forall a :: a in args ==> Grammatical(a)
    requires At(toks, pos, YieldAll(args, trailing) + [RParen])
    requires |done| + |args| <= MAX_CALL_ARGS
    requires nodes + SizeAll(TreesOf(args)) <= MAX_NODES && depth + 1 + HeightAll(args) <= MAX_DEPTH
    ensures Actuals(done, toks, pos, nodes, depth)
         == Args(done + TreesOf(args), pos + |YieldAll(args, trailing)|, nodes + SizeAll(TreesOf(args)))
    decreases args, 0, 2
  {
    hide Rung, Actuals, Yield, YieldAll, TreeOf, TreesOf, Grammatical, Height, Size, SizeAll, HeightAll;
    var a, rest := args[0], args[1..];
    ActualsParts(args, trailing, toks, pos);
    TreesCons(args);
    Complete(a, OR_RUNG, toks, pos, nodes, depth + 1);
    var p1, n1 := pos + |Yield(a)|, nodes + Size(TreeOf(a));
    ActualStep(done, toks, pos, nodes, depth, Read(a, pos, nodes));
    if rest != [] {
      CompleteActuals(rest, trailing, done + [TreeOf(a)], toks, p1 + 1, n1, depth);
      assert done + [TreeOf(a)] + TreesOf(rest) == done + ([TreeOf(a)] + TreesOf(rest));
    } else if trailing {
      ActualsEnd(done + [TreeOf(a)], toks, p1 + 1, n1, depth);
    }
  }

  lemma {:induction false} TreesCons(args: seq<Phrase>)
    requires args != [] && forall a :: a in args ==> Grammatical(a)
    ensures TreesOf(args) == [TreeOf(args[0])] + TreesOf(args[1..])
    ensures SizeAll(TreesOf(args)) == Size(TreeOf(args[0])) + SizeAll(TreesOf(args[1..]))
    ensures HeightAll(args) == Max(Height(args[0]), HeightAll(args[1..]))
    ensures |args| == 1 ==> TreesOf(args) == [TreeOf(args[0])] && SizeAll(TreesOf(args)) == Size(TreeOf(args[0]))
  {
    assert TreesOf(args)[1..] == TreesOf(args[1..]);
  }
}
