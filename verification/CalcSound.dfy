/** What the ladder accepts is a phrase of the grammar, within the caps. */
module CalcSound {
  import opened Options
  import opened CalcSyntax
  import opened CalcParser
  import opened CalcGrammar

  /** p is the phrase that a rung read as r from pos, one nesting level being depth. */
  ghost predicate Reads(p: Phrase, rung: nat, toks: seq<Token>, pos: nat, nodes: nat, depth: nat, r: Step) {
    && Grammatical(p) && RungOf(p) >= rung
    && At(toks, pos, Yield(p))
    && r == Read(p, pos, nodes)
    && depth + Height(p) <= MAX_DEPTH
  }

  lemma {:induction false} AtJoin(toks: seq<Token>, pos: nat, a: seq<Token>, b: seq<Token>)
    requires At(toks, pos, a) && At(toks, pos + |a|, b)
    ensures At(toks, pos, a + b)
  {
    assert toks[pos..pos + |a| + |b|] == toks[pos..pos + |a|] + toks[pos + |a|..pos + |a| + |b|];
  }

  lemma {:induction false} AtOne(toks: seq<Token>, pos: nat)
    requires pos < |toks|
    ensures At(toks, pos, [Peek(toks, pos)])
  {
    assert toks[pos..pos + 1] == [toks[pos]];
  }

  lemma {:induction false} Sound(rung: nat, toks: seq<Token>, pos: nat, nodes: nat, depth: nat) returns (p: Phrase)
    requires rung <= PRIMARY_RUNG && (rung == OR_RUNG || depth <= MAX_DEPTH) && Rung(rung, toks, pos, nodes, depth).Ok?
    ensures Reads(p, rung, toks, pos, nodes, depth, Rung(rung, toks, pos, nodes, depth))
    decreases |toks| - pos, 10 - rung, 1
  {
    if rung == NOT_RUNG { p := SoundNot(toks, pos, nodes, depth); }
    else if rung == COMPARE_RUNG { p := SoundCompare(toks, pos, nodes, depth); }
    else if rung == SIGN_RUNG { p := SoundSign(toks, pos, nodes, depth); }
    else if rung == PRIMARY_RUNG { p := SoundPrimary(toks, pos, nodes, depth); }
    else {
      var l := Sound(rung + 1, toks, pos, nodes, depth);
      p := SoundRest(rung, l, toks, pos, nodes, depth);
    }
  }

  lemma {:induction false} SoundRest(rung: nat, l: Phrase, toks: seq<Token>, pos: nat, nodes: nat, depth: nat)
    returns (p: Phrase)
    requires rung in {OR_RUNG, AND_RUNG, SUM_RUNG, PRODUCT_RUNG} && depth <= MAX_DEPTH
    requires Grammatical(l) && nodes + Size(TreeOf(l)) <= MAX_NODES
    requires Reads(l, rung, toks, pos, nodes, depth, Read(l, pos, nodes))
    requires Rest(rung, TreeOf(l), toks, pos + |Yield(l)|, nodes + Size(TreeOf(l)), depth).Ok?
    ensures Reads(p, rung, toks, pos, nodes, depth,
                  Rest(rung, TreeOf(l), toks, pos + |Yield(l)|, nodes + Size(TreeOf(l)), depth))
    decreases |toks| - pos - |Yield(l)|, 0, 0
  {
    hide Rung, Yield, TreeOf, Grammatical, Height, Size;
    var p1, n1 := pos + |Yield(l)|, nodes + Size(TreeOf(l));
    if !InfixAt(rung, Peek(toks, p1)) {
      p := l;
    } else {
      var op := InfixOf(Peek(toks, p1)).value;
      var r := Sound(rung + 1, toks, p1 + 1, n1, depth);
      var both := SoundInfix(op, l, r, toks, pos, nodes, depth);
      p := SoundRest(rung, both, toks, pos, nodes, depth);
    }
  }

  lemma {:induction false} SoundInfix(
      op: BinOp, l: Phrase, r: Phrase, toks: seq<Token>, pos: nat, nodes: nat, depth: nat)
    returns (p: Phrase)
    requires Grammatical(l) && Grammatical(r)
    requires Reads(l, LeftRung(op), toks, pos, nodes, depth, Read(l, pos, nodes))
    requires InfixOf(Peek(toks, pos + |Yield(l)|)) == Some(op)
    requires Reads(r, OpRung(op) + 1, toks, pos + |Yield(l)| + 1, nodes + Size(TreeOf(l)), depth,
                   Read(r, pos + |Yield(l)| + 1, nodes + Size(TreeOf(l))))
    ensures p == Infix(op, l, r)
    ensures Reads(p, OpRung(op), toks, pos, nodes, depth, Read(p, pos, nodes))
    ensures |Yield(p)| == |Yield(l)| + 1 + |Yield(r)| && TreeOf(p) == Binary(op, TreeOf(l), TreeOf(r))
    ensures Size(TreeOf(p)) == Size(TreeOf(l)) + Size(TreeOf(r)) + 1
  {
    hide At;
    p := Infix(op, l, r);
    AtInfix(op, Yield(l), Yield(r), toks, pos);
  }

  lemma {:induction false} AtInfix(op: BinOp, l: seq<Token>, r: seq<Token>, toks: seq<Token>, pos: nat)
    requires At(toks, pos, l) && InfixOf(Peek(toks, pos + |l|)) == Some(op) && At(toks, pos + |l| + 1, r)
    ensures At(toks, pos, l + [OpToken(op)] + r)
  {
    AtOne(toks, pos + |l|);
    AtJoin(toks, pos, l, [OpToken(op)]);
    AtJoin(toks, pos, l + [OpToken(op)], r);
  }

  lemma {:induction false} SoundNot(toks: seq<Token>, pos: nat, nodes: nat, depth: nat) returns (p: Phrase)
    requires depth <= MAX_DEPTH && NotRung(toks, pos, nodes, depth).Ok?
    ensures Reads(p, NOT_RUNG, toks, pos, nodes, depth, NotRung(toks, pos, nodes, depth))
    decreases |toks| - pos, 10 - NOT_RUNG, 0
  {
    if Peek(toks, pos) != Word("not") {
      p := Sound(COMPARE_RUNG, toks, pos, nodes, depth);
    } else {
      var x := Sound(NOT_RUNG, toks, pos + 1, nodes, depth + 1);
      AtOne(toks, pos);
      AtJoin(toks, pos, [Word("not")], Yield(x));
      p := Negate(x);
    }
  }

  lemma {:induction false} SoundSign(toks: seq<Token>, pos: nat, nodes: nat, depth: nat) returns (p: Phrase)
    requires depth <= MAX_DEPTH && SignRung(toks, pos, nodes, depth).Ok?
    ensures Reads(p, SIGN_RUNG, toks, pos, nodes, depth, SignRung(toks, pos, nodes, depth))
    decreases |toks| - pos, 10 - SIGN_RUNG, 0
  {
    if !IsSign(Peek(toks, pos)) {
      p := Sound(PRIMARY_RUNG, toks, pos, nodes, depth);
    } else {
      var x := Sound(SIGN_RUNG, toks, pos + 1, nodes, depth + 1);
      AtOne(toks, pos);
      AtJoin(toks, pos, [Peek(toks, pos)], Yield(x));
      p := Signed(Peek(toks, pos).op == Sub, x);
    }
  }

  lemma {:induction false} SoundCompare(toks: seq<Token>, pos: nat, nodes: nat, depth: nat) returns (p: Phrase)
    requires depth <= MAX_DEPTH && CompareRung(toks, pos, nodes, depth).Ok?
    ensures Reads(p, COMPARE_RUNG, toks, pos, nodes, depth, CompareRung(toks, pos, nodes, depth))
    decreases |toks| - pos, 10 - COMPARE_RUNG, 0
  {
    var l := Sound(SUM_RUNG, toks, pos, nodes, depth);
    var p1, n1 := pos + |Yield(l)|, nodes + Size(TreeOf(l));
    if !InfixAt(COMPARE_RUNG, Peek(toks, p1)) {
      p := l;
    } else {
      var r := Sound(SUM_RUNG, toks, p1 + 1, n1, depth);
      p := SoundInfix(InfixOf(Peek(toks, p1)).value, l, r, toks, pos, nodes, depth);
    }
  }

  lemma {:induction false} SoundPrimary(toks: seq<Token>, pos: nat, nodes: nat, depth: nat) returns (p: Phrase)
    requires depth <= MAX_DEPTH && Primary(toks, pos, nodes, depth).Ok?
    ensures Reads(p, PRIMARY_RUNG, toks, pos, nodes, depth, Primary(toks, pos, nodes, depth))
    decreases |toks| - pos, 10 - PRIMARY_RUNG, 0
  {
    var t := Peek(toks, pos);
    AtOne(toks, pos);
    if t.LParen? {
      var x := Sound(OR_RUNG, toks, pos + 1, nodes, depth + 1);
      AtJoin(toks, pos, [LParen], Yield(x));
      AtOne(toks, pos + 1 + |Yield(x)|);
      AtJoin(toks, pos, [LParen] + Yield(x), [RParen]);
      p := Group(x);
    } else if t.Word? && Peek(toks, pos + 1).LParen? {
      p := SoundCall(toks, pos, nodes, depth);
    } else {
      p := Atom(t);
    }
  }

  lemma {:induction false} SoundCall(toks: seq<Token>, pos: nat, nodes: nat, depth: nat) returns (p: Phrase)
    requires Peek(toks, pos).Word? && Peek(toks, pos + 1).LParen?
    requires depth <= MAX_DEPTH && Application(Peek(toks, pos).text, toks, pos, nodes, depth).Ok?
    ensures Reads(p, PRIMARY_RUNG, toks, pos, nodes, depth, Application(Peek(toks, pos).text, toks, pos, nodes, depth))
    decreases |toks| - pos, 0, 0
  {
    hide At, YieldAll, Actuals, Rung, TreesOf, SizeAll, HeightAll;
    var name := Peek(toks, pos).text;
    var args, trailing := SoundActuals([], toks, pos + 2, nodes, depth);
    var list := YieldAll(args, trailing);
    p := Apply(name, args, trailing);
    assert [] + TreesOf(args) == TreesOf(args);
    AtCall(name, list, toks, pos);
  }

  lemma {:induction false} AtCall(name: string, list: seq<Token>, toks: seq<Token>, pos: nat)
    requires Peek(toks, pos) == Word(name) && Peek(toks, pos + 1).LParen?
    requires At(toks, pos + 2, list) && Peek(toks, pos + 2 + |list|).RParen?
    ensures At(toks, pos, [Word(name), LParen] + list + [RParen])
  {
    AtOne(toks, pos);
    AtOne(toks, pos + 1);
    AtJoin(toks, pos, [Word(name)], [LParen]);
    AtJoin(toks, pos, [Word(name), LParen], list);
    AtOne(toks, pos + 2 + |list|);
    AtJoin(toks, pos, [Word(name), LParen] + list, [RParen]);
  }

  lemma {:induction false} ActualInverse(done: seq<Tree>, toks: seq<Token>, pos: nat, nodes: nat, depth: nat)
    requires Actuals(done, toks, pos, nodes, depth).Args? && !Peek(toks, pos).RParen?
    ensures var a := Rung(OR_RUNG, toks, pos, nodes, depth + 1);
            a.Ok? && Actuals(done, toks, pos, nodes, depth)
                  == if Peek(toks, a.pos).Comma? then Actuals(done + [a.tree], toks, a.pos + 1, a.nodes, depth)
                     else Args(done + [a.tree], a.pos, a.nodes)
  {
  }

  /** The arguments the loop read after those in done, and whether a comma was left over. */
  lemma {:induction false} SoundActuals(done: seq<Tree>, toks: seq<Token>, pos: nat, nodes: nat, depth: nat)
    returns (args: seq<Phrase>, trailing: bool)
    requires depth <= MAX_DEPTH && Actuals(done, toks, pos, nodes, depth).Args?
    requires Peek(toks, Actuals(done, toks, pos, nodes, depth).pos).RParen?
    ensures forall a :: a in args ==> Grammatical(a)
    ensures At(toks, pos, YieldAll(args, trailing))
    ensures Actuals(done, toks, pos, nodes, depth)
         == Args(done + TreesOf(args), pos + |YieldAll(args, trailing)|, nodes + SizeAll(TreesOf(args)))
    ensures args != [] ==> depth + 1 + HeightAll(args) <= MAX_DEPTH
    decreases |toks| - pos, 11, 0
  {
    hide Actuals, Rung, Yield, YieldAll, TreeOf, TreesOf, Grammatical, Height, HeightAll, Size, SizeAll;
    if Peek(toks, pos).RParen? {
      args, trailing := [], false;
      ActualsEnd(done, toks, pos, nodes, depth);
      NoActuals();
    } else {
      ActualInverse(done, toks, pos, nodes, depth);
      var a := Sound(OR_RUNG, toks, pos, nodes, depth + 1);
      var p1, n1 := pos + |Yield(a)|, nodes + Size(TreeOf(a));
      if !Peek(toks, p1).Comma? {
        args, trailing := [a], false;
        OneActual(a);
      } else {
        var rest, more := SoundActuals(done + [TreeOf(a)], toks, p1 + 1, n1, depth);
        args, trailing := ConsActual(a, rest, more, toks, pos);
        assert done + [TreeOf(a)] + TreesOf(rest) == done + ([TreeOf(a)] + TreesOf(rest));
      }
    }
  }

  lemma {:induction false} NoActuals()
    ensures YieldAll([], false) == [] && TreesOf([]) == [] && SizeAll([]) == 0
  {
  }

  lemma {:induction false} OneActual(a: Phrase)
    requires Grammatical(a)
    ensures YieldAll([a], false) == Yield(a) && TreesOf([a]) == [TreeOf(a)]
    ensures SizeAll([TreeOf(a)]) == Size(TreeOf(a)) && HeightAll([a]) == Height(a)
  {
  }

  lemma {:induction false} ConsActual(a: Phrase, rest: seq<Phrase>, more: bool, toks: seq<Token>, pos: nat)
    returns (args: seq<Phrase>, trailing: bool)
    requires Grammatical(a) && forall x :: x in rest ==> Grammatical(x)
    requires At(toks, pos, Yield(a)) && Peek(toks, pos + |Yield(a)|).Comma?
    requires At(toks, pos + |Yield(a)| + 1, YieldAll(rest, more))
    ensures args == [a] + rest && forall x :: x in args ==> Grammatical(x)
    ensures At(toks, pos, YieldAll(args, trailing))
    ensures |YieldAll(args, trailing)| == |Yield(a)| + 1 + |YieldAll(rest, more)|
    ensures TreesOf(args) == [TreeOf(a)] + TreesOf(rest)
    ensures SizeAll(TreesOf(args)) == Size(TreeOf(a)) + SizeAll(TreesOf(rest))
    ensures HeightAll(args) == Max(Height(a), HeightAll(rest)) && HeightAll([]) == 0
  {
    args, trailing := [a] + rest, rest == [] || more;
    assert args[1..] == rest;
    AtOne(toks, pos + |Yield(a)|);
    AtJoin(toks, pos, Yield(a), [Comma]);
    AtJoin(toks, pos, Yield(a) + [Comma], YieldAll(rest, more));
    assert YieldAll(args, trailing) == Yield(a) + [Comma] + YieldAll(rest, more);
    TreesCons(args);
  }
}
