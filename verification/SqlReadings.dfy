/** Which SQL texts can be read in one way only: exactly those in which brackets keep every
    operator apart from the next. */
module SqlReadings {
  import opened Options
  import opened SqlSyntax

  /** Whatever parser reads the text, it finds the same expression. */
  ghost predicate OneReading(text: seq<Lexeme>) {
    forall x, y :: Emit(x) == text && Emit(y) == text ==> x == y
  }

  /** At every level at most one operator between brackets, and no NOT before it. */
  predicate Plain(x: Sql) {
    match x
    case Const(_) => true
    case Column(_) => true
    case Paren(z) => Plain(z)
    case Infix(_, l, r) => Atomic(l) && !r.Infix? && Plain(l) && Plain(r)
    case Negation(z) => !z.Infix? && Plain(z)
    case Cast(z, _) => Plain(z)
    case Func(_, args) => forall i :: 0 <= i < |args| ==> Plain(args[i])
    case Case(c, y, n) => Plain(c) && Plain(y) && (n.Some? ==> Plain(n.value))
  }

  // ----- plain texts have one reading -----

  lemma {:induction false} NoOps(x: Sql)
    requires Plain(x) && !x.Infix?
    ensures forall i :: 0 <= i < |Flat(x)| ==> !Flat(x)[i].OpI?
  {
    if x.Negation? { NoOps(x.x); }
  }

  lemma {:induction false} SameKinds(x: Sql, y: Sql)
    requires Same(x, y)
    ensures |Flat(x)| == |Flat(y)|
    ensures forall i :: 0 <= i < |Flat(x)| ==>
              Flat(x)[i].OpI? == Flat(y)[i].OpI? && Flat(x)[i].NotI? == Flat(y)[i].NotI?
    ensures forall i :: 0 <= i < |Flat(x)| && Flat(x)[i].OpI? ==> Flat(x)[i] == Flat(y)[i]
  {
    hide Flat, SameAtom;
    forall i | 0 <= i < |Flat(x)|
      ensures Flat(x)[i].OpI? == Flat(y)[i].OpI? && Flat(x)[i].NotI? == Flat(y)[i].NotI?
      ensures Flat(x)[i].OpI? ==> Flat(x)[i] == Flat(y)[i]
    {
      assert SameItem(x, Flat(x)[i], Flat(y)[i]);
    }
  }

  /** The tail of a pairing is a pairing of the tails. */
  lemma {:induction false} SameTail(x: Sql, y: Sql, z: Sql, w: Sql, n: nat)
    requires Same(x, y) && n <= |Flat(x)| && z < x
    requires Flat(z) == Flat(x)[n..] && Flat(w) == Flat(y)[n..]
    ensures Same(z, w)
  {
    hide Flat;
    forall i | 0 <= i < |Flat(z)| ensures SameItem(z, Flat(z)[i], Flat(w)[i]) {
      assert SameItem(x, Flat(x)[n + i], Flat(y)[n + i]);
    }
  }

  lemma {:induction false} PlainIsUnique(x: Sql, y: Sql)
    requires Plain(x) && Same(x, y)
    ensures x == y
    decreases x
  {
    SameKinds(x, y);
    match x
    case Negation(z) =>
      NoOps(x);
      assert Flat(x)[0].NotI?;
      NotFirst(y);
      SameTail(x, y, z, y.x, 1);
      PlainIsUnique(z, y.x);
    case Infix(op, l, r) =>
      NoOps(r);
      assert Flat(l) == [AtomI(l)];
      assert Flat(x) == [AtomI(l), OpI(op)] + Flat(r);
      OpSecond(y);
      SameTail(x, y, r, y.r, 2);
      PlainIsUnique(r, y.r);
      assert SameItem(x, Flat(x)[0], Flat(y)[0]);
      SameAtomPlain(l, y.l);
    case _ =>
      assert Flat(x) == [AtomI(x)];
      LoneItem(y);
      assert SameItem(x, Flat(x)[0], Flat(y)[0]);
      SameAtomPlain(x, y);
  }

  lemma {:induction false} NotFirst(y: Sql)
    requires Flat(y)[0].NotI? && forall i :: 0 <= i < |Flat(y)| ==> !Flat(y)[i].OpI?
    ensures y.Negation? && Flat(y.x) == Flat(y)[1..]
  {
    if y.Infix? { assert Flat(y)[|Flat(y.l)|].OpI?; }
  }

  lemma {:induction false} OpSecond(y: Sql)
    requires |Flat(y)| > 2 && !Flat(y)[0].NotI? && Flat(y)[1].OpI?
    requires forall i :: 2 <= i < |Flat(y)| ==> !Flat(y)[i].OpI?
    ensures y.Infix? && OpI(y.op) == Flat(y)[1] && Flat(y)[0] == AtomI(y.l) && Flat(y.r) == Flat(y)[2..]
  {
    assert y.Infix?;
    assert Flat(y)[|Flat(y.l)|] == OpI(y.op);
    FlatAlternates(y);
    assert |Flat(y.l)| == 1;
    LoneItem(y.l);
    assert Flat(y)[0] == Flat(y.l)[0];
    assert Flat(y.r) == Flat(y)[2..];
  }

  lemma {:induction false} LoneItem(y: Sql)
    requires |Flat(y)| == 1
    ensures Atomic(y) && Flat(y) == [AtomI(y)]
  {
  }

  lemma {:induction false} SameAtomPlain(a: Sql, b: Sql)
    requires Atomic(a) && Plain(a) && SameAtom(a, b)
    ensures a == b
    decreases a, 0
  {
    match a
    case Paren(x) => PlainIsUnique(x, b.x);
    case Cast(x, _) => PlainIsUnique(x, b.x);
    case Func(_, args) =>
      forall i | 0 <= i < |args| ensures args[i] == b.args[i] { PlainIsUnique(args[i], b.args[i]); }
      assert args == b.args;
    case Case(c, y, n) =>
      PlainIsUnique(c, b.cond);
      PlainIsUnique(y, b.yes);
      if n.Some? { PlainIsUnique(n.value, b.no.value); }
    case _ =>
  }

  // ----- the others have two -----

  /** Another reading of the text of x: operators grouped the other way at one place. */
  ghost function Regrouped(x: Sql): Sql
    requires !Plain(x)
  {
    match x
    case Paren(z) => Paren(Regrouped(z))
    case Infix(op, l, r) =>
      if !Plain(l) then Infix(op, Regrouped(l), r)
      else if !Plain(r) then Infix(op, l, Regrouped(r))
      else if l.Infix? then Infix(l.op, l.l, Infix(op, l.r, r))
      else if l.Negation? then Negation(Infix(op, l.x, r))
      else Infix(r.op, Infix(op, l, r.l), r.r)
    case Negation(z) => if !Plain(z) then Negation(Regrouped(z)) else Infix(z.op, Negation(z.l), z.r)
    case Cast(z, ty) => Cast(Regrouped(z), ty)
    case Func(n, args) =>
      var i :| 0 <= i < |args| && !Plain(args[i]);
      Func(n, args[i := Regrouped(args[i])])
    case Case(c, y, n) =>
      if !Plain(c) then Case(Regrouped(c), y, n)
      else if !Plain(y) then Case(c, Regrouped(y), n)
      else Case(c, y, Some(Regrouped(n.value)))
  }

  lemma {:induction false} ArgsEmitAlike(args: seq<Sql>, i: nat, q: Sql)
    requires i < |args| && Emit(q) == Emit(args[i])
    ensures EmitArgs(args[i := q]) == EmitArgs(args)
  {
    hide Emit;
    var brgs := args[i := q];
    if i == 0 {
      assert brgs[1..] == args[1..];
    } else {
      ArgsEmitAlike(args[1..], i - 1, q);
      assert brgs[1..] == args[1..][i - 1 := q];
    }
  }

  lemma {:induction false} RegroupedReads(x: Sql)
    requires !Plain(x)
    ensures Emit(Regrouped(x)) == Emit(x) && Regrouped(x) != x
  {
    match x
    case Infix(_, _, _) => RegroupedInfix(x);
    case Negation(z) => if !Plain(z) { RegroupedReads(z); }
    case Paren(z) => RegroupedReads(z);
    case Cast(z, _) => RegroupedReads(z);
    case Func(_, args) =>
      var i :| 0 <= i < |args| && !Plain(args[i]) && Regrouped(x) == Func(x.name, args[i := Regrouped(args[i])]);
      RegroupedReads(args[i]);
      ArgsEmitAlike(args, i, Regrouped(args[i]));
      assert args[i := Regrouped(args[i])][i] != args[i];
    case Case(c, y, n) =>
      if !Plain(c) { RegroupedReads(c); } else if !Plain(y) { RegroupedReads(y); } else { RegroupedReads(n.value); }
  }

  lemma {:induction false} RegroupedInfix(x: Sql)
    requires x.Infix? && !Plain(x)
    ensures Emit(Regrouped(x)) == Emit(x) && Regrouped(x) != x
    decreases x, 0
  {
    if !Plain(x.l) {
      RegroupedReads(x.l);
    } else if !Plain(x.r) {
      RegroupedReads(x.r);
    } else if x.l.Infix? {
      TwoOps(x.l.l, x.l.op, x.l.r, x.op, x.r);
    } else if x.r.Infix? && !x.l.Negation? {
      TwoOps(x.l, x.op, x.r.l, x.r.op, x.r.r);
    }
  }

  /** a op b op2 c is written the same in both groupings, and they are different expressions. */
  lemma {:induction false} TwoOps(a: Sql, op: SqlOp, b: Sql, op2: SqlOp, c: Sql)
    ensures Emit(Infix(op2, Infix(op, a, b), c)) == Emit(Infix(op, a, Infix(op2, b, c)))
    ensures Infix(op2, Infix(op, a, b), c) != Infix(op, a, Infix(op2, b, c))
  {
    var l, r := Infix(op, a, b), Infix(op2, b, c);
    assert Emit(l) == Emit(a) + [Sym(op)] + Emit(b);
    assert Emit(r) == Emit(b) + [Sym(op2)] + Emit(c);
    assert Emit(Infix(op2, l, c)) == Emit(l) + [Sym(op2)] + Emit(c);
    assert Emit(Infix(op, a, r)) == Emit(a) + [Sym(op)] + Emit(r);
    assert a < l;
  }

  /** A text has one reading exactly when its operators are kept apart by brackets. */
  lemma {:induction false} OneReadingExactlyWhen(x: Sql)
    ensures OneReading(Emit(x)) <==> Plain(x)
  {
    hide Emit, Flat, Same;
    if Plain(x) {
      forall y, z | Emit(y) == Emit(x) && Emit(z) == Emit(x) ensures y == z {
        ReadingsAgree(x, y);
        PlainIsUnique(x, y);
        ReadingsAgree(x, z);
        PlainIsUnique(x, z);
      }
    } else {
      RegroupedReads(x);
    }
  }
}
