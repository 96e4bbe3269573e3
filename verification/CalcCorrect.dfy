/** The emitted SQL means what the expression means: however a SQL parser groups its
    operators, and with the arguments bound to the placeholders left to right. */
module CalcCorrect {
  import opened Options
  import opened SqlSyntax
  import opened SqlMeaning
  import opened CalcMeaning
  import opened CalcCompile
  import opened CalcLookup
  import C = CalcSyntax

  // ----- binding arguments -----

  function Marks(text: seq<Lexeme>): nat {
    if text == [] then 0 else (if text[0].Mark? then 1 else 0) + Marks(text[1..])
  }

  /** Replaces the placeholders by the arguments, left to right. */
  function Bind(text: seq<Lexeme>, args: seq<Value>): seq<Lexeme> {
    if text == [] then []
    else if text[0].Mark? && args != [] then [Val(args[0])] + Bind(text[1..], args[1..])
    else [text[0]] + Bind(text[1..], args)
  }

  /** Every argument has its placeholder, and the bound text is e. */
  ghost predicate Spells(text: seq<Lexeme>, args: seq<Value>, e: seq<Lexeme>) {
    Marks(text) == |args| && Bind(text, args) == e
  }

  lemma {:induction false} SpellsJoin(a: seq<Lexeme>, xs: seq<Value>, d: seq<Lexeme>,
                                      b: seq<Lexeme>, ys: seq<Value>, e: seq<Lexeme>)
    requires Spells(a, xs, d) && Spells(b, ys, e)
    ensures Spells(a + b, xs + ys, d + e)
    decreases |a|
  {
    if a == [] {
      assert a + b == b && xs + ys == ys && d + e == e;
    } else {
      assert (a + b)[1..] == a[1..] + b;
      if a[0].Mark? {
        assert (xs + ys)[1..] == xs[1..] + ys;
        SpellsJoin(a[1..], xs[1..], d[1..], b, ys, e);
        assert d + e == [d[0]] + (d[1..] + e);
      } else {
        SpellsJoin(a[1..], xs, d[1..], b, ys, e);
        assert d + e == [d[0]] + (d[1..] + e);
      }
    }
  }

  lemma {:induction false} SpellsPlain(a: seq<Lexeme>)
    requires Mark !in a
    ensures Spells(a, [], a)
  {
    if a != [] { SpellsPlain(a[1..]); }
  }

  /** Fixed text before, between and after. */
  lemma {:induction false} SpellsAround(
      pre: seq<Lexeme>, a: seq<Lexeme>, xs: seq<Value>, d: seq<Lexeme>, post: seq<Lexeme>)
    requires Mark !in pre && Mark !in post && Spells(a, xs, d)
    ensures Spells(pre + a + post, xs, pre + d + post)
  {
    SpellsPlain(pre); SpellsPlain(post);
    SpellsJoin(pre, [], pre, a, xs, d);
    assert [] + xs == xs && xs + [] == xs;
    SpellsJoin(pre + a, xs, pre + d, post, [], post);
  }

  // ----- the expression a field compiles to -----

  /** An operand's text is one closed phrase, whose value grouping cannot change. */
  ghost predicate ReadsAs(o: Operand, q: Sql) {
    o.Reads? && Spells(o.text, o.args, Emit(q)) && Atomic(q) && TightAtom(q)
  }

  /** What the compiler relies on: every operand it is given is such a phrase. */
  ghost predicate ClosedOperands(s: FieldSet) {
    forall k :: s.operand(k).Reads? ==> exists q :: ReadsAs(s.operand(k), q)
  }

  ghost function OperandSql(s: FieldSet, k: string): (q: Sql)
    requires ClosedOperands(s)
    ensures s.operand(k).Reads? ==> ReadsAs(s.operand(k), q)
    ensures Atomic(q) && TightAtom(q)
  {
    if s.operand(k).Reads? then
      var q :| ReadsAs(s.operand(k), q);
      q
    else Const(Null)
  }

  function ConcatSql(p: Sql): Sql { Func("COALESCE", [Cast(p, "TEXT"), Const(Text(""))]) }

  function JoinSql(parts: seq<Sql>): Sql
    requires parts != []
  {
    if |parts| == 1 then ConcatSql(parts[0]) else Infix(Join, ConcatSql(parts[0]), JoinSql(parts[1..]))
  }

  function CallSql(fn: C.Fn, parts: seq<Sql>): Sql
    requires C.ArityOk(fn, |parts|)
  {
    match fn
    case Coalesce => Func("COALESCE", parts)
    case Lower => Func("lower", parts)
    case If => Paren(Case(parts[0], parts[1], Some(parts[2])))
    case Concat => Paren(JoinSql(parts))
  }

  function UnarySql(op: C.UnOp, x: Sql): Sql {
    match op
    case Not => Paren(Negation(x))
    case Neg => Paren(Infix(Minus, Const(Num(I(0))), x))
  }

  function BinarySql(op: C.BinOp, l: Sql, r: Sql): Sql {
    Paren(Infix(OpOf(op), if op == C.Div then Cast(l, "REAL") else l, r))
  }

  /** The intended reading of t's SQL, given the reading of each identifier. */
  function ToSql(t: C.Tree, env: string -> Sql): Sql
    requires C.WellFormed(t)
    decreases t, 1
  {
    match t
    case Number(n) => Const(Literal(n))
    case Str(x) => Const(Text(x))
    case Ident(k) => env(k)
    case Unary(op, x) => UnarySql(op, ToSql(x, env))
    case Binary(op, l, r) => BinarySql(op, ToSql(l, env), ToSql(r, env))
    case Call(fn, args) => CallSql(fn, ToSqls(args, env))
  }

  function ToSqls(ts: seq<C.Tree>, env: string -> Sql): (qs: seq<Sql>)
    requires forall t :: t in ts ==> C.WellFormed(t)
    ensures |qs| == |ts|
    decreases ts, 0
  {
    if ts == [] then [] else [ToSql(ts[0], env)] + ToSqls(ts[1..], env)
  }

  /** The reading of a reference to k below the fields of stack. */
  ghost function RefSql(s: FieldSet, k: string, stack: seq<string>): Sql
    requires ClosedOperands(s)
    decreases Unvisited(s, stack), 1
  {
    if !Has(s, k) then OperandSql(s, k)
    else if k in stack || k in s.bad then Const(Null)
    else
      VisitOne(s, k, stack);
      ToSql(Body(s, k), Env(s, stack + [k]))
  }

  ghost function Env(s: FieldSet, stack: seq<string>): string -> Sql
    requires ClosedOperands(s)
    decreases Unvisited(s, stack), 2
  {
    j => RefSql(s, j, stack)
  }

  // ----- the emitted text spells the intended reading -----

  lemma {:induction false} UnarySpells(op: C.UnOp, a: seq<Lexeme>, xs: seq<Value>, x: Sql)
    requires Spells(a, xs, Emit(x))
    ensures Spells(UnaryText(op, a), xs, Emit(UnarySql(op, x)))
  {
    hide Spells;
    var pre := if op == C.Not then [Open, Kw(NOT)] else [Open, Val(Num(I(0))), Sym(Minus)];
    SpellsAround(pre, a, xs, Emit(x), [Close]);
    var zero := Const(Num(I(0)));
    var inner := if op == C.Not then Negation(x) else Infix(Minus, zero, x);
    assert Emit(zero) == [Val(Num(I(0)))];
    assert Emit(inner) == pre[1..] + Emit(x);
    assert Emit(Paren(inner)) == pre + Emit(x) + [Close];
  }

  lemma {:induction false} BinarySpells(
      op: C.BinOp, a: seq<Lexeme>, xs: seq<Value>, l: Sql, b: seq<Lexeme>, ys: seq<Value>, r: Sql)
    requires Spells(a, xs, Emit(l)) && Spells(b, ys, Emit(r))
    ensures Spells(BinaryText(op, a, b), xs + ys, Emit(BinarySql(op, l, r)))
  {
    hide Spells;
    var pre := if op == C.Div then [Open, Kw(CAST), Open] else [Open];
    var mid := if op == C.Div then [Kw(AS), Name("REAL"), Close, Sym(Divide)] else [Sym(OpOf(op))];
    SpellsAround(pre, a, xs, Emit(l), mid);
    SpellsAround([], b, ys, Emit(r), [Close]);
    SpellsJoin(pre + a + mid, xs, pre + Emit(l) + mid, [] + b + [Close], ys, [] + Emit(r) + [Close]);
    assert BinaryText(op, a, b) == pre + a + mid + ([] + b + [Close]);
    BinaryEmit(op, l, r, pre, mid);
  }

  lemma {:induction false} BinaryEmit(op: C.BinOp, l: Sql, r: Sql, pre: seq<Lexeme>, mid: seq<Lexeme>)
    requires pre == if op == C.Div then [Open, Kw(CAST), Open] else [Open]
    requires mid == if op == C.Div then [Kw(AS), Name("REAL"), Close, Sym(Divide)] else [Sym(OpOf(op))]
    ensures Emit(BinarySql(op, l, r)) == pre + Emit(l) + mid + ([] + Emit(r) + [Close])
  {
    var l' := if op == C.Div then Cast(l, "REAL") else l;
    var inner := Infix(OpOf(op), l', r);
    assert Emit(inner) == Emit(l') + [Sym(OpOf(op))] + Emit(r);
    assert Emit(Paren(inner)) == [Open] + Emit(inner) + [Close];
    if op == C.Div {
      assert Emit(l') == [Kw(CAST), Open] + Emit(l) + [Kw(AS), Name("REAL"), Close];
      DivShape(Emit(l), Emit(r));
    } else {
      PlainShape(Emit(l), Emit(r), Sym(OpOf(op)));
    }
  }

  lemma {:induction false} DivShape(l: seq<Lexeme>, r: seq<Lexeme>)
    ensures [Open] + (([Kw(CAST), Open] + l + [Kw(AS), Name("REAL"), Close]) + [Sym(Divide)] + r) + [Close]
         == [Open, Kw(CAST), Open] + l + [Kw(AS), Name("REAL"), Close, Sym(Divide)] + ([] + r + [Close])
  {
  }

  lemma {:induction false} PlainShape(l: seq<Lexeme>, r: seq<Lexeme>, op: Lexeme)
    ensures [Open] + (l + [op] + r) + [Close] == [Open] + l + [op] + ([] + r + [Close])
  {
  }

  /** Each text spells its phrase with its own arguments. */
  ghost predicate SpellsEach(texts: seq<seq<Lexeme>>, each: seq<seq<Value>>, qs: seq<Sql>) {
    |texts| == |each| == |qs| && forall i :: 0 <= i < |qs| ==> Spells(texts[i], each[i], Emit(qs[i]))
  }

  function Flatten(each: seq<seq<Value>>): seq<Value> {
    if each == [] then [] else each[0] + Flatten(each[1..])
  }

  lemma {:induction false} ArgsSpell(texts: seq<seq<Lexeme>>, each: seq<seq<Value>>, qs: seq<Sql>)
    requires SpellsEach(texts, each, qs)
    ensures Spells(Joined(texts, Sep), Flatten(each), EmitArgs(qs))
    decreases |qs|
  {
    if |texts| == 1 {
      assert Flatten(each) == each[0];
    } else if |texts| > 1 {
      ArgsSpell(texts[1..], each[1..], qs[1..]);
      Separated(texts[0], each[0], Emit(qs[0]), Sep, Joined(texts[1..], Sep), Flatten(each[1..]), EmitArgs(qs[1..]));
    }
  }

  lemma {:induction false} Separated(a: seq<Lexeme>, xs: seq<Value>, d: seq<Lexeme>, sep: Lexeme,
                  b: seq<Lexeme>, ys: seq<Value>, e: seq<Lexeme>)
    requires Spells(a, xs, d) && Spells(b, ys, e) && sep != Mark
    ensures Spells(a + [sep] + b, xs + ys, d + [sep] + e)
  {
    hide Spells;
    SpellsAround([], a, xs, d, [sep]);
    assert [] + a + [sep] == a + [sep] && [] + d + [sep] == d + [sep];
    SpellsJoin(a + [sep], xs, d + [sep], b, ys, e);
  }

  lemma {:induction false} ConcatPartSpells(a: seq<Lexeme>, xs: seq<Value>, q: Sql)
    requires Spells(a, xs, Emit(q))
    ensures Spells(ConcatPart(a), xs, Emit(ConcatSql(q)))
  {
    hide Spells;
    var pre := [Name("COALESCE"), Open, Kw(CAST), Open];
    var post := [Kw(AS), Name("TEXT"), Close, Sep, Val(Text("")), Close];
    SpellsAround(pre, a, xs, Emit(q), post);
    ConcatEmit(q, pre, post);
  }

  lemma {:induction false} ConcatEmit(q: Sql, pre: seq<Lexeme>, post: seq<Lexeme>)
    requires pre == [Name("COALESCE"), Open, Kw(CAST), Open]
    requires post == [Kw(AS), Name("TEXT"), Close, Sep, Val(Text("")), Close]
    ensures Emit(ConcatSql(q)) == pre + Emit(q) + post
  {
    var cast, empty := Cast(q, "TEXT"), Const(Text(""));
    var args := [cast, empty];
    assert args[1..] == [empty];
    assert EmitArgs([empty]) == Emit(empty) == [Val(Text(""))];
    assert Emit(cast) == [Kw(CAST), Open] + Emit(q) + [Kw(AS), Name("TEXT"), Close];
    assert EmitArgs(args) == Emit(cast) + [Sep] + EmitArgs([empty]);
    assert Emit(Func("COALESCE", args)) == [Name("COALESCE"), Open] + EmitArgs(args) + [Close];
  }

  lemma {:induction false} JoinSpells(texts: seq<seq<Lexeme>>, each: seq<seq<Value>>, qs: seq<Sql>)
    requires SpellsEach(texts, each, qs) && qs != []
    ensures Spells(Joined(ConcatParts(texts), Sym(Join)), Flatten(each), Emit(JoinSql(qs)))
    decreases |qs|
  {
    hide Spells, Emit, ConcatPart, ConcatSql;
    var parts := ConcatParts(texts);
    assert Spells(texts[0], each[0], Emit(qs[0]));
    ConcatPartSpells(texts[0], each[0], qs[0]);
    if |texts| == 1 {
      assert Flatten(each) == each[0];
    } else {
      assert parts[1..] == ConcatParts(texts[1..]);
      JoinSpells(texts[1..], each[1..], qs[1..]);
      Separated(parts[0], each[0], Emit(ConcatSql(qs[0])), Sym(Join),
                Joined(parts[1..], Sym(Join)), Flatten(each[1..]), Emit(JoinSql(qs[1..])));
      JoinEmit(qs);
    }
  }

  lemma {:induction false} JoinEmit(qs: seq<Sql>)
    requires |qs| > 1
    ensures Emit(JoinSql(qs)) == Emit(ConcatSql(qs[0])) + [Sym(Join)] + Emit(JoinSql(qs[1..]))
  {
  }

  lemma {:induction false} CaseSpells(texts: seq<seq<Lexeme>>, each: seq<seq<Value>>, qs: seq<Sql>)
    requires SpellsEach(texts, each, qs) && |qs| == 3
    ensures Spells(CallText(C.If, texts), Flatten(each), Emit(CallSql(C.If, qs)))
  {
    hide Spells, Emit;
    var e0, e1, e2 := Emit(qs[0]), Emit(qs[1]), Emit(qs[2]);
    var t0, t1, t2 := texts[0], texts[1], texts[2];
    var pre, post := [Open, Kw(CASE), Kw(WHEN)], [Kw(END), Close];
    Separated(t1, each[1], e1, Kw(ELSE), t2, each[2], e2);
    var t12, e12 := t1 + [Kw(ELSE)] + t2, e1 + [Kw(ELSE)] + e2;
    Separated(t0, each[0], e0, Kw(THEN), t12, each[1] + each[2], e12);
    var t, e := t0 + [Kw(THEN)] + t12, e0 + [Kw(THEN)] + e12;
    SpellsAround(pre, t, each[0] + (each[1] + each[2]), e, post);
    FlattenThree(each);
    assert CallText(C.If, texts) == pre + t + post;
    CaseEmit(qs);
    assert Emit(CallSql(C.If, qs)) == pre + e + post;
  }

  lemma {:induction false} FlattenThree(each: seq<seq<Value>>)
    requires |each| == 3
    ensures Flatten(each) == each[0] + (each[1] + each[2])
  {
    assert each[1..][1..] == [each[2]];
    assert Flatten([each[2]]) == each[2];
    assert Flatten(each[1..]) == each[1] + each[2];
  }

  lemma {:induction false} CaseEmit(qs: seq<Sql>)
    requires |qs| == 3
    ensures Emit(CallSql(C.If, qs)) == [Open, Kw(CASE), Kw(WHEN)] + Emit(qs[0]) + [Kw(THEN)] + Emit(qs[1])
                                       + [Kw(ELSE)] + Emit(qs[2]) + [Kw(END), Close]
  {
    var no := Some(qs[2]);
    var inner := Case(qs[0], qs[1], no);
    assert EmitElse(no) == [Kw(ELSE)] + Emit(qs[2]);
    assert Emit(inner) == [Kw(CASE), Kw(WHEN)] + Emit(qs[0]) + [Kw(THEN)] + Emit(qs[1]) + EmitElse(no) + [Kw(END)];
    assert Emit(Paren(inner)) == [Open] + Emit(inner) + [Close];
    CaseShape(Emit(qs[0]), Emit(qs[1]), Emit(qs[2]));
  }

  lemma {:induction false} CaseShape(c: seq<Lexeme>, y: seq<Lexeme>, n: seq<Lexeme>)
    ensures [Open] + ([Kw(CASE), Kw(WHEN)] + c + [Kw(THEN)] + y + ([Kw(ELSE)] + n) + [Kw(END)]) + [Close]
         == [Open, Kw(CASE), Kw(WHEN)] + c + [Kw(THEN)] + y + [Kw(ELSE)] + n + [Kw(END), Close]
  {
  }

  lemma {:induction false} CallSpells(fn: C.Fn, texts: seq<seq<Lexeme>>, each: seq<seq<Value>>, qs: seq<Sql>)
    requires C.ArityOk(fn, |qs|) && SpellsEach(texts, each, qs)
    ensures Spells(CallText(fn, texts), Flatten(each), Emit(CallSql(fn, qs)))
  {
    hide Spells;
    match fn
    case Coalesce =>
      ArgsSpell(texts, each, qs);
      SpellsAround([Name("COALESCE"), Open], Joined(texts, Sep), Flatten(each), EmitArgs(qs), [Close]);
    case Lower =>
      ArgsSpell(texts, each, qs);
      SpellsAround([Name("lower"), Open], Joined(texts, Sep), Flatten(each), EmitArgs(qs), [Close]);
    case If => CaseSpells(texts, each, qs);
    case Concat =>
      JoinSpells(texts, each, qs);
      SpellsAround([Open], Joined(ConcatParts(texts), Sym(Join)), Flatten(each), Emit(JoinSql(qs)), [Close]);
  }

  lemma {:induction false} NodeSpells(s: FieldSet, t: C.Tree, stack: seq<string>, left: nat)
    requires ClosedOperands(s) && C.WellFormed(t) && Node(s, t, stack, left).Code?
    ensures var r := Node(s, t, stack, left); Spells(r.text, r.args, Emit(ToSql(t, Env(s, stack))))
    decreases left, 0, 0
  {
    hide Spells, Emit, UnaryText, BinaryText, CallText, UnarySql, BinarySql, CallSql;
    var env := Env(s, stack);
    match t
    case Number(n) => OneSpells(Literal(n));
    case Str(x) => OneSpells(Text(x));
    case Ident(k) => ResolveSpells(s, k, stack, left - 1);
    case Unary(op, x) =>
      NodeSpells(s, x, stack, left - 1);
      var a := Node(s, x, stack, left - 1);
      UnarySpells(op, a.text, a.args, ToSql(x, env));
    case Binary(op, l, r) =>
      NodeSpells(s, l, stack, left - 1);
      var a := Node(s, l, stack, left - 1);
      NodeSpells(s, r, stack, a.left);
      var b := Node(s, r, stack, a.left);
      BinarySpells(op, a.text, a.args, ToSql(l, env), b.text, b.args, ToSql(r, env));
    case Call(fn, args) =>
      var each := NodeAllSpells(s, args, stack, left - 1);
      var a := NodeAll(s, args, stack, left - 1);
      CallSpells(fn, a.texts, each, ToSqls(args, env));
  }

  lemma {:induction false} OneSpells(v: Value)
    ensures Spells([Mark], [v], Emit(Const(v)))
  {
    assert [Mark][1..] == [] && [v][1..] == [];
  }

  lemma {:induction false} NodeAllSpells(s: FieldSet, ts: seq<C.Tree>, stack: seq<string>, left: nat)
    returns (each: seq<seq<Value>>)
    requires ClosedOperands(s) && (forall t :: t in ts ==> C.WellFormed(t)) && NodeAll(s, ts, stack, left).Parts?
    ensures var r := NodeAll(s, ts, stack, left);
            Flatten(each) == r.args && SpellsEach(r.texts, each, ToSqls(ts, Env(s, stack)))
    decreases left, 1, |ts|
  {
    hide Spells, Emit, Node;
    if ts == [] {
      each := [];
    } else {
      NodeSpells(s, ts[0], stack, left);
      var a := Node(s, ts[0], stack, left);
      var rest := NodeAllSpells(s, ts[1..], stack, a.left);
      each := [a.args] + rest;
      assert each[1..] == rest;
    }
  }

  lemma {:induction false} ResolveSpells(s: FieldSet, k: string, stack: seq<string>, left: nat)
    requires ClosedOperands(s) && Resolve(s, k, stack, left).Code?
    ensures var r := Resolve(s, k, stack, left); Spells(r.text, r.args, Emit(RefSql(s, k, stack)))
    decreases left, 1, 0
  {
    if Has(s, k) { NodeSpells(s, Body(s, k), stack + [k], left); }
  }
}
