/** The value of a calculated field: what its compiled SQL evaluates to. */
module CalcTheorem {
  import opened Options
  import opened SqlSyntax
  import opened SqlMeaning
  import opened CalcMeaning
  import opened CalcCompile
  import opened CalcLookup
  import opened CalcCorrect
  import C = CalcSyntax

  // ----- the intended reading is one closed phrase that grouping cannot change -----

  ghost predicate Closed(q: Sql) { Atomic(q) && TightAtom(q) }

  lemma {:induction false} ClosedIsTight(q: Sql)
    requires Closed(q)
    ensures Tight(q) && Flat(q) == [AtomI(q)]
  {
  }

  lemma {:induction false} UnaryClosed(op: C.UnOp, x: Sql)
    requires Closed(x)
    ensures Closed(UnarySql(op, x))
  {
    ClosedIsTight(x);
    var zero := Const(Num(I(0)));
    var inner := if op == C.Not then Negation(x) else Infix(Minus, zero, x);
    assert Flat(zero) == [AtomI(zero)];
    assert Flat(inner) == if op == C.Not then [NotI, AtomI(x)] else [AtomI(zero), OpI(Minus), AtomI(x)];
    assert Tight(inner);
  }

  lemma {:induction false} BinaryClosed(op: C.BinOp, l: Sql, r: Sql)
    requires Closed(l) && Closed(r)
    ensures Closed(BinarySql(op, l, r))
  {
    ClosedIsTight(l); ClosedIsTight(r);
    var l' := if op == C.Div then Cast(l, "REAL") else l;
    ClosedIsTight(l');
    var inner := Infix(OpOf(op), l', r);
    assert Flat(inner) == [AtomI(l'), OpI(OpOf(op)), AtomI(r)];
    assert Tight(inner);
  }

  lemma {:induction false} ConcatClosed(q: Sql)
    requires Closed(q)
    ensures Closed(ConcatSql(q))
  {
    ClosedIsTight(q);
    var cast, empty := Cast(q, "TEXT"), Const(Text(""));
    assert TightAtom(cast) && TightAtom(empty);
    ClosedIsTight(cast); ClosedIsTight(empty);
  }

  lemma {:induction false} JoinTight(qs: seq<Sql>)
    requires qs != [] && forall i :: 0 <= i < |qs| ==> Closed(qs[i])
    ensures Joins(Flat(JoinSql(qs)))
    ensures forall p :: p in Flat(JoinSql(qs)) && p.AtomI? ==> TightAtom(p.atom)
  {
    hide ConcatSql, TightAtom;
    ConcatClosed(qs[0]);
    var head := ConcatSql(qs[0]);
    assert Flat(head) == [AtomI(head)];
    if |qs| > 1 {
      JoinTight(qs[1..]);
      assert Flat(JoinSql(qs)) == [AtomI(head)] + [OpI(Join)] + Flat(JoinSql(qs[1..]));
    }
  }

  lemma {:induction false} CallClosed(fn: C.Fn, qs: seq<Sql>)
    requires C.ArityOk(fn, |qs|) && forall i :: 0 <= i < |qs| ==> Closed(qs[i])
    ensures Closed(CallSql(fn, qs))
  {
    forall i | 0 <= i < |qs| ensures Tight(qs[i]) { ClosedIsTight(qs[i]); }
    match fn
    case Concat => JoinTight(qs); assert Tight(JoinSql(qs));
    case If =>
      var inner := Case(qs[0], qs[1], Some(qs[2]));
      assert TightAtom(inner);
      ClosedIsTight(inner);
    case _ =>
  }

  ghost predicate ClosedEnv(env: string -> Sql) { forall k :: Closed(env(k)) }

  lemma {:induction false} ToSqlClosed(t: C.Tree, env: string -> Sql)
    requires C.WellFormed(t) && ClosedEnv(env)
    ensures Closed(ToSql(t, env))
    decreases t, 1
  {
    hide Closed, UnarySql, BinarySql, CallSql;
    match t
    case Unary(op, x) => ToSqlClosed(x, env); UnaryClosed(op, ToSql(x, env));
    case Binary(op, l, r) => ToSqlClosed(l, env); ToSqlClosed(r, env); BinaryClosed(op, ToSql(l, env), ToSql(r, env));
    case Call(fn, args) => ToSqlsClosed(args, env); CallClosed(fn, ToSqls(args, env));
    case Number(n) => ConstClosed(Literal(n));
    case Str(x) => ConstClosed(Text(x));
    case Ident(_) =>
  }

  lemma {:induction false} ConstClosed(v: Value)
    ensures Closed(Const(v))
  {
  }

  lemma {:induction false} ToSqlsClosed(ts: seq<C.Tree>, env: string -> Sql)
    requires (forall t :: t in ts ==> C.WellFormed(t)) && ClosedEnv(env)
    ensures forall i :: 0 <= i < |ts| ==> Closed(ToSqls(ts, env)[i])
    decreases ts, 0
  {
    hide Closed;
    if ts != [] { ToSqlClosed(ts[0], env); ToSqlsClosed(ts[1..], env); }
  }

  lemma {:induction false} RefClosed(s: FieldSet, k: string, stack: seq<string>)
    requires ClosedOperands(s)
    ensures Closed(RefSql(s, k, stack))
    decreases Unvisited(s, stack)
  {
    if Has(s, k) && k !in stack && k !in s.bad {
      VisitOne(s, k, stack);
      forall j ensures Closed(Env(s, stack + [k])(j)) { RefClosed(s, j, stack + [k]); }
      ToSqlClosed(Body(s, k), Env(s, stack + [k]));
    }
  }

  // ----- and it evaluates to the expression's meaning -----

  lemma {:induction false} UnaryValue(e: Engine, op: C.UnOp, x: Sql)
    ensures Eval(e, UnarySql(op, x)) == UnaryMeaning(e, op, Eval(e, x))
  {
    var zero := Const(Num(I(0)));
    var inner := if op == C.Not then Negation(x) else Infix(Minus, zero, x);
    assert Eval(e, Paren(inner)) == Eval(e, inner);
    assert Eval(e, zero) == Num(I(0));
  }

  lemma {:induction false} BinaryValue(e: Engine, op: C.BinOp, l: Sql, r: Sql)
    ensures Eval(e, BinarySql(op, l, r)) == BinaryMeaning(e, op, Eval(e, l), Eval(e, r))
  {
    var l' := if op == C.Div then Cast(l, "REAL") else l;
    var inner := Infix(OpOf(op), l', r);
    assert Eval(e, Paren(inner)) == Eval(e, inner) == Operate(e, OpOf(op), Eval(e, l'), Eval(e, r));
    assert op == C.Div ==> Eval(e, l') == CastTo(e, "REAL", Eval(e, l));
  }

  lemma {:induction false} ConcatValue(e: Engine, q: Sql)
    ensures Eval(e, ConcatSql(q)) == Text(Printed(e, Eval(e, q)))
  {
    var cast, empty := Cast(q, "TEXT"), Const(Text(""));
    var args := [cast, empty];
    assert args[1..] == [empty] && EvalAll(e, [empty]) == [Text("")];
    assert Eval(e, cast) == CastTo(e, "TEXT", Eval(e, q));
    var vs := [Eval(e, cast), Text("")];
    assert EvalAll(e, args) == vs;
    assert vs[1..] == [Text("")] && FirstPresent([Text("")]) == Text("");
    assert Eval(e, Func("COALESCE", args)) == FirstPresent(vs);
  }

  lemma {:induction false} JoinValue(e: Engine, qs: seq<Sql>)
    requires qs != []
    ensures Eval(e, JoinSql(qs)) == Text(PrintedAll(e, EvalAll(e, qs)))
  {
    hide ConcatSql;
    ConcatValue(e, qs[0]);
    var vs := EvalAll(e, qs);
    if |qs| == 1 {
      assert PrintedAll(e, vs) == Printed(e, vs[0]);
    } else {
      JoinValue(e, qs[1..]);
      assert vs[1..] == EvalAll(e, qs[1..]);
    }
  }

  lemma {:induction false} CallValue(e: Engine, fn: C.Fn, qs: seq<Sql>)
    requires C.ArityOk(fn, |qs|)
    ensures Eval(e, CallSql(fn, qs)) == CallMeaning(e, fn, EvalAll(e, qs))
  {
    match fn
    case Concat =>
      JoinValue(e, qs);
      assert Eval(e, Paren(JoinSql(qs))) == Eval(e, JoinSql(qs));
    case If =>
      EvalThree(e, qs);
      var no := Some(qs[2]);
      var inner := Case(qs[0], qs[1], no);
      assert EvalElse(e, no) == Eval(e, qs[2]);
      assert Eval(e, Paren(inner)) == Eval(e, inner);
    case _ =>
  }

  lemma {:induction false} EvalThree(e: Engine, qs: seq<Sql>)
    requires |qs| == 3
    ensures EvalAll(e, qs) == [Eval(e, qs[0]), Eval(e, qs[1]), Eval(e, qs[2])]
  {
    assert qs[1..][1..] == [qs[2]];
    assert EvalAll(e, [qs[2]]) == [Eval(e, qs[2])];
    assert EvalAll(e, qs[1..]) == [Eval(e, qs[1])] + EvalAll(e, qs[1..][1..]);
  }

  lemma {:induction false} ToSqlValue(e: Engine, t: C.Tree, env: string -> Sql, val: string -> Value)
    requires C.WellFormed(t) && forall k :: val(k) == Eval(e, env(k))
    ensures Eval(e, ToSql(t, env)) == Meaning(e, t, val)
    decreases t, 1
  {
    hide UnarySql, BinarySql, CallSql, UnaryMeaning, BinaryMeaning, CallMeaning;
    match t
    case Unary(op, x) => ToSqlValue(e, x, env, val); UnaryValue(e, op, ToSql(x, env));
    case Binary(op, l, r) =>
      ToSqlValue(e, l, env, val); ToSqlValue(e, r, env, val);
      BinaryValue(e, op, ToSql(l, env), ToSql(r, env));
    case Call(fn, args) => ToSqlsValue(e, args, env, val); CallValue(e, fn, ToSqls(args, env));
    case _ =>
  }

  lemma {:induction false} ToSqlsValue(e: Engine, ts: seq<C.Tree>, env: string -> Sql, val: string -> Value)
    requires (forall t :: t in ts ==> C.WellFormed(t)) && forall k :: val(k) == Eval(e, env(k))
    ensures EvalAll(e, ToSqls(ts, env)) == Meanings(e, ts, val)
    decreases ts, 0
  {
    if ts != [] {
      ToSqlValue(e, ts[0], env, val); ToSqlsValue(e, ts[1..], env, val);
      assert ToSqls(ts, env)[1..] == ToSqls(ts[1..], env);
    }
  }

  // ----- the value of a field -----

  /** The value of an operand, whichever reading of its text is taken. */
  ghost function OperandValue(s: FieldSet, e: Engine, k: string): Value
    requires ClosedOperands(s)
  {
    Eval(e, OperandSql(s, k))
  }

  lemma {:induction false} OperandValueIsUnique(s: FieldSet, e: Engine, k: string, q: Sql)
    requires ClosedOperands(s) && s.operand(k).Reads? && Emit(q) == Bind(s.operand(k).text, s.operand(k).args)
    ensures Eval(e, q) == OperandValue(s, e, k)
  {
    var p := OperandSql(s, k);
    ReadingsAgree(p, q);
    ClosedIsTight(p);
    SameEval(e, p, q);
  }

  /** The value of identifier k below the fields of stack: an operand's value, or the
      meaning of the field's own expression. */
  ghost function ValueBelow(s: FieldSet, e: Engine, k: string, stack: seq<string>): Value
    requires ClosedOperands(s)
    decreases Unvisited(s, stack), 1
  {
    if !Has(s, k) then OperandValue(s, e, k)
    else if k in stack || k in s.bad then Null
    else
      VisitOne(s, k, stack);
      Meaning(e, Body(s, k), ValuesBelow(s, e, stack + [k]))
  }

  ghost function ValuesBelow(s: FieldSet, e: Engine, stack: seq<string>): string -> Value
    requires ClosedOperands(s)
    decreases Unvisited(s, stack), 2
  {
    j => ValueBelow(s, e, j, stack)
  }

  ghost function ValueOf(s: FieldSet, e: Engine): string -> Value
    requires ClosedOperands(s)
  {
    ValuesBelow(s, e, [])
  }

  lemma {:induction false} ValueAt(s: FieldSet, e: Engine, k: string)
    requires ClosedOperands(s)
    ensures ValueOf(s, e)(k) == ValueBelow(s, e, k, [])
  {
  }

  lemma {:induction false} RefValue(s: FieldSet, e: Engine, k: string, stack: seq<string>)
    requires ClosedOperands(s)
    ensures Eval(e, RefSql(s, k, stack)) == ValueBelow(s, e, k, stack)
    decreases Unvisited(s, stack)
  {
    if Has(s, k) && k !in stack && k !in s.bad {
      VisitOne(s, k, stack);
      var env, val := Env(s, stack + [k]), ValuesBelow(s, e, stack + [k]);
      forall j ensures val(j) == Eval(e, env(j)) { RefValue(s, e, j, stack + [k]); }
      ToSqlValue(e, Body(s, k), env, val);
    }
  }

  lemma {:induction false} MeaningDependsOn(e: Engine, t: C.Tree, v: string -> Value, w: string -> Value)
    requires forall k :: k in Idents(t) ==> v(k) == w(k)
    ensures Meaning(e, t, v) == Meaning(e, t, w)
    decreases t, 1
  {
    match t
    case Unary(_, x) => MeaningDependsOn(e, x, v, w);
    case Binary(_, l, r) => MeaningDependsOn(e, l, v, w); MeaningDependsOn(e, r, v, w);
    case Call(_, args) => MeaningsDependOn(e, args, v, w);
    case _ =>
  }

  lemma {:induction false} MeaningsDependOn(e: Engine, ts: seq<C.Tree>, v: string -> Value, w: string -> Value)
    requires forall k :: k in IdentsAll(ts) ==> v(k) == w(k)
    ensures Meanings(e, ts, v) == Meanings(e, ts, w)
    decreases ts, 0
  {
    if ts != [] { MeaningDependsOn(e, ts[0], v, w); MeaningsDependOn(e, ts[1..], v, w); }
  }

  /** A clean field means the same whichever fields led to it. */
  lemma {:induction false} ValueIgnoresStack(s: FieldSet, e: Engine, k: string, stack: seq<string>, less: seq<string>)
    requires ClosedOperands(s) && CleanRef(s, k, stack) && forall j :: j in less ==> j in stack
    ensures ValueBelow(s, e, k, stack) == ValueBelow(s, e, k, less)
    decreases Unvisited(s, stack)
  {
    if Has(s, k) {
      VisitOne(s, k, stack);
      var v, w := ValuesBelow(s, e, stack + [k]), ValuesBelow(s, e, less + [k]);
      forall j | j in Idents(Body(s, k)) ensures v(j) == w(j) {
        CleanStep(s, k, stack, j);
        ValueIgnoresStack(s, e, j, stack + [k], less + [k]);
      }
      MeaningDependsOn(e, Body(s, k), v, w);
    }
  }

  // ----- the theorems -----

  /** A healthy field's value is the meaning of its expression, its references read as
      the values of the fields and operands they name. */
  lemma {:induction false} FieldEquation(s: FieldSet, e: Engine, name: string)
    requires ClosedOperands(s) && Has(s, name) && Healthy(s, name)
    ensures name !in s.bad && ValueOf(s, e)(name) == Meaning(e, Body(s, name), ValueOf(s, e))
    ensures forall k :: !Has(s, k) ==> ValueOf(s, e)(k) == OperandValue(s, e, k)
  {
    hide Meaning, Idents, IsPath;
    assert HealthyAfter(s, name, []) by { assert forall p: seq<string> :: [] + p == p; }
    HealthyIsClean(s, name, []);
    CleanEquation(s, e, name);
    forall k | !Has(s, k) ensures ValueOf(s, e)(k) == OperandValue(s, e, k) { ValueAt(s, e, k); }
  }

  lemma {:induction false} CleanEquation(s: FieldSet, e: Engine, name: string)
    requires ClosedOperands(s) && Clean(s, name, [])
    ensures name !in s.bad && ValueOf(s, e)(name) == Meaning(e, Body(s, name), ValueOf(s, e))
  {
    hide Meaning;
    VisitOne(s, name, []);
    ValueAt(s, e, name);
    assert ValueBelow(s, e, name, []) == Meaning(e, Body(s, name), ValuesBelow(s, e, [] + [name]));
    var v, w := ValuesBelow(s, e, [] + [name]), ValueOf(s, e);
    forall j | j in Idents(Body(s, name)) ensures v(j) == w(j) {
      CleanStep(s, name, [], j);
      ValueIgnoresStack(s, e, j, [] + [name], []);
    }
    MeaningDependsOn(e, Body(s, name), v, w);
  }

  /** Every SQL reading of a looked-up field, with the arguments bound left to right, is
      one closed phrase whose value is the field's; and there is such a reading. */
  lemma {:induction false} LookupMeaning(s: FieldSet, e: Engine, name: string, y: Sql)
    requires ClosedOperands(s) && Has(s, name) && Lookup(s, name).value.Code?
    ensures var r := Lookup(s, name).value;
            Marks(r.text) == |r.args| && Emit(RefSql(s, name, [])) == Bind(r.text, r.args)
    ensures var r := Lookup(s, name).value;
            Emit(y) == Bind(r.text, r.args) ==> Atomic(y) && Eval(e, y) == ValueOf(s, e)(name)
  {
    hide Emit, Flat, Eval;
    var r := Lookup(s, name).value;
    assert [] + [name] == [name];
    ResolveSpells(s, name, [], MAX_EXPANSION);
    var x := RefSql(s, name, []);
    RefClosed(s, name, []);
    ClosedIsTight(x);
    RefValue(s, e, name, []);
    if Emit(y) == Bind(r.text, r.args) {
      ReadingsAgree(x, y);
      SameEval(e, x, y);
      FlatShape(y);
    }
  }
}
