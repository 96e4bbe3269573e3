/** Whether the SQL of a calculated field can be read in one way only. Everything the compiler
    emits is bracketed but the chain of a concat, so a concat of three parts is what decides. */
module CalcReadings {
  import opened Options
  import opened SqlSyntax
  import opened SqlReadings
  import opened CalcCompile
  import opened CalcLookup
  import opened CalcCorrect
  import T = CalcTheorem
  import O = CalcSetObject
  import C = CalcSyntax

  /** No concat of t joins three parts or more. */
  predicate Short(t: C.Tree) {
    match t
    case Unary(_, x) => Short(x)
    case Binary(_, l, r) => Short(l) && Short(r)
    case Call(fn, args) => (fn == C.Concat ==> |args| < 3) && forall i :: 0 <= i < |args| ==> Short(args[i])
    case _ => true
  }

  // ----- an expression -----

  lemma {:induction false} UnaryPlain(op: C.UnOp, x: Sql)
    requires Atomic(x)
    ensures Plain(UnarySql(op, x)) <==> Plain(x)
  {
    var zero := Const(Num(I(0)));
    var inner := if op == C.Not then Negation(x) else Infix(Minus, zero, x);
    assert UnarySql(op, x) == Paren(inner);
    assert Plain(zero);
  }

  lemma {:induction false} BinaryPlain(op: C.BinOp, l: Sql, r: Sql)
    requires Atomic(l) && Atomic(r)
    ensures Plain(BinarySql(op, l, r)) <==> Plain(l) && Plain(r)
  {
    var l' := if op == C.Div then Cast(l, "REAL") else l;
    assert BinarySql(op, l, r) == Paren(Infix(OpOf(op), l', r));
    assert Plain(l') <==> Plain(l);
  }

  lemma {:induction false} ConcatPlain(q: Sql)
    ensures Plain(ConcatSql(q)) <==> Plain(q)
  {
    var cast, empty := Cast(q, "TEXT"), Const(Text(""));
    var args := [cast, empty];
    assert Plain(cast) <==> Plain(q);
    assert Plain(empty);
    assert Plain(args[0]) <==> Plain(q);
    assert args[1] == empty;
  }

  ghost predicate AllPlain(qs: seq<Sql>) { forall i :: 0 <= i < |qs| ==> Plain(qs[i]) }

  lemma {:induction false} JoinPlain(qs: seq<Sql>)
    requires qs != []
    ensures Plain(JoinSql(qs)) <==> AllPlain(qs) && |qs| < 3
  {
    hide ConcatSql;
    ConcatPlain(qs[0]);
    if |qs| > 1 {
      JoinPlain(qs[1..]);
      assert AllPlain(qs) <==> Plain(qs[0]) && AllPlain(qs[1..]) by {
        assert forall i :: 1 <= i < |qs| ==> qs[i] == qs[1..][i - 1];
      }
      ConcatAtomic(qs[0]);
      ConcatAtomic(qs[1]);
      assert JoinSql(qs[1..]).Infix? <==> |qs| > 2;
    }
  }

  lemma {:induction false} ConcatAtomic(q: Sql)
    ensures ConcatSql(q).Func?
  {
  }

  lemma {:induction false} CallPlain(fn: C.Fn, qs: seq<Sql>)
    requires C.ArityOk(fn, |qs|)
    ensures Plain(CallSql(fn, qs)) <==> AllPlain(qs) && (fn == C.Concat ==> |qs| < 3)
  {
    match fn
    case Concat => JoinPlain(qs);
    case If =>
      var inner := Case(qs[0], qs[1], Some(qs[2]));
      assert CallSql(fn, qs) == Paren(inner);
      assert Plain(inner) <==> Plain(qs[0]) && Plain(qs[1]) && Plain(qs[2]);
    case _ =>
  }

  ghost predicate AtomicEnv(env: string -> Sql) { forall k :: Atomic(env(k)) }

  lemma {:induction false} ToSqlAtomic(t: C.Tree, env: string -> Sql)
    requires C.WellFormed(t) && AtomicEnv(env)
    ensures Atomic(ToSql(t, env))
  {
  }

  /** Every operand of refs is written plainly. */
  ghost predicate PlainOn(refs: set<string>, env: string -> Sql) { forall k :: k in refs ==> Plain(env(k)) }

  lemma {:induction false} ToSqlPlain(t: C.Tree, env: string -> Sql)
    requires C.WellFormed(t) && AtomicEnv(env)
    ensures Plain(ToSql(t, env)) <==> Short(t) && PlainOn(Idents(t), env)
    decreases t, 1
  {
    hide UnarySql, BinarySql, CallSql;
    match t
    case Unary(op, x) =>
      ToSqlPlain(x, env);
      ToSqlAtomic(x, env);
      UnaryPlain(op, ToSql(x, env));
    case Binary(op, l, r) =>
      ToSqlPlain(l, env);
      ToSqlPlain(r, env);
      ToSqlAtomic(l, env);
      ToSqlAtomic(r, env);
      BinaryPlain(op, ToSql(l, env), ToSql(r, env));
    case Call(fn, args) =>
      ToSqlsPlain(args, env);
      CallPlain(fn, ToSqls(args, env));
    case _ =>
  }

  ghost predicate AllShort(ts: seq<C.Tree>) { forall i :: 0 <= i < |ts| ==> Short(ts[i]) }

  lemma {:induction false} ToSqlsPlain(ts: seq<C.Tree>, env: string -> Sql)
    requires (forall t :: t in ts ==> C.WellFormed(t)) && AtomicEnv(env)
    ensures AllPlain(ToSqls(ts, env)) <==> AllShort(ts) && PlainOn(IdentsAll(ts), env)
    decreases ts, 0
  {
    hide ToSql, Short;
    if ts != [] {
      ToSqlPlain(ts[0], env);
      ToSqlsPlain(ts[1..], env);
      var qs := ToSqls(ts, env);
      assert qs == [ToSql(ts[0], env)] + ToSqls(ts[1..], env);
      assert AllPlain(qs) <==> Plain(qs[0]) && AllPlain(qs[1..]) by {
        assert forall i :: 1 <= i < |qs| ==> qs[i] == qs[1..][i - 1];
      }
      assert AllShort(ts) <==> Short(ts[0]) && AllShort(ts[1..]) by {
        assert forall i :: 1 <= i < |ts| ==> ts[i] == ts[1..][i - 1];
      }
    }
  }

  /** The SQL of an expression has one reading exactly when no concat joins three parts or
      more, and each operand it reads has one reading. */
  lemma {:induction false} ExpressionReading(t: C.Tree, env: string -> Sql)
    requires C.WellFormed(t) && AtomicEnv(env)
    ensures OneReading(Emit(ToSql(t, env))) <==> Short(t) && forall k :: k in Idents(t) ==> OneReading(Emit(env(k)))
  {
    hide Plain, OneReading, Emit, ToSql, Short;
    ToSqlPlain(t, env);
    OneReadingExactlyWhen(ToSql(t, env));
    forall k ensures OneReading(Emit(env(k))) <==> Plain(env(k)) { OneReadingExactlyWhen(env(k)); }
  }

  // ----- a field -----

  ghost predicate PlainOperand(o: Operand) { o.Reads? && OneReading(Bind(o.text, o.args)) }

  /** The expression of k joins no three parts, and the operands it names have one reading. */
  ghost predicate PlainField(s: FieldSet, k: string)
    requires k in s.exprs && k !in s.bad
  {
    Short(Body(s, k)) && forall j :: j in Idents(Body(s, k)) && !Has(s, j) ==> PlainOperand(s.operand(j))
  }

  /** So it is for k and every field that references lead to from it. */
  ghost predicate PlainBelow(s: FieldSet, k: string) {
    forall p :: IsPath(s, p) && p[0] == k ==> p[|p| - 1] in s.exprs && p[|p| - 1] !in s.bad && PlainField(s, p[|p| - 1])
  }

  lemma {:induction false} OperandPlain(s: FieldSet, k: string)
    requires ClosedOperands(s) && s.operand(k).Reads?
    ensures Plain(OperandSql(s, k)) <==> PlainOperand(s.operand(k))
  {
    hide Plain, OneReading, Emit;
    OneReadingExactlyWhen(OperandSql(s, k));
  }

  lemma {:induction false} BelowStep(s: FieldSet, k: string)
    requires Has(s, k) && k !in s.bad
    ensures PlainBelow(s, k) <==>
              PlainField(s, k) && forall j :: j in Idents(Body(s, k)) && Has(s, j) ==> PlainBelow(s, j)
  {
    hide PlainField, Idents;
    if PlainBelow(s, k) {
      var alone := [k];
      assert IsPath(s, alone) && alone[|alone| - 1] == k;
      forall j | j in Idents(Body(s, k)) && Has(s, j) ensures PlainBelow(s, j) { BelowTail(s, k, j); }
    }
    if PlainField(s, k) && forall j :: j in Idents(Body(s, k)) && Has(s, j) ==> PlainBelow(s, j) {
      forall p | IsPath(s, p) && p[0] == k
        ensures p[|p| - 1] in s.exprs && p[|p| - 1] !in s.bad && PlainField(s, p[|p| - 1])
      {
        if |p| > 1 {
          assert Uses(s, p[0], p[1]);
          PathTail(s, p);
          assert PlainBelow(s, p[1]);
          assert p[1..][|p| - 2] == p[|p| - 1];
        }
      }
    }
  }

  lemma {:induction false} BelowTail(s: FieldSet, k: string, j: string)
    requires Has(s, k) && k !in s.bad && PlainBelow(s, k) && j in Idents(Body(s, k)) && Has(s, j)
    ensures PlainBelow(s, j)
  {
    hide PlainField, Idents;
    forall p | IsPath(s, p) && p[0] == j
      ensures p[|p| - 1] in s.exprs && p[|p| - 1] !in s.bad && PlainField(s, p[|p| - 1])
    {
      PathCons(s, k, p);
      var q := [k] + p;
      assert q[0] == k && q[|q| - 1] == p[|p| - 1];
    }
  }

  lemma {:induction false} RefPlain(s: FieldSet, k: string, stack: seq<string>)
    requires ClosedOperands(s) && Clean(s, k, stack)
    ensures Plain(RefSql(s, k, stack)) <==> PlainBelow(s, k)
    decreases Unvisited(s, stack)
  {
    hide Plain, PlainBelow, OneReading, Emit, ToSql, Short, Idents;
    VisitOne(s, k, stack);
    var t, env := Body(s, k), Env(s, stack + [k]);
    forall j ensures Atomic(env(j)) { T.RefClosed(s, j, stack + [k]); }
    ToSqlPlain(t, env);
    BelowStep(s, k);
    forall j | j in Idents(t)
      ensures if Has(s, j) then Plain(env(j)) <==> PlainBelow(s, j) else Plain(env(j)) <==> PlainOperand(s.operand(j))
    {
      CleanStep(s, k, stack, j);
      assert env(j) == RefSql(s, j, stack + [k]);
      if Has(s, j) { RefPlain(s, j, stack + [k]); } else { OperandPlain(s, j); }
    }
  }

  /** What a lookup emits, with its arguments bound, has one reading exactly when no field that
      can be reached from the name joins three parts or more in a concat, and every operand
      they name has one reading. */
  lemma {:induction false} LookupReading(s: FieldSet, name: string)
    requires ClosedOperands(s) && Has(s, name) && Lookup(s, name).value.Code?
    ensures var r := Lookup(s, name).value; OneReading(Bind(r.text, r.args)) <==> PlainBelow(s, name)
  {
    hide Plain, PlainBelow, OneReading, Emit, Healthy;
    var x := RefSql(s, name, []);
    assert [] + [name] == [name];
    ResolveSpells(s, name, [], MAX_EXPANSION);
    ResolveOutcome(s, name, [], MAX_EXPANSION);
    RefPlain(s, name, []);
    OneReadingExactlyWhen(x);
  }

  /** A concat of three parts is written the same whichever two are joined first. */
  lemma {:induction false} ConcatReadTwoWays(a: Sql, b: Sql, c: Sql) returns (y: Sql)
    ensures Emit(y) == Emit(CallSql(C.Concat, [a, b, c])) && y != CallSql(C.Concat, [a, b, c])
  {
    hide ConcatSql;
    var qs := [a, b, c];
    var x, z, w := ConcatSql(a), ConcatSql(b), ConcatSql(c);
    assert qs[1..] == [b, c] && [b, c][1..] == [c];
    assert JoinSql([c]) == w && JoinSql([b, c]) == Infix(Join, z, w);
    assert JoinSql(qs) == Infix(Join, x, Infix(Join, z, w));
    y := Paren(Infix(Join, Infix(Join, x, z), w));
    TwoOps(x, Join, z, Join, w);
  }

  // ----- fields over spans -----

  lemma {:induction false} ValueSqlPlain(key: string)
    ensures PlainOperand(O.ValueSql(key))
  {
    hide OneReading, Emit;
    if !O.Prefixed(key) && O.ColumnOf(key).Some? {
      var col := O.ColumnOf(key).value;
      O.ColumnReads(col);
      OneReadingExactlyWhen(Column(col));
    } else {
      var path := O.PathOf(key);
      O.AttributeSpells(path);
      AttributePlain(path);
      OneReadingExactlyWhen(O.AttributeSql(path));
    }
  }

  lemma {:induction false} AttributePlain(path: Value)
    ensures Plain(O.AttributeSql(path))
  {
    var attrs, p := Column("attributes"), Const(path);
    assert Plain(attrs) && Plain(p);
    var valid, extract := Func("json_valid", [attrs]), Func("json_extract", [attrs, p]);
    assert Plain(valid) && Plain(extract);
    assert Plain(Case(valid, extract, None));
  }

  /** Over the columns and attributes of spans only a long concat is left to look for. */
  lemma {:induction false} SpanLookupReading(s: FieldSet, name: string)
    requires (forall k :: s.operand(k) == O.ValueSql(k)) && Has(s, name) && Lookup(s, name).value.Code?
    ensures var r := Lookup(s, name).value;
            OneReading(Bind(r.text, r.args)) <==>
              forall p :: IsPath(s, p) && p[0] == name ==>
                p[|p| - 1] in s.exprs && p[|p| - 1] !in s.bad && Short(Body(s, p[|p| - 1]))
  {
    hide OneReading, Short, Idents, Lookup, O.ValueSql, Uses;
    O.SpanOperandsAreClosed(s);
    LookupReading(s, name);
    forall k ensures PlainOperand(s.operand(k)) { ValueSqlPlain(k); }
    hide PlainOperand;
  }
}
