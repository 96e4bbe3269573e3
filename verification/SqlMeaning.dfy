/** What a SQL value expression evaluates to on one span, with NULL as the third truth
    value. Integers are unbounded and reals exact. */
module SqlMeaning {
  import opened Options
  import opened SqlSyntax

  /** The parts of the database that this model leaves open: how text reads as a number,
      how a number prints, lower-casing, the functions and casts an operand may use, and
      the columns of the span. */
  datatype Engine = Engine(
    numberOf: string -> Number,
    textOf: Number -> string,
    fold: string -> string,
    func: (string, seq<Value>) -> Value,
    cast: (string, Value) -> Value,
    column: string -> Value
  )

  // ----- numbers -----

  function AsReal(n: Number): real {
    match n case I(i) => i as real case R(r) => r
  }

  /** Truncation toward zero. */
  function AsInt(n: Number): int {
    match n
    case I(i) => i
    case R(r) => if r >= 0.0 then r.Floor else -((-r).Floor)
  }

  function NumAdd(a: Number, b: Number): Number {
    if a.I? && b.I? then I(a.n + b.n) else R(AsReal(a) + AsReal(b))
  }

  function NumSub(a: Number, b: Number): Number {
    if a.I? && b.I? then I(a.n - b.n) else R(AsReal(a) - AsReal(b))
  }

  function NumMul(a: Number, b: Number): Number {
    if a.I? && b.I? then I(a.n * b.n) else R(AsReal(a) * AsReal(b))
  }

  function Abs(i: int): nat { if i < 0 then -i else i }

  /** Integer division and remainder round toward zero. */
  function TruncDiv(a: int, b: int): int
    requires b != 0
  {
    var q := Abs(a) / Abs(b);
    if (a < 0) == (b < 0) then q else -q
  }

  function TruncMod(a: int, b: int): int
    requires b != 0
  {
    var m := Abs(a) % Abs(b);
    if a < 0 then -m else m
  }

  function NumDiv(a: Number, b: Number): Value {
    if AsReal(b) == 0.0 then Null
    else if a.I? && b.I? then Num(I(TruncDiv(a.n, b.n)))
    else Num(R(AsReal(a) / AsReal(b)))
  }

  function NumMod(a: Number, b: Number): Value {
    if AsInt(b) == 0 then Null
    else
      var m := TruncMod(AsInt(a), AsInt(b));
      Num(if a.I? && b.I? then I(m) else R(m as real))
  }

  // ----- values -----

  function NumberOf(e: Engine, v: Value): Number
    requires !v.Null?
  {
    match v case Num(n) => n case Text(s) => e.numberOf(s)
  }

  function TextOf(e: Engine, v: Value): string
    requires !v.Null?
  {
    match v case Num(n) => e.textOf(n) case Text(s) => s
  }

  function Bool(b: bool): Value { Num(I(if b then 1 else 0)) }

  /** True, false or unknown. */
  function Truth(e: Engine, v: Value): Option<bool> {
    if v.Null? then None else Some(AsReal(NumberOf(e, v)) != 0.0)
  }

  function Logic(t: Option<bool>): Value {
    match t case None => Null case Some(b) => Bool(b)
  }

  function Both(a: Option<bool>, b: Option<bool>): Option<bool> {
    if a == Some(false) || b == Some(false) then Some(false)
    else if a == None || b == None then None
    else Some(true)
  }

  function Either(a: Option<bool>, b: Option<bool>): Option<bool> {
    if a == Some(true) || b == Some(true) then Some(true)
    else if a == None || b == None then None
    else Some(false)
  }

  function Opposite(a: Option<bool>): Option<bool> {
    match a case None => None case Some(b) => Some(!b)
  }

  predicate TextBefore(a: string, b: string) {
    b != [] && (a == [] || a[0] < b[0] || (a[0] == b[0] && TextBefore(a[1..], b[1..])))
  }

  /** Numbers sort before text. */
  predicate Before(a: Value, b: Value)
    requires !a.Null? && !b.Null?
  {
    if a.Num? && b.Num? then AsReal(a.num) < AsReal(b.num)
    else if a.Text? && b.Text? then TextBefore(a.text, b.text)
    else a.Num?
  }

  predicate Level(a: Value, b: Value)
    requires !a.Null? && !b.Null?
  {
    if a.Num? && b.Num? then AsReal(a.num) == AsReal(b.num) else a == b
  }

  function FirstPresent(vs: seq<Value>): Value {
    if vs == [] then Null else if !vs[0].Null? then vs[0] else FirstPresent(vs[1..])
  }

  function JoinText(e: Engine, a: Value, b: Value): Value {
    if a.Null? || b.Null? then Null else Text(TextOf(e, a) + TextOf(e, b))
  }

  predicate Compares(op: SqlOp) {
    op.Equal? || op.Unequal? || op.Less? || op.LessEq? || op.Greater? || op.GreaterEq?
  }

  predicate Computes(op: SqlOp) {
    op.Plus? || op.Minus? || op.Times? || op.Divide? || op.Percent?
  }

  function Operate(e: Engine, op: SqlOp, a: Value, b: Value): Value {
    if op == AndOp then Logic(Both(Truth(e, a), Truth(e, b)))
    else if op == OrOp then Logic(Either(Truth(e, a), Truth(e, b)))
    else if op == Join then JoinText(e, a, b)
    else if a.Null? || b.Null? then Null
    else if Compares(op) then Bool(Holds(op, a, b))
    else Compute(op, NumberOf(e, a), NumberOf(e, b))
  }

  predicate Holds(op: SqlOp, a: Value, b: Value)
    requires !a.Null? && !b.Null?
    requires Compares(op)
  {
    match op
    case Equal => Level(a, b)
    case Unequal => !Level(a, b)
    case Less => Before(a, b)
    case LessEq => !Before(b, a)
    case Greater => Before(b, a)
    case GreaterEq => !Before(a, b)
  }

  function Compute(op: SqlOp, x: Number, y: Number): Value
    requires Computes(op)
  {
    match op
    case Plus => Num(NumAdd(x, y))
    case Minus => Num(NumSub(x, y))
    case Times => Num(NumMul(x, y))
    case Divide => NumDiv(x, y)
    case Percent => NumMod(x, y)
  }

  function CastTo(e: Engine, ty: string, v: Value): Value {
    if v.Null? then Null
    else if ty == "REAL" then Num(R(AsReal(NumberOf(e, v))))
    else if ty == "TEXT" then Text(TextOf(e, v))
    else e.cast(ty, v)
  }

  function ApplyFunc(e: Engine, name: string, vs: seq<Value>): Value {
    if name == "COALESCE" then FirstPresent(vs)
    else if name == "lower" && |vs| == 1 then
      if vs[0].Null? then Null else Text(e.fold(TextOf(e, vs[0])))
    else e.func(name, vs)
  }

  function Eval(e: Engine, s: Sql): Value
    decreases s, 1
  {
    match s
    case Const(v) => v
    case Column(n) => e.column(n)
    case Paren(x) => Eval(e, x)
    case Infix(op, l, r) => Operate(e, op, Eval(e, l), Eval(e, r))
    case Negation(x) => Logic(Opposite(Truth(e, Eval(e, x))))
    case Cast(x, ty) => CastTo(e, ty, Eval(e, x))
    case Func(n, args) => ApplyFunc(e, n, EvalAll(e, args))
    case Case(c, y, n) =>
      if Truth(e, Eval(e, c)) == Some(true) then Eval(e, y) else EvalElse(e, n)
  }

  function EvalElse(e: Engine, x: Option<Sql>): Value
    decreases x, 0
  {
    match x case None => Null case Some(s) => Eval(e, s)
  }

  function EvalAll(e: Engine, args: seq<Sql>): (vs: seq<Value>)
    ensures |vs| == |args|
    decreases args, 0
  {
    if args == [] then [] else [Eval(e, args[0])] + EvalAll(e, args[1..])
  }

  // ----- phrases whose value does not depend on how operators are grouped -----

  ghost predicate Joins(items: seq<Item>) {
    forall i :: 0 <= i < |items| ==> items[i].AtomI? || items[i] == OpI(Join)
  }

  /** One operator, one not, or joins only between the operands. */
  ghost predicate Simple(items: seq<Item>) {
    Joins(items) || (|items| == 2 && items[0].NotI?) || (|items| == 3 && items[1].OpI?)
  }

  ghost predicate Tight(s: Sql)
    decreases s, 1
  {
    Simple(Flat(s)) && forall i :: 0 <= i < |Flat(s)| && Flat(s)[i].AtomI? ==> TightAtom(Flat(s)[i].atom)
  }

  ghost predicate TightAtom(a: Sql)
    decreases a, 0
  {
    match a
    case Paren(x) => Tight(x)
    case Cast(x, _) => Tight(x)
    case Func(_, args) => forall i :: 0 <= i < |args| ==> Tight(args[i])
    case Case(c, y, n) => Tight(c) && Tight(y) && (n.Some? ==> Tight(n.value))
    case _ => true
  }

  /** The operands of a join chain, joined left to right. */
  ghost function JoinAll(e: Engine, items: seq<Item>): Value
    requires items != []
  {
    var v := if items[0].AtomI? then Eval(e, items[0].atom) else Null;
    if |items| <= 2 then v else JoinText(e, v, JoinAll(e, items[2..]))
  }

  lemma {:induction false} JoinAllConcat(e: Engine, xs: seq<Item>, ys: seq<Item>)
    requires |xs| % 2 == 1 && ys != []
    ensures |xs + [OpI(Join)] + ys| > 0
    ensures JoinAll(e, xs + [OpI(Join)] + ys) == JoinText(e, JoinAll(e, xs), JoinAll(e, ys))
  {
    hide Eval;
    var all := xs + [OpI(Join)] + ys;
    if |xs| == 1 {
      assert all[2..] == ys;
    } else {
      assert all[2..] == xs[2..] + [OpI(Join)] + ys;
      JoinAllConcat(e, xs[2..], ys);
    }
  }

  /** However a join chain is grouped, it evaluates to its operands joined in order. */
  lemma {:induction false} JoinChain(e: Engine, s: Sql)
    requires Joins(Flat(s))
    ensures |Flat(s)| % 2 == 1 && Eval(e, s) == JoinAll(e, Flat(s))
  {
    match s
    case Infix(op, l, r) =>
      hide JoinAll;
      JoinParts(s);
      JoinChain(e, l);
      JoinChain(e, r);
      JoinAllConcat(e, Flat(l), Flat(r));
    case Negation(x) => JoinParts(s);
    case _ =>
  }

  lemma {:induction false} JoinParts(s: Sql)
    requires Joins(Flat(s))
    ensures !s.Negation?
    ensures s.Infix? ==> s.op == Join && Joins(Flat(s.l)) && Joins(Flat(s.r))
  {
    var f := Flat(s);
    if s.Infix? {
      var n := |Flat(s.l)|;
      assert f[n] == OpI(s.op);
      assert f[..n] == Flat(s.l) && f[n + 1..] == Flat(s.r);
    }
    var first := f[0];
    assert s.Negation? ==> first == NotI;
  }

  lemma {:induction false} SameJoinAll(e: Engine, xs: seq<Item>, ys: seq<Item>)
    requires |xs| == |ys| > 0
    requires forall i :: 0 <= i < |xs| ==> SameValue(e, xs[i], ys[i])
    ensures JoinAll(e, xs) == JoinAll(e, ys)
  {
    assert SameValue(e, xs[0], ys[0]);
    if |xs| > 2 {
      forall i | 0 <= i < |xs| - 2 ensures SameValue(e, xs[2..][i], ys[2..][i]) {
        assert SameValue(e, xs[i + 2], ys[i + 2]);
      }
      SameJoinAll(e, xs[2..], ys[2..]);
    }
  }

  ghost predicate SameValue(e: Engine, p: Item, q: Item) {
    match p
    case AtomI(a) => q.AtomI? && Eval(e, a) == Eval(e, q.atom)
    case _ => p == q
  }

  /** A phrase with one not or one operator can only be read one way. */
  lemma {:induction false} FlatShape(s: Sql)
    ensures |Flat(s)| == 1 ==> Flat(s) == [AtomI(s)] && Atomic(s)
    ensures |Flat(s)| == 2 && Flat(s)[0].NotI? ==> s.Negation? && Flat(s)[1] == AtomI(s.x)
    ensures |Flat(s)| == 3 && Flat(s)[1].OpI? ==>
              s.Infix? && s.op == Flat(s)[1].op && Flat(s)[0] == AtomI(s.l) && Flat(s)[2] == AtomI(s.r)
  {
    FlatAlternates(s);
    match s
    case Infix(_, l, r) => FlatShape(l); FlatShape(r);
    case Negation(x) =>
      FlatShape(x);
      FlatAlternates(x);
      if |Flat(s)| == 3 { assert Flat(s)[1] == Flat(x)[0]; }
    case _ =>
  }

  /** Readings that differ only in grouping have the same value, when grouping cannot matter. */
  lemma {:induction false} SameEval(e: Engine, x: Sql, y: Sql)
    requires Same(x, y) && Tight(x)
    ensures Eval(e, x) == Eval(e, y)
    decreases x, 1
  {
    var f, g := Flat(x), Flat(y);
    forall i | 0 <= i < |f| ensures SameValue(e, f[i], g[i]) {
      assert SameItem(x, f[i], g[i]);
      if f[i].AtomI? { SameAtomEval(e, x, f[i].atom, g[i].atom); }
    }
    GroupedEval(e, x, y);
  }

  lemma {:induction false} GroupedEval(e: Engine, x: Sql, y: Sql)
    requires |Flat(x)| == |Flat(y)| && Simple(Flat(x))
    requires forall i :: 0 <= i < |Flat(x)| ==> SameValue(e, Flat(x)[i], Flat(y)[i])
    ensures Eval(e, x) == Eval(e, y)
  {
    var f, g := Flat(x), Flat(y);
    FlatShape(x); FlatShape(y);
    if Joins(f) {
      forall i | 0 <= i < |g| ensures g[i].AtomI? || g[i] == OpI(Join) { assert SameValue(e, f[i], g[i]); }
      JoinChain(e, x); JoinChain(e, y);
      SameJoinAll(e, f, g);
    } else {
      assert SameValue(e, f[0], g[0]) && SameValue(e, f[1], g[1]);
      if |f| == 3 { assert SameValue(e, f[2], g[2]); }
    }
  }

  lemma {:induction false} SameAtomEval(e: Engine, x: Sql, a: Sql, b: Sql)
    requires (a == x || a < x) && Atomic(a) && SameAtom(a, b) && TightAtom(a)
    ensures Eval(e, a) == Eval(e, b)
    decreases x, 0
  {
    match a
    case Paren(y) => SameEval(e, y, b.x);
    case Cast(y, _) => SameEval(e, y, b.x);
    case Func(_, args) => SameEvalAll(e, x, args, b.args);
    case Case(c, y, n) =>
      SameEval(e, c, b.cond);
      SameEval(e, y, b.yes);
      if n.Some? { SameEval(e, n.value, b.no.value); }
    case _ =>
  }

  lemma {:induction false} SameEvalAll(e: Engine, x: Sql, args: seq<Sql>, brgs: seq<Sql>)
    requires forall i :: 0 <= i < |args| ==> args[i] < x
    requires |args| == |brgs| && forall i :: 0 <= i < |args| ==> Same(args[i], brgs[i]) && Tight(args[i])
    ensures EvalAll(e, args) == EvalAll(e, brgs)
    decreases x, 0, |args|
  {
    if args != [] {
      SameEval(e, args[0], brgs[0]);
      SameEvalAll(e, x, args[1..], brgs[1..]);
    }
  }
}
