/** What a calculated-field expression means on one span, given the values of its
    identifiers. A missing operand makes the result missing, except where coalesce, if,
    concat, and or or say otherwise; division is real division and has no value for a
    zero divisor. */
module CalcMeaning {
  import opened Options
  import opened SqlSyntax
  import opened SqlMeaning
  import C = CalcSyntax

  function Literal(n: C.Num): Value {
    match n case Whole(i) => Num(I(i)) case Frac(r) => Num(R(r))
  }

  function Negated(n: Number): Number {
    match n case I(i) => I(-i) case R(r) => R(-r)
  }

  /** Text as it is, numbers printed, a missing value as nothing. */
  function Printed(e: Engine, v: Value): string {
    if v.Null? then "" else TextOf(e, v)
  }

  function PrintedAll(e: Engine, vs: seq<Value>): string {
    if vs == [] then "" else Printed(e, vs[0]) + PrintedAll(e, vs[1..])
  }

  function Meaning(e: Engine, t: C.Tree, val: string -> Value): Value
    decreases t, 1
  {
    match t
    case Number(n) => Literal(n)
    case Str(s) => Text(s)
    case Ident(k) => val(k)
    case Unary(op, x) => UnaryMeaning(e, op, Meaning(e, x, val))
    case Binary(op, l, r) => BinaryMeaning(e, op, Meaning(e, l, val), Meaning(e, r, val))
    case Call(fn, args) => CallMeaning(e, fn, Meanings(e, args, val))
  }

  function Meanings(e: Engine, ts: seq<C.Tree>, val: string -> Value): (vs: seq<Value>)
    ensures |vs| == |ts|
    decreases ts, 0
  {
    if ts == [] then [] else [Meaning(e, ts[0], val)] + Meanings(e, ts[1..], val)
  }

  function UnaryMeaning(e: Engine, op: C.UnOp, v: Value): Value {
    match op
    case Not => Logic(Opposite(Truth(e, v)))
    case Neg => if v.Null? then Null else Num(Negated(NumberOf(e, v)))
  }

  function BinaryMeaning(e: Engine, op: C.BinOp, a: Value, b: Value): Value {
    if op == C.And then Logic(Both(Truth(e, a), Truth(e, b)))
    else if op == C.Or then Logic(Either(Truth(e, a), Truth(e, b)))
    else if a.Null? || b.Null? then Null
    else StrictMeaning(e, op, a, b)
  }

  /** Operators that need both operands present. */
  function StrictMeaning(e: Engine, op: C.BinOp, a: Value, b: Value): Value
    requires !a.Null? && !b.Null? && op != C.And && op != C.Or
  {
    match op
    case Eq => Bool(Level(a, b))
    case EqEq => Bool(Level(a, b))
    case NotEq => Bool(!Level(a, b))
    case LessGreater => Bool(!Level(a, b))
    case Lt => Bool(Before(a, b))
    case Le => Bool(!Before(b, a))
    case Gt => Bool(Before(b, a))
    case Ge => Bool(!Before(a, b))
    case Add => Num(NumAdd(NumberOf(e, a), NumberOf(e, b)))
    case Sub => Num(NumSub(NumberOf(e, a), NumberOf(e, b)))
    case Mul => Num(NumMul(NumberOf(e, a), NumberOf(e, b)))
    case Div => Quotient(AsReal(NumberOf(e, a)), AsReal(NumberOf(e, b)))
    case Mod => NumMod(NumberOf(e, a), NumberOf(e, b))
  }

  function Quotient(a: real, b: real): Value {
    if b == 0.0 then Null else Num(R(a / b))
  }

  function CallMeaning(e: Engine, fn: C.Fn, vs: seq<Value>): Value {
    match fn
    case Coalesce => FirstPresent(vs)
    case Concat => Text(PrintedAll(e, vs))
    case If => if |vs| != 3 then Null else if Truth(e, vs[0]) == Some(true) then vs[1] else vs[2]
    case Lower => if |vs| != 1 || vs[0].Null? then Null else Text(e.fold(TextOf(e, vs[0])))
  }
}
