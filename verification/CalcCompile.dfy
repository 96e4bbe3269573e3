/** The compiler of internal/calcfield/compile.go and the field set of set.go, as
    functions: what is emitted, what is bound, and what is left of the budget. */
module CalcCompile {
  import opened Options
  import opened SqlSyntax
  import opened CalcMeaning
  import C = CalcSyntax
  import S = CalcSource

  const MAX_EXPANSION: nat := 2000

  datatype Failure =
    | TooManyTerms
    | BadField(name: string, problem: S.Refusal)
    | Cycle(path: seq<string>, key: string)
    | OperandFailed(key: string)

  /** A text with placeholders, the values bound to them in order, and the terms still allowed. */
  datatype Out = Code(text: seq<Lexeme>, args: seq<Value>, left: nat) | Fail(why: Failure)

  datatype Parts = Parts(texts: seq<seq<Lexeme>>, args: seq<Value>, left: nat) | NoParts(why: Failure)

  /** What the operand resolver says about a key. */
  datatype Operand = Reads(text: seq<Lexeme>, args: seq<Value>) | Unreadable

  datatype RawSet = RawSet(
    exprs: map<string, Option<C.Tree>>,
    bad: map<string, S.Refusal>,
    operand: string -> Operand,
    builtin: string -> bool
  )

  /** A field without a tree has a parse error, and a tree has legal argument counts. */
  ghost predicate WellMade(s: RawSet) {
    forall k :: k in s.exprs ==>
      (s.exprs[k].None? ==> k in s.bad) && (s.exprs[k].Some? ==> C.WellFormed(s.exprs[k].value))
  }

  type FieldSet = s: RawSet | WellMade(s) witness RawSet(map[], map[], k => Unreadable, k => false)

  predicate Has(s: FieldSet, k: string) { k in s.exprs && !s.builtin(k) }

  /** The expression of a field that parsed. */
  function Body(s: FieldSet, k: string): (t: C.Tree)
    requires k in s.exprs && k !in s.bad
    ensures C.WellFormed(t)
  {
    s.exprs[k].value
  }

  // ----- emitted text -----

  function OpOf(op: C.BinOp): SqlOp {
    match op
    case Or => OrOp
    case And => AndOp
    case Eq => Equal
    case EqEq => Equal
    case NotEq => Unequal
    case LessGreater => Unequal
    case Lt => Less
    case Le => LessEq
    case Gt => Greater
    case Ge => GreaterEq
    case Add => Plus
    case Sub => Minus
    case Mul => Times
    case Div => Divide
    case Mod => Percent
  }

  function UnaryText(op: C.UnOp, x: seq<Lexeme>): seq<Lexeme> {
    match op
    case Not => [Open, Kw(NOT)] + x + [Close]
    case Neg => [Open, Val(Num(I(0))), Sym(Minus)] + x + [Close]
  }

  function BinaryText(op: C.BinOp, l: seq<Lexeme>, r: seq<Lexeme>): seq<Lexeme> {
    if op == C.Div then [Open, Kw(CAST), Open] + l + [Kw(AS), Name("REAL"), Close, Sym(Divide)] + r + [Close]
    else [Open] + l + [Sym(OpOf(op))] + r + [Close]
  }

  /** strings.Join. */
  function Joined(parts: seq<seq<Lexeme>>, sep: Lexeme): seq<Lexeme> {
    if parts == [] then []
    else if |parts| == 1 then parts[0]
    else parts[0] + [sep] + Joined(parts[1..], sep)
  }

  function ConcatPart(p: seq<Lexeme>): seq<Lexeme> {
    [Name("COALESCE"), Open, Kw(CAST), Open] + p + [Kw(AS), Name("TEXT"), Close, Sep, Val(Text("")), Close]
  }

  function ConcatParts(parts: seq<seq<Lexeme>>): (r: seq<seq<Lexeme>>)
    ensures |r| == |parts|
  {
    seq(|parts|, i requires 0 <= i < |parts| => ConcatPart(parts[i]))
  }

  function CallText(fn: C.Fn, parts: seq<seq<Lexeme>>): seq<Lexeme>
    requires C.ArityOk(fn, |parts|)
  {
    match fn
    case Coalesce => [Name("COALESCE"), Open] + Joined(parts, Sep) + [Close]
    case Lower => [Name("lower"), Open] + parts[0] + [Close]
    case If => [Open, Kw(CASE), Kw(WHEN)] + parts[0] + [Kw(THEN)] + parts[1] + [Kw(ELSE)] + parts[2] + [Kw(END), Close]
    case Concat => [Open] + Joined(ConcatParts(parts), Sym(Join)) + [Close]
  }

  // ----- the compiler -----

  /** Compiles t, read as part of the field at the end of stack. */
  function Node(s: FieldSet, t: C.Tree, stack: seq<string>, left: nat): (r: Out)
    requires C.WellFormed(t)
    ensures r.Code? ==> r.left < left
    decreases left, 0, 0
  {
    if left == 0 then Fail(TooManyTerms)
    else
      match t
      case Number(n) => Code([Mark], [Literal(n)], left - 1)
      case Str(x) => Code([Mark], [Text(x)], left - 1)
      case Ident(k) => Resolve(s, k, stack, left - 1)
      case Unary(op, x) =>
        (match Node(s, x, stack, left - 1)
         case Fail(w) => Fail(w)
         case Code(text, args, l1) => Code(UnaryText(op, text), args, l1))
      case Binary(op, l, r) =>
        (match Node(s, l, stack, left - 1)
         case Fail(w) => Fail(w)
         case Code(text1, args1, l1) =>
           match Node(s, r, stack, l1)
           case Fail(w) => Fail(w)
           case Code(text2, args2, l2) => Code(BinaryText(op, text1, text2), args1 + args2, l2))
      case Call(fn, args) =>
        match NodeAll(s, args, stack, left - 1)
        case NoParts(w) => Fail(w)
        case Parts(texts, vs, l1) => Code(CallText(fn, texts), vs, l1)
  }

  function NodeAll(s: FieldSet, ts: seq<C.Tree>, stack: seq<string>, left: nat): (r: Parts)
    requires forall t :: t in ts ==> C.WellFormed(t)
    ensures r.Parts? ==> r.left <= left && |r.texts| == |ts|
    decreases left, 1, |ts|
  {
    if ts == [] then Parts([], [], left)
    else
      match Node(s, ts[0], stack, left)
      case Fail(w) => NoParts(w)
      case Code(text, args, l1) =>
        match NodeAll(s, ts[1..], stack, l1)
        case NoParts(w) => NoParts(w)
        case Parts(texts, vs, l2) => Parts([text] + texts, args + vs, l2)
  }

  /** Another field of the set expands in place; anything else is an operand. */
  function Resolve(s: FieldSet, k: string, stack: seq<string>, left: nat): (r: Out)
    ensures r.Code? ==> r.left <= left
    decreases left, 1, 0
  {
    if !Has(s, k) then
      match s.operand(k)
      case Reads(text, args) => Code(text, args, left)
      case Unreadable => Fail(OperandFailed(k))
    else if k in stack then Fail(Cycle(stack, k))
    else Field(s, k, stack + [k], left)
  }

  function Field(s: FieldSet, k: string, stack: seq<string>, left: nat): (r: Out)
    requires Has(s, k)
    ensures r.Code? ==> r.left <= left
    decreases left, 0, 1
  {
    if k in s.bad then Fail(BadField(k, s.bad[k])) else Node(s, Body(s, k), stack, left)
  }

  /** None when the set has no such field. */
  function Lookup(s: FieldSet, name: string): Option<Out> {
    if !Has(s, name) then None else Some(Field(s, name, [name], MAX_EXPANSION))
  }
}
