/** The calculated-field language: trees, tokens, caps and the concrete syntax
    that the precedence ladder reads. */
module CalcSyntax {
  import opened Options

  const MAX_DEPTH: nat := 16
  const MAX_NODES: nat := 200
  const MAX_CALL_ARGS: nat := 8

  /** A number literal's value: an integer that fits 64 bits, or a real. */
  datatype Num = Whole(n: int) | Frac(r: real)

  datatype BinOp = Or | And | Eq | EqEq | NotEq | LessGreater | Lt | Le | Gt | Ge | Add | Sub | Mul | Div | Mod

  datatype UnOp = Not | Neg

  datatype Fn = Coalesce | If | Concat | Lower

  datatype Tree =
    | Number(num: Num)
    | Str(text: string)
    | Ident(name: string)
    | Unary(uop: UnOp, x: Tree)
    | Binary(op: BinOp, l: Tree, r: Tree)
    | Call(fn: Fn, args: seq<Tree>)

  datatype Token =
    | End
    | NumberT(num: Num)
    | StringT(text: string)
    | Word(text: string)
    | Quoted(text: string)
    | Op(op: BinOp)
    | LParen
    | RParen
    | Comma

  /** The argument counts a function accepts. */
  predicate ArityOk(fn: Fn, n: nat) {
    match fn
    case Coalesce => 2 <= n <= MAX_CALL_ARGS
    case If => n == 3
    case Concat => 2 <= n <= MAX_CALL_ARGS
    case Lower => n == 1
  }

  function LowerChar(c: char): char {
    if 'A' <= c <= 'Z' then (c as int + 32) as char else c
  }

  function ToLower(s: string): (r: string)
    ensures |r| == |s|
  {
    seq(|s|, i requires 0 <= i < |s| => LowerChar(s[i]))
  }

  function FnOf(name: string): Option<Fn> {
    var low := ToLower(name);
    if low == "coalesce" then Some(Coalesce)
    else if low == "if" then Some(If)
    else if low == "concat" then Some(Concat)
    else if low == "lower" then Some(Lower)
    else None
  }

  function FnName(fn: Fn): string {
    match fn
    case Coalesce => "coalesce"
    case If => "if"
    case Concat => "concat"
    case Lower => "lower"
  }

  predicate Reserved(w: string) {
    w == "and" || w == "or" || w == "not"
  }

  // The rungs of the ladder, loosest first: or, and, not, comparison, sum,
  // product, sign, primary.
  const OR_RUNG: nat := 0
  const AND_RUNG: nat := 1
  const NOT_RUNG: nat := 2
  const COMPARE_RUNG: nat := 3
  const SUM_RUNG: nat := 4
  const PRODUCT_RUNG: nat := 5
  const SIGN_RUNG: nat := 6
  const PRIMARY_RUNG: nat := 7

  function OpRung(op: BinOp): (k: nat)
    ensures k in {OR_RUNG, AND_RUNG, COMPARE_RUNG, SUM_RUNG, PRODUCT_RUNG}
  {
    match op
    case Or => OR_RUNG
    case And => AND_RUNG
    case Add => SUM_RUNG
    case Sub => SUM_RUNG
    case Mul => PRODUCT_RUNG
    case Div => PRODUCT_RUNG
    case Mod => PRODUCT_RUNG
    case _ => COMPARE_RUNG
  }

  /** The infix operator a token spells, if any. */
  function InfixOf(t: Token): Option<BinOp> {
    match t
    case Word(w) => if w == "or" then Some(Or) else if w == "and" then Some(And) else None
    case Op(op) => if op == Or || op == And then None else Some(op)
    case _ => None
  }

  function OpToken(op: BinOp): (t: Token)
    ensures InfixOf(t) == Some(op)
  {
    match op
    case Or => Word("or")
    case And => Word("and")
    case _ => Op(op)
  }

  /** The token at pos; the lexer's End stands after the last token. */
  function Peek(toks: seq<Token>, pos: nat): (t: Token)
    ensures !t.End? ==> pos < |toks|
  {
    if pos < |toks| then toks[pos] else End
  }

  // ----- concrete syntax: what a user may write, with every bracket, sign and comma -----

  datatype Phrase =
    | Atom(tok: Token)
    | Group(inner: Phrase)
    | Apply(name: string, actuals: seq<Phrase>, trailing: bool)
    | Signed(minus: bool, operand: Phrase)
    | Negate(operand: Phrase)
    | Infix(op: BinOp, l: Phrase, r: Phrase)

  function RungOf(p: Phrase): (k: nat)
    ensures k <= PRIMARY_RUNG
  {
    match p
    case Infix(op, _, _) => OpRung(op)
    case Negate(_) => NOT_RUNG
    case Signed(_, _) => SIGN_RUNG
    case _ => PRIMARY_RUNG
  }

  /** Left-associative rungs take their own rung on the left; comparison does not. */
  function LeftRung(op: BinOp): nat {
    if OpRung(op) == COMPARE_RUNG then SUM_RUNG else OpRung(op)
  }

  predicate AtomOk(t: Token) {
    t.NumberT? || t.StringT? || t.Quoted? || (t.Word? && !Reserved(t.text))
  }

  ghost predicate Grammatical(p: Phrase) {
    match p
    case Atom(t) => AtomOk(t)
    case Group(x) => Grammatical(x)
    case Apply(name, args, _) =>
      FnOf(name).Some? && ArityOk(FnOf(name).value, |args|) && forall a :: a in args ==> Grammatical(a)
    case Signed(_, x) => Grammatical(x) && RungOf(x) >= SIGN_RUNG
    case Negate(x) => Grammatical(x) && RungOf(x) >= NOT_RUNG
    case Infix(op, l, r) =>
      Grammatical(l) && Grammatical(r) && RungOf(l) >= LeftRung(op) && RungOf(r) > OpRung(op)
  }

  /** The tokens of a phrase, left to right. */
  function Yield(p: Phrase): (s: seq<Token>)
    decreases p, 1
  {
    match p
    case Atom(t) => [t]
    case Group(x) => [LParen] + Yield(x) + [RParen]
    case Apply(name, args, trailing) => [Word(name), LParen] + YieldAll(args, trailing) + [RParen]
    case Signed(minus, x) => [Op(if minus then Sub else Add)] + Yield(x)
    case Negate(x) => [Word("not")] + Yield(x)
    case Infix(op, l, r) => Yield(l) + [OpToken(op)] + Yield(r)
  }

  function YieldAll(args: seq<Phrase>, trailing: bool): seq<Token>
    decreases args, 0
  {
    if args == [] then []
    else if |args| == 1 then Yield(args[0]) + if trailing then [Comma] else []
    else Yield(args[0]) + [Comma] + YieldAll(args[1..], trailing)
  }

  /** The tree a phrase stands for: brackets, plus signs and a trailing comma leave no trace. */
  function TreeOf(p: Phrase): Tree
    requires Grammatical(p)
    decreases p, 1
  {
    match p
    case Atom(NumberT(n)) => Number(n)
    case Atom(StringT(s)) => Str(s)
    case Atom(t) => Ident(t.text)
    case Group(x) => TreeOf(x)
    case Apply(name, args, _) => Call(FnOf(name).value, TreesOf(args))
    case Signed(minus, x) => if minus then Unary(Neg, TreeOf(x)) else TreeOf(x)
    case Negate(x) => Unary(Not, TreeOf(x))
    case Infix(op, l, r) => Binary(op, TreeOf(l), TreeOf(r))
  }

  function TreesOf(args: seq<Phrase>): (ts: seq<Tree>)
    requires forall a :: a in args ==> Grammatical(a)
    ensures |ts| == |args|
    decreases args, 0
  {
    if args == [] then [] else [TreeOf(args[0])] + TreesOf(args[1..])
  }

  /** The number of terms of a tree, which MAX_NODES caps. */
  function Size(t: Tree): (n: nat)
    ensures n >= 1
    decreases t, 1
  {
    match t
    case Unary(_, x) => Size(x) + 1
    case Binary(_, l, r) => Size(l) + Size(r) + 1
    case Call(_, args) => SizeAll(args) + 1
    case _ => 1
  }

  function SizeAll(ts: seq<Tree>): nat
    decreases ts, 0
  {
    if ts == [] then 0 else Size(ts[0]) + SizeAll(ts[1..])
  }

  function Max(a: nat, b: nat): nat { if a >= b then a else b }

  /** How many brackets, calls, signs and nots enclose the innermost term, which MAX_DEPTH caps. */
  function Height(p: Phrase): nat
    decreases p, 1
  {
    match p
    case Atom(_) => 0
    case Group(x) => 1 + Height(x)
    case Apply(_, args, _) => 1 + HeightAll(args)
    case Signed(_, x) => 1 + Height(x)
    case Negate(x) => 1 + Height(x)
    case Infix(_, l, r) => Max(Height(l), Height(r))
  }

  function HeightAll(ps: seq<Phrase>): nat
    decreases ps, 0
  {
    if ps == [] then 0 else Max(Height(ps[0]), HeightAll(ps[1..]))
  }

  /** p spells exactly toks and is within the caps. */
  ghost predicate Sentence(p: Phrase, toks: seq<Token>) {
    && Grammatical(p)
    && Yield(p) == toks
    && Size(TreeOf(p)) <= MAX_NODES
    && 1 + Height(p) <= MAX_DEPTH
  }

  /** Every call of the tree has a legal argument count. */
  ghost predicate WellFormed(t: Tree) {
    match t
    case Unary(_, x) => WellFormed(x)
    case Binary(_, l, r) => WellFormed(l) && WellFormed(r)
    case Call(fn, args) => ArityOk(fn, |args|) && forall a :: a in args ==> WellFormed(a)
    case _ => true
  }
}
