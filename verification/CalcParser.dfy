/** The recursive-descent ladder of internal/calcfield/parse.go, as functions on a position
    and a term count. */
module CalcParser {
  import opened CalcSyntax

  datatype Problem =
    | TooDeep
    | TooManyTerms
    | Unexpected(tok: Token)
    | ReservedWord(word: string)
    | UnknownFunction(name: string)
    | MissingParen
    | TooManyArguments
    | WrongArgumentCount

  /** What a rung returns: the tree, the next position and the terms made so far. */
  datatype Step = Ok(tree: Tree, pos: nat, nodes: nat) | Err(problem: Problem)

  datatype ArgsStep = Args(args: seq<Tree>, pos: nat, nodes: nat) | ArgsErr(problem: Problem)

  function Make(t: Tree, pos: nat, nodes: nat): Step {
    if nodes + 1 > MAX_NODES then Err(TooManyTerms) else Ok(t, pos, nodes + 1)
  }

  predicate InfixAt(rung: nat, t: Token) {
    InfixOf(t).Some? && OpRung(InfixOf(t).value) == rung
  }

  predicate IsSign(t: Token) {
    t.Op? && (t.op == Add || t.op == Sub)
  }

  /** Reads one phrase of the given rung at pos. */
  function Rung(rung: nat, toks: seq<Token>, pos: nat, nodes: nat, depth: nat): (r: Step)
    requires rung <= PRIMARY_RUNG
    ensures r.Ok? ==> pos < r.pos <= |toks| && nodes < r.nodes <= MAX_NODES
    decreases |toks| - pos, 10 - rung, 1
  {
    if rung == NOT_RUNG then NotRung(toks, pos, nodes, depth)
    else if rung == COMPARE_RUNG then CompareRung(toks, pos, nodes, depth)
    else if rung == SIGN_RUNG then SignRung(toks, pos, nodes, depth)
    else if rung == PRIMARY_RUNG then Primary(toks, pos, nodes, depth)
    else Ladder(rung, toks, pos, nodes, depth)
  }

  /** A left-associative rung; or also enters a nesting level, so it checks the depth. */
  function Ladder(rung: nat, toks: seq<Token>, pos: nat, nodes: nat, depth: nat): (r: Step)
    requires rung < SIGN_RUNG
    ensures r.Ok? ==> pos < r.pos <= |toks| && nodes < r.nodes <= MAX_NODES
    decreases |toks| - pos, 10 - rung, 0
  {
    if rung == OR_RUNG && depth > MAX_DEPTH then Err(TooDeep)
    else
      match Rung(rung + 1, toks, pos, nodes, depth)
      case Err(e) => Err(e)
      case Ok(l, p, n) => Rest(rung, l, toks, p, n, depth)
  }

  function NotRung(toks: seq<Token>, pos: nat, nodes: nat, depth: nat): (r: Step)
    ensures r.Ok? ==> pos < r.pos <= |toks| && nodes < r.nodes <= MAX_NODES
    decreases |toks| - pos, 10 - NOT_RUNG, 0
  {
    if Peek(toks, pos) != Word("not") then Rung(COMPARE_RUNG, toks, pos, nodes, depth)
    else if depth + 1 > MAX_DEPTH then Err(TooDeep)
    else
      match Rung(NOT_RUNG, toks, pos + 1, nodes, depth + 1)
      case Err(e) => Err(e)
      case Ok(x, p, n) => Make(Unary(Not, x), p, n)
  }

  function CompareRung(toks: seq<Token>, pos: nat, nodes: nat, depth: nat): (r: Step)
    ensures r.Ok? ==> pos < r.pos <= |toks| && nodes < r.nodes <= MAX_NODES
    decreases |toks| - pos, 10 - COMPARE_RUNG, 0
  {
    match Rung(SUM_RUNG, toks, pos, nodes, depth)
    case Err(e) => Err(e)
    case Ok(l, p, n) =>
      if !InfixAt(COMPARE_RUNG, Peek(toks, p)) then Ok(l, p, n)
      else
        match Rung(SUM_RUNG, toks, p + 1, n, depth)
        case Err(e) => Err(e)
        case Ok(r, q, m) => Make(Binary(InfixOf(Peek(toks, p)).value, l, r), q, m)
  }

  function SignRung(toks: seq<Token>, pos: nat, nodes: nat, depth: nat): (r: Step)
    ensures r.Ok? ==> pos < r.pos <= |toks| && nodes < r.nodes <= MAX_NODES
    decreases |toks| - pos, 10 - SIGN_RUNG, 0
  {
    if !IsSign(Peek(toks, pos)) then Rung(PRIMARY_RUNG, toks, pos, nodes, depth)
    else if depth + 1 > MAX_DEPTH then Err(TooDeep)
    else
      match Rung(SIGN_RUNG, toks, pos + 1, nodes, depth + 1)
      case Err(e) => Err(e)
      case Ok(x, p, n) => if Peek(toks, pos).op == Add then Ok(x, p, n) else Make(Unary(Neg, x), p, n)
  }

  /** The loop of a left-associative rung: l has been read up to pos. */
  function Rest(rung: nat, l: Tree, toks: seq<Token>, pos: nat, nodes: nat, depth: nat): (r: Step)
    requires rung < SIGN_RUNG && pos <= |toks| && nodes <= MAX_NODES
    ensures r.Ok? ==> pos <= r.pos <= |toks| && nodes <= r.nodes <= MAX_NODES
    decreases |toks| - pos, 0
  {
    if !InfixAt(rung, Peek(toks, pos)) then Ok(l, pos, nodes)
    else
      match Rung(rung + 1, toks, pos + 1, nodes, depth)
      case Err(e) => Err(e)
      case Ok(r, p, n) =>
        match Make(Binary(InfixOf(Peek(toks, pos)).value, l, r), p, n)
        case Err(e) => Err(e)
        case Ok(t, q, m) => Rest(rung, t, toks, q, m, depth)
  }

  function Primary(toks: seq<Token>, pos: nat, nodes: nat, depth: nat): (r: Step)
    ensures r.Ok? ==> pos < r.pos <= |toks| && nodes < r.nodes <= MAX_NODES
    decreases |toks| - pos, 1
  {
    match Peek(toks, pos)
    case NumberT(n) => Make(Number(n), pos + 1, nodes)
    case StringT(s) => Make(Str(s), pos + 1, nodes)
    case Quoted(s) => Make(Ident(s), pos + 1, nodes)
    case Word(w) =>
      if Peek(toks, pos + 1).LParen? then Application(w, toks, pos, nodes, depth)
      else if Reserved(w) then Err(ReservedWord(w))
      else Make(Ident(w), pos + 1, nodes)
    case LParen =>
      (match Rung(OR_RUNG, toks, pos + 1, nodes, depth + 1)
       case Err(e) => Err(e)
       case Ok(x, p, n) => if Peek(toks, p).RParen? then Ok(x, p + 1, n) else Err(MissingParen))
    case t => Err(Unexpected(t))
  }

  /** A function name at pos with its bracket right after it. */
  function Application(name: string, toks: seq<Token>, pos: nat, nodes: nat, depth: nat): (r: Step)
    requires Peek(toks, pos + 1).LParen?
    ensures r.Ok? ==> pos + 1 < r.pos <= |toks| && nodes < r.nodes <= MAX_NODES
    decreases |toks| - pos, 0
  {
    match FnOf(name)
    case None => Err(UnknownFunction(name))
    case Some(fn) =>
      match Actuals([], toks, pos + 2, nodes, depth)
      case ArgsErr(e) => Err(e)
      case Args(args, p, n) =>
        if !Peek(toks, p).RParen? then Err(MissingParen)
        else if !ArityOk(fn, |args|) then Err(WrongArgumentCount)
        else Make(Call(fn, args), p + 1, n)
  }

  /** The argument loop of a call; done holds the arguments read before pos. */
  function Actuals(done: seq<Tree>, toks: seq<Token>, pos: nat, nodes: nat, depth: nat): (r: ArgsStep)
    ensures r.Args? ==> pos <= r.pos <= |toks| && nodes <= r.nodes && (r.args != done ==> r.nodes <= MAX_NODES)
    decreases |toks| - pos, 11
  {
    if Peek(toks, pos).RParen? then Args(done, pos, nodes)
    else
      match Rung(OR_RUNG, toks, pos, nodes, depth + 1)
      case Err(e) => ArgsErr(e)
      case Ok(a, p, n) =>
        var more := done + [a];
        if |more| > MAX_CALL_ARGS then ArgsErr(TooManyArguments)
        else if !Peek(toks, p).Comma? then Args(more, p, n)
        else Actuals(more, toks, p + 1, n, depth)
  }

  datatype Parsed = Expr(root: Tree) | Invalid(problem: Problem)

  function Parse(toks: seq<Token>): Parsed
  {
    match Rung(OR_RUNG, toks, 0, 0, 1)
    case Err(e) => Invalid(e)
    case Ok(t, p, _) => if Peek(toks, p).End? then Expr(t) else Invalid(Unexpected(Peek(toks, p)))
  }
}
