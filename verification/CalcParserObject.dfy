/** The parser object: pos and nodes advance in place, and every method does what
    its rung of the ladder says. */
module CalcParserObject {
  import opened CalcSyntax
  import opened CalcParser

  class Parser {
    const toks: seq<Token>
    var pos: nat
    var nodes: nat

    constructor (toks: seq<Token>)
      ensures this.toks == toks && pos == 0 && nodes == 0
    {
      this.toks := toks;
      pos, nodes := 0, 0;
    }

    /** r and the object's new state are what the ladder's step says. */
    ghost predicate Did(r: Parsed, step: Step)
      reads this
    {
      match r
      case Expr(t) => step == Ok(t, pos, nodes)
      case Invalid(e) => step == Err(e)
    }

    method Mk(t: Tree) returns (r: Parsed)
      modifies this`nodes
      ensures Did(r, Make(t, pos, old(nodes)))
    {
      nodes := nodes + 1;
      if nodes > MAX_NODES { return Invalid(TooManyTerms); }
      return Expr(t);
    }

    method ParseOr(depth: nat) returns (r: Parsed)
      modifies this`pos, this`nodes
      ensures Did(r, Rung(OR_RUNG, toks, old(pos), old(nodes), depth))
      decreases |toks| - pos, 10 - OR_RUNG
    {
      if depth > MAX_DEPTH { return Invalid(TooDeep); }
      r := ParseAnd(depth);
      while r.Expr? && Peek(toks, pos) == Word("or")
        invariant r.Expr? ==> old(pos) < pos <= |toks| && nodes <= MAX_NODES
        invariant Rung(OR_RUNG, toks, old(pos), old(nodes), depth)
               == if r.Expr? then Rest(OR_RUNG, r.root, toks, pos, nodes, depth) else Err(r.problem)
        decreases r.Expr?, |toks| - pos
      {
        var l := r.root;
        pos := pos + 1;
        r := ParseAnd(depth);
        if r.Expr? { r := Mk(Binary(Or, l, r.root)); }
      }
    }

    method ParseAnd(depth: nat) returns (r: Parsed)
      modifies this`pos, this`nodes
      ensures Did(r, Rung(AND_RUNG, toks, old(pos), old(nodes), depth))
      decreases |toks| - pos, 10 - AND_RUNG
    {
      r := ParseNot(depth);
      while r.Expr? && Peek(toks, pos) == Word("and")
        invariant r.Expr? ==> old(pos) < pos <= |toks| && nodes <= MAX_NODES
        invariant Rung(AND_RUNG, toks, old(pos), old(nodes), depth)
               == if r.Expr? then Rest(AND_RUNG, r.root, toks, pos, nodes, depth) else Err(r.problem)
        decreases r.Expr?, |toks| - pos
      {
        var l := r.root;
        pos := pos + 1;
        r := ParseNot(depth);
        if r.Expr? { r := Mk(Binary(And, l, r.root)); }
      }
    }

    method ParseNot(depth: nat) returns (r: Parsed)
      modifies this`pos, this`nodes
      ensures Did(r, Rung(NOT_RUNG, toks, old(pos), old(nodes), depth))
      decreases |toks| - pos, 10 - NOT_RUNG
    {
      if Peek(toks, pos) != Word("not") {
        r := ParseCompare(depth);
        return;
      }
      pos := pos + 1;
      if depth + 1 > MAX_DEPTH { return Invalid(TooDeep); }
      r := ParseNot(depth + 1);
      if r.Expr? { r := Mk(Unary(Not, r.root)); }
    }

    method ParseCompare(depth: nat) returns (r: Parsed)
      modifies this`pos, this`nodes
      ensures Did(r, Rung(COMPARE_RUNG, toks, old(pos), old(nodes), depth))
      decreases |toks| - pos, 10 - COMPARE_RUNG
    {
      r := ParseSum(depth);
      if r.Expr? {
        var l, t := r.root, Peek(toks, pos);
        if InfixAt(COMPARE_RUNG, t) {
          pos := pos + 1;
          r := ParseSum(depth);
          if r.Expr? { r := Mk(Binary(InfixOf(t).value, l, r.root)); }
        }
      }
    }

    method ParseSum(depth: nat) returns (r: Parsed)
      modifies this`pos, this`nodes
      ensures Did(r, Rung(SUM_RUNG, toks, old(pos), old(nodes), depth))
      decreases |toks| - pos, 10 - SUM_RUNG
    {
      r := ParseProduct(depth);
      while r.Expr? && InfixAt(SUM_RUNG, Peek(toks, pos))
        invariant r.Expr? ==> old(pos) < pos <= |toks| && nodes <= MAX_NODES
        invariant Rung(SUM_RUNG, toks, old(pos), old(nodes), depth)
               == if r.Expr? then Rest(SUM_RUNG, r.root, toks, pos, nodes, depth) else Err(r.problem)
        decreases r.Expr?, |toks| - pos
      {
        var l, op := r.root, InfixOf(Peek(toks, pos)).value;
        pos := pos + 1;
        r := ParseProduct(depth);
        if r.Expr? { r := Mk(Binary(op, l, r.root)); }
      }
    }

    method ParseProduct(depth: nat) returns (r: Parsed)
      modifies this`pos, this`nodes
      ensures Did(r, Rung(PRODUCT_RUNG, toks, old(pos), old(nodes), depth))
      decreases |toks| - pos, 10 - PRODUCT_RUNG
    {
      r := ParseUnary(depth);
      while r.Expr? && InfixAt(PRODUCT_RUNG, Peek(toks, pos))
        invariant r.Expr? ==> old(pos) < pos <= |toks| && nodes <= MAX_NODES
        invariant Rung(PRODUCT_RUNG, toks, old(pos), old(nodes), depth)
               == if r.Expr? then Rest(PRODUCT_RUNG, r.root, toks, pos, nodes, depth) else Err(r.problem)
        decreases r.Expr?, |toks| - pos
      {
        var l, op := r.root, InfixOf(Peek(toks, pos)).value;
        pos := pos + 1;
        r := ParseUnary(depth);
        if r.Expr? { r := Mk(Binary(op, l, r.root)); }
      }
    }

    method ParseUnary(depth: nat) returns (r: Parsed)
      modifies this`pos, this`nodes
      ensures Did(r, Rung(SIGN_RUNG, toks, old(pos), old(nodes), depth))
      decreases |toks| - pos, 10 - SIGN_RUNG
    {
      var t := Peek(toks, pos);
      if !IsSign(t) {
        r := ParsePrimary(depth);
        return;
      }
      pos := pos + 1;
      if depth + 1 > MAX_DEPTH { return Invalid(TooDeep); }
      r := ParseUnary(depth + 1);
      if r.Expr? && t.op != Add { r := Mk(Unary(Neg, r.root)); }
    }

    method ParsePrimary(depth: nat) returns (r: Parsed)
      modifies this`pos, this`nodes
      ensures Did(r, Rung(PRIMARY_RUNG, toks, old(pos), old(nodes), depth))
      decreases |toks| - pos, 10 - PRIMARY_RUNG
    {
      var t := Peek(toks, pos);
      if !t.End? { pos := pos + 1; }
      match t
      case NumberT(n) => r := Mk(Number(n));
      case StringT(s) => r := Mk(Str(s));
      case Quoted(s) => r := Mk(Ident(s));
      case Word(w) =>
        if Peek(toks, pos).LParen? { r := ParseCall(w, depth); }
        else if Reserved(w) { r := Invalid(ReservedWord(w)); }
        else { r := Mk(Ident(w)); }
      case LParen =>
        r := ParseOr(depth + 1);
        if r.Expr? {
          if Peek(toks, pos).RParen? { pos := pos + 1; } else { r := Invalid(MissingParen); }
        }
      case _ => r := Invalid(Unexpected(t));
    }

    /** The name has been read; pos stands at its bracket. */
    method ParseCall(name: string, depth: nat) returns (r: Parsed)
      requires pos >= 1 && Peek(toks, pos).LParen?
      modifies this`pos, this`nodes
      ensures Did(r, Application(name, toks, old(pos) - 1, old(nodes), depth))
      decreases |toks| - pos, 10
    {
      var fn := FnOf(name);
      if fn.None? { return Invalid(UnknownFunction(name)); }
      pos := pos + 1;
      var args: seq<Tree> := [];
      var more := true;
      ghost var all := Actuals([], toks, pos, nodes, depth);
      while more && !Peek(toks, pos).RParen?
        invariant old(pos) < pos
        invariant if more then all == Actuals(args, toks, pos, nodes, depth) else all == Args(args, pos, nodes)
        decreases more, |toks| - pos
      {
        var a := ParseOr(depth + 1);
        if a.Invalid? { return a; }
        args := args + [a.root];
        if |args| > MAX_CALL_ARGS { return Invalid(TooManyArguments); }
        if Peek(toks, pos).Comma? { pos := pos + 1; } else { more := false; }
      }
      if !Peek(toks, pos).RParen? { return Invalid(MissingParen); }
      pos := pos + 1;
      if !ArityOk(fn.value, |args|) { return Invalid(WrongArgumentCount); }
      r := Mk(Call(fn.value, args));
    }
  }

  /** Runs the object over a token list. */
  method ParseTokens(toks: seq<Token>) returns (r: Parsed)
    ensures r == Parse(toks)
  {
    var p := new Parser(toks);
    r := p.ParseOr(1);
    if r.Expr? && !Peek(toks, p.pos).End? {
      r := Invalid(Unexpected(Peek(toks, p.pos)));
    }
  }
}
