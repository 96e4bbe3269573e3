/** The SQL value expressions that calculated fields compile to, as lexemes and as
    readings of those lexemes. A reading may group operators in any way at all, so a
    claim about every reading holds for every SQL parser, whatever its precedences. */
module SqlSyntax {
  import opened Options

  datatype Number = I(n: int) | R(r: real)
  datatype Value = Null | Num(num: Number) | Text(text: string)

  datatype SqlOp = Plus | Minus | Times | Divide | Percent
                 | Equal | Unequal | Less | LessEq | Greater | GreaterEq | AndOp | OrOp | Join

  datatype Keyword = NOT | CAST | AS | CASE | WHEN | THEN | ELSE | END

  datatype Lexeme = Open | Close | Sep | Mark | Val(v: Value) | Name(name: string) | Kw(kw: Keyword) | Sym(op: SqlOp)

  datatype Sql =
    | Const(v: Value)
    | Column(name: string)
    | Paren(x: Sql)
    | Infix(op: SqlOp, l: Sql, r: Sql)
    | Negation(x: Sql)
    | Cast(x: Sql, ty: string)
    | Func(name: string, args: seq<Sql>)
    | Case(cond: Sql, yes: Sql, no: Option<Sql>)

  predicate Atomic(s: Sql) { !s.Infix? && !s.Negation? }

  function Emit(s: Sql): (e: seq<Lexeme>)
    ensures e != []
    decreases s, 1
  {
    match s
    case Const(v) => [Val(v)]
    case Column(n) => [Name(n)]
    case Paren(x) => [Open] + Emit(x) + [Close]
    case Infix(op, l, r) => Emit(l) + [Sym(op)] + Emit(r)
    case Negation(x) => [Kw(NOT)] + Emit(x)
    case Cast(x, ty) => [Kw(CAST), Open] + Emit(x) + [Kw(AS), Name(ty), Close]
    case Func(n, args) => [Name(n), Open] + EmitArgs(args) + [Close]
    case Case(c, y, n) => [Kw(CASE), Kw(WHEN)] + Emit(c) + [Kw(THEN)] + Emit(y) + EmitElse(n) + [Kw(END)]
  }

  function EmitElse(e: Option<Sql>): seq<Lexeme>
    decreases e, 0
  {
    match e
    case None => []
    case Some(x) => [Kw(ELSE)] + Emit(x)
  }

  function EmitArgs(args: seq<Sql>): seq<Lexeme>
    decreases args, 0
  {
    if args == [] then []
    else if |args| == 1 then Emit(args[0])
    else Emit(args[0]) + [Sep] + EmitArgs(args[1..])
  }

  /** The operators of a reading at its top level, and the closed phrases between them. */
  datatype Item = NotI | OpI(op: SqlOp) | AtomI(atom: Sql)

  function Flat(s: Sql): (items: seq<Item>)
    ensures items != []
    ensures forall i :: 0 <= i < |items| && items[i].AtomI? ==> Atomic(items[i].atom)
    ensures forall i :: 0 <= i < |items| && items[i].AtomI? ==> items[i].atom == s || items[i].atom < s
  {
    match s
    case Infix(op, l, r) => Flat(l) + [OpI(op)] + Flat(r)
    case Negation(x) => [NotI] + Flat(x)
    case _ => [AtomI(s)]
  }

  function EmitItem(p: Item): (e: seq<Lexeme>)
    ensures e != []
  {
    match p
    case NotI => [Kw(NOT)]
    case OpI(op) => [Sym(op)]
    case AtomI(a) => Emit(a)
  }

  function EmitItems(items: seq<Item>): seq<Lexeme> {
    if items == [] then [] else EmitItem(items[0]) + EmitItems(items[1..])
  }

  // ----- two readings that differ at most in how they group operators -----

  ghost predicate Same(x: Sql, y: Sql)
    decreases x, 2
  {
    |Flat(x)| == |Flat(y)| && forall i :: 0 <= i < |Flat(x)| ==> SameItem(x, Flat(x)[i], Flat(y)[i])
  }

  ghost predicate SameItem(x: Sql, p: Item, q: Item)
    requires p.AtomI? ==> p.atom == x || p.atom < x
    decreases x, 1
  {
    match p
    case AtomI(a) => q.AtomI? && SameAtom(a, q.atom)
    case _ => p == q
  }

  ghost predicate SameAtom(a: Sql, b: Sql)
    decreases a, 0
  {
    match a
    case Paren(x) => b.Paren? && Same(x, b.x)
    case Cast(x, ty) => b.Cast? && ty == b.ty && Same(x, b.x)
    case Func(n, args) =>
      b.Func? && n == b.name && |args| == |b.args| && forall i :: 0 <= i < |args| ==> Same(args[i], b.args[i])
    case Case(c, y, n) =>
      && b.Case? && Same(c, b.cond) && Same(y, b.yes) && n.Some? == b.no.Some?
      && (n.Some? ==> Same(n.value, b.no.value))
    case _ => a == b
  }

  // ----- equal text means the same up to grouping -----

  lemma {:induction false} EmitItemsConcat(xs: seq<Item>, ys: seq<Item>)
    ensures EmitItems(xs + ys) == EmitItems(xs) + EmitItems(ys)
  {
    if xs == [] {
      assert xs + ys == ys;
    } else {
      assert (xs + ys)[1..] == xs[1..] + ys;
      EmitItemsConcat(xs[1..], ys);
    }
  }

  lemma {:induction false} EmitFlat(s: Sql)
    ensures Emit(s) == EmitItems(Flat(s))
  {
    match s
    case Infix(op, l, r) =>
      EmitFlat(l); EmitFlat(r);
      EmitItemsConcat(Flat(l) + [OpI(op)], Flat(r));
      EmitItemsConcat(Flat(l), [OpI(op)]);
      assert EmitItems([OpI(op)]) == [Sym(op)];
    case Negation(x) =>
      EmitFlat(x);
      EmitItemsConcat([NotI], Flat(x));
      assert EmitItems([NotI]) == [Kw(NOT)];
    case _ =>
      assert EmitItems([AtomI(s)]) == Emit(s);
  }

  /** Operands and operators alternate; operand says whether an operand comes next. */
  ghost predicate Alternates(items: seq<Item>, operand: bool) {
    if items == [] then !operand
    else match items[0]
      case NotI => operand && Alternates(items[1..], true)
      case AtomI(a) => operand && Atomic(a) && Alternates(items[1..], false)
      case OpI(_) => !operand && Alternates(items[1..], true)
  }

  lemma {:induction false} AlternatesJoin(xs: seq<Item>, ys: seq<Item>, operand: bool)
    requires Alternates(xs, operand) && Alternates(ys, false)
    ensures Alternates(xs + ys, operand)
  {
    if xs == [] {
      assert xs + ys == ys;
    } else {
      assert (xs + ys)[1..] == xs[1..] + ys;
      AlternatesJoin(xs[1..], ys, xs[0].NotI? || xs[0].OpI?);
    }
  }

  lemma {:induction false} FlatAlternates(s: Sql)
    ensures Alternates(Flat(s), true)
  {
    match s
    case Infix(op, l, r) =>
      FlatAlternates(l); FlatAlternates(r);
      assert ([OpI(op)] + Flat(r))[1..] == Flat(r);
      AlternatesJoin(Flat(l), [OpI(op)] + Flat(r), true);
      assert Flat(l) + ([OpI(op)] + Flat(r)) == Flat(s);
    case Negation(x) =>
      FlatAlternates(x);
      assert ([NotI] + Flat(x))[1..] == Flat(x);
    case _ =>
  }

  /** What may follow a whole expression: the end, or a lexeme that closes it. */
  predicate Stops(u: seq<Lexeme>) {
    u == [] || u[0] in {Close, Sep, Kw(AS), Kw(THEN), Kw(ELSE), Kw(END)}
  }

  predicate NoOpen(u: seq<Lexeme>) { u == [] || u[0] != Open }

  lemma {:induction false} BodyPrefix(x: Sql, y: Sql, u: seq<Lexeme>, v: seq<Lexeme>)
    requires Emit(x) + u == Emit(y) + v && Stops(u) && Stops(v)
    ensures Same(x, y) && u == v
    decreases x, 2, 0
  {
    EmitFlat(x); EmitFlat(y);
    FlatAlternates(x); FlatAlternates(y);
    ItemsPrefix(x, Flat(x), Flat(y), true, u, v);
  }

  lemma {:induction false} ItemsPrefix(
      x: Sql, xs: seq<Item>, ys: seq<Item>, operand: bool, u: seq<Lexeme>, v: seq<Lexeme>)
    requires forall i :: 0 <= i < |xs| && xs[i].AtomI? ==> xs[i].atom == x || xs[i].atom < x
    requires Alternates(xs, operand) && Alternates(ys, operand)
    requires EmitItems(xs) + u == EmitItems(ys) + v && Stops(u) && Stops(v)
    ensures u == v && |xs| == |ys| && forall i :: 0 <= i < |xs| ==> SameItem(x, xs[i], ys[i])
    decreases x, 1, |xs|
  {
    SameFirst(xs, ys, operand, u, v);
    if xs == [] {
      assert EmitItems(xs) + u == u && EmitItems(ys) + v == v;
    } else {
      var u1, v1 := EmitItems(xs[1..]) + u, EmitItems(ys[1..]) + v;
      FirstItem(xs, u); FirstItem(ys, v);
      if xs[0].AtomI? {
        TailNoOpen(xs[1..], u); TailNoOpen(ys[1..], v);
        AtomPrefix(xs[0].atom, ys[0].atom, u1, v1);
      } else {
        Peel(EmitItem(xs[0]), u1, v1, EmitItems(xs) + u, EmitItems(ys) + v);
      }
      ItemsPrefix(x, xs[1..], ys[1..], !xs[0].AtomI?, u, v);
    }
  }

  /** Two item lists of one text start with the same kind of item. */
  lemma {:induction false} SameFirst(xs: seq<Item>, ys: seq<Item>, operand: bool, u: seq<Lexeme>, v: seq<Lexeme>)
    requires Alternates(xs, operand) && Alternates(ys, operand)
    requires EmitItems(xs) + u == EmitItems(ys) + v && Stops(u) && Stops(v)
    ensures (xs == []) == (ys == [])
    ensures xs != [] ==> xs[0].AtomI? == ys[0].AtomI? && (!xs[0].AtomI? ==> xs[0] == ys[0])
  {
    if xs != [] { FirstItem(xs, u); ItemStart(xs[0], EmitItems(xs[1..]) + u); }
    if ys != [] { FirstItem(ys, v); ItemStart(ys[0], EmitItems(ys[1..]) + v); }
    assert xs == [] ==> EmitItems(xs) + u == u;
    assert ys == [] ==> EmitItems(ys) + v == v;
  }

  lemma {:induction false} ItemStart(p: Item, rest: seq<Lexeme>)
    requires p.AtomI? ==> Atomic(p.atom)
    ensures (EmitItem(p) + rest)[0] == EmitItem(p)[0]
    ensures p.AtomI? ==> EmitItem(p)[0] != Kw(NOT) && !EmitItem(p)[0].Sym?
  {
    if p.AtomI? { EmitStart(p.atom); }
  }

  lemma {:induction false} FirstItem(xs: seq<Item>, u: seq<Lexeme>)
    requires xs != []
    ensures EmitItems(xs) + u == EmitItem(xs[0]) + (EmitItems(xs[1..]) + u)
  {
  }

  lemma {:induction false} TailNoOpen(xs: seq<Item>, u: seq<Lexeme>)
    requires Alternates(xs, false) && Stops(u)
    ensures NoOpen(EmitItems(xs) + u)
  {
    if xs == [] { assert EmitItems(xs) + u == u; } else { assert (EmitItems(xs) + u)[0] == Sym(xs[0].op); }
  }

  /** A closed phrase shows its kind in its first lexeme. */
  lemma {:induction false} EmitStart(a: Sql)
    requires Atomic(a)
    ensures Emit(a)[0] == match a
                          case Const(v) => Val(v)
                          case Column(n) => Name(n)
                          case Paren(_) => Open
                          case Cast(_, _) => Kw(CAST)
                          case Func(n, _) => Name(n)
                          case _ => Kw(CASE)
  {
  }

  lemma {:induction false} AtomPrefix(a: Sql, b: Sql, u: seq<Lexeme>, v: seq<Lexeme>)
    requires Atomic(a) && Atomic(b) && Emit(a) + u == Emit(b) + v && NoOpen(u) && NoOpen(v)
    ensures SameAtom(a, b) && u == v
    decreases a, 0, 1
  {
    SameStart(a, b, u, v);
    match a
    case Const(_) => Peel(Emit(a), u, v, Emit(a) + u, Emit(b) + v);
    case Column(_) => Peel(Emit(a), u, v, Emit(a) + u, Emit(b) + v);
    case Paren(_) => ParenPrefix(a, b, u, v);
    case Cast(_, _) => CastPrefix(a, b, u, v);
    case Func(_, _) => FuncPrefix(a, b, u, v);
    case Case(_, _, _) => CasePrefix(a, b, u, v);
  }

  /** Two closed phrases that start one text are of the same kind. */
  lemma {:induction false} SameStart(a: Sql, b: Sql, u: seq<Lexeme>, v: seq<Lexeme>)
    requires Atomic(a) && Atomic(b) && Emit(a) + u == Emit(b) + v && NoOpen(u) && NoOpen(v)
    ensures match a
            case Const(_) => b == a
            case Column(_) => b == a
            case Paren(_) => b.Paren?
            case Cast(_, _) => b.Cast?
            case Func(n, _) => b.Func? && b.name == n
            case _ => b.Case?
  {
    EmitStart(a); EmitStart(b);
    assert Emit(a)[0] == (Emit(a) + u)[0] == (Emit(b) + v)[0] == Emit(b)[0];
    if a.Column? { assert u == (Emit(a) + u)[1..]; }
    if b.Column? { assert v == (Emit(b) + v)[1..]; }
    if a.Func? { assert (Emit(a) + u)[1] == Open; }
    if b.Func? { assert (Emit(b) + v)[1] == Open; }
  }

  lemma {:induction false} ParenPrefix(a: Sql, b: Sql, u: seq<Lexeme>, v: seq<Lexeme>)
    requires a.Paren? && b.Paren? && Emit(a) + u == Emit(b) + v
    ensures SameAtom(a, b) && u == v
    decreases a, 0, 0
  {
    Peel([Open], Emit(a.x) + ([Close] + u), Emit(b.x) + ([Close] + v), Emit(a) + u, Emit(b) + v);
    BodyPrefix(a.x, b.x, [Close] + u, [Close] + v);
    Peel([Close], u, v, [Close] + u, [Close] + v);
  }

  lemma {:induction false} CastPrefix(a: Sql, b: Sql, u: seq<Lexeme>, v: seq<Lexeme>)
    requires a.Cast? && b.Cast? && Emit(a) + u == Emit(b) + v
    ensures SameAtom(a, b) && u == v
    decreases a, 0, 0
  {
    var t, t' := [Kw(AS), Name(a.ty), Close], [Kw(AS), Name(b.ty), Close];
    Peel([Kw(CAST), Open], Emit(a.x) + (t + u), Emit(b.x) + (t' + v), Emit(a) + u, Emit(b) + v);
    BodyPrefix(a.x, b.x, t + u, t' + v);
    assert (t + u)[1] == (t' + v)[1];
    Peel(t, u, v, t + u, t' + v);
  }

  lemma {:induction false} FuncPrefix(a: Sql, b: Sql, u: seq<Lexeme>, v: seq<Lexeme>)
    requires a.Func? && b.Func? && a.name == b.name && Emit(a) + u == Emit(b) + v
    ensures SameAtom(a, b) && u == v
    decreases a, 0, 0
  {
    var s, t := [Close] + u, [Close] + v;
    Peel([Name(a.name), Open], EmitArgs(a.args) + s, EmitArgs(b.args) + t, Emit(a) + u, Emit(b) + v);
    ArgsPrefix(a.args, b.args, s, t);
    Peel([Close], u, v, s, t);
  }

  /** Equal text after an equal start. */
  lemma {:induction false} Peel(start: seq<Lexeme>, s: seq<Lexeme>, t: seq<Lexeme>, p: seq<Lexeme>, q: seq<Lexeme>)
    requires p == start + s && q == start + t && p == q
    ensures s == t
  {
    assert s == p[|start|..] && t == q[|start|..];
  }

  lemma {:induction false} CaseEmits(a: Sql, u: seq<Lexeme>)
    requires a.Case?
    ensures Emit(a) + u
            == [Kw(CASE), Kw(WHEN)] + (Emit(a.cond) + ([Kw(THEN)] + (Emit(a.yes) + (EmitElse(a.no) + [Kw(END)] + u))))
  {
  }

  lemma {:induction false} CasePrefix(a: Sql, b: Sql, u: seq<Lexeme>, v: seq<Lexeme>)
    requires a.Case? && b.Case? && Emit(a) + u == Emit(b) + v
    ensures SameAtom(a, b) && u == v
    decreases a, 0, 0
  {
    hide Emit, EmitElse;
    var s2, t2 := EmitElse(a.no) + [Kw(END)] + u, EmitElse(b.no) + [Kw(END)] + v;
    var s1, t1 := [Kw(THEN)] + (Emit(a.yes) + s2), [Kw(THEN)] + (Emit(b.yes) + t2);
    CaseEmits(a, u);
    CaseEmits(b, v);
    Peel([Kw(CASE), Kw(WHEN)], Emit(a.cond) + s1, Emit(b.cond) + t1, Emit(a) + u, Emit(b) + v);
    BodyPrefix(a.cond, b.cond, s1, t1);
    Peel([Kw(THEN)], Emit(a.yes) + s2, Emit(b.yes) + t2, s1, t1);
    ElseStops(a.no, u);
    ElseStops(b.no, v);
    BodyPrefix(a.yes, b.yes, s2, t2);
    ElsePrefix(a.no, b.no, u, v);
  }

  lemma {:induction false} ElseStops(x: Option<Sql>, u: seq<Lexeme>)
    ensures Stops(EmitElse(x) + [Kw(END)] + u)
  {
  }

  lemma {:induction false} ElsePrefix(x: Option<Sql>, y: Option<Sql>, u: seq<Lexeme>, v: seq<Lexeme>)
    requires EmitElse(x) + [Kw(END)] + u == EmitElse(y) + [Kw(END)] + v
    ensures x.Some? == y.Some? && (x.Some? ==> Same(x.value, y.value)) && u == v
    decreases x, 0, 0
  {
    hide Emit;
    var s, t := EmitElse(x) + [Kw(END)] + u, EmitElse(y) + [Kw(END)] + v;
    assert s[0] == t[0];
    if x.Some? {
      Peel([Kw(ELSE)], Emit(x.value) + ([Kw(END)] + u), Emit(y.value) + ([Kw(END)] + v), s, t);
      BodyPrefix(x.value, y.value, [Kw(END)] + u, [Kw(END)] + v);
      Peel([Kw(END)], u, v, [Kw(END)] + u, [Kw(END)] + v);
    } else {
      Peel([Kw(END)], u, v, s, t);
    }
  }

  lemma {:induction false} ArgsPrefix(args: seq<Sql>, brgs: seq<Sql>, u: seq<Lexeme>, v: seq<Lexeme>)
    requires EmitArgs(args) + u == EmitArgs(brgs) + v && u != [] && v != [] && u[0] == v[0] == Close
    ensures u == v && |args| == |brgs| && forall i :: 0 <= i < |args| ==> Same(args[i], brgs[i])
    decreases args, 0, 0
  {
    ArgsStart(args, u);
    ArgsStart(brgs, v);
    if args != [] {
      var s := if |args| == 1 then u else [Sep] + (EmitArgs(args[1..]) + u);
      var t := if |brgs| == 1 then v else [Sep] + (EmitArgs(brgs[1..]) + v);
      assert EmitArgs(args) + u == Emit(args[0]) + s && EmitArgs(brgs) + v == Emit(brgs[0]) + t;
      BodyPrefix(args[0], brgs[0], s, t);
      if |args| > 1 {
        assert t[0] == Sep;
        Peel([Sep], EmitArgs(args[1..]) + u, EmitArgs(brgs[1..]) + v, s, t);
        ArgsPrefix(args[1..], brgs[1..], u, v);
      }
    }
  }

  lemma {:induction false} ArgsStart(args: seq<Sql>, u: seq<Lexeme>)
    requires u != [] && u[0] == Close
    ensures args == [] ==> EmitArgs(args) + u == u
    ensures (EmitArgs(args) + u)[0] == Close <==> args == []
  {
    if args != [] {
      SqlStart(args[0]);
      assert (EmitArgs(args) + u)[0] == Emit(args[0])[0];
    }
  }

  lemma {:induction false} SqlStart(s: Sql)
    ensures Emit(s)[0] != Close
  {
    if s.Infix? { SqlStart(s.l); }
  }

  /** Two readings of one text agree on everything but the grouping of operators that
      no bracket separates. */
  lemma {:induction false} ReadingsAgree(x: Sql, y: Sql)
    requires Emit(x) == Emit(y)
    ensures Same(x, y)
  {
    assert Emit(x) + [] == Emit(x) && Emit(y) + [] == Emit(y);
    BodyPrefix(x, y, [], []);
  }
}
