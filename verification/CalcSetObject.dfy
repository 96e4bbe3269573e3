/** The set of a project's calculated fields as an object, with the operands it reads in
    production, and the compiler that draws every term from one shared budget. */
module CalcSetObject {
  import opened Options
  import opened SqlSyntax
  import opened SqlMeaning
  import opened CalcMeaning
  import opened CalcCompile
  import opened CalcCorrect
  import C = CalcSyntax
  import L = CalcLexer
  import P = CalcPrinter
  import S = CalcSource

  // ----- span columns and attributes -----

  /** The span columns a key can name. */
  function ColumnOf(key: string): Option<string> {
    if key == "operation" then Some("name")
    else if key == "duration" then Some("duration_us")
    else if key in {"service", "name", "kind", "status", "resource", "trace_id", "span_id", "parent_span_id",
                    "duration_us", "start_time_us", "http_status"} then Some(key)
    else None
  }

  const PREFIX: string := "attributes."

  predicate Prefixed(key: string) { |key| > |PREFIX| && key[..|PREFIX|] == PREFIX }

  function AttributeText(): seq<Lexeme> {
    [Open, Kw(CASE), Kw(WHEN), Name("json_valid"), Open, Name("attributes"), Close, Kw(THEN),
     Name("json_extract"), Open, Name("attributes"), Sep, Mark, Close, Kw(END), Close]
  }

  function PathOf(key: string): Value {
    Text("$.\"" + (if Prefixed(key) then key[|PREFIX|..] else key) + "\"")
  }

  /** A column as itself, an attribute as its JSON value by a bound path. */
  function ValueSql(key: string): Operand {
    if !Prefixed(key) && ColumnOf(key).Some? then Reads([Name(ColumnOf(key).value)], [])
    else Reads(AttributeText(), [PathOf(key)])
  }

  ghost function AttributeSql(path: Value): Sql {
    Paren(Case(Func("json_valid", [Column("attributes")]),
               Func("json_extract", [Column("attributes"), Const(path)]), None))
  }

  lemma {:induction false} AttributeEmit(path: Value)
    ensures Emit(AttributeSql(path))
         == AttributeText()[..12] + [Val(path)] + AttributeText()[13..]
  {
    var attrs, p := Column("attributes"), Const(path);
    var args := [attrs, p];
    var valid, extract := Func("json_valid", [attrs]), Func("json_extract", args);
    assert Emit(attrs) == [Name("attributes")] && Emit(p) == [Val(path)];
    assert args[1..] == [p] && EmitArgs([p]) == Emit(p) && EmitArgs([attrs]) == Emit(attrs);
    assert EmitArgs(args) == [Name("attributes"), Sep, Val(path)];
    assert Emit(valid) == [Name("json_valid"), Open, Name("attributes"), Close];
    assert Emit(extract) == [Name("json_extract"), Open, Name("attributes"), Sep, Val(path), Close];
    var inner := Case(valid, extract, None);
    assert EmitElse(None) == [];
    assert Emit(inner) == [Kw(CASE), Kw(WHEN)] + Emit(valid) + [Kw(THEN)] + Emit(extract) + [Kw(END)];
    assert Emit(Paren(inner)) == [Open] + Emit(inner) + [Close];
  }

  lemma {:induction false} AttributeClosed(path: Value)
    ensures Atomic(AttributeSql(path)) && TightAtom(AttributeSql(path))
  {
    hide Tight, Flat;
    var attrs, p := Column("attributes"), Const(path);
    var valid, extract := Func("json_valid", [attrs]), Func("json_extract", [attrs, p]);
    TightOne(attrs);
    TightOne(p);
    TightOne(valid);
    TightOne(extract);
    TightOne(Case(valid, extract, None));
  }

  lemma {:induction false} TightOne(a: Sql)
    requires Atomic(a) && TightAtom(a)
    ensures Tight(a)
  {
    hide TightAtom;
    assert Flat(a) == [AtomI(a)];
  }

  /** Every operand of a span is one closed phrase that binds exactly its own arguments. */
  lemma {:induction false} ValueSqlIsClosed(key: string)
    ensures exists q :: ReadsAs(ValueSql(key), q)
  {
    hide Emit, TightAtom;
    if !Prefixed(key) && ColumnOf(key).Some? {
      var col := ColumnOf(key).value;
      ColumnReads(col);
      assert ValueSql(key) == Reads([Name(col)], []);
    } else {
      var path := PathOf(key);
      AttributeSpells(path);
      AttributeClosed(path);
      assert ReadsAs(ValueSql(key), AttributeSql(path));
    }
  }

  lemma {:induction false} ColumnReads(col: string)
    ensures ReadsAs(Reads([Name(col)], []), Column(col))
  {
    SpellsPlain([Name(col)]);
  }

  lemma {:induction false} AttributeSpells(path: Value)
    ensures Spells(AttributeText(), [path], Emit(AttributeSql(path)))
  {
    hide Emit;
    var t := AttributeText();
    OneSpells(path);
    ConstEmit(path);
    SpellsAround(t[..12], [Mark], [path], [Val(path)], t[13..]);
    assert t == t[..12] + [Mark] + t[13..];
    AttributeEmit(path);
  }

  lemma {:induction false} ConstEmit(v: Value)
    ensures Emit(Const(v)) == [Val(v)]
  {
  }

  /** A set over span operands meets what the compiler relies on. */
  lemma {:induction false} SpanOperandsAreClosed(s: FieldSet)
    requires forall k :: s.operand(k) == ValueSql(k)
    ensures ClosedOperands(s)
  {
    forall k ensures exists q :: ReadsAs(s.operand(k), q) { ValueSqlIsClosed(k); }
  }

  // ----- the object -----

  /** The parts compiled before, with those of the rest. */
  ghost function Then(texts: seq<seq<Lexeme>>, args: seq<Value>, rest: Parts): Parts {
    match rest
    case NoParts(w) => NoParts(w)
    case Parts(more, vs, left) => Parts(texts + more, args + vs, left)
  }

  lemma {:induction false} NoneLeft(s: FieldSet, stack: seq<string>, left: nat)
    ensures NodeAll(s, [], stack, left) == Parts([], [], left)
  {
  }

  lemma {:induction false} ThenStep(s: FieldSet, ts: seq<C.Tree>, i: nat, stack: seq<string>, left: nat,
                 texts: seq<seq<Lexeme>>, args: seq<Value>)
    requires i < |ts| && forall t :: t in ts ==> C.WellFormed(t)
    ensures Then(texts, args, NodeAll(s, ts[i..], stack, left))
         == match CalcCompile.Node(s, ts[i], stack, left)
            case Fail(w) => NoParts(w)
            case Code(text, vs, l) => Then(texts + [text], args + vs, NodeAll(s, ts[i + 1..], stack, l))
  {
    hide CalcCompile.Node;
    assert ts[i..][1..] == ts[i + 1..] && ts[i..][0] == ts[i];
    var a := CalcCompile.Node(s, ts[i], stack, left);
    if a.Code? {
      var b := NodeAll(s, ts[i + 1..], stack, a.left);
      if b.Parts? {
        assert texts + ([a.text] + b.texts) == texts + [a.text] + b.texts;
        assert args + (a.args + b.args) == args + a.args + b.args;
      }
    }
  }

  /** A named expression, as stored. */
  datatype FieldDef = FieldDef(name: string, expression: string)

  /** What a compile returns; the budget is in its own cell. */
  datatype Emitted = Emitted(text: seq<Lexeme>, args: seq<Value>) | Failed(why: Failure)

  class Budget {
    var left: int

    constructor (n: nat)
      ensures left == n
    {
      left := n;
    }
  }

  function ParsedField(f: FieldDef, pf: L.FloatParser): Option<C.Tree> {
    match S.ParseSource(f.expression, pf) case Tree(t) => Some(t) case Refused(_) => None
  }

  /** The trees after the fields have been read in order. */
  function ExprsOf(fields: seq<FieldDef>, pf: L.FloatParser): map<string, Option<C.Tree>> {
    if fields == [] then map[]
    else
      var n := |fields| - 1;
      ExprsOf(fields[..n], pf)[fields[n].name := ParsedField(fields[n], pf)]
  }

  function BadOf(fields: seq<FieldDef>, pf: L.FloatParser): map<string, S.Refusal> {
    if fields == [] then map[]
    else
      var n := |fields| - 1;
      var before := BadOf(fields[..n], pf);
      match S.ParseSource(fields[n].expression, pf)
      case Tree(_) => before
      case Refused(w) => before[fields[n].name := w]
  }

  lemma {:induction false} FieldsAreWellMade(fields: seq<FieldDef>, pf: L.FloatParser)
    ensures forall k :: k in ExprsOf(fields, pf) ==>
              var e := ExprsOf(fields, pf)[k];
              (e.None? ==> k in BadOf(fields, pf)) && (e.Some? ==> C.WellFormed(e.value))
  {
    hide S.ParseSource;
    if fields != [] {
      var n := |fields| - 1;
      FieldsAreWellMade(fields[..n], pf);
      if ParsedField(fields[n], pf).Some? { S.SourceWithinCaps(fields[n].expression, pf); }
    }
  }

  ghost predicate Named(fields: seq<FieldDef>, k: string) { exists i :: 0 <= i < |fields| && fields[i].name == k }

  ghost predicate NamedBad(fields: seq<FieldDef>, pf: L.FloatParser, k: string) {
    exists i :: 0 <= i < |fields| && fields[i].name == k && ParsedField(fields[i], pf) == None
  }

  lemma {:induction false} NamedGrows(fields: seq<FieldDef>, pf: L.FloatParser, k: string)
    requires fields != []
    ensures var n := |fields| - 1;
            && (Named(fields, k) <==> Named(fields[..n], k) || fields[n].name == k)
            && (NamedBad(fields, pf, k) <==>
                NamedBad(fields[..n], pf, k) || (fields[n].name == k && ParsedField(fields[n], pf) == None))
  {
    hide ParsedField;
    var n := |fields| - 1;
    if Named(fields[..n], k) {
      var i :| 0 <= i < n && fields[..n][i].name == k;
      assert fields[i].name == k;
    }
    if NamedBad(fields[..n], pf, k) {
      var i :| 0 <= i < n && fields[..n][i].name == k && ParsedField(fields[..n][i], pf) == None;
      assert fields[i].name == k;
    }
    assert forall i :: 0 <= i < n ==> fields[i] == fields[..n][i];
  }

  /** The last field of a name. */
  ghost predicate IsLast(fields: seq<FieldDef>, k: string, i: nat) {
    i < |fields| && fields[i].name == k && forall j :: i < j < |fields| ==> fields[j].name != k
  }

  /** A name is bad if any of its expressions did not parse: then it cannot be looked up even
      if its last one did. */
  lemma {:induction false} FieldsByName(fields: seq<FieldDef>, pf: L.FloatParser, k: string)
    ensures k in ExprsOf(fields, pf) <==> Named(fields, k)
    ensures k in BadOf(fields, pf) <==> NamedBad(fields, pf, k)
  {
    if fields != [] {
      hide S.ParseSource, Named, NamedBad;
      var n := |fields| - 1;
      FieldsByName(fields[..n], pf, k);
      NamedGrows(fields, pf, k);
    }
  }

  /** A name given twice keeps its last expression. */
  lemma {:induction false} LastFieldStands(fields: seq<FieldDef>, pf: L.FloatParser, k: string, i: nat)
    requires IsLast(fields, k, i)
    ensures k in ExprsOf(fields, pf) && ExprsOf(fields, pf)[k] == ParsedField(fields[i], pf)
  {
    hide ParsedField;
    var n := |fields| - 1;
    if i < n {
      assert IsLast(fields[..n], k, i) && fields[..n][i] == fields[i];
      LastFieldStands(fields[..n], pf, k, i);
    }
  }

  /** A text that parses. */
  lemma {:induction false} QuotedParses(pf: L.FloatParser)
    ensures S.ParseSource("'x'", pf) == S.Tree(C.Str("x"))
  {
    var t, ws := C.Str("x"), ["'x'"];
    var toks := C.Yield(P.Show(t));
    assert toks == [C.StringT("x")];
    assert L.Escaped("x") == "x";
    assert L.Spelling(toks[0], ws[0], pf);
    assert L.Spaced(ws) == ws[0];
    S.SourceRoundTrip(t, ws, pf);
  }

  /** The set a list of fields makes. */
  ghost function SetOf(
      fields: seq<FieldDef>, pf: L.FloatParser, operand: string -> Operand, builtin: string -> bool): FieldSet {
    FieldsAreWellMade(fields, pf);
    RawSet(ExprsOf(fields, pf), BadOf(fields, pf), operand, builtin)
  }

  /** So it is with an empty text first and a good one after it: the good one is kept, and it
      would compile alone, but the field cannot be looked up. */
  lemma {:induction false} EarlierTextSpoils(
      k: string, pf: L.FloatParser, operand: string -> Operand, builtin: string -> bool)
    requires !builtin(k)
    ensures var good := FieldDef(k, "'x'");
            var alone, both := SetOf([good], pf, operand, builtin),
              SetOf([FieldDef(k, ""), good], pf, operand, builtin);
            && alone.exprs == both.exprs
            && Has(alone, k) && Lookup(alone, k).value.Code?
            && Has(both, k) && Lookup(both, k).value.Fail?
  {
    hide S.ParseSource;
    var good, empty := FieldDef(k, "'x'"), FieldDef(k, "");
    QuotedParses(pf);
    EmptyRefused(pf);
    assert [good][..0] == [] && [empty, good][..1] == [empty] && [empty][..0] == [];
    assert ExprsOf([], pf) == map[] && BadOf([], pf) == map[];
    assert ExprsOf([empty], pf) == map[k := None] && BadOf([empty], pf).Keys == {k};
    assert ExprsOf([good], pf) == map[k := Some(C.Str("x"))] && BadOf([good], pf) == map[];
    assert ExprsOf([empty, good], pf) == map[k := Some(C.Str("x"))];
    assert BadOf([empty, good], pf) == BadOf([empty], pf);
  }

  lemma {:induction false} EmptyRefused(pf: L.FloatParser)
    ensures S.ParseSource("", pf).Refused?
  {
  }

  /** The field, if there is one, can be looked up. */
  ghost predicate Compiles(s: FieldSet, k: string) { Has(s, k) ==> Lookup(s, k).value.Code? }

  lemma {:induction false} CompilesWhen(s: FieldSet, k: string)
    ensures Compiles(s, k) <==> Lookup(s, k).None? || Lookup(s, k).value.Code?
  {
  }

  class Fields {
    var exprs: map<string, Option<C.Tree>>
    var bad: map<string, S.Refusal>
    const operand: string -> Operand
    const builtin: string -> bool

    ghost function Model(): RawSet
      reads this
    {
      RawSet(exprs, bad, operand, builtin)
    }

    ghost predicate Valid()
      reads this
    {
      WellMade(Model())
    }

    /** Parses every field. */
    constructor (fields: seq<FieldDef>, operand: string -> Operand, builtin: string -> bool, pf: L.FloatParser)
      ensures Valid() && this.operand == operand && this.builtin == builtin
      ensures exprs == ExprsOf(fields, pf) && bad == BadOf(fields, pf)
    {
      exprs, bad := map[], map[];
      this.operand, this.builtin := operand, builtin;
      new;
      for n := 0 to |fields|
        invariant exprs == ExprsOf(fields[..n], pf) && bad == BadOf(fields[..n], pf)
      {
        var f := fields[n];
        assert fields[..n + 1][..n] == fields[..n];
        var e := S.Parse(f.expression, pf);
        if e.Refused? { bad := bad[f.name := e.why]; }
        exprs := exprs[f.name := if e.Refused? then None else Some(e.root)];
      }
      assert fields[..|fields|] == fields;
      FieldsAreWellMade(fields, pf);
    }

    ghost predicate Did(r: Emitted, o: Out, b: Budget)
      reads b
    {
      match o
      case Code(text, args, left) => r == Emitted(text, args) && b.left == left
      case Fail(w) => r == Failed(w)
    }

    method Node(t: C.Tree, stack: seq<string>, b: Budget) returns (r: Emitted)
      requires Valid() && C.WellFormed(t) && b.left >= 0
      modifies b
      ensures Did(r, CalcCompile.Node(Model(), t, stack, old(b.left)), b)
      decreases b.left, 0, 0
    {
      b.left := b.left - 1;
      if b.left < 0 { return Failed(TooManyTerms); }
      match t
      case Number(n) => r := Emitted([Mark], [Literal(n)]);
      case Str(x) => r := Emitted([Mark], [Text(x)]);
      case Ident(k) => r := Resolve(k, stack, b);
      case Unary(op, x) =>
        r := Node(x, stack, b);
        if r.Emitted? { r := Emitted(UnaryText(op, r.text), r.args); }
      case Binary(op, x, y) =>
        var l := Node(x, stack, b);
        if l.Failed? { return l; }
        r := Node(y, stack, b);
        if r.Emitted? { r := Emitted(BinaryText(op, l.text, r.text), l.args + r.args); }
      case Call(fn, args) => r := Call(fn, args, stack, b);
    }

    method Call(fn: C.Fn, ts: seq<C.Tree>, stack: seq<string>, b: Budget) returns (r: Emitted)
      requires Valid() && b.left >= 0 && C.ArityOk(fn, |ts|) && forall t :: t in ts ==> C.WellFormed(t)
      modifies b
      ensures match CalcCompile.NodeAll(Model(), ts, stack, old(b.left))
              case NoParts(w) => r == Failed(w)
              case Parts(texts, args, left) => r == Emitted(CallText(fn, texts), args) && b.left == left
      decreases b.left, 1, 0
    {
      hide CalcCompile.Node, NodeAll, WellMade;
      var parts: seq<seq<Lexeme>>, args: seq<Value> := [], [];
      ghost var all := NodeAll(Model(), ts, stack, b.left);
      assert ts[0..] == ts;
      for i := 0 to |ts|
        invariant |parts| == i && 0 <= b.left <= old(b.left) && Valid() && Model() == old(Model())
        invariant all == Then(parts, args, NodeAll(Model(), ts[i..], stack, b.left))
      {
        ThenStep(Model(), ts, i, stack, b.left, parts, args);
        var a := Node(ts[i], stack, b);
        if a.Failed? { return a; }
        parts, args := parts + [a.text], args + a.args;
      }
      assert ts[|ts|..] == [];
      NoneLeft(Model(), stack, b.left);
      assert parts + [] == parts && args + [] == args;
      r := Emitted(CallText(fn, parts), args);
    }

    method Resolve(k: string, stack: seq<string>, b: Budget) returns (r: Emitted)
      requires Valid() && b.left >= 0
      modifies b
      ensures Did(r, CalcCompile.Resolve(Model(), k, stack, old(b.left)), b)
      decreases b.left, 1, 0
    {
      if !(k in exprs && !builtin(k)) {
        var o := operand(k);
        return if o.Reads? then Emitted(o.text, o.args) else Failed(OperandFailed(k));
      }
      if k in stack { return Failed(Cycle(stack, k)); }
      r := CompileField(k, stack + [k], b);
    }

    method CompileField(k: string, stack: seq<string>, b: Budget) returns (r: Emitted)
      requires Valid() && b.left >= 0 && Has(Model(), k)
      modifies b
      ensures Did(r, CalcCompile.Field(Model(), k, stack, old(b.left)), b)
      decreases b.left, 0, 1
    {
      if k in bad { return Failed(BadField(k, bad[k])); }
      r := Node(exprs[k].value, stack, b);
    }

    /** None when the set has no such field. */
    method Find(name: string) returns (r: Option<Emitted>)
      requires Valid()
      ensures match Lookup(Model(), name)
              case None => r == None
              case Some(Code(text, args, _)) => r == Some(Emitted(text, args))
              case Some(Fail(w)) => r == Some(Failed(w))
    {
      if !(name in exprs && !builtin(name)) { return None; }
      var b := new Budget(MAX_EXPANSION);
      var e := CompileField(name, [name], b);
      r := Some(e);
    }

    /** The first error met, if any field that can be looked up fails. */
    method Validate() returns (err: Option<Failure>)
      requires Valid()
      ensures err.None? <==> forall k :: k in exprs ==> Compiles(Model(), k)
      ensures err.Some? ==> exists k :: k in exprs && Lookup(Model(), k) == Some(Fail(err.value))
    {
      hide Compiles, Lookup;
      var todo := exprs.Keys;
      while todo != {}
        invariant todo <= exprs.Keys
        invariant forall k :: k in exprs && k !in todo ==> Compiles(Model(), k)
        decreases |todo|
      {
        var k :| k in todo;
        todo := todo - {k};
        var r := Find(k);
        CompilesWhen(Model(), k);
        if r.Some? && r.value.Failed? { return Some(r.value.why); }
      }
      err := None;
    }
  }
}
