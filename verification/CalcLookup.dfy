/** When a field compiles: exactly when no parse error, no unreadable operand and no cycle
    can be reached from it, and its full expansion is within the budget. */
module CalcLookup {
  import opened Sequences
  import opened CalcCompile
  import C = CalcSyntax

  function Idents(t: C.Tree): set<string>
    decreases t, 1
  {
    match t
    case Ident(k) => {k}
    case Unary(_, x) => Idents(x)
    case Binary(_, l, r) => Idents(l) + Idents(r)
    case Call(_, args) => IdentsAll(args)
    case _ => {}
  }

  function IdentsAll(ts: seq<C.Tree>): set<string>
    decreases ts, 0
  {
    if ts == [] then {} else Idents(ts[0]) + IdentsAll(ts[1..])
  }

  // ----- the reference graph -----

  /** Each field of p parsed, but for the last, and uses the next. */
  ghost predicate IsPath(s: FieldSet, p: seq<string>) {
    && p != []
    && (forall i :: 0 <= i < |p| ==> Has(s, p[i]))
    && (forall i :: 0 <= i < |p| - 1 ==> Uses(s, p[i], p[i + 1]))
  }

  ghost predicate Uses(s: FieldSet, k: string, j: string) {
    k in s.exprs && k !in s.bad && j in Idents(Body(s, k))
  }

  /** k parsed and every operand it reads can be read. */
  ghost predicate Readable(s: FieldSet, k: string)
    requires Has(s, k)
  {
    k !in s.bad && forall j :: j in Idents(Body(s, k)) && !Has(s, j) ==> s.operand(j).Reads?
  }

  /** Following references from name never comes back to a field and only meets readable ones. */
  ghost predicate Healthy(s: FieldSet, name: string) {
    forall p :: IsPath(s, p) && p[0] == name ==> Distinct(p) && Readable(s, p[|p| - 1])
  }

  // ----- the size of the expansion -----

  /** The terms of t, where a reference to k counts one term and w(k) more. */
  ghost function Weight(t: C.Tree, w: string -> nat): (n: nat)
    ensures n >= 1
    decreases t, 1
  {
    match t
    case Ident(k) => 1 + w(k)
    case Unary(_, x) => 1 + Weight(x, w)
    case Binary(_, l, r) => 1 + Weight(l, w) + Weight(r, w)
    case Call(_, args) => 1 + WeightAll(args, w)
    case _ => 1
  }

  ghost function WeightAll(ts: seq<C.Tree>, w: string -> nat): nat
    decreases ts, 0
  {
    if ts == [] then 0 else Weight(ts[0], w) + WeightAll(ts[1..], w)
  }

  function Unvisited(s: FieldSet, stack: seq<string>): set<string> {
    set k | k in s.exprs && k !in stack
  }

  lemma {:induction false} VisitOne(s: FieldSet, k: string, stack: seq<string>)
    requires k in s.exprs && k !in stack
    ensures Unvisited(s, stack + [k]) < Unvisited(s, stack)
  {
    assert k in Unvisited(s, stack) && k !in Unvisited(s, stack + [k]);
  }

  /** The terms of field k with every field below it expanded; a field already on stack counts none. */
  ghost function Terms(s: FieldSet, k: string, stack: seq<string>): nat
    decreases Unvisited(s, stack), 1
  {
    if !Has(s, k) || k in stack || k in s.bad then 0
    else
      VisitOne(s, k, stack);
      Weight(Body(s, k), RefTerms(s, stack + [k]))
  }

  ghost function RefTerms(s: FieldSet, stack: seq<string>): string -> nat
    decreases Unvisited(s, stack), 2
  {
    j => Terms(s, j, stack)
  }

  /** The search with a stack, as the compiler makes it. */
  ghost predicate Clean(s: FieldSet, k: string, stack: seq<string>)
    decreases Unvisited(s, stack), 1
  {
    && Has(s, k) && k !in stack && k !in s.bad
    && (VisitOne(s, k, stack); CleanRefs(s, Idents(Body(s, k)), stack + [k]))
  }

  ghost predicate CleanRefs(s: FieldSet, refs: set<string>, stack: seq<string>)
    decreases Unvisited(s, stack), 2
  {
    forall j :: j in refs ==> CleanRef(s, j, stack)
  }

  ghost predicate CleanRef(s: FieldSet, j: string, stack: seq<string>)
    decreases Unvisited(s, stack), 2, 0
  {
    if Has(s, j) then Clean(s, j, stack) else s.operand(j).Reads?
  }

  lemma {:induction false} CleanStep(s: FieldSet, k: string, stack: seq<string>, j: string)
    requires Clean(s, k, stack) && j in Idents(Body(s, k))
    ensures CleanRef(s, j, stack + [k])
  {
    assert CleanRefs(s, Idents(Body(s, k)), stack + [k]);
  }

  // ----- the compiler succeeds exactly on clean searches within the budget -----

  ghost predicate Fits(s: FieldSet, t: C.Tree, stack: seq<string>, left: nat) {
    CleanRefs(s, Idents(t), stack) && Weight(t, RefTerms(s, stack)) <= left
  }

  lemma {:induction false} NodeOutcome(s: FieldSet, t: C.Tree, stack: seq<string>, left: nat)
    requires C.WellFormed(t)
    ensures Node(s, t, stack, left).Code? <==> Fits(s, t, stack, left)
    ensures Node(s, t, stack, left).Code? ==> Node(s, t, stack, left).left == left - Weight(t, RefTerms(s, stack))
    decreases Unvisited(s, stack), t, 1
  {
    hide Clean, Terms;
    if left > 0 {
      match t
      case Ident(k) =>
        ResolveOutcome(s, k, stack, left - 1);
        assert CleanRefs(s, {k}, stack) <==> CleanRef(s, k, stack);
      case Unary(_, x) => NodeOutcome(s, x, stack, left - 1);
      case Binary(_, l, r) =>
        NodeOutcome(s, l, stack, left - 1);
        var a := Node(s, l, stack, left - 1);
        if a.Code? { NodeOutcome(s, r, stack, a.left); }
        CleanUnion(s, Idents(l), Idents(r), stack);
      case Call(_, args) => NodeAllOutcome(s, args, stack, left - 1);
      case _ =>
    }
  }

  lemma {:induction false} CleanUnion(s: FieldSet, a: set<string>, b: set<string>, stack: seq<string>)
    ensures CleanRefs(s, a + b, stack) <==> CleanRefs(s, a, stack) && CleanRefs(s, b, stack)
  {
  }

  lemma {:induction false} NodeAllOutcome(s: FieldSet, ts: seq<C.Tree>, stack: seq<string>, left: nat)
    requires forall t :: t in ts ==> C.WellFormed(t)
    ensures NodeAll(s, ts, stack, left).Parts?
       <==> CleanRefs(s, IdentsAll(ts), stack) && WeightAll(ts, RefTerms(s, stack)) <= left
    ensures NodeAll(s, ts, stack, left).Parts? ==>
              NodeAll(s, ts, stack, left).left == left - WeightAll(ts, RefTerms(s, stack))
    decreases Unvisited(s, stack), ts, 0
  {
    hide Clean, Terms;
    if ts != [] {
      NodeOutcome(s, ts[0], stack, left);
      var a := Node(s, ts[0], stack, left);
      if a.Code? { NodeAllOutcome(s, ts[1..], stack, a.left); }
      CleanUnion(s, Idents(ts[0]), IdentsAll(ts[1..]), stack);
    }
  }

  lemma {:induction false} ResolveOutcome(s: FieldSet, k: string, stack: seq<string>, left: nat)
    ensures Resolve(s, k, stack, left).Code? <==> CleanRef(s, k, stack) && Terms(s, k, stack) <= left
    ensures Resolve(s, k, stack, left).Code? ==> Resolve(s, k, stack, left).left == left - Terms(s, k, stack)
    decreases Unvisited(s, stack), C.Ident(k), 0
  {
    if !Has(s, k) {
      assert CleanRef(s, k, stack) <==> s.operand(k).Reads?;
    } else if k in stack || k in s.bad {
      assert !Clean(s, k, stack) && !CleanRef(s, k, stack);
    } else {
      hide Node, Weight;
      VisitOne(s, k, stack);
      NodeOutcome(s, Body(s, k), stack + [k], left);
      assert Terms(s, k, stack) == Weight(Body(s, k), RefTerms(s, stack + [k]));
      assert Clean(s, k, stack) <==> CleanRefs(s, Idents(Body(s, k)), stack + [k]);
      assert CleanRef(s, k, stack) <==> Clean(s, k, stack);
      assert Resolve(s, k, stack, left) == Node(s, Body(s, k), stack + [k], left);
    }
  }

  // ----- a search with a stack is a search along every path -----

  /** Every path from k, after the fields of stack, is free of repeats and ends readable. */
  ghost predicate HealthyAfter(s: FieldSet, k: string, stack: seq<string>) {
    forall p :: IsPath(s, p) && p[0] == k ==> Distinct(stack + p) && Readable(s, p[|p| - 1])
  }

  lemma {:induction false} CleanIsHealthy(s: FieldSet, k: string, stack: seq<string>)
    requires Has(s, k) && Distinct(stack) && Clean(s, k, stack)
    ensures HealthyAfter(s, k, stack)
    decreases Unvisited(s, stack)
  {
    VisitOne(s, k, stack);
    forall p | IsPath(s, p) && p[0] == k ensures Distinct(stack + p) && Readable(s, p[|p| - 1]) {
      CleanPath(s, k, stack, p);
    }
  }

  lemma {:induction false} CleanPath(s: FieldSet, k: string, stack: seq<string>, p: seq<string>)
    requires Has(s, k) && Distinct(stack) && Clean(s, k, stack)
    requires IsPath(s, p) && p[0] == k
    ensures Distinct(stack + p) && Readable(s, p[|p| - 1])
    decreases |p|
  {
    var stack' := stack + [k];
    assert CleanRefs(s, Idents(Body(s, k)), stack');
    assert Readable(s, k) by {
      forall j | j in Idents(Body(s, k)) && !Has(s, j) ensures s.operand(j).Reads? { assert CleanRef(s, j, stack'); }
    }
    if |p| == 1 {
      assert stack + p == stack';
    } else {
      assert Uses(s, p[0], p[1]);
      assert CleanRef(s, p[1], stack');
      PathTail(s, p);
      CleanPath(s, p[1], stack', p[1..]);
      assert stack + p == stack' + p[1..];
    }
  }

  lemma {:induction false} PathTail(s: FieldSet, p: seq<string>)
    requires IsPath(s, p) && |p| > 1
    ensures IsPath(s, p[1..])
  {
    var q := p[1..];
    forall i | 0 <= i < |q| - 1 ensures Uses(s, q[i], q[i + 1]) { assert Uses(s, p[i + 1], p[i + 2]); }
  }

  lemma {:induction false} PathCons(s: FieldSet, k: string, p: seq<string>)
    requires IsPath(s, p) && Has(s, k) && Uses(s, k, p[0])
    ensures IsPath(s, [k] + p)
  {
    var q := [k] + p;
    forall i | 0 <= i < |q| - 1 ensures Uses(s, q[i], q[i + 1]) {
      if i > 0 { assert Uses(s, p[i - 1], p[i]); }
    }
  }

  lemma {:induction false} HealthyIsClean(s: FieldSet, k: string, stack: seq<string>)
    requires Has(s, k) && HealthyAfter(s, k, stack)
    ensures Clean(s, k, stack)
    decreases Unvisited(s, stack)
  {
    var alone := [k];
    assert IsPath(s, alone) && Distinct(stack + alone) && Readable(s, alone[0]);
    assert forall i :: 0 <= i < |stack| ==> (stack + alone)[i] == stack[i];
    assert (stack + alone)[|stack|] == k;
    VisitOne(s, k, stack);
    hide HealthyAfter, IsPath, Distinct;
    forall j | j in Idents(Body(s, k)) ensures CleanRef(s, j, stack + [k]) {
      if Has(s, j) {
        HealthyStep(s, k, stack, j);
        HealthyIsClean(s, j, stack + [k]);
      }
    }
  }

  lemma {:induction false} HealthyStep(s: FieldSet, k: string, stack: seq<string>, j: string)
    requires Has(s, k) && HealthyAfter(s, k, stack) && Has(s, j) && k !in s.bad && j in Idents(Body(s, k))
    ensures HealthyAfter(s, j, stack + [k])
  {
    hide Readable, Distinct;
    forall p | IsPath(s, p) && p[0] == j ensures Distinct(stack + [k] + p) && Readable(s, p[|p| - 1]) {
      PathCons(s, k, p);
      var q := [k] + p;
      assert q[0] == k && q[|q| - 1] == p[|p| - 1];
      assert stack + q == stack + [k] + p;
    }
  }

  // ----- the theorem -----

  /** Looking a field up succeeds exactly when it is healthy and expands to at most
      MAX_EXPANSION terms; the budget left is what the expansion did not use. */
  lemma {:induction false} LookupSucceeds(s: FieldSet, name: string)
    requires Has(s, name)
    ensures Lookup(s, name).value.Code? <==> Healthy(s, name) && Terms(s, name, []) <= MAX_EXPANSION
    ensures Lookup(s, name).value.Code? ==> Lookup(s, name).value.left == MAX_EXPANSION - Terms(s, name, [])
  {
    assert [] + [name] == [name];
    ResolveOutcome(s, name, [], MAX_EXPANSION);
    if Clean(s, name, []) { CleanIsHealthy(s, name, []); }
    if HealthyAfter(s, name, []) { HealthyIsClean(s, name, []); }
    assert Healthy(s, name) <==> HealthyAfter(s, name, []) by {
      assert forall p: seq<string> :: [] + p == p;
    }
  }
}
