/** Keyed slots that are swapped out, written, and put back when a write fails: the part
    that span rollups, span edges and aggregates share. Adds, any number of overlapping
    flushes, and full, partial or failed writes may interleave in any way. */
module Slots {
  import opened Options
  import opened Sequences

  /** What a write did to the rows of a flush: every row landed, or an error came back that
      names the rows that did not land, or one that names none, so that none landed. */
  datatype Outcome<!K> = Landed | Unwritten(rows: set<K>) | Unnamed

  /** The open slots, the flushes under way, the table, and what was given up as too old. */
  datatype Sys<K, V> = Sys(slots: map<K, V>, flights: seq<map<K, V>>, stored: map<K, V>, dropped: map<K, V>)

  datatype Step<!K, V> =
    | Add(k: K, v: V)
    | Begin
    | Finish(i: nat, outcome: Outcome<K>, keep: K -> bool)

  // ----- slots -----

  function At<K, V>(m: map<K, V>, k: K): Option<V> { if k in m then Some(m[k]) else None }

  function Plus<V>(merge: (V, V) -> V, a: Option<V>, b: Option<V>): Option<V> {
    match (a, b)
    case (None, _) => b
    case (_, None) => a
    case (Some(x), Some(y)) => Some(merge(x, y))
  }

  /** dst with the entries of src folded in. */
  function Fold<K, V>(merge: (V, V) -> V, dst: map<K, V>, src: map<K, V>): map<K, V> {
    map k | k in dst.Keys + src.Keys ::
      if k !in src then dst[k] else if k !in dst then src[k] else merge(dst[k], src[k])
  }

  lemma {:induction false} FoldAt<K, V>(merge: (V, V) -> V, dst: map<K, V>, src: map<K, V>, k: K)
    ensures At(Fold(merge, dst, src), k) == Plus(merge, At(dst, k), At(src, k))
  {
  }

  lemma {:induction false} FoldOne<K, V>(merge: (V, V) -> V, dst: map<K, V>, k: K, v: V)
    ensures Fold(merge, dst, map[k := v]) == dst[k := if k in dst then merge(dst[k], v) else v]
  {
  }

  /** The slots a failed write did not reach. */
  function UnwrittenSlots<K, V>(slots: map<K, V>, outcome: Outcome<K>): map<K, V> {
    match outcome
    case Landed => map[]
    case Unnamed => slots
    case Unwritten(rows) => map k | k in slots && k in rows :: slots[k]
  }

  function Restrict<K, V>(m: map<K, V>, keep: K -> bool): map<K, V> { map k | k in m && keep(k) :: m[k] }

  function Refused<K, V>(m: map<K, V>, keep: K -> bool): set<K> { set k | k in m && !keep(k) }

  /** The loop that puts the slots of a failed flush back, merged with what arrived
      meanwhile; it refuses the slots keep refuses, and counts them. */
  method RequeueSlots<K, V>(dst: map<K, V>, src: map<K, V>, keep: K -> bool, merge: (V, V) -> V)
    returns (r: map<K, V>, refused: nat)
    ensures r == Fold(merge, dst, Restrict(src, keep))
    ensures refused == |Refused(src, keep)|
  {
    hide Fold, Done, Lost;
    r, refused := dst, 0;
    var todo := src.Keys;
    RequeueEnds(merge, dst, src, keep);
    while todo != {}
      invariant todo <= src.Keys
      invariant refused == |Lost(src, todo, keep)|
      invariant r == Fold(merge, dst, Done(src, todo, keep))
      decreases |todo|
    {
      var k :| k in todo;
      RequeueOne(merge, dst, src, todo, k, keep);
      if keep(k) {
        r := if k in r then r[k := merge(r[k], src[k])] else r[k := src[k]];
      } else {
        refused := refused + 1;
      }
      todo := todo - {k};
    }
  }

  ghost function Lost<K, V>(src: map<K, V>, todo: set<K>, keep: K -> bool): set<K> {
    set k | k in src && k !in todo && !keep(k)
  }

  lemma {:induction false} RequeueEnds<K, V>(merge: (V, V) -> V, dst: map<K, V>, src: map<K, V>, keep: K -> bool)
    ensures Fold(merge, dst, Done(src, src.Keys, keep)) == dst && |Lost(src, src.Keys, keep)| == 0
    ensures Done(src, {}, keep) == Restrict(src, keep) && Lost(src, {}, keep) == Refused(src, keep)
  {
    assert Done(src, src.Keys, keep) == map[] && Lost(src, src.Keys, keep) == {};
  }

  ghost function Done<K, V>(src: map<K, V>, todo: set<K>, keep: K -> bool): map<K, V> {
    map k | k in src && k !in todo && keep(k) :: src[k]
  }

  lemma {:induction false} RequeueOne<K, V>(
      merge: (V, V) -> V, dst: map<K, V>, src: map<K, V>, todo: set<K>, k: K, keep: K -> bool)
    requires k in todo && k in src
    ensures var r := Fold(merge, dst, Done(src, todo, keep));
            Fold(merge, dst, Done(src, todo - {k}, keep))
              == if !keep(k) then r else if k in r then r[k := merge(r[k], src[k])] else r[k := src[k]]
    ensures |Lost(src, todo - {k}, keep)| == |Lost(src, todo, keep)| + if keep(k) then 0 else 1
  {
    var l, l' := Lost(src, todo, keep), Lost(src, todo - {k}, keep);
    if keep(k) { assert l' == l; } else { assert l' == l + {k} && k !in l; }
    var a, b := Done(src, todo, keep), Done(src, todo - {k}, keep);
    if keep(k) { assert b == a[k := src[k]]; } else { assert b == a; }
  }

  // ----- steps -----

  /** Finishing a flush that is not under way changes nothing. */
  function Apply<K, V>(merge: (V, V) -> V, s: Sys<K, V>, step: Step<K, V>): Sys<K, V> {
    match step
    case Add(k, v) => s.(slots := Fold(merge, s.slots, map[k := v]))
    case Begin => s.(slots := map[], flights := s.flights + [s.slots])
    case Finish(i, outcome, keep) =>
      if i >= |s.flights| then s
      else
        var f := s.flights[i];
        var left := UnwrittenSlots(f, outcome);
        Sys(Fold(merge, s.slots, Restrict(left, keep)),
            s.flights[..i] + s.flights[i + 1..],
            Fold(merge, s.stored, f - left.Keys),
            Fold(merge, s.dropped, Restrict(left, k => !keep(k))))
  }

  /** The state after the steps, from nothing. */
  ghost function Run<K, V>(merge: (V, V) -> V, steps: seq<Step<K, V>>): Sys<K, V> {
    if steps == [] then Sys(map[], [], map[], map[])
    else Apply(merge, Run(merge, steps[..|steps| - 1]), steps[|steps| - 1])
  }

  // ----- conservation -----

  ghost predicate Commutative<V(!new)>(merge: (V, V) -> V) {
    && (forall a, b :: merge(a, b) == merge(b, a))
    && (forall a, b, c :: merge(merge(a, b), c) == merge(a, merge(b, c)))
  }

  ghost function InFlight<K, V>(merge: (V, V) -> V, flights: seq<map<K, V>>, k: K): Option<V> {
    if flights == [] then None
    else Plus(merge, InFlight(merge, flights[..|flights| - 1], k), At(flights[|flights| - 1], k))
  }

  /** Everything there is of key k, wherever it is. */
  ghost function Everywhere<K, V>(merge: (V, V) -> V, s: Sys<K, V>, k: K): Option<V> {
    Plus(merge, Plus(merge, At(s.slots, k), InFlight(merge, s.flights, k)),
                Plus(merge, At(s.stored, k), At(s.dropped, k)))
  }

  /** Everything that was added to key k. */
  ghost function Added<K, V>(merge: (V, V) -> V, steps: seq<Step<K, V>>, k: K): Option<V> {
    if steps == [] then None
    else
      var last := steps[|steps| - 1];
      Plus(merge, Added(merge, steps[..|steps| - 1], k), if last.Add? && last.k == k then Some(last.v) else None)
  }

  lemma {:induction false} PlusLaws<V(!new)>(merge: (V, V) -> V, a: Option<V>, b: Option<V>, c: Option<V>)
    requires Commutative(merge)
    ensures Plus(merge, a, b) == Plus(merge, b, a)
    ensures Plus(merge, Plus(merge, a, b), c) == Plus(merge, a, Plus(merge, b, c))
    ensures Plus(merge, a, None) == a
  {
  }

  /** (a + b) + (c + d), with one part moved or added. */
  lemma {:induction false} Rearrange<V(!new)>(
      merge: (V, V) -> V, a: Option<V>, b: Option<V>, c: Option<V>, d: Option<V>, x: Option<V>)
    requires Commutative(merge)
    ensures Plus(merge, Plus(merge, Plus(merge, a, x), b), Plus(merge, c, d))
         == Plus(merge, Plus(merge, Plus(merge, a, b), Plus(merge, c, d)), x)
    ensures Plus(merge, Plus(merge, a, Plus(merge, b, x)), Plus(merge, c, d))
         == Plus(merge, Plus(merge, Plus(merge, a, b), Plus(merge, c, d)), x)
    ensures Plus(merge, Plus(merge, a, b), Plus(merge, Plus(merge, c, x), d))
         == Plus(merge, Plus(merge, Plus(merge, a, b), Plus(merge, c, d)), x)
    ensures Plus(merge, Plus(merge, a, b), Plus(merge, c, Plus(merge, d, x)))
         == Plus(merge, Plus(merge, Plus(merge, a, b), Plus(merge, c, d)), x)
  {
    hide Plus;
    var ab, cd := Plus(merge, a, b), Plus(merge, c, d);
    PlusLaws(merge, a, x, b); PlusLaws(merge, x, b, a); PlusLaws(merge, a, b, x);
    PlusLaws(merge, ab, x, cd); PlusLaws(merge, x, cd, ab); PlusLaws(merge, ab, cd, x);
    PlusLaws(merge, c, x, d); PlusLaws(merge, x, d, c); PlusLaws(merge, c, d, x);
  }

  // ----- one step keeps, or adds, exactly what it should -----

  lemma {:induction false} InFlightOne<K, V(!new)>(merge: (V, V) -> V, flights: seq<map<K, V>>, i: nat, k: K)
    requires Commutative(merge) && i < |flights|
    ensures InFlight(merge, flights, k)
         == Plus(merge, InFlight(merge, flights[..i] + flights[i + 1..], k), At(flights[i], k))
  {
    hide Plus;
    var n := |flights| - 1;
    var rest := flights[..i] + flights[i + 1..];
    if i == n {
      assert rest == flights[..n];
    } else {
      InFlightOne(merge, flights[..n], i, k);
      assert rest[..|rest| - 1] == flights[..n][..i] + flights[..n][i + 1..];
      assert flights[..n][i] == flights[i] && rest[|rest| - 1] == flights[n];
      var a := InFlight(merge, rest[..|rest| - 1], k);
      PlusLaws(merge, a, At(flights[i], k), At(flights[n], k));
      PlusLaws(merge, At(flights[i], k), At(flights[n], k), a);
      PlusLaws(merge, a, At(flights[n], k), At(flights[i], k));
    }
  }

  /** A flight's part of k is stored, put back or dropped, and in only one of the three. */
  lemma {:induction false} FlightSplits<K, V>(
      merge: (V, V) -> V, f: map<K, V>, outcome: Outcome<K>, keep: K -> bool, k: K)
    ensures var left := UnwrittenSlots(f, outcome);
            && At(f, k) == Plus(merge, At(f - left.Keys, k),
                                Plus(merge, At(Restrict(left, keep), k), At(Restrict(left, x => !keep(x)), k)))
  {
    var left := UnwrittenSlots(f, outcome);
    assert k in left ==> k in f && left[k] == f[k];
  }

  lemma {:induction false} StepConserves<K, V(!new)>(merge: (V, V) -> V, s: Sys<K, V>, step: Step<K, V>, k: K)
    requires Commutative(merge)
    ensures Everywhere(merge, Apply(merge, s, step), k)
         == Plus(merge, Everywhere(merge, s, k), if step.Add? && step.k == k then Some(step.v) else None)
  {
    hide Plus;
    var t := Apply(merge, s, step);
    var a, b, c, d := At(s.slots, k), InFlight(merge, s.flights, k), At(s.stored, k), At(s.dropped, k);
    PlusLaws(merge, Everywhere(merge, s, k), None, None);
    match step
    case Add(j, v) =>
      FoldAt(merge, s.slots, map[j := v], k);
      Rearrange(merge, a, b, c, d, At(map[j := v], k));
    case Begin =>
      assert t.flights[..|s.flights|] == s.flights;
      assert At(t.slots, k) == None && t.flights[|s.flights|] == s.slots;
      PlusLaws(merge, a, b, None);
      PlusLaws(merge, None, Plus(merge, b, a), None);
      PlusLaws(merge, Plus(merge, b, a), None, None);
    case Finish(i, outcome, keep) =>
      if i < |s.flights| { FinishConserves(merge, s, i, outcome, keep, k); }
  }

  lemma {:induction false} FinishConserves<K, V(!new)>(
      merge: (V, V) -> V, s: Sys<K, V>, i: nat, outcome: Outcome<K>, keep: K -> bool, k: K)
    requires Commutative(merge) && i < |s.flights|
    ensures Everywhere(merge, Apply(merge, s, Finish(i, outcome, keep)), k) == Everywhere(merge, s, k)
  {
    hide Plus;
    var f := s.flights[i];
    var left := UnwrittenSlots(f, outcome);
    var rest := s.flights[..i] + s.flights[i + 1..];
    var a, b, c, d := At(s.slots, k), InFlight(merge, rest, k), At(s.stored, k), At(s.dropped, k);
    var x, y, z := At(Restrict(left, keep), k), At(f - left.Keys, k), At(Restrict(left, j => !keep(j)), k);
    InFlightOne(merge, s.flights, i, k);
    FlightSplits(merge, f, outcome, keep, k);
    FoldAt(merge, s.slots, Restrict(left, keep), k);
    FoldAt(merge, s.stored, f - left.Keys, k);
    FoldAt(merge, s.dropped, Restrict(left, j => !keep(j)), k);
    ThreeParts(merge, a, b, c, d, x, y, z);
  }

  lemma {:induction false} ThreeParts<V(!new)>(
      merge: (V, V) -> V, a: Option<V>, b: Option<V>, c: Option<V>, d: Option<V>, x: Option<V>, y: Option<V>,
      z: Option<V>)
    requires Commutative(merge)
    ensures Plus(merge, Plus(merge, Plus(merge, a, x), b), Plus(merge, Plus(merge, c, y), Plus(merge, d, z)))
         == Plus(merge, Plus(merge, a, Plus(merge, b, Plus(merge, y, Plus(merge, x, z)))), Plus(merge, c, d))
  {
    hide Plus;
    var sum := Plus(merge, Plus(merge, a, b), Plus(merge, c, d));
    Rearrange(merge, a, b, Plus(merge, c, y), Plus(merge, d, z), x);
    Rearrange(merge, a, b, c, Plus(merge, d, z), y);
    Rearrange(merge, a, b, c, d, z);
    Rearrange(merge, a, b, c, d, Plus(merge, y, Plus(merge, x, z)));
    PlusLaws(merge, sum, z, y);
    PlusLaws(merge, sum, Plus(merge, z, y), x);
    PlusLaws(merge, z, y, x);
    PlusLaws(merge, y, x, z);
    PlusLaws(merge, z, Plus(merge, y, x), None);
  }

  /** Over every run, what is stored, in memory, in flight or dropped as too old adds up to
      everything that was added, key by key. */
  lemma {:induction false} Conservation<K, V(!new)>(merge: (V, V) -> V, steps: seq<Step<K, V>>, k: K)
    requires Commutative(merge)
    ensures Everywhere(merge, Run(merge, steps), k) == Added(merge, steps, k)
  {
    if steps != [] {
      var n := |steps| - 1;
      Conservation(merge, steps[..n], k);
      StepConserves(merge, Run(merge, steps[..n]), steps[n], k);
    }
  }

  // ----- runs seen through a map of their values -----

  function MapVals<K, V, W>(h: V -> W, m: map<K, V>): map<K, W> { map k | k in m :: h(m[k]) }

  function MapFlights<K, V, W>(h: V -> W, fs: seq<map<K, V>>): seq<map<K, W>> {
    seq(|fs|, i requires 0 <= i < |fs| => MapVals(h, fs[i]))
  }

  function MapSys<K, V, W>(h: V -> W, s: Sys<K, V>): Sys<K, W> {
    Sys(MapVals(h, s.slots), MapFlights(h, s.flights), MapVals(h, s.stored), MapVals(h, s.dropped))
  }

  function MapStep<K, V, W>(h: V -> W, step: Step<K, V>): Step<K, W> {
    match step
    case Add(k, v) => Add(k, h(v))
    case Begin => Begin
    case Finish(i, outcome, keep) => Finish(i, outcome, keep)
  }

  function MapSteps<K, V, W>(h: V -> W, steps: seq<Step<K, V>>): seq<Step<K, W>> {
    seq(|steps|, i requires 0 <= i < |steps| => MapStep(h, steps[i]))
  }

  ghost predicate Homomorphic<V(!new), W>(m: (V, V) -> V, n: (W, W) -> W, h: V -> W) {
    forall a, b :: h(m(a, b)) == n(h(a), h(b))
  }

  lemma {:induction false} FoldMaps<K, V(!new), W>(
      m: (V, V) -> V, n: (W, W) -> W, h: V -> W, dst: map<K, V>, src: map<K, V>)
    requires Homomorphic(m, n, h)
    ensures MapVals(h, Fold(m, dst, src)) == Fold(n, MapVals(h, dst), MapVals(h, src))
  {
  }

  lemma {:induction false} LeftMaps<K, V, W>(h: V -> W, f: map<K, V>, outcome: Outcome<K>, keep: K -> bool)
    ensures var left, mapped := UnwrittenSlots(f, outcome), UnwrittenSlots(MapVals(h, f), outcome);
            && MapVals(h, left) == mapped
            && MapVals(h, Restrict(left, keep)) == Restrict(mapped, keep)
            && MapVals(h, f - left.Keys) == MapVals(h, f) - mapped.Keys
  {
  }

  lemma {:induction false} ApplyMaps<K, V(!new), W>(
      m: (V, V) -> V, n: (W, W) -> W, h: V -> W, s: Sys<K, V>, step: Step<K, V>)
    requires Homomorphic(m, n, h)
    ensures MapSys(h, Apply(m, s, step)) == Apply(n, MapSys(h, s), MapStep(h, step))
  {
    hide Fold, UnwrittenSlots, Restrict, MapVals;
    match step
    case Add(k, v) =>
      FoldMaps(m, n, h, s.slots, map[k := v]);
      MapOne(h, k, v);
    case Begin =>
      assert MapFlights(h, s.flights + [s.slots]) == MapFlights(h, s.flights) + [MapVals(h, s.slots)];
      MapNone<K, V, W>(h);
    case Finish(i, outcome, keep) =>
      if i < |s.flights| {
        var f := s.flights[i];
        var left := UnwrittenSlots(f, outcome);
        LeftMaps(h, f, outcome, keep);
        LeftMaps(h, f, outcome, k => !keep(k));
        FoldMaps(m, n, h, s.slots, Restrict(left, keep));
        FoldMaps(m, n, h, s.stored, f - left.Keys);
        FoldMaps(m, n, h, s.dropped, Restrict(left, k => !keep(k)));
        assert MapFlights(h, s.flights[..i] + s.flights[i + 1..])
            == MapFlights(h, s.flights)[..i] + MapFlights(h, s.flights)[i + 1..];
      }
  }

  lemma {:induction false} MapOne<K, V, W>(h: V -> W, k: K, v: V)
    ensures MapVals(h, map[k := v]) == map[k := h(v)]
  {
  }

  lemma {:induction false} MapNone<K, V, W>(h: V -> W)
    ensures MapVals<K, V, W>(h, map[]) == map[]
  {
  }

  /** A run seen through h is the run of what h sees. */
  lemma {:induction false} RunMaps<K, V(!new), W>(m: (V, V) -> V, n: (W, W) -> W, h: V -> W, steps: seq<Step<K, V>>)
    requires Homomorphic(m, n, h)
    ensures MapSys(h, Run(m, steps)) == Run(n, MapSteps(h, steps))
  {
    hide MapStep, Apply, Homomorphic;
    if steps == [] {
      MapNone<K, V, W>(h);
    } else {
      var last := |steps| - 1;
      RunMaps(m, n, h, steps[..last]);
      ApplyMaps(m, n, h, Run(m, steps[..last]), steps[last]);
      assert MapSteps(h, steps)[..last] == MapSteps(h, steps[..last]);
    }
  }

  // ----- totals over several keys -----

  /** The sum of f over the keys of ks. */
  ghost function SumOver<K, V>(merge: (V, V) -> V, ks: seq<K>, f: K -> Option<V>): Option<V> {
    if ks == [] then None else Plus(merge, SumOver(merge, ks[..|ks| - 1], f), f(ks[|ks| - 1]))
  }

  ghost function Among<K, V>(f: K -> Option<V>, member: K -> bool): K -> Option<V> {
    k => if member(k) then f(k) else None
  }

  /** Everything that was added to a key of the group. */
  ghost function AddedTo<K, V>(merge: (V, V) -> V, steps: seq<Step<K, V>>, member: K -> bool): Option<V> {
    if steps == [] then None
    else
      var last := steps[|steps| - 1];
      Plus(merge, AddedTo(merge, steps[..|steps| - 1], member),
           if last.Add? && member(last.k) then Some(last.v) else None)
  }

  lemma {:induction false} SumOverSame<K, V>(merge: (V, V) -> V, ks: seq<K>, f: K -> Option<V>, g: K -> Option<V>)
    requires forall k :: k in ks ==> f(k) == g(k)
    ensures SumOver(merge, ks, f) == SumOver(merge, ks, g)
  {
    if ks != [] { SumOverSame(merge, ks[..|ks| - 1], f, g); }
  }

  /** Adding d at one of the keys adds d to the sum. */
  lemma {:induction false} SumOverBump<K, V(!new)>(
      merge: (V, V) -> V, ks: seq<K>, f: K -> Option<V>, g: K -> Option<V>, j: K, d: Option<V>)
    requires Commutative(merge) && Distinct(ks) && j in ks
    requires (forall k :: k in ks && k != j ==> g(k) == f(k)) && g(j) == Plus(merge, f(j), d)
    ensures SumOver(merge, ks, g) == Plus(merge, SumOver(merge, ks, f), d)
  {
    hide Plus;
    var n := |ks| - 1;
    var rest := SumOver(merge, ks[..n], f);
    if ks[n] == j {
      assert j !in ks[..n];
      SumOverSame(merge, ks[..n], f, g);
      PlusLaws(merge, rest, f(j), d);
    } else {
      SumOverBump(merge, ks[..n], f, g, j, d);
      var x := f(ks[n]);
      PlusLaws(merge, rest, d, x);
      PlusLaws(merge, d, x, rest);
      PlusLaws(merge, rest, x, d);
    }
  }

  lemma {:induction false} SumOverNone<K, V>(merge: (V, V) -> V, ks: seq<K>, f: K -> Option<V>)
    requires forall k :: k in ks ==> f(k) == None
    ensures SumOver(merge, ks, f) == None
  {
    if ks != [] { SumOverNone(merge, ks[..|ks| - 1], f); }
  }

  ghost predicate Covers<K, V>(ks: seq<K>, steps: seq<Step<K, V>>) {
    Distinct(ks) && forall i :: 0 <= i < |steps| && steps[i].Add? ==> steps[i].k in ks
  }

  lemma {:induction false} SumAdded<K, V(!new)>(
      merge: (V, V) -> V, steps: seq<Step<K, V>>, ks: seq<K>, member: K -> bool)
    requires Commutative(merge) && Covers(ks, steps)
    ensures SumOver(merge, ks, Among(k => Added(merge, steps, k), member)) == AddedTo(merge, steps, member)
  {
    hide Plus, SumOver;
    var f := Among(k => Added(merge, steps, k), member);
    if steps == [] {
      SumOverNone(merge, ks, f);
    } else {
      var n := |steps| - 1;
      var last := steps[n];
      SumAdded(merge, steps[..n], ks, member);
      var e := Among(k => Added(merge, steps[..n], k), member);
      forall k ensures Plus(merge, e(k), None) == e(k)
        && Plus(merge, Added(merge, steps[..n], k), None) == Added(merge, steps[..n], k) {
        PlusLaws(merge, e(k), None, None);
        PlusLaws(merge, Added(merge, steps[..n], k), None, None);
      }
      PlusLaws(merge, AddedTo(merge, steps[..n], member), None, None);
      if last.Add? && member(last.k) {
        SumOverBump(merge, ks, e, f, last.k, Some(last.v));
      } else {
        SumOverSame(merge, ks, e, f);
      }
    }
  }

  /** Over every run, the total of a group of keys is everything that was added to the group. */
  lemma {:induction false} GroupConservation<K, V(!new)>(
      merge: (V, V) -> V, steps: seq<Step<K, V>>, ks: seq<K>, member: K -> bool)
    requires Commutative(merge) && Covers(ks, steps)
    ensures SumOver(merge, ks, Among(k => Everywhere(merge, Run(merge, steps), k), member))
            == AddedTo(merge, steps, member)
  {
    hide SumOver, Everywhere, Run, Added;
    var f, g := Among(k => Everywhere(merge, Run(merge, steps), k), member), Among(k => Added(merge, steps, k), member);
    forall k | k in ks ensures f(k) == g(k) { Conservation(merge, steps, k); }
    SumOverSame(merge, ks, f, g);
    SumAdded(merge, steps, ks, member);
  }
}
