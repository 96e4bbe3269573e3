/** Aggregates, computed two ways: span by span in memory with periodic flushes, and in one
    pass over a list (internal/aggregation/accumulator.go and aggregator.go). */
module Aggregates {
  import opened Options
  import opened Sequences
  import opened Buckets
  import opened Slots

  const REQUEUE_AGE: int := 3_600_000_000_000

  datatype Span = Span(
    project: int, service: string, name: string, resource: string, kind: string,
    startUs: int, status: string, duration: int, weight: int
  )

  datatype AggKey = AggKey(project: int, service: string, operation: string, resource: string, kind: string,
    bucket: int)

  /** p50, p95 and p99 of durations with their weights. */
  type Percentiles = (seq<int>, seq<int>) -> (int, int, int)

  datatype Row = Row(
    key: AggKey, count: int, errors: int, percentiles: (int, int, int), max: int, sum: int,
    weightedCount: int, weightedSpans: int
  )

  function KeyOf(s: Span, interval: int): AggKey {
    AggKey(s.project, s.service, s.name, s.resource, s.kind, Truncate(s.startUs * 1000, interval))
  }

  // ----- one slot -----

  datatype AggSlot = AggSlot(
    count: int, errors: int, durations: seq<int>, weights: seq<int>, weightedCount: int, weightedSpans: int
  )

  const NO_SPANS: AggSlot := AggSlot(0, 0, [], [], 0, 0)

  function AddSpan(sl: AggSlot, s: Span): AggSlot {
    AggSlot(sl.count + 1, sl.errors + if s.status == "error" then 1 else 0,
            sl.durations + [s.duration], sl.weights + [s.weight],
            sl.weightedCount + if s.weight > 0 then s.weight else 0,
            sl.weightedSpans + if s.weight > 0 then 1 else 0)
  }

  function MergeSlots(a: AggSlot, b: AggSlot): AggSlot {
    AggSlot(a.count + b.count, a.errors + b.errors, a.durations + b.durations, a.weights + b.weights,
            a.weightedCount + b.weightedCount, a.weightedSpans + b.weightedSpans)
  }

  function Total(xs: seq<int>): int { if xs == [] then 0 else Total(xs[..|xs| - 1]) + xs[|xs| - 1] }

  /** The greatest, or 0 when none is greater. */
  function Greatest(xs: seq<int>): int {
    if xs == [] then 0
    else var g := Greatest(xs[..|xs| - 1]); if xs[|xs| - 1] > g then xs[|xs| - 1] else g
  }

  function RowOfSlot(k: AggKey, sl: AggSlot, pct: Percentiles): Row {
    Row(k, sl.count, sl.errors, pct(sl.durations, sl.weights), Greatest(sl.durations), Total(sl.durations),
        sl.weightedCount, sl.weightedSpans)
  }

  // ----- the spans of one group -----

  function SlotOf(ss: seq<Span>): AggSlot {
    if ss == [] then NO_SPANS else AddSpan(SlotOf(ss[..|ss| - 1]), ss[|ss| - 1])
  }

  function Durations(ss: seq<Span>): seq<int> { seq(|ss|, i requires 0 <= i < |ss| => ss[i].duration) }

  function Weights(ss: seq<Span>): seq<int> { seq(|ss|, i requires 0 <= i < |ss| => ss[i].weight) }

  /** The spans that meet a condition. */
  function Where(ss: seq<Span>, p: Span -> bool): seq<Span> {
    if ss == [] then [] else Where(ss[..|ss| - 1], p) + if p(ss[|ss| - 1]) then [ss[|ss| - 1]] else []
  }

  function Failed(): Span -> bool { (s: Span) => s.status == "error" }

  function Weighted(): Span -> bool { (s: Span) => s.weight > 0 }

  /** The aggregate of a group, said directly. */
  function RowOfSpans(k: AggKey, ss: seq<Span>, pct: Percentiles): Row {
    Row(k, |ss|, |Where(ss, Failed())|, pct(Durations(ss), Weights(ss)), Greatest(Durations(ss)), Total(Durations(ss)),
        Total(Weights(Where(ss, Weighted()))), |Where(ss, Weighted())|)
  }

  /** A slot filled span by span holds its group's aggregate. */
  lemma {:induction false} SlotHoldsGroup(ss: seq<Span>)
    ensures var sl := SlotOf(ss);
            && sl.count == |ss| && sl.errors == |Where(ss, Failed())|
            && sl.durations == Durations(ss) && sl.weights == Weights(ss)
            && sl.weightedCount == Total(Weights(Where(ss, Weighted()))) && sl.weightedSpans == |Where(ss, Weighted())|
  {
    if ss != [] {
      var n := |ss| - 1;
      SlotHoldsGroup(ss[..n]);
      assert Durations(ss) == Durations(ss[..n]) + [ss[n].duration];
      assert Weights(ss) == Weights(ss[..n]) + [ss[n].weight];
      var w := Where(ss[..n], Weighted());
      if ss[n].weight > 0 {
        var all := Weights(w + [ss[n]]);
        assert all[..|all| - 1] == Weights(w);
      } else {
        assert w + [] == w;
      }
    }
  }

  lemma {:induction false} RowsAgree(k: AggKey, ss: seq<Span>, pct: Percentiles)
    ensures RowOfSlot(k, SlotOf(ss), pct) == RowOfSpans(k, ss, pct)
  {
    SlotHoldsGroup(ss);
  }

  lemma {:induction false} MergeThenAdd(a: AggSlot, b: AggSlot, s: Span)
    ensures AddSpan(MergeSlots(a, b), s) == MergeSlots(a, AddSpan(b, s))
    ensures MergeSlots(a, NO_SPANS) == a
  {
    assert (a.durations + b.durations) + [s.duration] == a.durations + (b.durations + [s.duration]);
    assert (a.weights + b.weights) + [s.weight] == a.weights + (b.weights + [s.weight]);
    assert a.durations + [] == a.durations && a.weights + [] == a.weights;
  }

  /** Merging the slots of two groups is the slot of both. */
  lemma {:induction false} MergeIsBoth(a: seq<Span>, b: seq<Span>)
    ensures SlotOf(a + b) == MergeSlots(SlotOf(a), SlotOf(b))
    decreases |b|
  {
    hide MergeSlots, AddSpan;
    if b == [] {
      assert a + b == a;
      MergeThenAdd(SlotOf(a), NO_SPANS, Span(0, "", "", "", "", 0, "", 0, 0));
    } else {
      var n := |b| - 1;
      MergeIsBoth(a, b[..n]);
      assert (a + b)[..|a + b| - 1] == a + b[..n];
      MergeThenAdd(SlotOf(a), SlotOf(b[..n]), b[n]);
    }
  }

  // ----- grouping -----

  function Join(a: seq<Span>, b: seq<Span>): seq<Span> { a + b }

  /** The spans by key, each group in the order they came, on top of earlier groups. */
  function GroupedOnto(groups: map<AggKey, seq<Span>>, ss: seq<Span>, interval: int): map<AggKey, seq<Span>> {
    if ss == [] then groups
    else
      var last := ss[|ss| - 1];
      Fold(Join, GroupedOnto(groups, ss[..|ss| - 1], interval), map[KeyOf(last, interval) := [last]])
  }

  function Grouped(ss: seq<Span>, interval: int): map<AggKey, seq<Span>> { GroupedOnto(map[], ss, interval) }

  function Under(k: AggKey, interval: int): Span -> bool { (s: Span) => KeyOf(s, interval) == k }

  /** A key has a group exactly when a span has that key, and its group is those spans. */
  lemma {:induction false} GroupedIsFiltered(ss: seq<Span>, interval: int, k: AggKey)
    ensures k in Grouped(ss, interval) <==> Where(ss, Under(k, interval)) != []
    ensures k in Grouped(ss, interval) ==> Grouped(ss, interval)[k] == Where(ss, Under(k, interval))
  {
    if ss != [] {
      GroupedIsFiltered(ss[..|ss| - 1], interval, k);
    }
  }

  // ----- runs -----

  datatype Event = Arrive(span: Span) | StartFlush | EndFlush(i: nat, outcome: Outcome<AggKey>, now: int)

  function KeepsBucket(now: int): AggKey -> bool { (k: AggKey) => k.bucket >= now - REQUEUE_AGE }

  function StepOf(e: Event, interval: int): Step<AggKey, seq<Span>> {
    match e
    case Arrive(s) => Add(KeyOf(s, interval), [s])
    case StartFlush => Begin
    case EndFlush(i, outcome, now) => Finish(i, outcome, KeepsBucket(now))
  }

  function StepsOf(es: seq<Event>, interval: int): seq<Step<AggKey, seq<Span>>> {
    seq(|es|, i requires 0 <= i < |es| => StepOf(es[i], interval))
  }

  /** Slots, flushes, table and losses after the events, each slot by the spans it holds. */
  ghost function After(es: seq<Event>, interval: int): Sys<AggKey, seq<Span>> { Run(Join, StepsOf(es, interval)) }

  function Arrivals(es: seq<Event>): seq<Span> {
    if es == [] then []
    else Arrivals(es[..|es| - 1]) + if es[|es| - 1].Arrive? then [es[|es| - 1].span] else []
  }

  function Bag(ss: seq<Span>): multiset<Span> { multiset(ss) }

  function BagSum(a: multiset<Span>, b: multiset<Span>): multiset<Span> { a + b }

  function BagOf(ss: seq<Span>): Option<multiset<Span>> { if ss == [] then None else Some(multiset(ss)) }

  lemma {:induction false} BagLaws()
    ensures Commutative(BagSum) && Homomorphic(Join, BagSum, Bag)
  {
    forall a, b ensures BagSum(a, b) == BagSum(b, a) { assert a + b == b + a; }
    forall a, b, c ensures BagSum(BagSum(a, b), c) == BagSum(a, BagSum(b, c)) { assert (a + b) + c == a + (b + c); }
    forall a, b ensures Bag(Join(a, b)) == BagSum(Bag(a), Bag(b)) {
      assert multiset(a + b) == multiset(a) + multiset(b);
    }
  }

  lemma {:induction false} BagGrows(ss: seq<Span>, s: Span)
    ensures BagOf(ss + [s]) == Plus(BagSum, BagOf(ss), Some(Bag([s])))
  {
    if ss == [] { assert ss + [s] == [s]; }
  }

  lemma {:induction false} WhereGrows(ss: seq<Span>, s: Span, p: Span -> bool)
    ensures Where(ss + [s], p) == if p(s) then Where(ss, p) + [s] else Where(ss, p)
  {
    assert (ss + [s])[..|ss|] == ss;
  }

  lemma {:induction false} AddedIsArrived(es: seq<Event>, interval: int, k: AggKey)
    ensures Added(BagSum, MapSteps(Bag, StepsOf(es, interval)), k) == BagOf(Where(Arrivals(es), Under(k, interval)))
  {
    hide KeyOf, Where, BagOf, Bag;
    if es == [] {
      assert BagOf(Where([], Under(k, interval))) == None by { NoneUnder(k, interval); }
    } else {
      var n := |es| - 1;
      var steps := MapSteps(Bag, StepsOf(es, interval));
      assert steps[..n] == MapSteps(Bag, StepsOf(es[..n], interval));
      AddedIsArrived(es[..n], interval, k);
      var before := Arrivals(es[..n]);
      if es[n].Arrive? {
        WhereGrows(before, es[n].span, Under(k, interval));
        BagGrows(Where(before, Under(k, interval)), es[n].span);
      } else {
        assert before + [] == before;
      }
    }
  }

  lemma {:induction false} NoneUnder(k: AggKey, interval: int)
    ensures BagOf(Where([], Under(k, interval))) == None
  {
  }

  /** Over every interleaving of arrivals, overlapping flushes and full, partial or failed
      writes, each span that arrived is in exactly one place: stored, open, in flight or
      dropped as too old. */
  lemma {:induction false} SpansConserved(es: seq<Event>, interval: int, k: AggKey)
    ensures Everywhere(BagSum, MapSys(Bag, After(es, interval)), k) == BagOf(Where(Arrivals(es), Under(k, interval)))
  {
    hide Everywhere, MapSys, Where;
    BagLaws();
    RunMaps(Join, BagSum, Bag, StepsOf(es, interval));
    Conservation(BagSum, MapSteps(Bag, StepsOf(es, interval)), k);
    AddedIsArrived(es, interval, k);
  }

  // ----- reports -----

  /** keys lists the groups once each, and rows holds the aggregate of each. */
  ghost predicate Reports(rows: seq<Row>, keys: seq<AggKey>, groups: map<AggKey, seq<Span>>, pct: Percentiles) {
    && Distinct(keys) && (forall k :: k in keys <==> k in groups)
    && |rows| == |keys|
    && forall i :: 0 <= i < |keys| ==> rows[i] == RowOfSpans(keys[i], groups[keys[i]], pct)
  }

  ghost predicate PartReport(rows: seq<Row>, keys: seq<AggKey>, groups: map<AggKey, seq<Span>>, pct: Percentiles) {
    && Distinct(keys) && (forall k :: k in keys ==> k in groups)
    && |rows| == |keys|
    && forall i :: 0 <= i < |keys| ==> rows[i] == RowOfSpans(keys[i], groups[keys[i]], pct)
  }

  lemma {:induction false} ReportedOnce(
      rows: seq<Row>, keys: seq<AggKey>, groups: map<AggKey, seq<Span>>, pct: Percentiles, r: Row)
    requires PartReport(rows, keys, groups, pct)
    ensures multiset(rows)[r] == if r.key in keys && r == RowOfSpans(r.key, groups[r.key], pct) then 1 else 0
    decreases |rows|
  {
    hide RowOfSpans;
    if rows != [] {
      var n := |rows| - 1;
      assert rows == rows[..n] + [rows[n]] && keys == keys[..n] + [keys[n]];
      assert rows[n].key == keys[n] by { RowKey(keys[n], groups[keys[n]], pct); }
      assert keys[n] !in keys[..n];
      ReportedOnce(rows[..n], keys[..n], groups, pct, r);
    }
  }

  lemma {:induction false} RowKey(k: AggKey, ss: seq<Span>, pct: Percentiles)
    ensures RowOfSpans(k, ss, pct).key == k
  {
  }

  /** Two reports of the same groups hold the same rows, in whatever order. */
  lemma {:induction false} SameReport(
      rows: seq<Row>, keys: seq<AggKey>, rows': seq<Row>, keys': seq<AggKey>, groups: map<AggKey, seq<Span>>,
      pct: Percentiles)
    requires Reports(rows, keys, groups, pct) && Reports(rows', keys', groups, pct)
    ensures multiset(rows) == multiset(rows')
  {
    hide RowOfSpans;
    forall r ensures multiset(rows)[r] == multiset(rows')[r] {
      ReportedOnce(rows, keys, groups, pct, r);
      ReportedOnce(rows', keys', groups, pct, r);
    }
  }
}
