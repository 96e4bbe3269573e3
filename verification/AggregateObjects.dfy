/** The in-memory accumulator and the batch aggregator as the loops and the object they are
    (internal/aggregation/accumulator.go and aggregator.go). */
module AggregateObjects {
  import opened Slots
  import opened Aggregates

  // ----- the batch aggregator -----

  /** The row of one group. */
  method GroupRow(k: AggKey, ss: seq<Span>, pct: Percentiles) returns (r: Row)
    ensures r == RowOfSpans(k, ss, pct)
  {
    hide Where, Durations, Weights, Total, Greatest;
    var durations, weights := new int[|ss|], new int[|ss|];
    var errors, total, greatest, weightedCount, weightedSpans := 0, 0, 0, 0, 0;
    EmptyGroup();
    var i := 0;
    while i < |ss|
      invariant 0 <= i <= |ss|
      invariant durations[..i] == Durations(ss[..i]) && weights[..i] == Weights(ss[..i])
      invariant errors == |Where(ss[..i], Failed())|
      invariant total == Total(Durations(ss[..i])) && greatest == Greatest(Durations(ss[..i]))
      invariant weightedSpans == |Where(ss[..i], Weighted())|
      invariant weightedCount == Total(Weights(Where(ss[..i], Weighted())))
    {
      var s := ss[i];
      GroupGrows(ss[..i], s);
      assert ss[..i + 1] == ss[..i] + [s];
      if s.weight > 0 { weightedCount, weightedSpans := weightedCount + s.weight, weightedSpans + 1; }
      durations[i], weights[i] := s.duration, s.weight;
      assert durations[..i + 1] == durations[..i] + [s.duration] && weights[..i + 1] == weights[..i] + [s.weight];
      total := total + s.duration;
      if s.duration > greatest { greatest := s.duration; }
      if s.status == "error" { errors := errors + 1; }
      i := i + 1;
    }
    assert ss[..i] == ss;
    assert durations[..i] == durations[..] && weights[..i] == weights[..];
    r := Row(k, |ss|, errors, pct(durations[..], weights[..]), greatest, total, weightedCount, weightedSpans);
  }

  lemma {:induction false} EmptyGroup()
    ensures Where([], Failed()) == [] && Where([], Weighted()) == [] && Durations([]) == [] && Weights([]) == []
    ensures Total([]) == 0 && Greatest([]) == 0
  {
  }

  lemma {:induction false} GroupGrows(ss: seq<Span>, s: Span)
    ensures Where(ss + [s], Failed()) == Where(ss, Failed()) + if s.status == "error" then [s] else []
    ensures Where(ss + [s], Weighted()) == Where(ss, Weighted()) + if s.weight > 0 then [s] else []
    ensures Durations(ss + [s]) == Durations(ss) + [s.duration] && Weights(ss + [s]) == Weights(ss) + [s.weight]
    ensures Total(Durations(ss + [s])) == Total(Durations(ss)) + s.duration
    ensures var g := Greatest(Durations(ss)); Greatest(Durations(ss + [s])) == if s.duration > g then s.duration else g
    ensures var w := Where(ss, Weighted());
            Total(Weights(Where(ss + [s], Weighted()))) == Total(Weights(w)) + if s.weight > 0 then s.weight else 0
  {
    hide Where, Total, Greatest, Durations, Weights;
    WhereGrows(ss, s, Failed());
    WhereGrows(ss, s, Weighted());
    ListsGrow(ss, s);
    var w := Where(ss, Weighted());
    ListsGrow(w, s);
    TotalGrows(Durations(ss), s.duration);
    TotalGrows(Weights(w), s.weight);
    assert w + [] == w && Where(ss, Failed()) + [] == Where(ss, Failed());
  }

  lemma {:induction false} ListsGrow(ss: seq<Span>, s: Span)
    ensures Durations(ss + [s]) == Durations(ss) + [s.duration] && Weights(ss + [s]) == Weights(ss) + [s.weight]
  {
  }

  lemma {:induction false} TotalGrows(xs: seq<int>, x: int)
    ensures Total(xs + [x]) == Total(xs) + x
    ensures Greatest(xs + [x]) == if x > Greatest(xs) then x else Greatest(xs)
  {
    assert (xs + [x])[..|xs|] == xs;
  }

  /** Groups the spans and reports each group. */
  method AggregateSpans(spans: seq<Span>, interval: int, pct: Percentiles)
    returns (rows: seq<Row>, ghost keys: seq<AggKey>)
    ensures Reports(rows, keys, Grouped(spans, interval), pct)
  {
    hide RowOfSpans, Fold;
    rows, keys := [], [];
    var groups: map<AggKey, seq<Span>> := map[];
    var i := 0;
    while i < |spans|
      invariant 0 <= i <= |spans| && groups == Grouped(spans[..i], interval)
    {
      var s := spans[i];
      var k := KeyOf(s, interval);
      assert spans[..i + 1][..i] == spans[..i];
      FoldOne(Join, groups, k, [s]);
      groups := groups[k := if k in groups then groups[k] + [s] else [s]];
      i := i + 1;
    }
    assert spans[..i] == spans;
    var todo := groups.Keys;
    while todo != {}
      invariant todo <= groups.Keys && PartReport(rows, keys, groups, pct)
                && forall k :: k in groups ==> (k in keys <==> k !in todo)
      decreases |todo|
    {
      var k :| k in todo;
      var r := GroupRow(k, groups[k], pct);
      rows, keys, todo := rows + [r], keys + [k], todo - {k};
    }
  }

  // ----- the accumulator -----

  lemma {:induction false} MergeIsHomomorphic()
    ensures Homomorphic(Join, MergeSlots, SlotOf)
  {
    hide MergeSlots, SlotOf;
    forall a, b ensures SlotOf(Join(a, b)) == MergeSlots(SlotOf(a), SlotOf(b)) { MergeIsBoth(a, b); }
  }

  lemma {:induction false} OneSpan(s: Span)
    ensures SlotOf([s]) == AddSpan(NO_SPANS, s)
  {
    assert [s][..0] == [];
    assert SlotOf([s]) == AddSpan(SlotOf([]), s);
  }

  lemma {:induction false} MoreSpans(ss: seq<Span>, s: Span)
    ensures SlotOf(ss + [s]) == AddSpan(SlotOf(ss), s)
  {
    assert (ss + [s])[..|ss|] == ss;
  }

  /** The row of one slot, as a flush writes it. */
  method SlotRow(k: AggKey, sl: AggSlot, pct: Percentiles) returns (r: Row)
    ensures r == RowOfSlot(k, sl, pct)
  {
    var total, greatest := 0, 0;
    var i := 0;
    while i < |sl.durations|
      invariant 0 <= i <= |sl.durations|
      invariant total == Total(sl.durations[..i]) && greatest == Greatest(sl.durations[..i])
    {
      assert sl.durations[..i + 1][..i] == sl.durations[..i];
      total := total + sl.durations[i];
      if sl.durations[i] > greatest { greatest := sl.durations[i]; }
      i := i + 1;
    }
    assert sl.durations[..i] == sl.durations;
    r := Row(k, sl.count, sl.errors, pct(sl.durations, sl.weights), greatest, total, sl.weightedCount,
      sl.weightedSpans);
  }

  /** The rows of the slots a flush took. */
  method SlotRows(slots: map<AggKey, AggSlot>, ghost held: map<AggKey, seq<Span>>, pct: Percentiles)
    returns (rows: seq<Row>, ghost keys: seq<AggKey>)
    requires slots == MapVals(SlotOf, held)
    ensures Reports(rows, keys, held, pct)
  {
    hide RowOfSpans, RowOfSlot, SlotOf;
    rows, keys := [], [];
    var todo := slots.Keys;
    while todo != {}
      invariant todo <= slots.Keys && PartReport(rows, keys, held, pct)
                && forall k :: k in held ==> (k in keys <==> k !in todo)
      decreases |todo|
    {
      var k :| k in todo;
      var r := SlotRow(k, slots[k], pct);
      RowsAgree(k, held[k], pct);
      rows, keys, todo := rows + [r], keys + [k], todo - {k};
    }
  }

  class Accumulator {
    var slots: map<AggKey, AggSlot>
    const interval: int
    ghost var held: map<AggKey, seq<Span>>

    /** Every slot is the slot of the spans it took in. */
    ghost predicate Valid()
      reads this
    {
      slots == MapVals(SlotOf, held)
    }

    constructor (interval: int)
      ensures Valid() && held == map[] && this.interval == interval
    {
      this.interval := interval;
      slots, held := map[], map[];
    }

    method AddSlot(s: Span)
      requires Valid()
      modifies this
      ensures Valid() && held == Fold(Join, old(held), map[KeyOf(s, interval) := [s]])
    {
      hide AddSpan, SlotOf;
      var k := KeyOf(s, interval);
      var sl := if k in slots then slots[k] else NO_SPANS;
      if k in held { MoreSpans(held[k], s); } else { OneSpan(s); }
      FoldOne(Join, held, k, [s]);
      slots := slots[k := AddSpan(sl, s)];
      held := held[k := if k in held then held[k] + [s] else [s]];
    }

    method AddBatch(spans: seq<Span>)
      requires Valid()
      modifies this
      ensures Valid() && held == GroupedOnto(old(held), spans, interval)
    {
      var i := 0;
      while i < |spans|
        invariant 0 <= i <= |spans| && Valid() && held == GroupedOnto(old(held), spans[..i], interval)
      {
        assert spans[..i + 1][..i] == spans[..i];
        AddSlot(spans[i]);
        i := i + 1;
      }
      assert spans[..i] == spans;
    }

    /** The first part of a flush: takes the slots and makes their rows. */
    method TakeRows(pct: Percentiles) returns (taken: map<AggKey, AggSlot>, rows: seq<Row>, ghost keys: seq<AggKey>)
      requires Valid()
      modifies this
      ensures Valid() && held == map[] && taken == MapVals(SlotOf, old(held))
      ensures Reports(rows, keys, old(held), pct)
    {
      taken := slots;
      rows, keys := SlotRows(taken, held, pct);
      slots, held := map[], map[];
    }

    /** After a failed write: the slots its rows did not reach go back, unless too old. */
    method Requeue(taken: map<AggKey, AggSlot>, ghost from: map<AggKey, seq<Span>>, outcome: Outcome<AggKey>, now: int)
      returns (lost: nat)
      requires Valid() && taken == MapVals(SlotOf, from)
      modifies this
      ensures Valid()
      ensures held == Fold(Join, old(held), Restrict(UnwrittenSlots(from, outcome), KeepsBucket(now)))
      ensures lost == |Refused(UnwrittenSlots(from, outcome), KeepsBucket(now))|
    {
      hide MapVals, Fold, Restrict, UnwrittenSlots;
      var left := UnwrittenSlots(taken, outcome);
      ghost var kept := Restrict(UnwrittenSlots(from, outcome), KeepsBucket(now));
      MergeIsHomomorphic();
      LeftMaps(SlotOf, from, outcome, KeepsBucket(now));
      FoldMaps(Join, MergeSlots, SlotOf, held, kept);
      RefusedMaps(SlotOf, UnwrittenSlots(from, outcome), KeepsBucket(now));
      slots, lost := RequeueSlots(slots, left, KeepsBucket(now), MergeSlots);
      held := Fold(Join, held, kept);
    }
  }

  lemma {:induction false} RefusedMaps<K, V, W>(h: V -> W, m: map<K, V>, keep: K -> bool)
    ensures Refused(MapVals(h, m), keep) == Refused(m, keep)
  {
  }

  /** Adding the spans one by one to a new accumulator and flushing once makes the rows that
      one pass over the list makes. */
  method OneFlushIsOneBatch(spans: seq<Span>, interval: int, pct: Percentiles)
    returns (flushed: seq<Row>, batch: seq<Row>)
    ensures multiset(flushed) == multiset(batch)
    ensures forall k :: Where(spans, Under(k, interval)) != [] ==>
              RowOfSpans(k, Where(spans, Under(k, interval)), pct) in flushed
    ensures forall r :: r in flushed ==> r == RowOfSpans(r.key, Where(spans, Under(r.key, interval)), pct)
  {
    var acc := new Accumulator(interval);
    acc.AddBatch(spans);
    var taken;
    ghost var keys, keys';
    taken, flushed, keys := acc.TakeRows(pct);
    batch, keys' := AggregateSpans(spans, interval, pct);
    SameReport(flushed, keys, batch, keys', Grouped(spans, interval), pct);
    EachGroupReported(flushed, keys, spans, interval, pct);
  }

  lemma {:induction false} EachGroupReported(
      rows: seq<Row>, keys: seq<AggKey>, spans: seq<Span>, interval: int, pct: Percentiles)
    requires Reports(rows, keys, Grouped(spans, interval), pct)
    ensures forall k :: Where(spans, Under(k, interval)) != [] ==>
              RowOfSpans(k, Where(spans, Under(k, interval)), pct) in rows
    ensures forall r :: r in rows ==> r == RowOfSpans(r.key, Where(spans, Under(r.key, interval)), pct)
  {
    hide RowOfSpans, Where, Grouped;
    forall k | Where(spans, Under(k, interval)) != []
      ensures RowOfSpans(k, Where(spans, Under(k, interval)), pct) in rows {
      GroupedIsFiltered(spans, interval, k);
      assert k in keys;
      var i :| 0 <= i < |keys| && keys[i] == k;
      assert rows[i] in rows;
    }
    forall r | r in rows ensures r == RowOfSpans(r.key, Where(spans, Under(r.key, interval)), pct) {
      var i :| 0 <= i < |rows| && rows[i] == r;
      assert keys[i] in keys;
      GroupedIsFiltered(spans, interval, keys[i]);
      RowKey(keys[i], Grouped(spans, interval)[keys[i]], pct);
    }
  }
}
