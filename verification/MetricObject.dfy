/** The metric accumulator as the object that is updated in place, proved against the
    states of MetricFlush (internal/aggregation/metric_accumulator.go). */
module MetricObject {
  import opened Options
  import opened Sequences
  import opened MetricFold
  import opened MetricFlush

  /** What a row keeps of its distribution. */
  datatype Extra = NoExtra | Buckets(shape: Shape) | Raw(payload: string)

  datatype Rollup = Rollup(
    key: Key, kind: Kind, unit: string, temporality: string, attrs: string,
    count: nat, sum: real, min: real, max: real, last: real, obs: int, extra: Extra
  )

  function ToRollup(k: Key, s: Slot): Rollup {
    var extra := match s.kind
      case Histogram => if s.hist.Some? then Buckets(s.hist.value) else NoExtra
      case ExpHistogram => Raw(s.lastExtra)
      case Summary => Raw(s.lastExtra)
      case _ => NoExtra;
    Rollup(k, s.kind, s.unit, s.temporality, s.attrs, s.count, s.sum, s.min, s.max, s.last, s.obs, extra)
  }

  ghost predicate Filled(b: Batch) { b.points != [] }

  ghost function RowOf(b: Batch): Rollup
    requires Filled(b)
  {
    ToRollup(b.key, SlotOf(b.points))
  }

  ghost predicate RowsOf(rows: seq<Rollup>, bs: seq<Batch>) {
    |rows| == |bs| && forall i :: 0 <= i < |bs| ==> Filled(bs[i]) && rows[i] == RowOf(bs[i])
  }

  /** Adds one distribution to another of as many buckets, in place. */
  method AddCounts(counts: array<real>, more: seq<real>)
    requires counts.Length == |more|
    modifies counts
    ensures counts[..] == Zip(old(counts[..]), more)
  {
    var i := 0;
    while i < |more|
      invariant 0 <= i <= |more|
      invariant forall j :: 0 <= j < i ==> counts[j] == old(counts[j]) + more[j]
      invariant forall j :: i <= j < |more| ==> counts[j] == old(counts[j])
    {
      counts[i] := counts[i] + more[i];
      i := i + 1;
    }
  }

  /** Merges the distribution of a delta point. */
  method FoldHistogram(held: Option<Shape>, hist: Option<Shape>) returns (r: Option<Shape>)
    ensures r == FoldHist(held, hist)
  {
    if hist.None? { return held; }
    if held.None? || |held.value.counts| != |hist.value.counts| { return hist; }
    var counts := new real[|held.value.counts|](i requires 0 <= i < |held.value.counts| => held.value.counts[i]);
    assert counts[..] == held.value.counts;
    AddCounts(counts, hist.value.counts);
    return Some(Shape(held.value.bounds, counts[..]));
  }

  /** Walks the slots and makes a row of every closed one. */
  method CollectClosed(pending: seq<Rollup>, slots: map<Key, Slot>, ghost open: map<Key, seq<Point>>,
                       ghost waiting: seq<Batch>, now: int, final: bool, interval: int)
    returns (rows: seq<Rollup>, rest: map<Key, Slot>, ghost keys: seq<Key>)
    requires slots.Keys == open.Keys && RowsOf(pending, waiting)
    requires forall k :: k in slots ==> open[k] != [] && slots[k] == SlotOf(open[k])
    ensures Lists(keys, open, now, final, interval) && rest == Without(slots, keys)
    ensures RowsOf(rows, waiting + Batches(open, keys))
  {
    hide RowsOf, Listed, Lists, Batches, ToRollup, SlotOf;
    rows, keys, rest := pending, [], slots;
    var todo := slots.Keys;
    ghost var seen: set<Key> := {};
    TakeNothing(open, slots, waiting, now, final, interval);
    while todo != {}
      invariant todo <= slots.Keys && seen == slots.Keys - todo && rest == Without(slots, keys)
      invariant Listed(keys, seen, now, final, interval)
      invariant RowsOf(rows, waiting + Batches(open, keys))
      decreases |todo|
    {
      var k :| k in todo;
      TakeOne(keys, seen, k, now, final, interval);
      todo, seen := todo - {k}, seen + {k};
      if final || k.bucket <= now - interval {
        RowsGrow(rows, open, keys, k, waiting);
        rows := rows + [ToRollup(k, slots[k])];
        keys := keys + [k];
        rest := rest - {k};
      }
    }
    TookAll(keys, open, seen, now, final, interval);
  }

  /** The rows whose bucket is young enough to retry, and how many are not. */
  method YoungRows(unwritten: seq<Rollup>, ghost left: seq<Batch>, oldest: int)
    returns (keep: seq<Rollup>, dropped: nat)
    requires RowsOf(unwritten, left)
    ensures RowsOf(keep, Kept(left, oldest)) && dropped == |left| - |Kept(left, oldest)|
  {
    hide SlotOf, ToRollup;
    keep := [];
    var i := 0;
    while i < |unwritten|
      invariant 0 <= i <= |unwritten|
      invariant RowsOf(keep, Kept(left[..i], oldest)) && |keep| <= i
    {
      assert left[..i + 1][..i] == left[..i];
      assert unwritten[i].key == left[i].key by { RowKey(left[i]); }
      if unwritten[i].key.bucket > oldest { keep := keep + [unwritten[i]]; }
      i := i + 1;
    }
    assert left[..i] == left;
    dropped := |unwritten| - |keep|;
  }

  lemma {:induction false} RowKey(b: Batch)
    requires Filled(b)
    ensures RowOf(b).key == b.key
  {
  }

  lemma {:induction false} RowsTwo(a: seq<Rollup>, x: seq<Batch>, b: seq<Rollup>, y: seq<Batch>)
    requires RowsOf(a, x) && RowsOf(b, y)
    ensures RowsOf(a + b, x + y)
  {
  }

  class MetricAccumulator {
    var slots: map<Key, Slot>
    var pending: seq<Rollup>
    const interval: int
    ghost var open: map<Key, seq<Point>>
    ghost var waiting: seq<Batch>

    /** Each slot is the fold of the points that reached it, in their order. */
    ghost predicate Valid()
      reads this
    {
      && slots.Keys == open.Keys
      && (forall k :: k in slots ==> open[k] != [] && slots[k] == SlotOf(open[k]))
      && RowsOf(pending, waiting)
    }

    constructor (interval: int)
      ensures Valid() && open == map[] && waiting == [] && this.interval == interval
    {
      this.interval := interval;
      slots, pending, open, waiting := map[], [], map[], [];
    }

    method AddMetric(series: Series, p: Point)
      requires Valid()
      modifies this
      ensures Valid() && waiting == old(waiting)
      ensures var k := KeyOf(series, p, interval); open == old(open)[k := PointsAt(old(open), k) + [p]]
    {
      hide AddPoint, SlotOf, RowsOf, KeyOf;
      var k := KeyOf(series, p, interval);
      var sl := if k in slots then slots[k] else Opened(p);
      if k in open { GrownSlot(open[k], p); } else { OneSlot(p); assert [] + [p] == [p]; }
      open := open[k := PointsAt(open, k) + [p]];
      sl := FoldPoint(sl, p);
      slots := slots[k := sl];
    }

    /** The locked part of a flush: the rows waiting, and one for every closed bucket, which
        leaves memory. At shutdown every bucket counts as closed. keys is the order in which
        the slots were met. */
    method TakeRows(now: int, final: bool) returns (rows: seq<Rollup>, ghost keys: seq<Key>)
      requires Valid()
      modifies this
      ensures Valid() && waiting == []
      ensures Lists(keys, old(open), now, final, interval)
      ensures open == Without(old(open), keys)
      ensures RowsOf(rows, old(waiting) + Batches(old(open), keys))
    {
      hide RowsOf, Lists, Batches, ToRollup, SlotOf;
      rows, slots, keys := CollectClosed(pending, slots, open, waiting, now, final, interval);
      pending := [];
      NoRows();
      open, waiting := Without(open, keys), [];
    }

    /** After a failed write: the rows that did not land wait for the next flush, unless too
        old. left names them by their points. */
    method KeepForRetry(unwritten: seq<Rollup>, ghost left: seq<Batch>, now: int) returns (dropped: nat)
      requires Valid() && RowsOf(unwritten, left)
      modifies this
      ensures Valid() && open == old(open)
      ensures waiting == Kept(left, now - RETRY_WINDOW) + old(waiting)
      ensures dropped == |left| - |Kept(left, now - RETRY_WINDOW)|
    {
      hide RowsOf, SlotOf;
      var keep;
      keep, dropped := YoungRows(unwritten, left, now - RETRY_WINDOW);
      RowsTwo(keep, Kept(left, now - RETRY_WINDOW), pending, waiting);
      pending := keep + pending;
      waiting := Kept(left, now - RETRY_WINDOW) + waiting;
    }
  }

  /** keys lists those of seen that a flush takes. */
  ghost predicate Listed(keys: seq<Key>, seen: set<Key>, now: int, final: bool, interval: int) {
    && Distinct(keys)
    && (forall k :: k in keys <==> k in seen && (final || Closed(k, now, interval)))
  }

  lemma {:induction false} TakeNothing(
      open: map<Key, seq<Point>>, slots: map<Key, Slot>, bs: seq<Batch>, now: int, final: bool, interval: int)
    ensures Without(slots, []) == slots && Listed([], {}, now, final, interval)
    ensures bs + Batches(open, []) == bs
  {
  }

  lemma {:induction false} NoRows()
    ensures RowsOf([], [])
  {
  }

  lemma {:induction false} TakeOne(keys: seq<Key>, seen: set<Key>, k: Key, now: int, final: bool, interval: int)
    requires Listed(keys, seen, now, final, interval) && k !in seen
    ensures Listed(if final || Closed(k, now, interval) then keys + [k] else keys, seen + {k}, now, final, interval)
  {
  }

  lemma {:induction false} TookAll(
      keys: seq<Key>, open: map<Key, seq<Point>>, seen: set<Key>, now: int, final: bool, interval: int)
    requires Listed(keys, seen, now, final, interval) && seen == open.Keys
    ensures Lists(keys, open, now, final, interval)
  {
  }

  lemma {:induction false} RowsGrow(
      rows: seq<Rollup>, open: map<Key, seq<Point>>, keys: seq<Key>, k: Key, before: seq<Batch>)
    requires RowsOf(rows, before + Batches(open, keys)) && k in open && open[k] != []
    ensures RowsOf(rows + [ToRollup(k, SlotOf(open[k]))], before + Batches(open, keys + [k]))
  {
    assert before + Batches(open, keys + [k]) == before + Batches(open, keys) + [Batch(k, open[k])];
  }

  /** One data point into its slot. */
  method FoldPoint(s: Slot, p: Point) returns (sl: Slot)
    ensures sl == AddPoint(s, p)
  {
    sl := s.(count := s.count + 1);
    match p.kind {
      case Gauge => sl := FoldValue(sl, p);
      case Sum => sl := FoldValue(sl, p);
      case Histogram =>
        if Delta(p) {
          var hist := FoldHistogram(sl.hist, p.hist);
          sl := sl.(sum := sl.sum + p.value, obs := sl.obs + p.count, hist := hist);
        } else if sl.hist.None? || p.time >= sl.lastTime {
          sl := sl.(sum := p.value, obs := p.count, lastTime := p.time);
          if p.hist.Some? { sl := sl.(hist := p.hist); }
        }
      case ExpHistogram => sl := FoldOpaque(sl, p);
      case Summary => sl := FoldOpaque(sl, p);
      case Other =>
    }
  }

  method FoldValue(s: Slot, p: Point) returns (sl: Slot)
    ensures sl == AddValue(s, p)
  {
    sl := s.(sum := s.sum + p.value);
    if !sl.haveVal || p.value < sl.min { sl := sl.(min := p.value); }
    if !sl.haveVal || p.value > sl.max { sl := sl.(max := p.value); }
    sl := sl.(haveVal := true);
    if p.time >= sl.lastTime { sl := sl.(last := p.value, lastTime := p.time); }
  }

  method FoldOpaque(s: Slot, p: Point) returns (sl: Slot)
    ensures sl == AddOpaque(s, p)
  {
    sl := s;
    var newest := p.time >= sl.lastTime;
    if Delta(p) {
      sl := sl.(sum := sl.sum + p.value, obs := sl.obs + p.count);
    } else if newest {
      sl := sl.(sum := p.value, obs := p.count);
    }
    if newest { sl := sl.(lastExtra := p.extra, lastTime := p.time); }
  }

  lemma {:induction false} GrownSlot(ps: seq<Point>, p: Point)
    requires ps != []
    ensures SlotOf(ps + [p]) == AddPoint(SlotOf(ps), p)
  {
    assert (ps + [p])[..|ps|] == ps;
  }
}
