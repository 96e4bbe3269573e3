/** How metric points fold into the slot of their series and bucket
    (internal/aggregation/metric_accumulator.go). */
module MetricFold {
  import opened Options

  /** Other stands for a type name the accumulator does not know. */
  datatype Kind = Gauge | Sum | Histogram | ExpHistogram | Summary | Other

  datatype Shape = Shape(bounds: seq<real>, counts: seq<real>)

  /** A data point. hist is its explicit-bucket distribution if its payload can be read. */
  datatype Point = Point(
    kind: Kind, unit: string, attrs: string, temporality: string,
    time: nat, value: real, count: int, hist: Option<Shape>, extra: string
  )

  datatype Slot = Slot(
    kind: Kind, unit: string, attrs: string, temporality: string,
    count: nat, sum: real, min: real, max: real, last: real, lastTime: nat, obs: int, haveVal: bool,
    hist: Option<Shape>, lastExtra: string
  )

  predicate Delta(p: Point) { p.temporality == "delta" }

  /** The slot a point opens: it fixes the type, unit, attributes and temporality. */
  function Opened(p: Point): Slot {
    Slot(p.kind, p.unit, p.attrs, p.temporality, 0, 0.0, 0.0, 0.0, 0.0, 0, 0, false, None, "")
  }

  function Zip(a: seq<real>, b: seq<real>): seq<real>
    requires |a| == |b|
  {
    seq(|a|, i requires 0 <= i < |a| => a[i] + b[i])
  }

  /** Counts of one shape add element by element; another shape replaces. */
  function FoldHist(h: Option<Shape>, g: Option<Shape>): Option<Shape> {
    match g
    case None => h
    case Some(y) =>
      if h.None? || |h.value.counts| != |y.counts| then g
      else Some(Shape(h.value.bounds, Zip(h.value.counts, y.counts)))
  }

  function AddValue(s: Slot, p: Point): Slot {
    var t := s.(sum := s.sum + p.value,
                min := if !s.haveVal || p.value < s.min then p.value else s.min,
                max := if !s.haveVal || p.value > s.max then p.value else s.max,
                haveVal := true);
    if p.time >= s.lastTime then t.(last := p.value, lastTime := p.time) else t
  }

  function AddHistogram(s: Slot, p: Point): Slot {
    if Delta(p) then s.(sum := s.sum + p.value, obs := s.obs + p.count, hist := FoldHist(s.hist, p.hist))
    else if s.hist.Some? && p.time < s.lastTime then s
    else s.(sum := p.value, obs := p.count, lastTime := p.time, hist := if p.hist.Some? then p.hist else s.hist)
  }

  function AddOpaque(s: Slot, p: Point): Slot {
    var newest := p.time >= s.lastTime;
    var t := if Delta(p) then s.(sum := s.sum + p.value, obs := s.obs + p.count)
             else if newest then s.(sum := p.value, obs := p.count)
             else s;
    if newest then t.(lastExtra := p.extra, lastTime := p.time) else t
  }

  /** The type's own part of the fold, without the point count. */
  function AddKind(s: Slot, p: Point): Slot {
    match p.kind
    case Histogram => AddHistogram(s, p)
    case ExpHistogram => AddOpaque(s, p)
    case Summary => AddOpaque(s, p)
    case Gauge => AddValue(s, p)
    case Sum => AddValue(s, p)
    case Other => s
  }

  function AddPoint(s: Slot, p: Point): Slot {
    AddKind(s.(count := s.count + 1), p)
  }

  function Folded(s: Slot, ps: seq<Point>): Slot {
    if ps == [] then s else AddPoint(Folded(s, ps[..|ps| - 1]), ps[|ps| - 1])
  }

  /** The slot of a bucket after points that arrived in this order. */
  function SlotOf(ps: seq<Point>): Slot
    requires ps != []
  {
    Folded(Opened(ps[0]), ps)
  }

  // ----- when the order does not matter -----

  predicate SameHeader(a: Point, b: Point) {
    a.kind == b.kind && a.unit == b.unit && a.attrs == b.attrs && a.temporality == b.temporality
  }

  predicate SameShape(a: Shape, b: Shape) { a.bounds == b.bounds && |a.counts| == |b.counts| }

  /** What two points of one slot must share: the header, and for delta histograms the shape. */
  predicate Compatible(a: Point, b: Point) {
    && SameHeader(a, b)
    && (a.kind.Histogram? && Delta(a) && a.hist.Some? && b.hist.Some? ==> SameShape(a.hist.value, b.hist.value))
  }

  /** A point that is not a cumulative histogram snapshot with an unreadable payload. */
  predicate Readable(p: Point) { p.kind.Histogram? && !Delta(p) ==> p.hist.Some? }

  ghost predicate Regular(ps: seq<Point>) {
    && (forall i :: 0 <= i < |ps| ==> Readable(ps[i]))
    && (forall i, j :: 0 <= i < j < |ps| ==> Compatible(ps[i], ps[j]) && ps[i].time != ps[j].time)
  }

  /** Folding p into s meets no distribution of another shape. */
  ghost predicate Joins(s: Slot, p: Point) {
    && Readable(p)
    && (p.kind.Histogram? && Delta(p) && s.hist.Some? && p.hist.Some? ==> SameShape(s.hist.value, p.hist.value))
  }

  lemma {:induction false} ValuesCommute(s: Slot, a: Point, b: Point)
    requires a.time != b.time
    ensures AddValue(AddValue(s, a), b) == AddValue(AddValue(s, b), a)
  {
  }

  lemma {:induction false} OpaquesCommute(s: Slot, a: Point, b: Point)
    requires a.time != b.time && Delta(a) == Delta(b)
    ensures AddOpaque(AddOpaque(s, a), b) == AddOpaque(AddOpaque(s, b), a)
  {
  }

  lemma {:induction false} HistsCommute(h: Option<Shape>, a: Option<Shape>, b: Option<Shape>)
    requires h.Some? && a.Some? ==> SameShape(h.value, a.value)
    requires h.Some? && b.Some? ==> SameShape(h.value, b.value)
    requires a.Some? && b.Some? ==> SameShape(a.value, b.value)
    ensures FoldHist(FoldHist(h, a), b) == FoldHist(FoldHist(h, b), a)
    ensures var g := FoldHist(h, a); g.Some? && b.Some? ==> SameShape(g.value, b.value)
  {
    if a.Some? && b.Some? {
      var x, y := a.value.counts, b.value.counts;
      assert Zip(x, y) == Zip(y, x);
      if h.Some? {
        var z := h.value.counts;
        assert Zip(Zip(z, x), y) == Zip(Zip(z, y), x);
      }
    }
  }

  lemma {:induction false} HistogramsCommute(s: Slot, a: Point, b: Point)
    requires Joins(s, a) && Joins(s, b) && Compatible(a, b) && a.time != b.time && a.kind.Histogram?
    ensures AddHistogram(AddHistogram(s, a), b) == AddHistogram(AddHistogram(s, b), a)
    ensures Joins(AddHistogram(s, a), b)
  {
    if Delta(a) {
      hide FoldHist;
      HistsCommute(s.hist, a.hist, b.hist);
    }
  }

  lemma {:induction false} KindsCommute(s: Slot, a: Point, b: Point)
    requires Joins(s, a) && Joins(s, b) && Compatible(a, b) && a.time != b.time
    ensures AddKind(AddKind(s, a), b) == AddKind(AddKind(s, b), a)
    ensures Joins(AddKind(s, a), b)
  {
    hide AddValue, AddOpaque, AddHistogram;
    match a.kind
    case Histogram => HistogramsCommute(s, a, b);
    case Other =>
    case ExpHistogram => OpaquesCommute(s, a, b);
    case Summary => OpaquesCommute(s, a, b);
    case Gauge => ValuesCommute(s, a, b);
    case Sum => ValuesCommute(s, a, b);
  }

  lemma {:induction false} CountIsApart(s: Slot, n: nat, p: Point)
    ensures AddKind(s.(count := n), p) == AddKind(s, p).(count := n)
    ensures AddKind(s, p).count == s.count
  {
    hide AddValue, AddOpaque, AddHistogram;
    ValueCount(s, n, p);
    OpaqueCount(s, n, p);
    HistogramCount(s, n, p);
  }

  lemma {:induction false} ValueCount(s: Slot, n: nat, p: Point)
    ensures AddValue(s.(count := n), p) == AddValue(s, p).(count := n) && AddValue(s, p).count == s.count
  {
  }

  lemma {:induction false} OpaqueCount(s: Slot, n: nat, p: Point)
    ensures AddOpaque(s.(count := n), p) == AddOpaque(s, p).(count := n) && AddOpaque(s, p).count == s.count
  {
  }

  lemma {:induction false} HistogramCount(s: Slot, n: nat, p: Point)
    ensures AddHistogram(s.(count := n), p) == AddHistogram(s, p).(count := n) && AddHistogram(s, p).count == s.count
  {
    hide FoldHist;
  }

  lemma {:induction false} AddsCommute(s: Slot, a: Point, b: Point)
    requires Joins(s, a) && Joins(s, b) && Compatible(a, b) && a.time != b.time
    ensures AddPoint(AddPoint(s, a), b) == AddPoint(AddPoint(s, b), a)
    ensures Joins(AddPoint(s, a), b)
  {
    hide AddKind;
    var one, two := s.count + 1, s.count + 2;
    CountIsApart(s, one, a);
    CountIsApart(s, one, b);
    CountIsApart(AddKind(s, a), two, b);
    CountIsApart(AddKind(s, b), two, a);
    KindsCommute(s, a, b);
  }

  ghost predicate AllJoin(s: Slot, ps: seq<Point>) { Regular(ps) && forall i :: 0 <= i < |ps| ==> Joins(s, ps[i]) }

  /** A point may as well come last. */
  lemma {:induction false} MoveToBack(s: Slot, p: Point, xs: seq<Point>)
    requires AllJoin(s, [p] + xs)
    ensures Folded(s, [p] + xs) == AddPoint(Folded(s, xs), p)
    ensures Joins(Folded(s, xs), p)
    decreases |xs|
  {
    var all := [p] + xs;
    if xs == [] {
      assert all == [p] && [p][..0] == [];
      assert Folded(s, [p]) == AddPoint(Folded(s, []), p);
      assert Joins(s, all[0]);
    } else {
      var n := |xs| - 1;
      var q := xs[n];
      assert all[..|all| - 1] == [p] + xs[..n] && all[|all| - 1] == q;
      SubJoin(s, all, [p] + xs[..n]);
      MoveToBack(s, p, xs[..n]);
      assert ([q] + xs[..n]) == [all[|all| - 1]] + all[1..|all| - 1];
      RotateJoin(s, p, xs);
      MoveToBack(s, q, xs[..n]);
      assert Compatible(all[0], all[|all| - 1]) && all[0].time != all[|all| - 1].time;
      CompatibleBack(p, q);
      AddsCommute(Folded(s, xs[..n]), p, q);
      AddsCommute(Folded(s, xs[..n]), q, p);
    }
  }

  lemma {:induction false} CompatibleBack(p: Point, q: Point)
    requires Compatible(p, q)
    ensures Compatible(q, p)
  {
  }

  /** A prefix joins as well. */
  lemma {:induction false} SubJoin(s: Slot, all: seq<Point>, part: seq<Point>)
    requires AllJoin(s, all) && part <= all
    ensures AllJoin(s, part)
  {
    assert forall i :: 0 <= i < |part| ==> part[i] == all[i];
  }

  lemma {:induction false} RotateJoin(s: Slot, p: Point, xs: seq<Point>)
    requires AllJoin(s, [p] + xs) && xs != []
    ensures AllJoin(s, [xs[|xs| - 1]] + xs[..|xs| - 1])
  {
    var all, rot := [p] + xs, [xs[|xs| - 1]] + xs[..|xs| - 1];
    var n := |xs|;
    assert rot[0] == all[n] && forall i :: 1 <= i < n ==> rot[i] == all[i];
    forall i, j | 0 <= i < j < |rot| ensures Compatible(rot[i], rot[j]) && rot[i].time != rot[j].time {
      if i == 0 { assert Compatible(all[j], all[n]) && all[j].time != all[n].time; CompatibleBack(all[j], all[n]); }
      else { assert Compatible(all[i], all[j]) && all[i].time != all[j].time; }
    }
    forall i | 0 <= i < |rot| ensures Joins(s, rot[i]) && Readable(rot[i]) {
      assert Joins(s, all[if i == 0 then n else i]);
    }
  }

  lemma {:induction false} FoldedTwo(s: Slot, xs: seq<Point>, ys: seq<Point>)
    ensures Folded(s, xs + ys) == Folded(Folded(s, xs), ys)
    decreases |ys|
  {
    if ys == [] {
      assert xs + ys == xs;
    } else {
      var n := |ys| - 1;
      assert (xs + ys)[..|xs + ys| - 1] == xs + ys[..n];
      FoldedTwo(s, xs, ys[..n]);
    }
  }

  lemma {:induction false} WithoutOne(qs: seq<Point>, i: nat)
    requires i < |qs|
    ensures multiset(qs[..i] + qs[i + 1..]) == multiset(qs) - multiset{qs[i]}
  {
    assert qs == qs[..i] + [qs[i]] + qs[i + 1..];
  }

  /** Any order of points a slot can take in leaves the same slot. */
  lemma {:induction false} FoldedAnyOrder(s: Slot, ps: seq<Point>, qs: seq<Point>)
    requires multiset(ps) == multiset(qs) && AllJoin(s, ps) && AllJoin(s, qs)
    ensures Folded(s, ps) == Folded(s, qs)
    decreases |ps|
  {
    if ps == [] {
      assert |multiset(qs)| == 0;
      assert qs == [];
    } else {
      var n := |ps| - 1;
      var p := ps[n];
      assert p in multiset(qs);
      var i :| 0 <= i < |qs| && qs[i] == p;
      var rest := qs[..i] + qs[i + 1..];
      WithoutOne(ps, n);
      WithoutOne(qs, i);
      assert ps[..n] + ps[n + 1..] == ps[..n];
      SubJoin(s, ps, ps[..n]);
      DropJoin(s, qs, i);
      FoldedAnyOrder(s, ps[..n], rest);
      OutOfTheMiddle(s, qs, i);
    }
  }

  lemma {:induction false} DropJoin(s: Slot, qs: seq<Point>, i: nat)
    requires AllJoin(s, qs) && i < |qs|
    ensures AllJoin(s, qs[..i] + qs[i + 1..])
    ensures AllJoin(Folded(s, qs[..i]), qs[i..])
  {
    var rest := qs[..i] + qs[i + 1..];
    forall j, k | 0 <= j < k < |rest| ensures Compatible(rest[j], rest[k]) && rest[j].time != rest[k].time {
      var a, b := if j < i then j else j + 1, if k < i then k else k + 1;
      assert rest[j] == qs[a] && rest[k] == qs[b] && a < b;
    }
    forall j | 0 <= j < |rest| ensures Joins(s, rest[j]) {
      assert rest[j] == qs[if j < i then j else j + 1];
    }
    TailJoin(s, qs, i);
  }

  /** What is still to come joins what has been folded. */
  lemma {:induction false} TailJoin(s: Slot, qs: seq<Point>, i: nat)
    requires AllJoin(s, qs) && i <= |qs|
    ensures AllJoin(Folded(s, qs[..i]), qs[i..])
  {
    forall j | 0 <= j < |qs[i..]| ensures Joins(Folded(s, qs[..i]), qs[i..][j]) {
      FrontJoin(s, qs, i, i + j);
    }
    forall j, k | 0 <= j < k < |qs[i..]|
      ensures Compatible(qs[i..][j], qs[i..][k]) && qs[i..][j].time != qs[i..][k].time
    {
      assert qs[i..][j] == qs[i + j] && qs[i..][k] == qs[i + k];
    }
  }

  lemma {:induction false} FrontJoin(s: Slot, qs: seq<Point>, i: nat, k: nat)
    requires AllJoin(s, qs) && i <= k < |qs|
    ensures Joins(Folded(s, qs[..i]), qs[k])
  {
    var all := [qs[k]] + qs[..i];
    forall a, b | 0 <= a < b < |all| ensures Compatible(all[a], all[b]) && all[a].time != all[b].time {
      if a == 0 {
        assert all[b] == qs[b - 1];
        assert Compatible(qs[b - 1], qs[k]) && qs[b - 1].time != qs[k].time;
        CompatibleBack(qs[b - 1], qs[k]);
      } else {
        assert all[a] == qs[a - 1] && all[b] == qs[b - 1];
      }
    }
    forall a | 0 <= a < |all| ensures Joins(s, all[a]) {
      assert all[a] == if a == 0 then qs[k] else qs[a - 1];
    }
    MoveToBack(s, qs[k], qs[..i]);
  }

  lemma {:induction false} OutOfTheMiddle(s: Slot, qs: seq<Point>, i: nat)
    requires AllJoin(s, qs) && i < |qs|
    ensures Folded(s, qs) == AddPoint(Folded(s, qs[..i] + qs[i + 1..]), qs[i])
  {
    hide AddPoint, Folded, Regular;
    TailJoin(s, qs, i);
    assert qs == qs[..i] + qs[i..];
    FoldedTwo(s, qs[..i], qs[i..]);
    assert qs[i..] == [qs[i]] + qs[i + 1..];
    MoveToBack(Folded(s, qs[..i]), qs[i], qs[i + 1..]);
    FoldedTwo(s, qs[..i], qs[i + 1..]);
  }

  lemma {:induction false} HeaderStays(s: Slot, p: Point)
    ensures var t := AddPoint(s, p);
            t.kind == s.kind && t.unit == s.unit && t.attrs == s.attrs && t.temporality == s.temporality
  {
  }

  // ----- what the slot ends as -----

  predicate Newest(ps: seq<Point>, m: nat) {
    m < |ps| && forall i :: 0 <= i < |ps| ==> ps[i].time <= ps[m].time
  }

  function Values(ps: seq<Point>): real { if ps == [] then 0.0 else Values(ps[..|ps| - 1]) + ps[|ps| - 1].value }

  function Observed(ps: seq<Point>): int { if ps == [] then 0 else Observed(ps[..|ps| - 1]) + ps[|ps| - 1].count }

  /** The observations in bucket j of all points. */
  function InBucket(ps: seq<Point>, j: nat): real {
    if ps == [] then 0.0
    else InBucket(ps[..|ps| - 1], j) +
         var h := ps[|ps| - 1].hist; if h.Some? && j < |h.value.counts| then h.value.counts[j] else 0.0
  }

  function Totals(ps: seq<Point>, n: nat): seq<real> { seq(n, j requires 0 <= j < n => InBucket(ps, j)) }

  ghost predicate AllOf(ps: seq<Point>, kind: Kind, delta: bool) {
    forall i :: 0 <= i < |ps| ==> ps[i].kind == kind && Delta(ps[i]) == delta
  }

  ghost predicate DistinctTimes(ps: seq<Point>) {
    forall i, j :: 0 <= i < j < |ps| ==> ps[i].time != ps[j].time
  }

  lemma {:induction false} CountsPoints(s: Slot, ps: seq<Point>)
    ensures Folded(s, ps).count == s.count + |ps|
  {
    if ps != [] { CountsPoints(s, ps[..|ps| - 1]); }
  }

  /** A slot as its points left it, seen one point earlier. */
  lemma {:induction false} Earlier(ps: seq<Point>)
    requires |ps| > 1
    ensures SlotOf(ps) == AddPoint(SlotOf(ps[..|ps| - 1]), ps[|ps| - 1])
  {
  }

  lemma {:induction false} OneSlot(p: Point)
    ensures SlotOf([p]) == AddPoint(Opened(p), p)
  {
    assert [p][..0] == [];
    assert Folded(Opened(p), [p]) == AddPoint(Folded(Opened(p), []), p);
  }

  function NewestOf(ps: seq<Point>): (m: nat)
    requires ps != []
    ensures Newest(ps, m)
  {
    if |ps| == 1 then 0
    else
      var m := NewestOf(ps[..|ps| - 1]);
      if ps[|ps| - 1].time >= ps[m].time then |ps| - 1 else m
  }

  lemma {:induction false} NoLaterThanNewest(ps: seq<Point>, m: nat)
    requires ps != [] && AllOf(ps, Histogram, false) && Newest(ps, m)
    ensures SlotOf(ps).lastTime <= ps[m].time
  {
    if |ps| == 1 {
      assert ps == [ps[0]];
      OneSlot(ps[0]);
    } else {
      var front := ps[..|ps| - 1];
      var k := NewestOf(front);
      assert ps[k] == front[k];
      Earlier(ps);
      NoLaterThanNewest(front, k);
    }
  }

  /** A slot that has counted n points and holds the snapshot p. */
  function Standing(first: Point, n: nat, p: Point): Slot {
    Opened(first).(count := n, sum := p.value, obs := p.count, hist := p.hist, lastTime := p.time)
  }

  /** A cumulative histogram slot holds its newest snapshot, whatever order they came in and
      whether or not the older ones could be read. */
  lemma {:induction false} SnapshotStands(ps: seq<Point>, m: nat)
    requires ps != [] && AllOf(ps, Histogram, false) && DistinctTimes(ps) && Newest(ps, m) && ps[m].hist.Some?
    ensures SlotOf(ps) == Standing(ps[0], |ps|, ps[m])
  {
    if |ps| == 1 {
      assert ps == [ps[0]];
      OneSlot(ps[0]);
    } else {
      var n := |ps| - 1;
      var front := ps[..n];
      Earlier(ps);
      if m < n {
        SnapshotStands(front, m);
        assert ps[m].time != ps[n].time;
      } else {
        var k := NewestOf(front);
        assert ps[k] == front[k];
        NoLaterThanNewest(front, k);
        OnlySnapshots(front);
      }
    }
  }

  /** A snapshot leaves alone what other types keep. */
  lemma {:induction false} OnlySnapshots(ps: seq<Point>)
    requires ps != [] && AllOf(ps, Histogram, false)
    ensures var s := SlotOf(ps);
            s == Opened(ps[0]).(count := |ps|, sum := s.sum, obs := s.obs, hist := s.hist, lastTime := s.lastTime)
  {
    if |ps| == 1 {
      assert ps == [ps[0]];
      OneSlot(ps[0]);
    } else {
      Earlier(ps);
      OnlySnapshots(ps[..|ps| - 1]);
    }
  }

  /** A cumulative exponential histogram or summary slot holds its newest point. */
  lemma {:induction false} OpaqueStands(ps: seq<Point>, kind: Kind, m: nat)
    requires kind.ExpHistogram? || kind.Summary?
    requires ps != [] && AllOf(ps, kind, false) && DistinctTimes(ps) && Newest(ps, m)
    ensures var s := SlotOf(ps);
            s.sum == ps[m].value && s.obs == ps[m].count && s.lastExtra == ps[m].extra && s.lastTime == ps[m].time
  {
    if |ps| == 1 {
      assert ps == [ps[0]];
      OneSlot(ps[0]);
    } else {
      var front := ps[..|ps| - 1];
      Earlier(ps);
      var k := NewestOf(front);
      OpaqueStands(front, kind, k);
      assert ps[k] == front[k];
    }
  }

  /** h holds the bucket sums of ps, or nothing when no payload could be read. */
  ghost predicate HoldsTotals(h: Option<Shape>, ps: seq<Point>, n: nat, bounds: seq<real>) {
    match h
    case None => forall j: nat :: InBucket(ps, j) == 0.0
    case Some(g) => g == Shape(bounds, Totals(ps, n))
  }

  lemma {:induction false} NoTotals(n: nat, bounds: seq<real>)
    ensures HoldsTotals(None, [], n, bounds)
  {
  }

  lemma {:induction false} TotalsStep(h: Option<Shape>, ps: seq<Point>, n: nat, bounds: seq<real>)
    requires ps != [] && HoldsTotals(h, ps[..|ps| - 1], n, bounds)
    requires var g := ps[|ps| - 1].hist; g.None? || (g.value.bounds == bounds && |g.value.counts| == n)
    ensures HoldsTotals(FoldHist(h, ps[|ps| - 1].hist), ps, n, bounds)
  {
    var f := FoldHist(h, ps[|ps| - 1].hist);
    if f.Some? {
      forall j | 0 <= j < n ensures f.value.counts[j] == InBucket(ps, j) {
        assert h.Some? ==> h.value.counts[j] == InBucket(ps[..|ps| - 1], j);
      }
      assert f.value.counts == Totals(ps, n);
    }
  }

  /** A delta histogram slot holds the sums over its points, bucket by bucket. */
  lemma {:induction false} DeltasAdd(ps: seq<Point>, n: nat, bounds: seq<real>)
    requires ps != [] && AllOf(ps, Histogram, true)
    requires forall i :: 0 <= i < |ps| ==>
               ps[i].hist.None? || (ps[i].hist.value.bounds == bounds && |ps[i].hist.value.counts| == n)
    ensures var s := SlotOf(ps); s.sum == Values(ps) && s.obs == Observed(ps) && HoldsTotals(s.hist, ps, n, bounds)
    ensures SlotOf(ps).hist.None? <==> forall i :: 0 <= i < |ps| ==> ps[i].hist.None?
  {
    hide InBucket, Totals, HoldsTotals;
    var front := ps[..|ps| - 1];
    if |ps| == 1 {
      assert front == [] && ps == [ps[0]];
      OneSlot(ps[0]);
      NoTotals(n, bounds);
      TotalsStep(None, ps, n, bounds);
    } else {
      Earlier(ps);
      DeltasAdd(front, n, bounds);
      assert forall i :: 0 <= i < |front| ==> ps[i] == front[i];
      TotalsStep(SlotOf(front).hist, ps, n, bounds);
    }
  }

  /** A gauge or counter slot holds the sum and the newest of its values. */
  lemma {:induction false} ValuesFold(ps: seq<Point>, kind: Kind, m: nat)
    requires kind.Gauge? || kind.Sum?
    requires ps != [] && DistinctTimes(ps) && Newest(ps, m) && forall i :: 0 <= i < |ps| ==> ps[i].kind == kind
    ensures var s := SlotOf(ps); s.sum == Values(ps) && s.last == ps[m].value && s.lastTime == ps[m].time && s.haveVal
  {
    var front := ps[..|ps| - 1];
    if |ps| == 1 {
      assert front == [] && ps == [ps[0]];
      OneSlot(ps[0]);
    } else {
      Earlier(ps);
      var k := NewestOf(front);
      ValuesFold(front, kind, k);
      assert ps[k] == front[k];
    }
  }

  /** Its extremes bound every value and are themselves values. */
  lemma {:induction false} ValuesRange(ps: seq<Point>, kind: Kind) returns (lo: nat, hi: nat)
    requires kind.Gauge? || kind.Sum?
    requires ps != [] && forall i :: 0 <= i < |ps| ==> ps[i].kind == kind
    ensures lo < |ps| && ps[lo].value == SlotOf(ps).min
    ensures hi < |ps| && ps[hi].value == SlotOf(ps).max
    ensures forall i :: 0 <= i < |ps| ==> ps[lo].value <= ps[i].value <= ps[hi].value
    ensures SlotOf(ps).haveVal
  {
    var n := |ps| - 1;
    if n == 0 {
      assert ps == [ps[0]];
      OneSlot(ps[0]);
      return 0, 0;
    }
    Earlier(ps);
    lo, hi := ValuesRange(ps[..n], kind);
    if ps[n].value < ps[lo].value { lo := n; }
    if ps[n].value > ps[hi].value { hi := n; }
  }
}
