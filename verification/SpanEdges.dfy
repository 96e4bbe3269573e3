/** Span edges: the calls a batch of spans shows fold into five-minute buckets, with a marker
    per bucket a span arrived in (internal/aggregation/span_edges.go). */
module SpanEdges {
  import opened Options
  import opened Slots
  import opened Durations
  import opened Caps
  import R = SpanRollups

  datatype EdgeKey = EdgeKey(bucket: int, project: int, source: string, target: string, targetType: string)

  datatype EdgeStats = EdgeStats(d: Stats, errors: int)

  /** A call that a span of a batch carries. */
  datatype Call = Call(span: R.Span, source: string, target: string, targetType: string)

  function MergeEdge(a: EdgeStats, b: EdgeStats): EdgeStats { EdgeStats(Merge(a.d, b.d), a.errors + b.errors) }

  lemma {:induction false} MergeEdgeLaws()
    ensures Commutative(MergeEdge)
  {
    MergeLaws();
    forall a, b ensures MergeEdge(a, b) == MergeEdge(b, a) { assert Merge(a.d, b.d) == Merge(b.d, a.d); }
    forall a, b, c ensures MergeEdge(MergeEdge(a, b), c) == MergeEdge(a, MergeEdge(b, c)) {
      assert Merge(Merge(a.d, b.d), c.d) == Merge(a.d, Merge(b.d, c.d));
    }
  }

  /** A call's contribution: its duration, and whether it failed. */
  datatype Note = Note(obs: Obs, failed: bool)

  function NoteOf(index: int -> int, c: Call): Note {
    Note(Obs(c.span.duration, c.span.weight, index(c.span.duration)), R.RollupStatus(c.span.status) == "error")
  }

  function One(n: Note): EdgeStats { EdgeStats(SingleOf(n.obs), if n.failed then 1 else 0) }

  /** The caps take a target and its type for one name, so they count pairs. */
  function Asked(c: Call): string { c.target + "\0" + c.targetType }

  function Ruling(caps: CapState, c: Call, now: int, max: Limits): (CapState, Answer) {
    Admit(caps, c.span.project, c.source, Asked(c), R.ArrivalBucket(c.span, now), max)
  }

  function KeyOf(caps: CapState, c: Call, now: int, max: Limits): EdgeKey {
    var tag := Ruling(caps, c, now, max).1.tag;
    EdgeKey(R.ArrivalBucket(c.span, now), c.span.project, tag.service, if tag.name != OTHER then c.target else OTHER,
      c.targetType)
  }

  /** An uncapped call keeps its own target and type; only capping makes the target OTHER. */
  lemma {:induction false} TargetKeptUnlessCapped(caps: CapState, c: Call, now: int, max: Limits)
    ensures KeyOf(caps, c, now, max).target == c.target || Ruling(caps, c, now, max).1.tag.name == OTHER
    ensures Ruling(caps, c, now, max).1.tag == Label(c.source, Asked(c)) ==> KeyOf(caps, c, now, max).target == c.target
    ensures KeyOf(caps, c, now, max).targetType == c.targetType
  {
    assert Asked(c)[|c.target|] == '\0' && '\0' in Asked(c);
    assert '\0' !in OTHER;
  }

  // ----- runs -----

  datatype Event =
    | Arrive(spans: seq<R.Span>, now: int)
    | Carry(call: Call, now: int)
    | StartFlush(now: int)
    | EndFlush(i: nat, outcome: Outcome<EdgeKey>, markersLanded: set<int>, now: int)

  datatype Config = Config(max: Limits, index: int -> int)

  function KeepsBucket(now: int): EdgeKey -> bool { (k: EdgeKey) => k.bucket >= now - R.REQUEUE_AGE }

  function CapsAfter(cfg: Config, c: CapState, e: Event): CapState {
    match e
    case Carry(call, now) => Ruling(c, call, now, cfg.max).0
    case StartFlush(now) => Prune(c, now)
    case _ => c
  }

  /** A batch that only marks buckets leaves the slots alone. */
  function StepsFor(cfg: Config, c: CapState, e: Event): seq<Step<EdgeKey, EdgeStats>> {
    match e
    case Arrive(_, _) => []
    case Carry(call, now) => [Add(KeyOf(c, call, now, cfg.max), One(NoteOf(cfg.index, call)))]
    case StartFlush(_) => [Begin]
    case EndFlush(i, outcome, _, now) => [Finish(i, outcome, KeepsBucket(now))]
  }

  ghost function CapsAt(cfg: Config, es: seq<Event>): CapState {
    if es == [] then NO_CAPS else CapsAfter(cfg, CapsAt(cfg, es[..|es| - 1]), es[|es| - 1])
  }

  ghost function StepsOf(cfg: Config, es: seq<Event>): seq<Step<EdgeKey, EdgeStats>> {
    if es == [] then []
    else StepsOf(cfg, es[..|es| - 1]) + StepsFor(cfg, CapsAt(cfg, es[..|es| - 1]), es[|es| - 1])
  }

  ghost function Recorded(cfg: Config, es: seq<Event>, k: EdgeKey): seq<Note> {
    if es == [] then []
    else
      var n := |es| - 1;
      var e := es[n];
      Recorded(cfg, es[..n], k)
      + if e.Carry? && KeyOf(CapsAt(cfg, es[..n]), e.call, e.now, cfg.max) == k then [NoteOf(cfg.index, e.call)] else []
  }

  ghost function Summed(ns: seq<Note>): Option<EdgeStats> {
    if ns == [] then None else Plus(MergeEdge, Summed(ns[..|ns| - 1]), Some(One(ns[|ns| - 1])))
  }

  ghost function ObsIn(ns: seq<Note>): seq<Obs> {
    if ns == [] then [] else ObsIn(ns[..|ns| - 1]) + [ns[|ns| - 1].obs]
  }

  ghost function Failures(ns: seq<Note>): nat {
    if ns == [] then 0 else Failures(ns[..|ns| - 1]) + if ns[|ns| - 1].failed then 1 else 0
  }

  /** The duration stats of the calls, and how many failed. */
  lemma {:induction false} SummedMeans(ns: seq<Note>)
    ensures Summary(ObsIn(ns)).Some? == (ns != [])
    ensures Summed(ns) == if ns == [] then None else Some(EdgeStats(Summary(ObsIn(ns)).value, Failures(ns)))
  {
    hide Merge, SingleOf;
    if ns != [] {
      var n := |ns| - 1;
      SummedMeans(ns[..n]);
      var os := ObsIn(ns);
      assert os[..|os| - 1] == ObsIn(ns[..n]);
      if n == 0 { assert ns[..0] == []; }
    }
  }

  lemma {:induction false} AddedIsSummed(cfg: Config, es: seq<Event>, k: EdgeKey)
    ensures Added(MergeEdge, StepsOf(cfg, es), k) == Summed(Recorded(cfg, es, k))
  {
    hide MergeEdge, One, KeyOf;
    if es != [] {
      var n := |es| - 1;
      AddedIsSummed(cfg, es[..n], k);
      var steps, before, e := StepsOf(cfg, es), Recorded(cfg, es[..n], k), es[n];
      var more := StepsFor(cfg, CapsAt(cfg, es[..n]), e);
      if more == [] {
        assert steps == StepsOf(cfg, es[..n]) && before + [] == before;
      } else {
        assert steps[..|steps| - 1] == StepsOf(cfg, es[..n]) && steps[|steps| - 1] == more[0];
        if e.Carry? && KeyOf(CapsAt(cfg, es[..n]), e.call, e.now, cfg.max) == k {
          var all := before + [NoteOf(cfg.index, e.call)];
          assert all[..|all| - 1] == before;
        } else {
          assert before + [] == before;
        }
      }
    }
  }

  /** Over every run, what exists of an edge anywhere is the summary of its calls. */
  lemma {:induction false} EdgeConservation(cfg: Config, es: seq<Event>, k: EdgeKey)
    ensures var ns := Recorded(cfg, es, k);
            Everywhere(MergeEdge, Run(MergeEdge, StepsOf(cfg, es)), k)
              == if ns == [] then None else Some(EdgeStats(Summary(ObsIn(ns)).value, Failures(ns)))
    ensures Recorded(cfg, es, k) != [] ==> Summary(ObsIn(Recorded(cfg, es, k))).Some?
  {
    MergeEdgeLaws();
    Conservation(MergeEdge, StepsOf(cfg, es), k);
    AddedIsSummed(cfg, es, k);
    SummedMeans(Recorded(cfg, es, k));
  }

  // ----- bucket markers -----

  /** Buckets to mark, markers being written, markers stored, and buckets given up as too old. */
  datatype Marks = Marks(open: set<int>, flights: seq<set<int>>, stored: set<int>, gone: set<int>)

  function MarkStep(m: Marks, e: Event): Marks {
    match e
    case Arrive(spans, now) => m.(open := m.open + set s | s in spans :: R.ArrivalBucket(s, now))
    case Carry(_, _) => m
    case StartFlush(_) => m.(open := {}, flights := m.flights + [m.open])
    case EndFlush(i, outcome, landed, now) =>
      if i >= |m.flights| then m
      else
        var f := m.flights[i];
        var rest := m.flights[..i] + m.flights[i + 1..];
        if outcome.Landed? then Marks(m.open, rest, m.stored + f, m.gone)
        else
          var back := set b | b in f && b >= now - R.REQUEUE_AGE;
          Marks(m.open + back, rest, m.stored + f * landed, m.gone + (f - back))
  }

  ghost function MarksAt(es: seq<Event>): Marks {
    if es == [] then Marks({}, [], {}, {}) else MarkStep(MarksAt(es[..|es| - 1]), es[|es| - 1])
  }

  ghost predicate Flying(m: Marks, b: int) { exists i :: 0 <= i < |m.flights| && b in m.flights[i] }

  ghost predicate Accounted(m: Marks, b: int) { b in m.open || Flying(m, b) || b in m.stored || b in m.gone }

  lemma {:induction false} MarkStepKeeps(m: Marks, e: Event, b: int)
    requires Accounted(m, b)
    ensures Accounted(MarkStep(m, e), b)
  {
    var n := MarkStep(m, e);
    if b in m.open {
      if e.StartFlush? { assert b in n.flights[|m.flights|]; }
    } else if Flying(m, b) {
      var j :| 0 <= j < |m.flights| && b in m.flights[j];
      if e.StartFlush? { assert n.flights[j] == m.flights[j]; }
      if e.EndFlush? && e.i < |m.flights| {
        if j < e.i { assert n.flights[j] == m.flights[j]; }
        if j > e.i { assert n.flights[j - 1] == m.flights[j]; }
      }
    }
  }

  /** Over every run, a bucket a span arrived in is waiting to be marked, being marked, marked,
      or was given up because a write of its marker failed more than an hour after it. */
  lemma {:induction false} EveryBucketIsMarked(es: seq<Event>, at: nat, s: R.Span)
    requires at < |es| && es[at].Arrive? && s in es[at].spans
    ensures Accounted(MarksAt(es), R.ArrivalBucket(s, es[at].now))
  {
    var n := |es| - 1;
    if at < n {
      EveryBucketIsMarked(es[..n], at, s);
      MarkStepKeeps(MarksAt(es[..n]), es[n], R.ArrivalBucket(s, es[at].now));
    }
  }

  // ----- the object -----

  class Edges {
    var slots: map<EdgeKey, EdgeStats>
    var buckets: set<int>
    const caps: RollupCaps
    const cfg: Config

    /** A slot is made for a call, so it holds one. */
    ghost predicate Valid()
      reads this
    {
      forall k :: k in slots ==> slots[k].d.count >= 1
    }

    constructor (cfg: Config)
      ensures Valid() && slots == map[] && buckets == {} && this.cfg == cfg && fresh(caps) && caps.View() == NO_CAPS
    {
      this.cfg := cfg;
      slots, buckets := map[], {};
      caps := new RollupCaps();
    }

    method MarkBuckets(spans: seq<R.Span>, now: int)
      modifies this`buckets
      ensures buckets == old(buckets) + set s | s in spans :: R.ArrivalBucket(s, now)
    {
      for i := 0 to |spans|
        invariant buckets == old(buckets) + set s | s in spans[..i] :: R.ArrivalBucket(s, now)
      {
        assert spans[..i + 1] == spans[..i] + [spans[i]];
        buckets := buckets + {R.ArrivalBucket(spans[i], now)};
      }
      assert spans[..|spans|] == spans;
    }

    method AddCall(c: Call, now: int) returns (first: bool)
      requires Valid()
      modifies this`slots, caps
      ensures Valid()
      ensures caps.View() == CapsAfter(cfg, old(caps.View()), Carry(c, now))
      ensures slots == Fold(MergeEdge, old(slots),
              map[KeyOf(old(caps.View()), c, now, cfg.max) := One(NoteOf(cfg.index, c))])
    {
      hide Merge, Observe, Fold, R.RollupStatus, Admit;
      var bucket := R.ArrivalBucket(c.span, now);
      var tag;
      tag, first := caps.AskFor(c.span.project, c.source, Asked(c), bucket, cfg.max);
      var k := EdgeKey(bucket, c.span.project, tag.service, if tag.name != OTHER then c.target else OTHER,
        c.targetType);
      var sl := if k in slots then slots[k] else EdgeStats(ZERO, 0);
      var s := c.span;
      R.ObserveCounts(sl.d, s.duration, s.weight, cfg.index(s.duration));
      if k in slots { ObserveIsMerge(sl.d, s.duration, s.weight, cfg.index(s.duration)); }
      FoldOne(MergeEdge, slots, k, One(NoteOf(cfg.index, c)));
      var failed := if R.RollupStatus(s.status) == "error" then 1 else 0;
      slots := slots[k := EdgeStats(Observe(sl.d, s.duration, s.weight, cfg.index(s.duration)), sl.errors + failed)];
    }

    /** The locked part of a flush. */
    method TakeAll(now: int) returns (taken: map<EdgeKey, EdgeStats>, marks: set<int>)
      requires Valid()
      modifies this, caps
      ensures Valid() && taken == old(slots) && marks == old(buckets) && slots == map[] && buckets == {}
      ensures caps.View() == CapsAfter(cfg, old(caps.View()), StartFlush(now))
    {
      taken, marks := slots, buckets;
      slots, buckets := map[], {};
      caps.ForgetBefore(now);
    }

    method Requeue(taken: map<EdgeKey, EdgeStats>, marks: set<int>, outcome: Outcome<EdgeKey>, now: int)
      returns (lost: nat)
      requires Valid() && forall k :: k in taken ==> taken[k].d.count >= 1
      modifies this
      ensures Valid()
      ensures buckets == old(buckets) + set b | b in marks && b >= now - R.REQUEUE_AGE
      ensures slots == Fold(MergeEdge, old(slots), Restrict(UnwrittenSlots(taken, outcome), KeepsBucket(now)))
      ensures lost == |Refused(UnwrittenSlots(taken, outcome), KeepsBucket(now))|
    {
      buckets := buckets + set b | b in marks && b >= now - R.REQUEUE_AGE;
      var left := UnwrittenSlots(taken, outcome);
      FoldCounts(slots, Restrict(left, KeepsBucket(now)));
      slots, lost := RequeueSlots(slots, left, KeepsBucket(now), MergeEdge);
    }
  }

  lemma {:induction false} FoldCounts(a: map<EdgeKey, EdgeStats>, b: map<EdgeKey, EdgeStats>)
    requires (forall k :: k in a ==> a[k].d.count >= 1) && forall k :: k in b ==> b[k].d.count >= 1
    ensures forall k :: k in Fold(MergeEdge, a, b) ==> Fold(MergeEdge, a, b)[k].d.count >= 1
  {
  }
}
