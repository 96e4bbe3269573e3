/** Span rollups: every span folds into a five-minute bucket under capped labels, and the
    buckets survive failed writes (internal/aggregation/span_rollups.go). */
module SpanRollups {
  import opened Options
  import opened Slots
  import opened Durations
  import opened Caps
  import C = CalcSyntax

  const STEP: int := 300
  const REQUEUE_AGE: int := 3600

  /** A span as it arrives. code is the response code read from its attributes, 0 if none. */
  datatype Span = Span(
    project: int, service: string, name: string, kind: string, parent: string, status: string,
    ingestedAt: Option<int>, duration: int, weight: int, code: int
  )

  /** The caps, whether root rows are split by response code, and the histogram's bin of a duration. */
  datatype Config = Config(max: Limits, httpStatus: bool, index: int -> int)

  datatype RollupKey = RollupKey(
    bucket: int, project: int, service: string, name: string, kind: string, root: bool, status: string, http: int
  )

  function ArrivalBucket(s: Span, now: int): int {
    var at := if s.ingestedAt.Some? then s.ingestedAt.value else now;
    at - GoMod(at, STEP)
  }

  function RollupStatus(status: string): string {
    var low := C.ToLower(status);
    if low == "error" then "error" else if low == "ok" then "ok" else "unset"
  }

  function KeyUnder(cfg: Config, s: Span, tag: Label, now: int): RollupKey {
    RollupKey(ArrivalBucket(s, now), s.project, tag.service, tag.name, C.ToLower(s.kind), s.parent == "",
              RollupStatus(s.status), if s.parent == "" && cfg.httpStatus then s.code else 0)
  }

  function ObsOf(cfg: Config, s: Span): Obs { Obs(s.duration, s.weight, cfg.index(s.duration)) }

  // ----- rows -----

  datatype Row = Row(
    bucket: int, project: int, service: string, name: string, kind: string, root: bool, status: string, http: int,
      stats: Stats
  )

  function RowOf(k: RollupKey, st: Stats): Row {
    Row(k.bucket, k.project, k.service, k.name, k.kind, k.root, k.status, k.http, st)
  }

  /** The key a row was made for: a failed write names rows, and each finds its slot again. */
  function RowKey(r: Row): (k: RollupKey)
    ensures RowOf(k, r.stats) == r
    ensures forall j :: RowOf(j, r.stats) == r ==> j == k
  {
    RollupKey(r.bucket, r.project, r.service, r.name, r.kind, r.root, r.status, r.http)
  }

  // ----- runs -----

  datatype Event =
    | Arrive(span: Span, now: int)
    | StartFlush(now: int)
    | EndFlush(i: nat, outcome: Outcome<RollupKey>, now: int)

  function KeepsBucket(now: int): RollupKey -> bool { (k: RollupKey) => k.bucket >= now - REQUEUE_AGE }

  /** What an event does to the caps. */
  function CapsAfter(cfg: Config, c: CapState, e: Event): CapState {
    match e
    case Arrive(s, now) => Admit(c, s.project, s.service, s.name, ArrivalBucket(s, now), cfg.max).0
    case StartFlush(now) => Prune(c, now)
    case EndFlush(_, _, _) => c
  }

  function KeyOf(cfg: Config, c: CapState, s: Span, now: int): RollupKey {
    KeyUnder(cfg, s, Admit(c, s.project, s.service, s.name, ArrivalBucket(s, now), cfg.max).1.tag, now)
  }

  /** What an event does to the slots. */
  function StepOf(cfg: Config, c: CapState, e: Event): Step<RollupKey, Stats> {
    match e
    case Arrive(s, now) => Add(KeyOf(cfg, c, s, now), SingleOf(ObsOf(cfg, s)))
    case StartFlush(_) => Begin
    case EndFlush(i, outcome, now) => Finish(i, outcome, KeepsBucket(now))
  }

  ghost function CapsAt(cfg: Config, es: seq<Event>): CapState {
    if es == [] then NO_CAPS else CapsAfter(cfg, CapsAt(cfg, es[..|es| - 1]), es[|es| - 1])
  }

  ghost function StepsOf(cfg: Config, es: seq<Event>): (steps: seq<Step<RollupKey, Stats>>)
    ensures |steps| == |es|
  {
    if es == [] then []
    else
      var n := |es| - 1;
      StepsOf(cfg, es[..n]) + [StepOf(cfg, CapsAt(cfg, es[..n]), es[n])]
  }

  /** The slots, flushes, table and losses after the events. */
  ghost function After(cfg: Config, es: seq<Event>): Sys<RollupKey, Stats> { Run(Merge, StepsOf(cfg, es)) }

  /** The spans that were recorded under key k. */
  ghost function Recorded(cfg: Config, es: seq<Event>, k: RollupKey): seq<Obs> {
    if es == [] then []
    else
      var n := |es| - 1;
      var e := es[n];
      Recorded(cfg, es[..n], k)
      + if e.Arrive? && KeyOf(cfg, CapsAt(cfg, es[..n]), e.span, e.now) == k then [ObsOf(cfg, e.span)] else []
  }

  lemma {:induction false} AddedIsSummary(cfg: Config, es: seq<Event>, k: RollupKey)
    ensures Added(Merge, StepsOf(cfg, es), k) == Summary(Recorded(cfg, es, k))
  {
    hide Merge, SingleOf, KeyUnder;
    if es != [] {
      var n := |es| - 1;
      AddedIsSummary(cfg, es[..n], k);
      var steps, before := StepsOf(cfg, es), Recorded(cfg, es[..n], k);
      assert steps[..n] == StepsOf(cfg, es[..n]);
      var e := es[n];
      if e.Arrive? && KeyOf(cfg, CapsAt(cfg, es[..n]), e.span, e.now) == k {
        var all := before + [ObsOf(cfg, e.span)];
        assert all[..|all| - 1] == before;
      } else {
        assert before + [] == before;
      }
    }
  }

  /** Over every interleaving of arrivals, overlapping flushes and full, partial or failed
      writes, what is stored, open, in flight or dropped as too old of a key is together the
      summary of the spans recorded under it. */
  lemma {:induction false} RollupConservation(cfg: Config, es: seq<Event>, k: RollupKey)
    ensures Everywhere(Merge, After(cfg, es), k) == Summary(Recorded(cfg, es, k))
  {
    MergeLaws();
    Conservation(Merge, StepsOf(cfg, es), k);
    AddedIsSummary(cfg, es, k);
  }

  // ----- folding labels -----

  /** A key without its labels. */
  datatype Unlabelled = Unlabelled(bucket: int, project: int, kind: string, root: bool, status: string, http: int)

  function Rest(k: RollupKey): Unlabelled { Unlabelled(k.bucket, k.project, k.kind, k.root, k.status, k.http) }

  function InGroup(g: Unlabelled): RollupKey -> bool { (k: RollupKey) => Rest(k) == g }

  /** The spans of a group, whatever the caps did to their labels. */
  ghost function Arrived(cfg: Config, es: seq<Event>, g: Unlabelled): seq<Obs> {
    if es == [] then []
    else
      var n := |es| - 1;
      var e := es[n];
      Arrived(cfg, es[..n], g)
      + if e.Arrive? && Rest(KeyUnder(cfg, e.span, Label(e.span.service, e.span.name), e.now)) == g
        then [ObsOf(cfg, e.span)] else []
  }

  lemma {:induction false} AddedToIsSummary(cfg: Config, es: seq<Event>, g: Unlabelled)
    ensures AddedTo(Merge, StepsOf(cfg, es), InGroup(g)) == Summary(Arrived(cfg, es, g))
  {
    hide Merge, SingleOf;
    if es != [] {
      var n := |es| - 1;
      AddedToIsSummary(cfg, es[..n], g);
      var steps, before := StepsOf(cfg, es), Arrived(cfg, es[..n], g);
      assert steps[..n] == StepsOf(cfg, es[..n]);
      var e := es[n];
      if e.Arrive? && Rest(KeyUnder(cfg, e.span, Label(e.span.service, e.span.name), e.now)) == g {
        var all := before + [ObsOf(cfg, e.span)];
        assert all[..|all| - 1] == before;
      } else {
        assert before + [] == before;
      }
    }
  }

  /** Folding labels past the caps never changes a total: over every run, all that exists
      under the keys of one bucket, project, kind, root, status and code is the summary of
      the spans that arrived there. ks lists the keys in use, in any order. */
  lemma {:induction false} FoldingKeepsTotals(cfg: Config, es: seq<Event>, g: Unlabelled, ks: seq<RollupKey>)
    requires Covers(ks, StepsOf(cfg, es))
    ensures SumOver(Merge, ks, Among(k => Everywhere(Merge, After(cfg, es), k), InGroup(g)))
            == Summary(Arrived(cfg, es, g))
  {
    hide Merge, SumOver, Everywhere, Run;
    MergeLaws();
    var steps := StepsOf(cfg, es);
    GroupConservation(Merge, steps, ks, InGroup(g));
    AddedToIsSummary(cfg, es, g);
    var f, h := Among(k => Everywhere(Merge, After(cfg, es), k), InGroup(g)),
      Among(k => Everywhere(Merge, Run(Merge, steps), k), InGroup(g));
    SumOverSame(Merge, ks, f, h);
  }

  // ----- the object -----

  class Rollups {
    var slots: map<RollupKey, Stats>
    const caps: RollupCaps
    const cfg: Config

    /** A slot is made for a span, so it holds one. */
    ghost predicate Valid()
      reads this
    {
      forall k :: k in slots ==> slots[k].count >= 1
    }

    constructor (cfg: Config)
      ensures Valid() && slots == map[] && this.cfg == cfg && fresh(caps) && caps.View() == NO_CAPS
    {
      this.cfg := cfg;
      slots := map[];
      caps := new RollupCaps();
    }

    method AddSpan(s: Span, now: int) returns (first: bool)
      requires Valid()
      modifies this, caps
      ensures Valid()
      ensures caps.View() == CapsAfter(cfg, old(caps.View()), Arrive(s, now))
      ensures var k := KeyOf(cfg, old(caps.View()), s, now);
              slots == Fold(Merge, old(slots), map[k := SingleOf(ObsOf(cfg, s))])
    {
      hide Merge, Observe, Fold, RollupStatus;
      var bucket := ArrivalBucket(s, now);
      var code := if s.parent == "" && cfg.httpStatus then s.code else 0;
      var tag;
      tag, first := caps.AskFor(s.project, s.service, s.name, bucket, cfg.max);
      var k := RollupKey(bucket, s.project, tag.service, tag.name, C.ToLower(s.kind), s.parent == "",
        RollupStatus(s.status), code);
      var sl := if k in slots then slots[k] else ZERO;
      ObserveCounts(sl, s.duration, s.weight, cfg.index(s.duration));
      if k in slots { ObserveIsMerge(sl, s.duration, s.weight, cfg.index(s.duration)); }
      FoldOne(Merge, slots, k, SingleOf(ObsOf(cfg, s)));
      slots := slots[k := Observe(sl, s.duration, s.weight, cfg.index(s.duration))];
    }

    /** The locked part of a flush: takes the slots and starts new ones. */
    method TakeSlots(now: int) returns (taken: map<RollupKey, Stats>)
      requires Valid()
      modifies this, caps
      ensures Valid() && taken == old(slots) && slots == map[]
      ensures caps.View() == CapsAfter(cfg, old(caps.View()), StartFlush(now))
    {
      taken := slots;
      slots := map[];
      caps.ForgetBefore(now);
    }

    /** After a failed write: the slots its rows did not reach go back, unless too old. */
    method Requeue(taken: map<RollupKey, Stats>, outcome: Outcome<RollupKey>, now: int) returns (lost: nat)
      requires Valid() && forall k :: k in taken ==> taken[k].count >= 1
      modifies this
      ensures Valid()
      ensures slots == Fold(Merge, old(slots), Restrict(UnwrittenSlots(taken, outcome), KeepsBucket(now)))
      ensures lost == |Refused(UnwrittenSlots(taken, outcome), KeepsBucket(now))|
    {
      var left := UnwrittenSlots(taken, outcome);
      FoldCounts(slots, Restrict(left, KeepsBucket(now)));
      slots, lost := RequeueSlots(slots, left, KeepsBucket(now), Merge);
    }
  }

  lemma {:induction false} FoldCounts(a: map<RollupKey, Stats>, b: map<RollupKey, Stats>)
    requires (forall k :: k in a ==> a[k].count >= 1) && forall k :: k in b ==> b[k].count >= 1
    ensures forall k :: k in Fold(Merge, a, b) ==> Fold(Merge, a, b)[k].count >= 1
  {
  }

  lemma {:induction false} ObserveCounts(d: Stats, duration: int, weight: int, bin: int)
    ensures Observe(d, duration, weight, bin).count == d.count + 1
    ensures Observe(ZERO, duration, weight, bin) == Single(duration, weight, bin)
  {
  }
}
