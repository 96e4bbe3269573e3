/** The repeat filter of internal/aggregation/metric_repeats.go: it holds back cumulative
    points that repeat the previous point of their stream. */
module Repeats {
  import opened Options
  import opened Sequences

  datatype MetricType = Gauge | Sum | Histogram | ExponentialHistogram | Summary

  datatype Rec = Rec(
    project: int, name: string, attrs: string, start: nat, time: nat,
    kind: MetricType, temporality: string, value: real, count: nat, extra: string
  )

  datatype Series = Series(project: int, name: string, attrs: string)
  datatype Key = Key(series: Series, start: nat)

  datatype Stream = Stream(value: real, count: nat, extra: string, written: nat, held: Option<Rec>, seen: int)

  datatype State = State(streams: map<Key, Stream>, starts: map<Series, seq<nat>>, lastSweep: int)

  /** Whether a point belongs to a stream the filter tracks. */
  predicate Filtered(r: Rec) {
    r.temporality == "cumulative" && r.start != 0 && (r.kind.Sum? || r.kind.Histogram? || r.kind.ExponentialHistogram?)
  }

  function KeyOf(r: Rec): Key { Key(Series(r.project, r.name, r.attrs), r.start) }

  /** Two points that say the same. */
  predicate Same(a: Rec, b: Rec) { a.value == b.value && a.count == b.count && a.extra == b.extra }

  predicate Unchanged(st: Stream, r: Rec) { st.value == r.value && st.count == r.count && st.extra == r.extra }

  // ----- one point -----

  /** Writes the held points of the streams of a series that started at the given times. */
  function Release(streams: map<Key, Stream>, s: Series, starts: seq<nat>): (map<Key, Stream>, seq<Rec>)
    requires forall t :: t in starts ==> Key(s, t) in streams
  {
    if starts == [] then (streams, [])
    else
      var k := Key(s, starts[0]);
      var st := streams[k];
      if st.held.None? then Release(streams, s, starts[1..])
      else
        var rest := Release(streams[k := st.(written := st.held.value.time, held := None)], s, starts[1..]);
        (rest.0, [st.held.value] + rest.1)
  }

  /** The streams of a series are listed in starts, once each. */
  ghost predicate Listed(st: State) {
    && (forall k :: k in st.streams <==> k.series in st.starts && k.start in st.starts[k.series])
    && (forall s :: s in st.starts ==> st.starts[s] != [] && Distinct(st.starts[s]))
  }

  function StartsOf(st: State, s: Series): seq<nat> { if s in st.starts then st.starts[s] else [] }

  function First(st: State, r: Rec, now: int): (State, seq<Rec>)
    requires Listed(st)
  {
    var k := KeyOf(r);
    var rel := Release(st.streams, k.series, StartsOf(st, k.series));
    (State(rel.0[k := Stream(r.value, r.count, r.extra, r.time, None, now)],
           st.starts[k.series := StartsOf(st, k.series) + [k.start]], st.lastSweep),
     rel.1 + [r])
  }

  function Next(s: Stream, r: Rec, heartbeat: nat, now: int): (Stream, seq<Rec>) {
    if Unchanged(s, r) then
      if r.time >= s.written + heartbeat then (s.(written := r.time, held := None, seen := now), [r])
      else (s.(held := Some(r), seen := now), [])
    else
      (Stream(r.value, r.count, r.extra, r.time, None, now), (if s.held.Some? then [s.held.value] else []) + [r])
  }

  /** The state after a point, and the points to write. */
  function KeepOne(st: State, r: Rec, heartbeat: nat, now: int): (State, seq<Rec>)
    requires Listed(st)
  {
    var k := KeyOf(r);
    if !Filtered(r) then (st, [r])
    else if k !in st.streams then First(st, r, now)
    else
      var n := Next(st.streams[k], r, heartbeat, now);
      (st.(streams := st.streams[k := n.0]), n.1)
  }

  // ----- sweeping -----

  predicate Idle(s: Stream, heartbeat: nat, now: int) { now - s.seen >= 3 * heartbeat }

  function Live(st: State, s: Series, starts: seq<nat>, heartbeat: nat, now: int): (r: seq<nat>)
    ensures forall t :: t in r <==>
            t in starts && (Key(s, t) in st.streams ==> !Idle(st.streams[Key(s, t)], heartbeat, now))
  {
    if starts == [] then []
    else
      var k := Key(s, starts[0]);
      var rest := Live(st, s, starts[1..], heartbeat, now);
      if k in st.streams && Idle(st.streams[k], heartbeat, now) then rest else [starts[0]] + rest
  }

  function Sweep(st: State, heartbeat: nat, now: int): State {
    if now - st.lastSweep < 3 * heartbeat then st
    else State(
      map k | k in st.streams && !Idle(st.streams[k], heartbeat, now) :: st.streams[k],
      map s | s in st.starts && Live(st, s, st.starts[s], heartbeat, now) != [] ::
        Live(st, s, st.starts[s], heartbeat, now),
      now)
  }

  ghost function Forgotten(st: State, heartbeat: nat, now: int): set<Key> {
    st.streams.Keys - Sweep(st, heartbeat, now).streams.Keys
  }

  lemma {:induction false} LiveDistinct(st: State, s: Series, starts: seq<nat>, heartbeat: nat, now: int)
    requires Distinct(starts)
    ensures Distinct(Live(st, s, starts, heartbeat, now))
  {
    if starts != [] { LiveDistinct(st, s, starts[1..], heartbeat, now); }
  }

  lemma {:induction false} SweepListed(st: State, heartbeat: nat, now: int)
    requires Listed(st)
    ensures Listed(Sweep(st, heartbeat, now))
  {
    forall s | s in st.starts ensures Distinct(Live(st, s, st.starts[s], heartbeat, now)) {
      LiveDistinct(st, s, st.starts[s], heartbeat, now);
    }
  }

  // ----- what release does to one stream -----

  lemma {:induction false} ReleaseEach(streams: map<Key, Stream>, s: Series, starts: seq<nat>, k: Key)
    requires (forall t :: t in starts ==> Key(s, t) in streams) && Distinct(starts) && k in streams
    ensures Release(streams, s, starts).0.Keys == streams.Keys
    ensures var r := Release(streams, s, starts);
            var due := k.series == s && k.start in starts && streams[k].held.Some?;
            && r.0[k] == (if due then streams[k].(written := streams[k].held.value.time, held := None) else streams[k])
  {
    if starts != [] {
      var k0 := Key(s, starts[0]);
      var st := streams[k0];
      var streams' := if st.held.None? then streams
        else streams[k0 := st.(written := st.held.value.time, held := None)];
      ReleaseEach(streams', s, starts[1..], k);
    }
  }

  lemma {:induction false} KeepListed(st: State, r: Rec, heartbeat: nat, now: int)
    requires Listed(st)
    ensures Listed(KeepOne(st, r, heartbeat, now).0)
  {
    var k := KeyOf(r);
    if Filtered(r) && k !in st.streams {
      var starts := StartsOf(st, k.series);
      var rel := Release(st.streams, k.series, starts);
      ReleaseKeys(st.streams, k.series, starts);
    }
  }

  lemma {:induction false} ReleaseKeys(streams: map<Key, Stream>, s: Series, starts: seq<nat>)
    requires forall t :: t in starts ==> Key(s, t) in streams
    ensures Release(streams, s, starts).0.Keys == streams.Keys
  {
    if starts != [] {
      var k0 := Key(s, starts[0]);
      var st := streams[k0];
      if st.held.None? { ReleaseKeys(streams, s, starts[1..]); }
      else {
        var streams' := streams[k0 := st.(written := st.held.value.time, held := None)];
        assert streams'.Keys == streams.Keys;
        ReleaseKeys(streams', s, starts[1..]);
      }
    }
  }
}
