/** The repeat filter as the object that the consumer holds: streams and starts change in
    place, and a batch does what the step functions say. */
module RepeatFilter {
  import opened Options
  import opened Repeats
  import R = RepeatRuns

  class Filter {
    const heartbeat: nat
    var streams: map<Key, Stream>
    var starts: map<Series, seq<nat>>
    var lastSweep: int

    ghost function View(): State
      reads this
    {
      State(streams, starts, lastSweep)
    }

    constructor (heartbeat: nat)
      ensures this.heartbeat == heartbeat && View() == R.EMPTY
    {
      this.heartbeat := heartbeat;
      streams, starts, lastSweep := map[], map[], 0;
    }

    method ReleaseSeries(s: Series) returns (out: seq<Rec>)
      requires Listed(View())
      modifies this`streams
      ensures (streams, out) == Release(old(streams), s, StartsOf(old(View()), s))
    {
      hide Release;
      out := [];
      var list := if s in starts then starts[s] else [];
      ghost var all := Release(streams, s, list);
      assert list[0..] == list && [] + all.1 == all.1;
      for i := 0 to |list|
        invariant forall t :: t in list ==> Key(s, t) in streams
        invariant all.0 == Release(streams, s, list[i..]).0
        invariant all.1 == out + Release(streams, s, list[i..]).1
      {
        var k := Key(s, list[i]);
        var st := streams[k];
        ReleaseStep(streams, s, list, i);
        if st.held.Some? {
          out := out + [st.held.value];
          streams := streams[k := st.(written := st.held.value.time, held := None)];
        }
      }
      assert list[|list|..] == [] && out + [] == out;
      ReleaseNone(streams, s);
    }

    method KeepPoint(r: Rec, now: int) returns (out: seq<Rec>)
      requires Listed(View())
      modifies this
      ensures Listed(View()) && (View(), out) == KeepOne(old(View()), r, heartbeat, now)
    {
      KeepListed(View(), r, heartbeat, now);
      if !Filtered(r) { return [r]; }
      var k := KeyOf(r);
      if k !in streams {
        out := ReleaseSeries(k.series);
        starts := starts[k.series := (if k.series in starts then starts[k.series] else []) + [k.start]];
        streams := streams[k := Stream(r.value, r.count, r.extra, r.time, None, now)];
        out := out + [r];
        return;
      }
      var st := streams[k].(seen := now);
      if Unchanged(st, r) {
        if r.time >= st.written + heartbeat {
          streams := streams[k := st.(written := r.time, held := None)];
          return [r];
        }
        streams := streams[k := st.(held := Some(r))];
        return [];
      }
      out := if st.held.Some? then [st.held.value] else [];
      streams := streams[k := Stream(r.value, r.count, r.extra, r.time, None, now)];
      out := out + [r];
    }

    /** Forgets the idle streams, one by one in any order. */
    method SweepIdle(now: int)
      requires Listed(View())
      modifies this
      ensures Listed(View()) && View() == Sweep(old(View()), heartbeat, now)
    {
      hide LeftStreams, LeftStarts, Without, Idle, Listed;
      SweepListed(View(), heartbeat, now);
      if now - lastSweep < 3 * heartbeat { return; }
      lastSweep := now;
      ghost var was := old(View());
      var todo := streams.Keys;
      SweepStart(was, heartbeat, now);
      while todo != {}
        invariant todo <= was.streams.Keys && lastSweep == now
        invariant streams == LeftStreams(was, todo, heartbeat, now)
        invariant starts == LeftStarts(was, todo, heartbeat, now)
        decreases |todo|
      {
        var k :| k in todo;
        SweepStep(was, todo, k, heartbeat, now);
        if Idle(streams[k], heartbeat, now) {
          streams := streams - {k};
          starts := Without(starts, k);
        }
        todo := todo - {k};
      }
      SweepEnd(was, heartbeat, now);
    }

    method Keep(recs: seq<Rec>, now: int) returns (out: seq<Rec>)
      requires Listed(View())
      modifies this
      ensures var kept := R.KeepAll(old(View()), recs, heartbeat, now);
              Listed(View()) && out == kept.1 && View() == Sweep(kept.0, heartbeat, now)
    {
      out := [];
      for i := 0 to |recs|
        invariant Listed(View()) && (View(), out) == R.KeepAll(old(View()), recs[..i], heartbeat, now)
      {
        assert recs[..i + 1][..i] == recs[..i];
        var more := KeepPoint(recs[i], now);
        out := out + more;
      }
      assert recs[..|recs|] == recs;
      SweepIdle(now);
    }
  }

  /** The list without start t. */
  function Drop(list: seq<nat>, t: nat): seq<nat> {
    if list == [] then [] else (if list[0] == t then [] else [list[0]]) + Drop(list[1..], t)
  }

  /** The starts that remain when the idle streams outside todo are gone. */
  ghost function Left(st: State, s: Series, list: seq<nat>, todo: set<Key>, heartbeat: nat, now: int): seq<nat> {
    if list == [] then []
    else
      var k := Key(s, list[0]);
      (if k in st.streams && k !in todo && Idle(st.streams[k], heartbeat, now) then [] else [list[0]])
      + Left(st, s, list[1..], todo, heartbeat, now)
  }

  lemma {:induction false} LeftIsLive(st: State, s: Series, list: seq<nat>, heartbeat: nat, now: int)
    ensures Left(st, s, list, {}, heartbeat, now) == Live(st, s, list, heartbeat, now)
  {
    if list != [] { LeftIsLive(st, s, list[1..], heartbeat, now); }
  }

  ghost function LeftStreams(st: State, todo: set<Key>, heartbeat: nat, now: int): map<Key, Stream> {
    map k | k in st.streams && (k in todo || !Idle(st.streams[k], heartbeat, now)) :: st.streams[k]
  }

  ghost function LeftStarts(st: State, todo: set<Key>, heartbeat: nat, now: int): map<Series, seq<nat>> {
    map s | s in st.starts && Left(st, s, st.starts[s], todo, heartbeat, now) != []
      :: Left(st, s, st.starts[s], todo, heartbeat, now)
  }

  lemma {:induction false} LeftAll(st: State, s: Series, list: seq<nat>, todo: set<Key>, heartbeat: nat, now: int)
    requires st.streams.Keys <= todo
    ensures Left(st, s, list, todo, heartbeat, now) == list
  {
    if list != [] { LeftAll(st, s, list[1..], todo, heartbeat, now); }
  }

  lemma {:induction false} LeftStep(
      st: State, s: Series, list: seq<nat>, todo: set<Key>, k: Key, heartbeat: nat, now: int)
    requires k in todo && k in st.streams
    ensures Left(st, s, list, todo - {k}, heartbeat, now)
         == if s == k.series && Idle(st.streams[k], heartbeat, now)
           then Drop(Left(st, s, list, todo, heartbeat, now), k.start)
            else Left(st, s, list, todo, heartbeat, now)
  {
    if list != [] {
      LeftStep(st, s, list[1..], todo, k, heartbeat, now);
      var l, rest := Left(st, s, list, todo, heartbeat, now), Left(st, s, list[1..], todo, heartbeat, now);
      if l != rest { assert l == [list[0]] + rest; assert l[1..] == rest; }
    }
  }

  lemma {:induction false} SweepStart(st: State, heartbeat: nat, now: int)
    requires Listed(st)
    ensures LeftStreams(st, st.streams.Keys, heartbeat, now) == st.streams
    ensures LeftStarts(st, st.streams.Keys, heartbeat, now) == st.starts
  {
    forall s | s in st.starts ensures Left(st, s, st.starts[s], st.streams.Keys, heartbeat, now) == st.starts[s] {
      LeftAll(st, s, st.starts[s], st.streams.Keys, heartbeat, now);
    }
  }

  lemma {:induction false} SweepEnd(st: State, heartbeat: nat, now: int)
    requires now - st.lastSweep >= 3 * heartbeat
    ensures Sweep(st, heartbeat, now)
            == State(LeftStreams(st, {}, heartbeat, now), LeftStarts(st, {}, heartbeat, now), now)
  {
    forall s | s in st.starts
      ensures Left(st, s, st.starts[s], {}, heartbeat, now) == Live(st, s, st.starts[s], heartbeat, now)
    {
      LeftIsLive(st, s, st.starts[s], heartbeat, now);
    }
    var n := Sweep(st, heartbeat, now);
    assert n.streams == LeftStreams(st, {}, heartbeat, now);
    assert n.starts == LeftStarts(st, {}, heartbeat, now);
  }

  lemma {:induction false} LeftHas(
      st: State, s: Series, list: seq<nat>, todo: set<Key>, t: nat, heartbeat: nat, now: int)
    requires t in list && Key(s, t) in todo
    ensures t in Left(st, s, list, todo, heartbeat, now)
  {
    if list[0] != t { LeftHas(st, s, list[1..], todo, t, heartbeat, now); }
  }

  /** The start lists without stream k. */
  function Without(starts: map<Series, seq<nat>>, k: Key): map<Series, seq<nat>>
    requires k.series in starts
  {
    var list := Drop(starts[k.series], k.start);
    if list == [] then starts - {k.series} else starts[k.series := list]
  }

  lemma {:induction false} SweepStartsAt(st: State, todo: set<Key>, k: Key, s: Series, heartbeat: nat, now: int)
    requires k in todo && k in st.streams && k.series in LeftStarts(st, todo, heartbeat, now)
    ensures var starts, starts' := LeftStarts(st, todo, heartbeat, now), LeftStarts(st, todo - {k}, heartbeat, now);
            var want := if Idle(st.streams[k], heartbeat, now) then Without(starts, k) else starts;
            (s in starts' <==> s in want) && (s in want ==> starts'[s] == want[s])
  {
    hide Left, Drop;
    if s in st.starts { LeftStep(st, s, st.starts[s], todo, k, heartbeat, now); }
    DropNone(k.start);
  }

  lemma {:induction false} DropNone(t: nat)
    ensures Drop([], t) == []
  {
  }

  lemma {:induction false} SweepStep(st: State, todo: set<Key>, k: Key, heartbeat: nat, now: int)
    requires Listed(st) && k in todo && todo <= st.streams.Keys
    ensures k in LeftStreams(st, todo, heartbeat, now) && LeftStreams(st, todo, heartbeat, now)[k] == st.streams[k]
    ensures k.series in LeftStarts(st, todo, heartbeat, now)
    ensures var idle := Idle(st.streams[k], heartbeat, now);
            && LeftStreams(st, todo - {k}, heartbeat, now)
               == (if idle then LeftStreams(st, todo, heartbeat, now) - {k} else LeftStreams(st, todo, heartbeat, now))
            && LeftStarts(st, todo - {k}, heartbeat, now)
               == (if idle then Without(LeftStarts(st, todo, heartbeat, now), k)
                 else LeftStarts(st, todo, heartbeat, now))
  {
    LeftHas(st, k.series, st.starts[k.series], todo, k.start, heartbeat, now);
    var starts := LeftStarts(st, todo, heartbeat, now);
    assert k.series in starts;
    var want := if Idle(st.streams[k], heartbeat, now) then Without(starts, k) else starts;
    var starts' := LeftStarts(st, todo - {k}, heartbeat, now);
    SweepStarts(st, todo, k, starts', want, heartbeat, now);
  }

  lemma {:induction false} SweepStarts(
      st: State, todo: set<Key>, k: Key, starts': map<Series, seq<nat>>, want: map<Series, seq<nat>>, heartbeat: nat,
      now: int)
    requires k in todo && k in st.streams && k.series in LeftStarts(st, todo, heartbeat, now)
    requires starts' == LeftStarts(st, todo - {k}, heartbeat, now)
    requires want == if Idle(st.streams[k], heartbeat, now) then Without(LeftStarts(st, todo, heartbeat, now), k)
                     else LeftStarts(st, todo, heartbeat, now)
    ensures starts' == want
  {
    hide LeftStarts, Without;
    forall s ensures (s in starts' <==> s in want) && (s in want ==> starts'[s] == want[s]) {
      SweepStartsAt(st, todo, k, s, heartbeat, now);
    }
    assert starts'.Keys == want.Keys;
  }

  lemma {:induction false} ReleaseNone(streams: map<Key, Stream>, s: Series)
    ensures Release(streams, s, []) == (streams, [])
  {
  }

  lemma {:induction false} ReleaseStep(streams: map<Key, Stream>, s: Series, list: seq<nat>, i: nat)
    requires i < |list| && forall t :: t in list ==> Key(s, t) in streams
    ensures var k := Key(s, list[i]);
            var st := streams[k];
            Release(streams, s, list[i..])
              == if st.held.None? then Release(streams, s, list[i + 1..])
                 else var rest := Release(streams[k := st.(written := st.held.value.time, held := None)], s,
                   list[i + 1..]);
                      (rest.0, [st.held.value] + rest.1)
  {
    assert list[i..][0] == list[i] && list[i..][1..] == list[i + 1..];
  }

  /** A filter with no heartbeat does not exist, and every point is kept. */
  method KeepThrough(f: Filter?, recs: seq<Rec>, now: int) returns (out: seq<Rec>)
    requires f != null ==> Listed(f.View())
    modifies f
    ensures f == null ==> out == recs
    ensures f != null ==> out == R.KeepAll(old(f.View()), recs, f.heartbeat, now).1
  {
    if f == null { return recs; }
    out := f.Keep(recs, now);
  }
}
