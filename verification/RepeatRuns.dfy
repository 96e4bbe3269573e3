/** Whole runs of the repeat filter: what is written of each stream, and that rates and
    increases read from the written points are those of all points. */
module RepeatRuns {
  import opened Options
  import opened Sequences
  import opened Repeats

  /** The points of stream k, in order. */
  function Of(k: Key, xs: seq<Rec>): seq<Rec> {
    if xs == [] then []
    else Of(k, xs[..|xs| - 1]) + (if Filtered(xs[|xs| - 1]) && KeyOf(xs[|xs| - 1]) == k then [xs[|xs| - 1]] else [])
  }

  /** The points no stream tracks, in order. */
  function Untracked(xs: seq<Rec>): seq<Rec> {
    if xs == [] then []
    else Untracked(xs[..|xs| - 1]) + (if Filtered(xs[|xs| - 1]) then [] else [xs[|xs| - 1]])
  }

  lemma {:induction false} OfConcat(k: Key, xs: seq<Rec>, ys: seq<Rec>)
    ensures Of(k, xs + ys) == Of(k, xs) + Of(k, ys)
    decreases |ys|
  {
    if ys == [] {
      assert xs + ys == xs;
    } else {
      var n := |ys| - 1;
      assert (xs + ys)[..|xs| + n] == xs + ys[..n];
      OfConcat(k, xs, ys[..n]);
    }
  }

  lemma {:induction false} UntrackedConcat(xs: seq<Rec>, ys: seq<Rec>)
    ensures Untracked(xs + ys) == Untracked(xs) + Untracked(ys)
    decreases |ys|
  {
    if ys == [] {
      assert xs + ys == xs;
    } else {
      var n := |ys| - 1;
      assert (xs + ys)[..|xs| + n] == xs + ys[..n];
      UntrackedConcat(xs, ys[..n]);
    }
  }

  lemma {:induction false} OfOne(k: Key, r: Rec)
    ensures Of(k, [r]) == if Filtered(r) && KeyOf(r) == k then [r] else []
    ensures Untracked([r]) == if Filtered(r) then [] else [r]
  {
    assert [r][..0] == [];
  }

  // ----- picks -----

  function Pick(h: seq<Rec>, ix: seq<nat>): seq<Rec>
    requires forall j :: 0 <= j < |ix| ==> ix[j] < |h|
  {
    seq(|ix|, j requires 0 <= j < |ix| => h[ix[j]])
  }

  /** Points i in (a, b) say what point a says and come less than a heartbeat after it. */
  ghost predicate Repeated(h: seq<Rec>, a: nat, b: nat, heartbeat: nat)
    requires a < |h| && b <= |h|
  {
    forall i :: a < i < b ==> Same(h[i], h[a]) && h[i].time < h[a].time + heartbeat
  }

  ghost predicate Gap(h: seq<Rec>, ix: seq<nat>, j: nat, heartbeat: nat)
    requires j + 1 < |ix| && ix[j] < |h| && ix[j + 1] <= |h|
  {
    Repeated(h, ix[j], ix[j + 1], heartbeat)
  }

  /** ix picks points of h in order, the first one included, and leaves out only repeats of
      the pick before them. */
  ghost predicate Picks(h: seq<Rec>, ix: seq<nat>, heartbeat: nat) {
    && (forall j :: 0 <= j < |ix| ==> ix[j] < |h|)
    && (forall i, j :: 0 <= i < j < |ix| ==> ix[i] < ix[j])
    && (h != [] ==> ix != [] && ix[0] == 0)
    && (forall j :: 0 <= j < |ix| - 1 ==> Gap(h, ix, j, heartbeat))
    && (ix != [] ==> Repeated(h, ix[|ix| - 1], |h|, heartbeat))
  }

  /** Every change is picked together with the point just before it. */
  ghost predicate PicksChanges(h: seq<Rec>, ix: seq<nat>)
    requires forall j :: 0 <= j < |ix| ==> ix[j] < |h|
  {
    forall j :: 0 <= j < |ix| - 1 ==> Linked(h, ix, j)
  }

  /** The pick after pick j is the next point, or repeats it. */
  ghost predicate Linked(h: seq<Rec>, ix: seq<nat>, j: nat)
    requires j + 1 < |ix| && ix[j] < |h| && ix[j + 1] < |h|
  {
    ix[j + 1] == ix[j] + 1 || Same(h[ix[j + 1]], h[ix[j]])
  }

  /** What the filter knows of stream k after the points h, of which it wrote those at ix. */
  ghost predicate Knows(st: State, k: Key, h: seq<Rec>, ix: seq<nat>)
    requires forall j :: 0 <= j < |ix| ==> ix[j] < |h|
  {
    k in st.streams ==>
      && h != [] && ix != []
      && Unchanged(st.streams[k], h[|h| - 1])
      && st.streams[k].written == h[ix[|ix| - 1]].time
      && st.streams[k].held == (if ix[|ix| - 1] == |h| - 1 then None else Some(h[|h| - 1]))
  }

  ghost predicate Accounts(st: State, k: Key, h: seq<Rec>, w: seq<Rec>, ix: seq<nat>, swept: set<Key>, heartbeat: nat) {
    && Picks(h, ix, heartbeat) && w == Pick(h, ix) && Knows(st, k, h, ix)
    && (k !in swept ==> PicksChanges(h, ix) && (k !in st.streams ==> h == []))
  }

  /** The filter in st has been given all and has written out; swept are the streams it forgot. */
  ghost predicate Inv(st: State, all: seq<Rec>, out: seq<Rec>, swept: set<Key>, heartbeat: nat) {
    && Listed(st)
    && Untracked(out) == Untracked(all)
    && forall k :: Accounted(st, k, all, out, swept, heartbeat)
  }

  ghost predicate Accounted(st: State, k: Key, all: seq<Rec>, out: seq<Rec>, swept: set<Key>, heartbeat: nat) {
    exists ix :: Accounts(st, k, Of(k, all), Of(k, out), ix, swept, heartbeat)
  }

  // ----- one stream, one step -----

  lemma {:induction false} PickAppend(h: seq<Rec>, ix: seq<nat>, i: nat)
    requires (forall j :: 0 <= j < |ix| ==> ix[j] < |h|) && i < |h|
    ensures Pick(h, ix + [i]) == Pick(h, ix) + [h[i]]
  {
  }

  lemma {:induction false} PickExtend(h: seq<Rec>, r: Rec, ix: seq<nat>)
    requires forall j :: 0 <= j < |ix| ==> ix[j] < |h|
    ensures Pick(h + [r], ix) == Pick(h, ix)
  {
  }

  /** Picking the last point. */
  lemma {:induction false} PickLast(h: seq<Rec>, ix: seq<nat>, heartbeat: nat) returns (ix': seq<nat>)
    requires Picks(h, ix, heartbeat) && h != [] && ix[|ix| - 1] < |h| - 1
    ensures ix' == ix + [|h| - 1] && Picks(h, ix', heartbeat)
    ensures PicksChanges(h, ix) ==> PicksChanges(h, ix')
    ensures Pick(h, ix') == Pick(h, ix) + [h[|h| - 1]]
  {
    ix' := ix + [|h| - 1];
    PickAppend(h, ix, |h| - 1);
    var n := |ix| - 1;
    assert Repeated(h, ix[n], |h|, heartbeat);
    forall j | 0 <= j < |ix'| - 1
      ensures Gap(h, ix', j, heartbeat) && (PicksChanges(h, ix) ==> Linked(h, ix', j))
    {
      if j < n { assert Gap(h, ix, j, heartbeat) && (PicksChanges(h, ix) ==> Linked(h, ix, j)); }
    }
  }

  /** A new point that is written. */
  lemma {:induction false} AddPicked(h: seq<Rec>, ix: seq<nat>, r: Rec, heartbeat: nat) returns (ix': seq<nat>)
    requires Picks(h, ix, heartbeat)
    ensures ix' == ix + [|h|] && Picks(h + [r], ix', heartbeat) && Pick(h + [r], ix') == Pick(h, ix) + [r]
    ensures (PicksChanges(h, ix) && (h == [] || ix[|ix| - 1] == |h| - 1 || Same(r, h[ix[|ix| - 1]])))
         ==> PicksChanges(h + [r], ix')
  {
    ix' := ix + [|h|];
    var h' := h + [r];
    PickExtend(h, r, ix);
    PickAppend(h', ix, |h|);
    forall j | 0 <= j < |ix'| - 1
      ensures Gap(h', ix', j, heartbeat)
      ensures (PicksChanges(h, ix) && (h == [] || ix[|ix| - 1] == |h| - 1 || Same(r, h[ix[|ix| - 1]]))) ==>
              Linked(h', ix', j)
    {
      if j < |ix| - 1 { assert Gap(h, ix, j, heartbeat) && (PicksChanges(h, ix) ==> Linked(h, ix, j)); }
      else { assert Repeated(h, ix[j], |h|, heartbeat); }
    }
  }

  /** A new point that is held back. */
  lemma {:induction false} AddHeld(h: seq<Rec>, ix: seq<nat>, r: Rec, heartbeat: nat)
    requires Picks(h, ix, heartbeat) && h != []
    requires Same(r, h[ix[|ix| - 1]]) && r.time < h[ix[|ix| - 1]].time + heartbeat
    ensures Picks(h + [r], ix, heartbeat) && Pick(h + [r], ix) == Pick(h, ix)
    ensures PicksChanges(h, ix) ==> PicksChanges(h + [r], ix)
  {
    var h' := h + [r];
    PickExtend(h, r, ix);
    forall j | 0 <= j < |ix| - 1
      ensures Gap(h', ix, j, heartbeat) && (PicksChanges(h, ix) ==> Linked(h', ix, j))
    {
      assert Gap(h, ix, j, heartbeat) && (PicksChanges(h, ix) ==> Linked(h, ix, j));
    }
    assert Repeated(h, ix[|ix| - 1], |h|, heartbeat);
  }

  // ----- the filter, one step -----

  lemma {:induction false} OfKeys(k: Key, xs: seq<Rec>)
    ensures forall i :: 0 <= i < |Of(k, xs)| ==> Filtered(Of(k, xs)[i]) && KeyOf(Of(k, xs)[i]) == k
  {
    if xs != [] { OfKeys(k, xs[..|xs| - 1]); }
  }

  /** A held point is a point of its own stream. */
  ghost predicate HeldInPlace(streams: map<Key, Stream>) {
    forall k :: k in streams && streams[k].held.Some? ==>
      Filtered(streams[k].held.value) && KeyOf(streams[k].held.value) == k
  }

  lemma {:induction false} InvHeld(st: State, all: seq<Rec>, out: seq<Rec>, swept: set<Key>, heartbeat: nat)
    requires Inv(st, all, out, swept, heartbeat)
    ensures HeldInPlace(st.streams)
  {
    forall k | k in st.streams && st.streams[k].held.Some?
      ensures Filtered(st.streams[k].held.value) && KeyOf(st.streams[k].held.value) == k
    {
      assert Accounted(st, k, all, out, swept, heartbeat);
      var ix :| Accounts(st, k, Of(k, all), Of(k, out), ix, swept, heartbeat);
      OfKeys(k, all);
    }
  }

  predicate Due(streams: map<Key, Stream>, s: Series, starts: seq<nat>, k: Key) {
    k in streams && k.series == s && k.start in starts && streams[k].held.Some?
  }

  lemma {:induction false} ReleaseWrites(streams: map<Key, Stream>, s: Series, starts: seq<nat>, k: Key)
    requires (forall t :: t in starts ==> Key(s, t) in streams) && Distinct(starts) && HeldInPlace(streams)
    ensures Of(k, Release(streams, s, starts).1) == if Due(streams, s, starts, k) then [streams[k].held.value] else []
    ensures Untracked(Release(streams, s, starts).1) == []
  {
    if starts != [] {
      hide Of, Untracked;
      var k0 := Key(s, starts[0]);
      var st := streams[k0];
      if st.held.None? {
        ReleaseWrites(streams, s, starts[1..], k);
      } else {
        var streams' := streams[k0 := st.(written := st.held.value.time, held := None)];
        ReleaseWrites(streams', s, starts[1..], k);
        var rest := Release(streams', s, starts[1..]).1;
        OfConcat(k, [st.held.value], rest);
        UntrackedConcat([st.held.value], rest);
        OfOne(k, st.held.value);
      }
    }
  }

  /** What a step writes of stream k, and what it then knows. */
  lemma {:induction false} StepOf(st: State, k: Key, all: seq<Rec>, out: seq<Rec>, r: Rec, heartbeat: nat, now: int)
    requires Listed(st) && HeldInPlace(st.streams)
    ensures Of(k, all + [r]) == Of(k, all) + if Filtered(r) && KeyOf(r) == k then [r] else []
    ensures var n := KeepOne(st, r, heartbeat, now);
            Of(k, out + n.1) == Of(k, out) + Of(k, n.1)
    ensures var n := KeepOne(st, r, heartbeat, now);
            Untracked(n.1) == if Filtered(r) then [] else [r]
  {
    hide KeepOne;
    OfConcat(k, all, [r]);
    OfConcat(k, out, KeepOne(st, r, heartbeat, now).1);
    OfOne(k, r);
    StepUntracked(st, r, heartbeat, now);
  }

  lemma {:induction false} StepUntracked(st: State, r: Rec, heartbeat: nat, now: int)
    requires Listed(st) && HeldInPlace(st.streams)
    ensures Untracked(KeepOne(st, r, heartbeat, now).1) == if Filtered(r) then [] else [r]
  {
    hide Release, Untracked;
    var key := KeyOf(r);
    OfOne(key, r);
    if Filtered(r) {
      if key in st.streams {
        var s := st.streams[key];
        if s.held.Some? { UntrackedConcat([s.held.value], [r]); OfOne(key, s.held.value); }
        NoneUntracked();
      } else {
        var starts := StartsOf(st, key.series);
        ReleaseWrites(st.streams, key.series, starts, key);
        UntrackedConcat(Release(st.streams, key.series, starts).1, [r]);
      }
    }
  }

  lemma {:induction false} NoneUntracked()
    ensures Untracked([]) == []
  {
  }

  lemma {:induction false} StepOther(
      st: State, k: Key, h: seq<Rec>, w: seq<Rec>, ix: seq<nat>, swept: set<Key>, r: Rec, heartbeat: nat, now: int)
    returns (ix': seq<nat>)
    requires Listed(st) && HeldInPlace(st.streams) && Accounts(st, k, h, w, ix, swept, heartbeat)
    requires !Filtered(r) || KeyOf(r) != k
    ensures var n := KeepOne(st, r, heartbeat, now);
            Accounts(n.0, k, h, w + Of(k, n.1), ix', swept, heartbeat)
  {
    hide Release, Of, Picks, PicksChanges, Pick, Listed;
    if !Filtered(r) || KeyOf(r) in st.streams {
      ix' := ix;
      NothingWritten(st, k, r, heartbeat, now);
      assert w + [] == w;
    } else {
      ix' := StepRelease(st, k, h, w, ix, swept, r, heartbeat, now);
    }
  }

  lemma {:induction false} PicksFit(h: seq<Rec>, ix: seq<nat>, heartbeat: nat)
    requires Picks(h, ix, heartbeat)
    ensures forall j :: 0 <= j < |ix| ==> ix[j] < |h|
  {
  }

  /** A point that opens a stream of the same series releases what k was holding. */
  lemma {:induction false} StepRelease(
      st: State, k: Key, h: seq<Rec>, w: seq<Rec>, ix: seq<nat>, swept: set<Key>, r: Rec, heartbeat: nat, now: int)
    returns (ix': seq<nat>)
    requires Listed(st) && HeldInPlace(st.streams) && Accounts(st, k, h, w, ix, swept, heartbeat)
    requires Filtered(r) && KeyOf(r) != k && KeyOf(r) !in st.streams
    ensures var n := KeepOne(st, r, heartbeat, now);
            Accounts(n.0, k, h, w + Of(k, n.1), ix', swept, heartbeat)
  {
    hide Release, Of, Picks, PicksChanges, Pick;
    PicksFit(h, ix, heartbeat);
    var key := KeyOf(r);
    var n := KeepOne(st, r, heartbeat, now);
    var starts := StartsOf(st, key.series);
    var rel := Release(st.streams, key.series, starts);
    ReleaseWrites(st.streams, key.series, starts, k);
    OfConcat(k, rel.1, [r]);
    OfOne(k, r);
    assert n.1 == rel.1 + [r] && Of(k, n.1) == Of(k, rel.1) + [] == Of(k, rel.1);
    ReleaseKeys(st.streams, key.series, starts);
    if k in st.streams { ReleaseEach(st.streams, key.series, starts, k); }
    if Due(st.streams, key.series, starts, k) {
      ix' := PickLast(h, ix, heartbeat);
    } else {
      ix' := ix;
      assert w + [] == w;
    }
  }

  lemma {:induction false} NothingWritten(st: State, k: Key, r: Rec, heartbeat: nat, now: int)
    requires Listed(st) && HeldInPlace(st.streams) && (!Filtered(r) || KeyOf(r) in st.streams)
    requires !Filtered(r) || KeyOf(r) != k
    ensures Of(k, KeepOne(st, r, heartbeat, now).1) == []
  {
    hide Of;
    OfOne(k, r);
    NoPoints(k);
    var out := KeepOne(st, r, heartbeat, now).1;
    if Filtered(r) {
      var s := st.streams[KeyOf(r)];
      if s.held.Some? {
        OfConcat(k, [s.held.value], [r]);
        OfOne(k, s.held.value);
      }
      assert out == [] || out == [r] || (s.held.Some? && out == [s.held.value] + [r]);
    } else {
      assert out == [r];
    }
  }

  lemma {:induction false} StepOwn(
      st: State, k: Key, h: seq<Rec>, w: seq<Rec>, ix: seq<nat>, swept: set<Key>, r: Rec, heartbeat: nat, now: int)
    returns (ix': seq<nat>)
    requires Listed(st) && HeldInPlace(st.streams) && Accounts(st, k, h, w, ix, swept, heartbeat)
    requires Filtered(r) && KeyOf(r) == k
    ensures var n := KeepOne(st, r, heartbeat, now);
            Accounts(n.0, k, h + [r], w + Of(k, n.1), ix', swept, heartbeat)
  {
    hide Release, Of, Picks, PicksChanges, Pick;
    var n := KeepOne(st, r, heartbeat, now);
    if k !in st.streams {
      var starts := StartsOf(st, k.series);
      var rel := Release(st.streams, k.series, starts);
      ReleaseWrites(st.streams, k.series, starts, k);
      OfConcat(k, rel.1, [r]);
      OfOne(k, r);
      assert Of(k, n.1) == [] + [r] == [r];
      ix' := AddPicked(h, ix, r, heartbeat);
    } else {
      ix' := StepStream(st, k, h, w, ix, swept, r, heartbeat, now);
    }
  }

  lemma {:induction false} StepStream(
      st: State, k: Key, h: seq<Rec>, w: seq<Rec>, ix: seq<nat>, swept: set<Key>, r: Rec, heartbeat: nat, now: int)
    returns (ix': seq<nat>)
    requires Listed(st) && HeldInPlace(st.streams) && Accounts(st, k, h, w, ix, swept, heartbeat)
    requires Filtered(r) && KeyOf(r) == k && k in st.streams
    ensures var n := KeepOne(st, r, heartbeat, now);
            Accounts(n.0, k, h + [r], w + Of(k, n.1), ix', swept, heartbeat)
  {
    hide Of, Picks, PicksChanges, Pick, Listed, Release;
    var n := KeepOne(st, r, heartbeat, now);
    var s := st.streams[k];
    OfOne(k, r);
    LastPick(h, ix, heartbeat);
    if Unchanged(s, r) {
      if r.time >= s.written + heartbeat {
        ix' := AddPicked(h, ix, r, heartbeat);
      } else {
        AddHeld(h, ix, r, heartbeat);
        ix' := ix;
        NoPoints(k);
        assert w + [] == w;
      }
    } else if s.held.Some? {
      var jx := PickLast(h, ix, heartbeat);
      OfConcat(k, [s.held.value], [r]);
      OfOne(k, s.held.value);
      ix' := AddPicked(h, jx, r, heartbeat);
      assert w + ([s.held.value] + [r]) == w + [s.held.value] + [r];
    } else {
      ix' := AddPicked(h, ix, r, heartbeat);
      assert n.1 == [r];
    }
  }

  lemma {:induction false} LastPick(h: seq<Rec>, ix: seq<nat>, heartbeat: nat)
    requires Picks(h, ix, heartbeat) && h != []
    ensures ix != [] && ix[|ix| - 1] < |h| && Same(h[|h| - 1], h[ix[|ix| - 1]])
  {
    assert Repeated(h, ix[|ix| - 1], |h|, heartbeat);
  }

  lemma {:induction false} NoPoints(k: Key)
    ensures Of(k, []) == []
  {
  }

  lemma {:induction false} StepInv(
      st: State, all: seq<Rec>, out: seq<Rec>, swept: set<Key>, r: Rec, heartbeat: nat, now: int)
    requires Inv(st, all, out, swept, heartbeat)
    ensures var n := KeepOne(st, r, heartbeat, now); Inv(n.0, all + [r], out + n.1, swept, heartbeat)
  {
    hide KeepOne, Accounts, Of, Untracked;
    InvHeld(st, all, out, swept, heartbeat);
    KeepListed(st, r, heartbeat, now);
    var n := KeepOne(st, r, heartbeat, now);
    UntrackedConcat(out, n.1);
    UntrackedConcat(all, [r]);
    StepOf(st, KeyOf(r), all, out, r, heartbeat, now);
    OfOne(KeyOf(r), r);
    forall k ensures Accounted(n.0, k, all + [r], out + n.1, swept, heartbeat) {
      assert Accounted(st, k, all, out, swept, heartbeat);
      var h, w := Of(k, all), Of(k, out);
      var ix :| Accounts(st, k, h, w, ix, swept, heartbeat);
      StepOf(st, k, all, out, r, heartbeat, now);
      var ix';
      if Filtered(r) && KeyOf(r) == k {
        ix' := StepOwn(st, k, h, w, ix, swept, r, heartbeat, now);
      } else {
        ix' := StepOther(st, k, h, w, ix, swept, r, heartbeat, now);
        assert h + [] == h;
      }
    }
  }

  lemma {:induction false} SweepInv(st: State, all: seq<Rec>, out: seq<Rec>, swept: set<Key>, heartbeat: nat, now: int)
    requires Inv(st, all, out, swept, heartbeat)
    ensures Inv(Sweep(st, heartbeat, now), all, out, swept + Forgotten(st, heartbeat, now), heartbeat)
  {
    hide Of, Untracked, Picks, PicksChanges, Pick;
    SweepListed(st, heartbeat, now);
    var st', swept' := Sweep(st, heartbeat, now), swept + Forgotten(st, heartbeat, now);
    forall k ensures Accounted(st', k, all, out, swept', heartbeat) {
      assert Accounted(st, k, all, out, swept, heartbeat);
      var ix :| Accounts(st, k, Of(k, all), Of(k, out), ix, swept, heartbeat);
      assert Accounts(st', k, Of(k, all), Of(k, out), ix, swept', heartbeat);
    }
  }

  // ----- runs -----

  datatype Batch = Batch(recs: seq<Rec>, now: int)

  /** A filter, the points it was given, those it wrote, and the streams it has forgotten. */
  datatype Log = Log(st: State, all: seq<Rec>, out: seq<Rec>, swept: set<Key>)

  function KeepAll(st: State, recs: seq<Rec>, heartbeat: nat, now: int): (r: (State, seq<Rec>))
    requires Listed(st)
    ensures Listed(r.0)
  {
    if recs == [] then (st, [])
    else
      var n := |recs| - 1;
      var before := KeepAll(st, recs[..n], heartbeat, now);
      var last := KeepOne(before.0, recs[n], heartbeat, now);
      KeepListed(before.0, recs[n], heartbeat, now);
      (last.0, before.1 + last.1)
  }

  const EMPTY: State := State(map[], map[], 0)

  ghost function Run(batches: seq<Batch>, heartbeat: nat): (g: Log)
    ensures Listed(g.st)
  {
    if batches == [] then Log(EMPTY, [], [], {})
    else
      var n := |batches| - 1;
      var g := Run(batches[..n], heartbeat);
      var b := batches[n];
      var kept := KeepAll(g.st, b.recs, heartbeat, b.now);
      SweepListed(kept.0, heartbeat, b.now);
      Log(Sweep(kept.0, heartbeat, b.now), g.all + b.recs, g.out + kept.1,
        g.swept + Forgotten(kept.0, heartbeat, b.now))
  }

  lemma {:induction false} KeepAllInv(
      st: State, all: seq<Rec>, out: seq<Rec>, swept: set<Key>, recs: seq<Rec>, heartbeat: nat, now: int)
    requires Listed(st) && Inv(st, all, out, swept, heartbeat)
    ensures var n := KeepAll(st, recs, heartbeat, now); Inv(n.0, all + recs, out + n.1, swept, heartbeat)
  {
    hide KeepOne, Inv;
    if recs == [] {
      assert all + recs == all && out + [] == out;
    } else {
      var n := |recs| - 1;
      KeepAllInv(st, all, out, swept, recs[..n], heartbeat, now);
      var before := KeepAll(st, recs[..n], heartbeat, now);
      StepInv(before.0, all + recs[..n], out + before.1, swept, recs[n], heartbeat, now);
      var last := KeepOne(before.0, recs[n], heartbeat, now);
      assert all + recs[..n] + [recs[n]] == all + recs;
      assert out + before.1 + last.1 == out + (before.1 + last.1);
    }
  }

  lemma {:induction false} RunInv(batches: seq<Batch>, heartbeat: nat)
    ensures var g := Run(batches, heartbeat); Inv(g.st, g.all, g.out, g.swept, heartbeat)
  {
    if batches == [] {
      forall k ensures Accounted(EMPTY, k, [], [], {}, heartbeat) {
        NoPoints(k);
        assert Accounts(EMPTY, k, [], [], [], {}, heartbeat);
      }
    } else {
      hide Inv, KeepAll, Sweep, Forgotten;
      var n := |batches| - 1;
      RunInv(batches[..n], heartbeat);
      var g := Run(batches[..n], heartbeat);
      var b := batches[n];
      KeepAllInv(g.st, g.all, g.out, g.swept, b.recs, heartbeat, b.now);
      var kept := KeepAll(g.st, b.recs, heartbeat, b.now);
      SweepInv(kept.0, g.all + b.recs, g.out + kept.1, g.swept, heartbeat, b.now);
    }
  }

  // ----- the theorems -----

  /** Over every run, the written points of a stream are the points at increasing positions,
      the first among them; a point left out repeats the last written one and is less than a
      heartbeat later. If the filter never forgot the stream, every change is written with
      the point just before it. Points outside streams are all written, in order. */
  lemma {:induction false} WrittenPoints(batches: seq<Batch>, heartbeat: nat, k: Key) returns (ix: seq<nat>)
    ensures var g := Run(batches, heartbeat);
            && Picks(Of(k, g.all), ix, heartbeat) && Of(k, g.out) == Pick(Of(k, g.all), ix)
            && (k !in g.swept ==> PicksChanges(Of(k, g.all), ix))
            && Untracked(g.out) == Untracked(g.all)
  {
    RunInv(batches, heartbeat);
    var g := Run(batches, heartbeat);
    assert Accounted(g.st, k, g.all, g.out, g.swept, heartbeat);
    ix :| Accounts(g.st, k, Of(k, g.all), Of(k, g.out), ix, g.swept, heartbeat);
  }

  /** The sum of inc over neighbouring points. */
  ghost function Increase(inc: (Rec, Rec) -> real, xs: seq<Rec>): real {
    if |xs| < 2 then 0.0 else Increase(inc, xs[..|xs| - 1]) + inc(xs[|xs| - 2], xs[|xs| - 1])
  }

  /** An unchanged point adds nothing. */
  ghost predicate IgnoresRepeats(inc: (Rec, Rec) -> real) {
    forall a, b :: Same(a, b) ==> inc(a, b) == 0.0
  }

  /** The increase is read from what the points say alone. */
  ghost predicate ByValue(inc: (Rec, Rec) -> real) {
    forall a, a', b :: Same(a, a') ==> inc(a, b) == inc(a', b)
  }

  /** Points that repeat point a add nothing. */
  lemma {:induction false} RepeatsAddNothing(inc: (Rec, Rec) -> real, h: seq<Rec>, a: nat, b: nat)
    requires IgnoresRepeats(inc) && a < b <= |h| && forall i :: a < i < b ==> Same(h[i], h[a])
    ensures Increase(inc, h[..b]) == Increase(inc, h[..a + 1])
    decreases b
  {
    if b > a + 1 {
      RepeatsAddNothing(inc, h, a, b - 1);
      assert h[..b][..b - 1] == h[..b - 1];
      assert Same(h[b - 2], h[b - 1]);
    }
  }

  lemma {:induction false} PickedIncrease(inc: (Rec, Rec) -> real, h: seq<Rec>, ix: seq<nat>, heartbeat: nat)
    requires IgnoresRepeats(inc) && Picks(h, ix, heartbeat) && ix != [] && h != []
    requires PicksChanges(h, ix) || ByValue(inc)
    ensures Increase(inc, Pick(h, ix)) == Increase(inc, h[..ix[|ix| - 1] + 1])
    decreases |ix|
  {
    hide Picks, PicksChanges, Increase, IgnoresRepeats, ByValue, Pick;
    var n := |ix| - 1;
    if n == 0 {
      OnePick(inc, h, ix, heartbeat);
    } else {
      PrefixPicks(h, ix, heartbeat);
      LastGap(h, ix, heartbeat);
      var a, b := ix[n - 1], ix[n];
      PickedIncrease(inc, h[..b], ix[..n], heartbeat);
      assert h[..b][..a + 1] == h[..a + 1];
      GapIncrease(inc, h, a, b);
      PickedLast(inc, h, ix, heartbeat);
    }
  }

  lemma {:induction false} OnePick(inc: (Rec, Rec) -> real, h: seq<Rec>, ix: seq<nat>, heartbeat: nat)
    requires Picks(h, ix, heartbeat) && |ix| == 1 && h != []
    ensures ix[0] == 0 && Increase(inc, Pick(h, ix)) == Increase(inc, h[..1])
  {
  }

  lemma {:induction false} LastGap(h: seq<Rec>, ix: seq<nat>, heartbeat: nat)
    requires Picks(h, ix, heartbeat) && |ix| > 1
    ensures var a, b := ix[|ix| - 2], ix[|ix| - 1];
            && a < b < |h| && (forall i :: a < i < b ==> Same(h[i], h[a]))
            && (PicksChanges(h, ix) ==> b == a + 1 || Same(h[b], h[a]))
  {
    var n := |ix| - 2;
    assert Gap(h, ix, n, heartbeat);
    if PicksChanges(h, ix) { assert Linked(h, ix, n); }
  }

  lemma {:induction false} PickedLast(inc: (Rec, Rec) -> real, h: seq<Rec>, ix: seq<nat>, heartbeat: nat)
    requires Picks(h, ix, heartbeat) && |ix| > 1
    requires Picks(h[..ix[|ix| - 1]], ix[..|ix| - 1], heartbeat)
    ensures Increase(inc, Pick(h, ix))
         == Increase(inc, Pick(h[..ix[|ix| - 1]], ix[..|ix| - 1])) + inc(h[ix[|ix| - 2]], h[ix[|ix| - 1]])
  {
    hide Increase;
    LastIncrease(inc, Pick(h, ix));
    assert Pick(h, ix)[..|ix| - 1] == Pick(h[..ix[|ix| - 1]], ix[..|ix| - 1]);
  }

  lemma {:induction false} LastIncrease(inc: (Rec, Rec) -> real, xs: seq<Rec>)
    requires |xs| >= 2
    ensures Increase(inc, xs) == Increase(inc, xs[..|xs| - 1]) + inc(xs[|xs| - 2], xs[|xs| - 1])
  {
  }

  /** From one pick to the next. */
  lemma {:induction false} GapIncrease(inc: (Rec, Rec) -> real, h: seq<Rec>, a: nat, b: nat)
    requires IgnoresRepeats(inc) && a < b < |h| && forall i :: a < i < b ==> Same(h[i], h[a])
    requires b == a + 1 || Same(h[b], h[a]) || ByValue(inc)
    ensures Increase(inc, h[..b + 1]) == Increase(inc, h[..a + 1]) + inc(h[a], h[b])
  {
    RepeatsAddNothing(inc, h, a, b);
    LastIncrease(inc, h[..b + 1]);
    assert h[..b + 1][..b] == h[..b];
    assert b > a + 1 ==> Same(h[b - 1], h[a]);
  }

  lemma {:induction false} PrefixPicks(h: seq<Rec>, ix: seq<nat>, heartbeat: nat)
    requires Picks(h, ix, heartbeat) && |ix| > 1
    ensures ix[|ix| - 1] > 0 && Picks(h[..ix[|ix| - 1]], ix[..|ix| - 1], heartbeat)
    ensures PicksChanges(h, ix) ==> PicksChanges(h[..ix[|ix| - 1]], ix[..|ix| - 1])
  {
    var n := |ix| - 1;
    var b := ix[n];
    var h', jx := h[..b], ix[..n];
    forall j | 0 <= j < n - 1
      ensures Gap(h', jx, j, heartbeat) && (PicksChanges(h, ix) ==> Linked(h', jx, j))
    {
      assert Gap(h, ix, j, heartbeat) && (PicksChanges(h, ix) ==> Linked(h, ix, j));
    }
    assert Gap(h, ix, n - 1, heartbeat);
  }

  /** Rates stay exact: whatever is summed over neighbouring points, times included, the
      written points give what all points give, as long as the filter never forgot the
      stream. A sum of increases that looks at values only is exact in every run. */
  lemma {:induction false} RatesStayExact(batches: seq<Batch>, heartbeat: nat, k: Key, inc: (Rec, Rec) -> real)
    requires IgnoresRepeats(inc)
    requires k !in Run(batches, heartbeat).swept || ByValue(inc)
    ensures var g := Run(batches, heartbeat); Increase(inc, Of(k, g.out)) == Increase(inc, Of(k, g.all))
  {
    hide Run, Of;
    var g := Run(batches, heartbeat);
    var ix := WrittenPoints(batches, heartbeat, k);
    var h := Of(k, g.all);
    if h != [] {
      PickedIncrease(inc, h, ix, heartbeat);
      var last := ix[|ix| - 1];
      assert Repeated(h, last, |h|, heartbeat);
      RepeatsAddNothing(inc, h, last, |h|);
      assert h[..|h|] == h;
    }
  }

  /** The newest point of a stream is the last one written of it. */
  ghost predicate Settled(w: seq<Rec>, h: seq<Rec>) { h != [] && w != [] && w[|w| - 1] == h[|h| - 1] }

  /** When a series gains a stream, every stream of the series is settled. */
  lemma {:induction false} NewStreamSettles(
      st: State, all: seq<Rec>, out: seq<Rec>, swept: set<Key>, r: Rec, heartbeat: nat, now: int, k: Key)
    requires Inv(st, all, out, swept, heartbeat) && Filtered(r) && KeyOf(r) !in st.streams
    requires k in KeepOne(st, r, heartbeat, now).0.streams && k.series == KeyOf(r).series
    ensures var n := KeepOne(st, r, heartbeat, now);
            Settled(Of(k, out + n.1), Of(k, all + [r]))
  {
    hide Of, Picks, PicksChanges, KeepOne;
    StepInv(st, all, out, swept, r, heartbeat, now);
    var n := KeepOne(st, r, heartbeat, now);
    assert Accounted(n.0, k, all + [r], out + n.1, swept, heartbeat);
    var ix :| Accounts(n.0, k, Of(k, all + [r]), Of(k, out + n.1), ix, swept, heartbeat);
    NoneHeld(st, r, heartbeat, now, k);
  }

  lemma {:induction false} NoneHeld(st: State, r: Rec, heartbeat: nat, now: int, k: Key)
    requires Listed(st) && Filtered(r) && KeyOf(r) !in st.streams
    requires k in KeepOne(st, r, heartbeat, now).0.streams && k.series == KeyOf(r).series
    ensures KeepOne(st, r, heartbeat, now).0.streams[k].held == None
  {
    hide Release;
    var starts := StartsOf(st, k.series);
    ReleaseKeys(st.streams, k.series, starts);
    if k != KeyOf(r) { ReleaseEach(st.streams, k.series, starts, k); }
  }

  /** What later points make the filter write comes after. */
  lemma {:induction false} KeepAllGrows(st: State, recs: seq<Rec>, m: nat, heartbeat: nat, now: int)
    returns (more: seq<Rec>)
    requires Listed(st) && m <= |recs|
    ensures KeepAll(st, recs, heartbeat, now).1 == KeepAll(st, recs[..m], heartbeat, now).1 + more
  {
    hide KeepOne;
    if m == |recs| {
      assert recs[..m] == recs;
      more := [];
    } else {
      var n := |recs| - 1;
      more := KeepAllGrows(st, recs[..n], m, heartbeat, now);
      assert recs[..n][..m] == recs[..m];
      var before := KeepAll(st, recs[..n], heartbeat, now);
      more := more + KeepOne(before.0, recs[n], heartbeat, now).1;
    }
  }

  /** The filter when it comes to point i of batch b. */
  ghost function Meets(batches: seq<Batch>, b: Batch, i: nat, heartbeat: nat): State
    requires i <= |b.recs|
  {
    KeepAll(Run(batches, heartbeat).st, b.recs[..i], heartbeat, b.now).0
  }

  /** Over every run: when a point opens a stream of a series, the newest point so far of every
      other stream the filter knows of that series is written, and written before it. */
  lemma {:induction false} RestartStoresTotals(batches: seq<Batch>, b: Batch, i: nat, heartbeat: nat)
    returns (before: seq<Rec>, after: seq<Rec>)
    requires i < |b.recs| && Filtered(b.recs[i]) && KeyOf(b.recs[i]) !in Meets(batches, b, i, heartbeat).streams
    ensures Run(batches + [b], heartbeat).out == before + [b.recs[i]] + after
    ensures forall k :: k in Meets(batches, b, i, heartbeat).streams && k.series == KeyOf(b.recs[i]).series ==>
              Settled(Of(k, before), Of(k, Run(batches, heartbeat).all + b.recs[..i]))
  {
    hide Inv, Of, Settled, Run, KeepOne, KeepAll, Opening;
    var g, r, now := Run(batches, heartbeat), b.recs[i], b.now;
    RunInv(batches, heartbeat);
    KeepAllInv(g.st, g.all, g.out, g.swept, b.recs[..i], heartbeat, now);
    var kept := KeepAll(g.st, b.recs[..i], heartbeat, now);
    var all, out := g.all + b.recs[..i], g.out + kept.1;
    before := out + Opening(kept.0, r, heartbeat, now);
    RunOut(batches, b, heartbeat);
    after := KeepAllGrows(g.st, b.recs, i + 1, heartbeat, now);
    KeepOneMore(g.st, b.recs, i, heartbeat, now);
    Regroup(g.out, kept.1, Opening(kept.0, r, heartbeat, now), [r], after);
    forall k | k in kept.0.streams && k.series == KeyOf(r).series ensures Settled(Of(k, before), Of(k, all)) {
      OthersSettle(kept.0, all, out, g.swept, r, heartbeat, now, k);
    }
  }

  lemma {:induction false} Regroup(a: seq<Rec>, b: seq<Rec>, c: seq<Rec>, d: seq<Rec>, e: seq<Rec>)
    ensures a + (b + (c + d) + e) == a + b + c + d + e
  {
  }

  /** What a point that opens a stream makes the filter write before it. */
  ghost function Opening(st: State, r: Rec, heartbeat: nat, now: int): (rel: seq<Rec>)
    requires Listed(st) && Filtered(r) && KeyOf(r) !in st.streams
    ensures KeepOne(st, r, heartbeat, now).1 == rel + [r]
  {
    Release(st.streams, KeyOf(r).series, StartsOf(st, KeyOf(r).series)).1
  }

  lemma {:induction false} RunOut(batches: seq<Batch>, b: Batch, heartbeat: nat)
    ensures Run(batches + [b], heartbeat).out
         == Run(batches, heartbeat).out + KeepAll(Run(batches, heartbeat).st, b.recs, heartbeat, b.now).1
  {
    hide KeepAll, Sweep, Forgotten;
    assert (batches + [b])[..|batches|] == batches;
  }

  lemma {:induction false} KeepOneMore(st: State, recs: seq<Rec>, i: nat, heartbeat: nat, now: int)
    requires Listed(st) && i < |recs|
    ensures var before := KeepAll(st, recs[..i], heartbeat, now);
            KeepAll(st, recs[..i + 1], heartbeat, now).1 == before.1 + KeepOne(before.0, recs[i], heartbeat, now).1
  {
    hide KeepOne;
    assert recs[..i + 1][..i] == recs[..i];
  }

  lemma {:induction false} OthersSettle(
      st: State, all: seq<Rec>, out: seq<Rec>, swept: set<Key>, r: Rec, heartbeat: nat, now: int, k: Key)
    requires Listed(st) && Inv(st, all, out, swept, heartbeat) && Filtered(r) && KeyOf(r) !in st.streams
    requires k in st.streams && k.series == KeyOf(r).series
    ensures Settled(Of(k, out + Opening(st, r, heartbeat, now)), Of(k, all))
  {
    hide Inv, Of, Release, Opening;
    var rel := Opening(st, r, heartbeat, now);
    ReleaseKeys(st.streams, k.series, StartsOf(st, k.series));
    NewStreamSettles(st, all, out, swept, r, heartbeat, now, k);
    assert out + (rel + [r]) == (out + rel) + [r];
    OfConcat(k, out + rel, [r]);
    OfConcat(k, all, [r]);
    OfOne(k, r);
  }
}
