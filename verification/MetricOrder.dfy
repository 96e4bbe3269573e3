/** Exactly when a metric slot depends on the order its points arrive in
    (internal/aggregation/metric_accumulator.go). */
module MetricOrder {
  import opened MetricFold

  /** Any two points share the header and, as delta distributions, the shape. */
  ghost predicate Alike(ps: seq<Point>) { forall a, b :: a in ps && b in ps ==> Compatible(a, b) }

  predicate Cumulative(p: Point) { p.kind.Histogram? && !Delta(p) }

  /** Of cumulative histogram snapshots the newest can be read. */
  ghost predicate NewestReadable(ps: seq<Point>) {
    forall m: nat :: Newest(ps, m) && Cumulative(ps[m]) ==> ps[m].hist.Some?
  }

  /** The points leave one slot in whatever order they arrive. */
  ghost predicate AnyOrder(ps: seq<Point>)
    requires ps != []
  {
    forall qs: seq<Point> :: multiset(qs) == multiset(ps) && qs != [] ==> SlotOf(qs) == SlotOf(ps)
  }

  // ----- orders of the same points -----

  lemma {:induction false} SameMembers(ps: seq<Point>, qs: seq<Point>)
    requires multiset(ps) == multiset(qs)
    ensures |ps| == |qs| && forall p :: p in ps <==> p in qs
  {
    assert |multiset(ps)| == |ps| && |multiset(qs)| == |qs|;
    forall p ensures p in ps <==> p in qs {
      assert p in ps <==> p in multiset(ps);
      assert p in qs <==> p in multiset(qs);
    }
  }

  lemma {:induction false} Once(ps: seq<Point>, p: Point)
    requires DistinctTimes(ps)
    ensures multiset(ps)[p] <= 1
  {
    if ps != [] {
      var n := |ps| - 1;
      assert ps == ps[..n] + [ps[n]];
      Once(ps[..n], p);
      assert forall i :: 0 <= i < n ==> ps[..n][i] == ps[i] && ps[i].time != ps[n].time;
    }
  }

  lemma {:induction false} TimesStayDistinct(ps: seq<Point>, qs: seq<Point>)
    requires multiset(ps) == multiset(qs) && DistinctTimes(ps)
    ensures DistinctTimes(qs)
  {
    SameMembers(ps, qs);
    forall i, j | 0 <= i < j < |qs| ensures qs[i].time != qs[j].time {
      assert qs[i] in ps && qs[j] in ps;
      var a :| 0 <= a < |ps| && ps[a] == qs[i];
      var b :| 0 <= b < |ps| && ps[b] == qs[j];
      if a == b {
        Once(ps, qs[i]);
        TwiceIn(qs, i, j);
      }
    }
  }

  lemma {:induction false} TwiceIn(qs: seq<Point>, i: nat, j: nat)
    requires i < j < |qs| && qs[i] == qs[j]
    ensures multiset(qs)[qs[i]] >= 2
  {
    assert qs == qs[..j] + [qs[j]] + qs[j + 1..];
    assert qs[i] in qs[..j] by { assert qs[..j][i] == qs[i]; }
  }

  /** The points with the i-th first, or last. */
  function First(ps: seq<Point>, i: nat): (qs: seq<Point>)
    requires i < |ps|
    ensures qs != [] && qs[0] == ps[i]
  {
    [ps[i]] + (ps[..i] + ps[i + 1..])
  }

  function Last(ps: seq<Point>, i: nat): (qs: seq<Point>)
    requires i < |ps|
    ensures qs != [] && qs[|qs| - 1] == ps[i]
  {
    (ps[..i] + ps[i + 1..]) + [ps[i]]
  }

  lemma {:induction false} MovesAreOrders(ps: seq<Point>, i: nat)
    requires i < |ps|
    ensures multiset(First(ps, i)) == multiset(ps) == multiset(Last(ps, i))
  {
    assert ps == ps[..i] + [ps[i]] + ps[i + 1..];
  }

  // ----- enough -----

  /** Points that are alike, with distinct times and the newest snapshot readable, leave the
      same slot in whatever order they arrive. */
  lemma {:induction false} OrderIndependent(ps: seq<Point>, qs: seq<Point>)
    requires ps != [] && DistinctTimes(ps) && Alike(ps) && NewestReadable(ps) && multiset(qs) == multiset(ps)
    ensures qs != [] && SlotOf(qs) == SlotOf(ps)
  {
    SameMembers(ps, qs);
    TimesStayDistinct(ps, qs);
    assert qs[0] in ps && ps[0] in ps && Compatible(ps[0], qs[0]);
    if Cumulative(ps[0]) {
      var m, k := NewestOf(ps), NewestOf(qs);
      NewestIsSame(ps, qs, m, k);
      forall i | 0 <= i < |ps| ensures ps[i].kind == Histogram && !Delta(ps[i]) {
        assert ps[i] in ps && Compatible(ps[0], ps[i]);
      }
      forall i | 0 <= i < |qs| ensures qs[i].kind == Histogram && !Delta(qs[i]) {
        assert qs[i] in ps && Compatible(ps[0], qs[i]);
      }
      SnapshotStands(ps, m);
      SnapshotStands(qs, k);
    } else {
      JoinAll(ps, ps[0]);
      JoinAll(qs, ps[0]);
      FoldedAnyOrder(Opened(ps[0]), ps, qs);
    }
  }

  lemma {:induction false} NewestIsSame(ps: seq<Point>, qs: seq<Point>, m: nat, k: nat)
    requires multiset(ps) == multiset(qs) && DistinctTimes(ps) && Newest(ps, m) && Newest(qs, k)
    ensures ps[m] == qs[k]
  {
    SameMembers(ps, qs);
    assert ps[m] in qs && qs[k] in ps;
    var i :| 0 <= i < |ps| && ps[i] == qs[k];
    var j :| 0 <= j < |qs| && qs[j] == ps[m];
    assert ps[i].time <= ps[m].time && qs[j].time <= qs[k].time;
  }

  lemma {:induction false} JoinAll(qs: seq<Point>, p: Point)
    requires DistinctTimes(qs) && Alike(qs) && !Cumulative(p) && forall q :: q in qs ==> Compatible(p, q)
    ensures AllJoin(Opened(p), qs)
  {
    forall i | 0 <= i < |qs| ensures Readable(qs[i]) { assert qs[i] in qs && Compatible(p, qs[i]); }
    forall i, j | 0 <= i < j < |qs| ensures Compatible(qs[i], qs[j]) && qs[i].time != qs[j].time {
      assert qs[i] in qs && qs[j] in qs;
    }
  }

  // ----- and needed -----

  lemma {:induction false} HeaderOfFirst(s: Slot, qs: seq<Point>)
    ensures var t := Folded(s, qs);
            t.kind == s.kind && t.unit == s.unit && t.attrs == s.attrs && t.temporality == s.temporality
    decreases |qs|
  {
    hide AddPoint;
    if qs != [] {
      HeaderOfFirst(s, qs[..|qs| - 1]);
      HeaderStays(Folded(s, qs[..|qs| - 1]), qs[|qs| - 1]);
    }
  }

  /** Points of two headers: the first one to arrive decides. */
  lemma {:induction false} HeadersDecide(ps: seq<Point>, i: nat, j: nat)
    requires i < |ps| && j < |ps| && !SameHeader(ps[i], ps[j])
    ensures SlotOf(First(ps, i)) != SlotOf(First(ps, j))
  {
    HeaderOfFirst(Opened(ps[i]), First(ps, i));
    HeaderOfFirst(Opened(ps[j]), First(ps, j));
  }

  ghost predicate AllDelta(ps: seq<Point>) { forall p :: p in ps ==> p.kind.Histogram? && Delta(p) }

  /** Distributions of two lengths: the last one to arrive decides. */
  lemma {:induction false} LengthOfLast(qs: seq<Point>)
    requires qs != [] && AllDelta(qs) && qs[|qs| - 1].hist.Some?
    ensures var h := SlotOf(qs).hist; h.Some? && |h.value.counts| == |qs[|qs| - 1].hist.value.counts|
  {
    var p := qs[|qs| - 1];
    assert p in qs;
    if |qs| == 1 {
      assert qs == [qs[0]];
      OneSlot(qs[0]);
    } else {
      Earlier(qs);
    }
  }

  /** Distributions of one length: the first one to arrive decides the bounds. */
  lemma {:induction false} BoundsOfFirst(qs: seq<Point>, n: nat)
    requires qs != [] && AllDelta(qs) && qs[0].hist.Some?
    requires forall p :: p in qs && p.hist.Some? ==> |p.hist.value.counts| == n
    ensures var h := SlotOf(qs).hist; h.Some? && |h.value.counts| == n && h.value.bounds == qs[0].hist.value.bounds
  {
    assert qs[0] in qs;
    if |qs| == 1 {
      assert qs == [qs[0]];
      OneSlot(qs[0]);
    } else {
      Earlier(qs);
      var front := qs[..|qs| - 1];
      forall p | p in front ensures p in qs { var i :| 0 <= i < |front| && front[i] == p; assert qs[i] == p; }
      BoundsOfFirst(front, n);
      assert qs[|qs| - 1] in qs;
    }
  }

  lemma {:induction false} ShapesDecide(ps: seq<Point>, i: nat, j: nat) returns (qs: seq<Point>, rs: seq<Point>)
    requires AllDelta(ps) && i < |ps| && j < |ps| && ps[i].hist.Some? && ps[j].hist.Some?
    requires !SameShape(ps[i].hist.value, ps[j].hist.value)
    ensures multiset(qs) == multiset(ps) == multiset(rs) && qs != [] && rs != [] && SlotOf(qs) != SlotOf(rs)
  {
    var n := |ps[i].hist.value.counts|;
    if exists k :: 0 <= k < |ps| && ps[k].hist.Some? && |ps[k].hist.value.counts| != n {
      var k :| 0 <= k < |ps| && ps[k].hist.Some? && |ps[k].hist.value.counts| != n;
      qs, rs := Last(ps, i), Last(ps, k);
      MovesAreOrders(ps, i);
      MovesAreOrders(ps, k);
      SameMembers(ps, qs);
      SameMembers(ps, rs);
      LengthOfLast(qs);
      LengthOfLast(rs);
    } else {
      qs, rs := First(ps, i), First(ps, j);
      MovesAreOrders(ps, i);
      MovesAreOrders(ps, j);
      SameMembers(ps, qs);
      SameMembers(ps, rs);
      BoundsOfFirst(qs, n);
      BoundsOfFirst(rs, n);
    }
  }

  ghost predicate AllCumulative(ps: seq<Point>) { forall p :: p in ps ==> Cumulative(p) }

  /** With nothing readable held, the slot's time is that of a later point. */
  lemma {:induction false} TimeOfRest(s: Slot, rs: seq<Point>) returns (k: nat)
    requires s.hist.None? && rs != [] && AllCumulative(rs)
    ensures k < |rs| && Folded(s, rs).lastTime == rs[k].time
    decreases |rs|
  {
    var n := |rs| - 1;
    assert rs[n] in rs;
    if n == 0 {
      assert rs[..0] == [];
      k := 0;
    } else {
      forall p | p in rs[..n] ensures p in rs { var i :| 0 <= i < n && rs[..n][i] == p; assert rs[i] == p; }
      k := TimeOfRest(s, rs[..n]);
      if Folded(s, rs).lastTime != rs[k].time { k := n; }
    }
  }

  /** A newest snapshot that cannot be read: it leaves its time only when it arrives late. */
  lemma {:induction false} UnreadableDecides(ps: seq<Point>, m: nat)
    requires |ps| > 1 && AllCumulative(ps) && DistinctTimes(ps) && Newest(ps, m) && ps[m].hist.None?
    ensures SlotOf(First(ps, m)) != SlotOf(Last(ps, m))
  {
    var rest := ps[..m] + ps[m + 1..];
    forall p | p in rest ensures p in ps && p.time < ps[m].time {
      var i :| 0 <= i < |rest| && rest[i] == p;
      var j := if i < m then i else i + 1;
      assert ps[j] == p && ps[j].time != ps[m].time;
    }
    assert ps[m] in ps;
    var late := Last(ps, m);
    assert late[..|late| - 1] == rest;
    RestIsEarlier(rest, ps[m]);
    Earlier(late);
    var s := AddPoint(Opened(ps[m]), ps[m]);
    FoldedTwo(Opened(ps[m]), [ps[m]], rest);
    OneSlot(ps[m]);
    var k := TimeOfRest(s, rest);
    assert rest[k] in rest;
  }

  lemma {:induction false} RestIsEarlier(rest: seq<Point>, p: Point)
    requires rest != [] && AllCumulative(rest) && forall q :: q in rest ==> q.time < p.time
    ensures SlotOf(rest).lastTime < p.time
  {
    var k := TimeOfRest(Opened(rest[0]), rest);
    assert rest[k] in rest;
  }

  /** Points with distinct times leave one slot in every order exactly when any two share
      the header and, as delta distributions, the shape, and of cumulative histogram
      snapshots the newest can be read. */
  lemma {:induction false} OrderExactlyWhen(ps: seq<Point>)
    requires |ps| > 1 && DistinctTimes(ps)
    ensures AnyOrder(ps) <==> Alike(ps) && NewestReadable(ps)
  {
    if Alike(ps) && NewestReadable(ps) {
      forall qs: seq<Point> | multiset(qs) == multiset(ps) && qs != [] ensures SlotOf(qs) == SlotOf(ps) {
        OrderIndependent(ps, qs);
      }
    } else {
      var qs, rs := TwoOrdersDiffer(ps);
      assert !(SlotOf(qs) == SlotOf(ps) && SlotOf(rs) == SlotOf(ps));
    }
  }

  lemma {:induction false} TwoOrdersDiffer(ps: seq<Point>) returns (qs: seq<Point>, rs: seq<Point>)
    requires |ps| > 1 && DistinctTimes(ps) && !(Alike(ps) && NewestReadable(ps))
    ensures multiset(qs) == multiset(ps) == multiset(rs) && qs != [] && rs != [] && SlotOf(qs) != SlotOf(rs)
  {
    if !Alike(ps) {
      var a, b :| a in ps && b in ps && !Compatible(a, b);
      var i :| 0 <= i < |ps| && ps[i] == a;
      var j :| 0 <= j < |ps| && ps[j] == b;
      if k: nat :| k < |ps| && !SameHeader(ps[i], ps[k]) {
        qs, rs := First(ps, i), First(ps, k);
        MovesAreOrders(ps, i);
        MovesAreOrders(ps, k);
        HeadersDecide(ps, i, k);
      } else {
        forall p | p in ps ensures p.kind.Histogram? && Delta(p) {
          var k :| 0 <= k < |ps| && ps[k] == p;
          assert SameHeader(ps[i], ps[k]) && SameHeader(ps[i], ps[j]);
        }
        qs, rs := ShapesDecide(ps, i, j);
      }
    } else {
      var m: nat :| Newest(ps, m) && Cumulative(ps[m]) && ps[m].hist.None?;
      forall p | p in ps ensures Cumulative(p) { assert ps[m] in ps && Compatible(ps[m], p); }
      qs, rs := First(ps, m), Last(ps, m);
      MovesAreOrders(ps, m);
      UnreadableDecides(ps, m);
    }
  }
}
