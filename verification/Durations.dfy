/** What a rollup slot holds of its spans: count, sample weights, duration sum, minimum,
    maximum and a histogram. */
module Durations {
  import opened Options
  import opened Slots

  /** Sums of the known sample weights, and how many spans had one. */
  datatype Weights = Weights(count: int, spans: int)

  datatype Bin = Bin(count: int, min: int, max: int)

  /** A histogram by bin index. */
  type Hist = map<int, Bin>

  datatype Stats = Stats(count: int, weights: Weights, sum: int, min: int, max: int, hist: Hist)

  function Min(a: int, b: int): int { if a <= b then a else b }
  function Max(a: int, b: int): int { if a >= b then a else b }

  function MergeBin(a: Bin, b: Bin): Bin { Bin(a.count + b.count, Min(a.min, b.min), Max(a.max, b.max)) }

  /** A span without a known weight adds to neither field. */
  function AddWeight(w: Weights, weight: int): Weights {
    if weight <= 0 then w else Weights(w.count + weight, w.spans + 1)
  }

  const ZERO: Stats := Stats(0, Weights(0, 0), 0, 0, 0, map[])

  function Observe(d: Stats, duration: int, weight: int, bin: int): Stats {
    var first := d.count == 0;
    Stats(d.count + 1, AddWeight(d.weights, weight), d.sum + duration,
          Min(if first then duration else d.min, duration), Max(if first then duration else d.max, duration),
          Fold(MergeBin, d.hist, map[bin := Bin(1, duration, duration)]))
  }

  function Merge(a: Stats, b: Stats): Stats {
    Stats(a.count + b.count, Weights(a.weights.count + b.weights.count, a.weights.spans + b.weights.spans),
          a.sum + b.sum, Min(a.min, b.min), Max(a.max, b.max), Fold(MergeBin, a.hist, b.hist))
  }

  /** The stats of one span. */
  function Single(duration: int, weight: int, bin: int): Stats { Observe(ZERO, duration, weight, bin) }

  /** Observing a span in a slot that holds one already is merging in the span's own stats. */
  lemma {:induction false} ObserveIsMerge(d: Stats, duration: int, weight: int, bin: int)
    requires d.count >= 1
    ensures Observe(d, duration, weight, bin) == Merge(d, Single(duration, weight, bin))
    ensures Single(duration, weight, bin).count == 1
  {
    var one := map[bin := Bin(1, duration, duration)];
    assert Fold(MergeBin, map[], one) == one;
  }

  lemma {:induction false} HistLaws(a: Hist, b: Hist, c: Hist)
    ensures Fold(MergeBin, a, b) == Fold(MergeBin, b, a)
    ensures Fold(MergeBin, Fold(MergeBin, a, b), c) == Fold(MergeBin, a, Fold(MergeBin, b, c))
  {
    var ab, bc := Fold(MergeBin, a, b), Fold(MergeBin, b, c);
    assert Fold(MergeBin, ab, c).Keys == Fold(MergeBin, a, bc).Keys;
  }

  lemma {:induction false} MergeLaws()
    ensures Commutative(Merge)
  {
    forall a, b ensures Merge(a, b) == Merge(b, a) { HistLaws(a.hist, b.hist, map[]); }
    forall a, b, c ensures Merge(Merge(a, b), c) == Merge(a, Merge(b, c)) { HistLaws(a.hist, b.hist, c.hist); }
  }

  // ----- the stats of a list of spans -----

  datatype Obs = Obs(duration: int, weight: int, bin: int)

  function SingleOf(o: Obs): Stats { Single(o.duration, o.weight, o.bin) }

  ghost function Summary(os: seq<Obs>): Option<Stats> {
    if os == [] then None
    else Plus(Merge, Summary(os[..|os| - 1]), Some(SingleOf(os[|os| - 1])))
  }

  ghost function SumOf(os: seq<Obs>): int {
    if os == [] then 0 else SumOf(os[..|os| - 1]) + os[|os| - 1].duration
  }

  ghost function WeightOf(os: seq<Obs>): Weights {
    if os == [] then Weights(0, 0) else AddWeight(WeightOf(os[..|os| - 1]), os[|os| - 1].weight)
  }

  ghost function InBin(os: seq<Obs>, bin: int): seq<Obs> {
    if os == [] then [] else InBin(os[..|os| - 1], bin) + if os[|os| - 1].bin == bin then [os[|os| - 1]] else []
  }

  ghost predicate Least(m: int, os: seq<Obs>) {
    (forall o :: o in os ==> m <= o.duration) && exists o :: o in os && o.duration == m
  }

  ghost predicate Greatest(m: int, os: seq<Obs>) {
    (forall o :: o in os ==> o.duration <= m) && exists o :: o in os && o.duration == m
  }

  lemma {:induction false} SummaryScalars(os: seq<Obs>)
    requires os != []
    ensures Summary(os).Some?
    ensures var s := Summary(os).value;
            s.count == |os| && s.sum == SumOf(os) && s.weights == WeightOf(os) && Least(s.min, os)
              && Greatest(s.max, os)
  {
    hide Fold;
    var n := |os| - 1;
    var last := os[n];
    assert os == os[..n] + [last];
    if n > 0 {
      SummaryScalars(os[..n]);
      var s, t := Summary(os[..n]).value, Summary(os).value;
      assert t == Merge(s, SingleOf(last));
      if t.min == last.duration { assert last in os; } else { assert t.min == s.min; }
      if t.max == last.duration { assert last in os; } else { assert t.max == s.max; }
    } else {
      assert os[..0] == [] && last in os;
    }
  }

  lemma {:induction false} SummaryHist(os: seq<Obs>, bin: int)
    requires os != []
    ensures Summary(os).Some?
    ensures var h, xs := Summary(os).value.hist, InBin(os, bin);
            (bin in h <==> xs != [])
              && (xs != [] ==> h[bin].count == |xs| && Least(h[bin].min, xs) && Greatest(h[bin].max, xs))
  {
    var n := |os| - 1;
    var last := os[n];
    var one := map[last.bin := Bin(1, last.duration, last.duration)];
    assert Fold(MergeBin, map[], one) == one;
    if n > 0 {
      SummaryHist(os[..n], bin);
      var s, xs := Summary(os[..n]).value, InBin(os[..n], bin);
      var t, ys := Summary(os).value, InBin(os, bin);
      assert t == Merge(s, SingleOf(last));
      if last.bin == bin {
        assert ys == xs + [last] && last in ys;
        assert forall x :: x in xs ==> x in ys;
      }
    } else {
      assert os[..0] == [];
      assert InBin(os, bin) == if last.bin == bin then [last] else [];
    }
  }
}
