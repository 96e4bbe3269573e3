/** Where metric points are between arriving and being stored: open slots, finished rows
    waiting for a retry, flushes under way (internal/aggregation/metric_accumulator.go).
    A row is tracked by the points it was folded from. */
module MetricFlush {
  import opened Sequences
  import opened Buckets
  import opened MetricFold

  const RETRY_WINDOW: int := 1_800_000_000_000

  datatype Series = Series(project: int, name: string, fingerprint: string)
  datatype Key = Key(series: Series, bucket: int)

  function KeyOf(series: Series, p: Point, interval: int): Key { Key(series, Truncate(p.time, interval)) }

  /** A finished row, by the points it holds. */
  datatype Batch = Batch(key: Key, points: seq<Point>)

  /** The rows of one flush, when it started, and whether it is the one at shutdown. */
  datatype Flight = Flight(rows: seq<Batch>, started: int, final: bool)

  datatype State = State(
    open: map<Key, seq<Point>>, pending: seq<Batch>, flights: seq<Flight>, stored: seq<Batch>, lost: seq<Batch>
  )

  const EMPTY: State := State(map[], [], [], [], [])

  /** Take lists the slots a flush takes in the order it met them; Finish splits the rows of
      a flush into those that landed and those that did not. */
  datatype Step =
    | Add(series: Series, point: Point, at: int)
    | Take(keys: seq<Key>, at: int, final: bool)
    | Finish(i: nat, landed: seq<Batch>, left: seq<Batch>)

  function PointsAt(m: map<Key, seq<Point>>, k: Key): seq<Point> { if k in m then m[k] else [] }

  function Batches(open: map<Key, seq<Point>>, keys: seq<Key>): seq<Batch> {
    seq(|keys|, i requires 0 <= i < |keys| => Batch(keys[i], PointsAt(open, keys[i])))
  }

  ghost function Without<V>(m: map<Key, V>, keys: seq<Key>): map<Key, V> {
    map k | k in m && k !in keys :: m[k]
  }

  /** A flush takes every bucket whose window has ended; the one at shutdown takes all. */
  predicate Closed(k: Key, at: int, interval: int) { k.bucket <= at - interval }

  ghost predicate Lists(keys: seq<Key>, open: map<Key, seq<Point>>, at: int, final: bool, interval: int) {
    && Distinct(keys)
    && (forall k :: k in keys <==> k in open && (final || Closed(k, at, interval)))
  }

  function Kept(bs: seq<Batch>, oldest: int): seq<Batch> {
    if bs == [] then []
    else Kept(bs[..|bs| - 1], oldest) + if bs[|bs| - 1].key.bucket > oldest then [bs[|bs| - 1]] else []
  }

  function Refused(bs: seq<Batch>, oldest: int): seq<Batch> {
    if bs == [] then []
    else Refused(bs[..|bs| - 1], oldest) + if bs[|bs| - 1].key.bucket > oldest then [] else [bs[|bs| - 1]]
  }

  ghost predicate Enabled(s: State, step: Step, interval: int) {
    match step
    case Add(_, _, _) => true
    case Take(keys, at, final) => Lists(keys, s.open, at, final, interval)
    case Finish(i, landed, left) => i < |s.flights| && multiset(landed) + multiset(left) == multiset(s.flights[i].rows)
  }

  ghost function Done(s: State, step: Step, interval: int): State
    requires Enabled(s, step, interval)
  {
    match step
    case Add(series, p, _) =>
      var k := KeyOf(series, p, interval);
      s.(open := s.open[k := PointsAt(s.open, k) + [p]])
    case Take(keys, at, final) =>
      s.(open := Without(s.open, keys),
         pending := [],
         flights := s.flights + [Flight(s.pending + Batches(s.open, keys), at, final)])
    case Finish(i, landed, left) =>
      var f := s.flights[i];
      State(s.open, RetriedFrom(f, left) + s.pending, s.flights[..i] + s.flights[i + 1..],
            s.stored + landed, s.lost + GivenUp(f, left))
  }

  function RetriedFrom(f: Flight, left: seq<Batch>): seq<Batch> {
    if f.final then [] else Kept(left, f.started - RETRY_WINDOW)
  }

  function GivenUp(f: Flight, left: seq<Batch>): seq<Batch> {
    if f.final then left else Refused(left, f.started - RETRY_WINDOW)
  }

  /** A step that cannot happen changes nothing. */
  ghost function Apply(s: State, step: Step, interval: int): State {
    if Enabled(s, step, interval) then Done(s, step, interval) else s
  }

  ghost function Run(steps: seq<Step>, interval: int): State {
    if steps == [] then EMPTY else Apply(Run(steps[..|steps| - 1], interval), steps[|steps| - 1], interval)
  }

  // ----- conservation -----

  /** The points of key k in some rows. */
  ghost function Held(bs: seq<Batch>, k: Key): multiset<Point> {
    if bs == [] then multiset{}
    else Held(bs[..|bs| - 1], k) + if bs[|bs| - 1].key == k then multiset(bs[|bs| - 1].points) else multiset{}
  }

  ghost function InFlight(fs: seq<Flight>, k: Key): multiset<Point> {
    if fs == [] then multiset{} else InFlight(fs[..|fs| - 1], k) + Held(fs[|fs| - 1].rows, k)
  }

  ghost function Everywhere(s: State, k: Key): multiset<Point> {
    multiset(PointsAt(s.open, k)) + Held(s.pending, k) + InFlight(s.flights, k) + Held(s.stored, k) + Held(s.lost, k)
  }

  ghost function Added(steps: seq<Step>, k: Key, interval: int): multiset<Point> {
    if steps == [] then multiset{}
    else
      var last := steps[|steps| - 1];
      Added(steps[..|steps| - 1], k, interval)
      + if last.Add? && KeyOf(last.series, last.point, interval) == k then multiset{last.point} else multiset{}
  }

  lemma {:induction false} HeldTwo(a: seq<Batch>, b: seq<Batch>, k: Key)
    ensures Held(a + b, k) == Held(a, k) + Held(b, k)
    decreases |b|
  {
    if b == [] {
      assert a + b == a;
    } else {
      var n := |b| - 1;
      assert (a + b)[..|a + b| - 1] == a + b[..n];
      HeldTwo(a, b[..n], k);
    }
  }

  lemma {:induction false} HeldWithout(bs: seq<Batch>, i: nat, k: Key)
    requires i < |bs|
    ensures Held(bs, k) == Held(bs[..i] + bs[i + 1..], k) + Held([bs[i]], k)
    ensures multiset(bs[..i] + bs[i + 1..]) == multiset(bs) - multiset{bs[i]}
  {
    assert bs == (bs[..i] + [bs[i]]) + bs[i + 1..];
    HeldTwo(bs[..i] + [bs[i]], bs[i + 1..], k);
    HeldTwo(bs[..i], [bs[i]], k);
    HeldTwo(bs[..i], bs[i + 1..], k);
  }

  lemma {:induction false} HeldSame(a: seq<Batch>, b: seq<Batch>, k: Key)
    requires multiset(a) == multiset(b)
    ensures Held(a, k) == Held(b, k)
    decreases |a|
  {
    if a == [] {
      assert |multiset(b)| == 0;
      assert b == [];
    } else {
      var n := |a| - 1;
      assert a[n] in multiset(b);
      var i :| 0 <= i < |b| && b[i] == a[n];
      HeldWithout(a, n, k);
      HeldWithout(b, i, k);
      HeldSame(a[..n] + a[n + 1..], b[..i] + b[i + 1..], k);
    }
  }

  lemma {:induction false} Exchange<T>(a: multiset<T>, b: multiset<T>, c: multiset<T>)
    ensures (a + b) + c == (a + c) + b
    ensures (a + b) + c == a + (b + c)
  {
  }

  lemma {:induction false} InFlightTwo(a: seq<Flight>, b: seq<Flight>, k: Key)
    ensures InFlight(a + b, k) == InFlight(a, k) + InFlight(b, k)
    decreases |b|
  {
    hide Held;
    if b == [] {
      assert a + b == a;
    } else {
      var n := |b| - 1;
      assert (a + b)[..|a + b| - 1] == a + b[..n];
      InFlightTwo(a, b[..n], k);
      Exchange(InFlight(a, k), InFlight(b[..n], k), Held(b[n].rows, k));
    }
  }

  lemma {:induction false} InFlightOne(f: Flight, k: Key)
    ensures InFlight([f], k) == Held(f.rows, k)
  {
    hide Held;
    assert [f][..0] == [];
    assert InFlight([], k) == multiset{};
  }

  lemma {:induction false} InFlightWithout(fs: seq<Flight>, i: nat, k: Key)
    requires i < |fs|
    ensures InFlight(fs, k) == InFlight(fs[..i] + fs[i + 1..], k) + Held(fs[i].rows, k)
  {
    hide InFlight, Held;
    assert fs == (fs[..i] + [fs[i]]) + fs[i + 1..];
    InFlightTwo(fs[..i] + [fs[i]], fs[i + 1..], k);
    InFlightTwo(fs[..i], [fs[i]], k);
    InFlightTwo(fs[..i], fs[i + 1..], k);
    InFlightOne(fs[i], k);
    Exchange(InFlight(fs[..i], k), Held(fs[i].rows, k), InFlight(fs[i + 1..], k));
  }

  /** The rows made of some open slots hold exactly their points. */
  lemma {:induction false} HeldTaken(open: map<Key, seq<Point>>, keys: seq<Key>, k: Key)
    requires Distinct(keys)
    ensures Held(Batches(open, keys), k) == if k in keys then multiset(PointsAt(open, k)) else multiset{}
    decreases |keys|
  {
    if keys != [] {
      var n := |keys| - 1;
      HeldTaken(open, keys[..n], k);
      var bs := Batches(open, keys);
      assert bs[..n] == Batches(open, keys[..n]);
      assert keys == keys[..n] + [keys[n]];
      assert keys[n] !in keys[..n];
    }
  }

  lemma {:induction false} TakeConserves(s: State, keys: seq<Key>, at: int, final: bool, interval: int, k: Key)
    requires Enabled(s, Take(keys, at, final), interval)
    ensures Everywhere(Done(s, Take(keys, at, final), interval), k) == Everywhere(s, k)
  {
    hide Held, Batches;
    var t := Done(s, Take(keys, at, final), interval);
    HeldTaken(s.open, keys, k);
    HeldTwo(s.pending, Batches(s.open, keys), k);
    assert t.flights[..|t.flights| - 1] == s.flights;
    assert PointsAt(t.open, k) == if k in keys then [] else PointsAt(s.open, k);
    assert Held(t.pending, k) == multiset{} by { HeldNone(k); }
  }

  lemma {:induction false} HeldNone(k: Key)
    ensures Held([], k) == multiset{}
  {
  }

  lemma {:induction false} FinishConserves(
      s: State, i: nat, landed: seq<Batch>, left: seq<Batch>, interval: int, k: Key)
    requires Enabled(s, Finish(i, landed, left), interval)
    ensures Everywhere(Done(s, Finish(i, landed, left), interval), k) == Everywhere(s, k)
  {
    hide Held, InFlight, RetriedFrom, GivenUp;
    var f := s.flights[i];
    var keep, drop := RetriedFrom(f, left), GivenUp(f, left);
    InFlightWithout(s.flights, i, k);
    assert multiset(landed + left) == multiset(f.rows);
    HeldSame(landed + left, f.rows, k);
    HeldTwo(landed, left, k);
    LeftSplits(f, left, k);
    HeldTwo(keep, s.pending, k);
    HeldTwo(s.stored, landed, k);
    HeldTwo(s.lost, drop, k);
    Shuffle(multiset(PointsAt(s.open, k)), Held(s.pending, k), InFlight(s.flights[..i] + s.flights[i + 1..], k),
            Held(s.stored, k), Held(s.lost, k), Held(keep, k), Held(landed, k), Held(drop, k));
  }

  lemma {:induction false} LeftSplits(f: Flight, left: seq<Batch>, k: Key)
    ensures Held(RetriedFrom(f, left), k) + Held(GivenUp(f, left), k) == Held(left, k)
  {
    KeptAndRefused(left, f.started - RETRY_WINDOW, k);
  }

  lemma {:induction false} Shuffle<T>(o: multiset<T>, p: multiset<T>, r: multiset<T>, s: multiset<T>, l: multiset<T>,
                   keep: multiset<T>, landed: multiset<T>, drop: multiset<T>)
    ensures o + (keep + p) + r + (s + landed) + (l + drop) == o + p + (r + (landed + (keep + drop))) + s + l
  {
  }

  lemma {:induction false} StepConserves(s: State, step: Step, interval: int, k: Key)
    ensures Everywhere(Apply(s, step, interval), k)
         == Everywhere(s, k)
            + if step.Add? && KeyOf(step.series, step.point, interval) == k then multiset{step.point} else multiset{}
  {
    match step
    case Add(series, p, _) =>
    case Take(keys, at, final) =>
      if Enabled(s, step, interval) { TakeConserves(s, keys, at, final, interval, k); }
    case Finish(i, landed, left) =>
      if Enabled(s, step, interval) { FinishConserves(s, i, landed, left, interval, k); }
  }

  /** Over every interleaving, each point that arrived is in exactly one place: an open slot,
      a row waiting or in flight, a stored row, or a row given up. */
  lemma {:induction false} PointsConserved(steps: seq<Step>, interval: int, k: Key)
    ensures Everywhere(Run(steps, interval), k) == Added(steps, k, interval)
  {
    hide Everywhere;
    if steps == [] {
      NothingYet(k);
    } else {
      var n := |steps| - 1;
      PointsConserved(steps[..n], interval, k);
      StepConserves(Run(steps[..n], interval), steps[n], interval, k);
    }
  }

  lemma {:induction false} NothingYet(k: Key)
    ensures Everywhere(EMPTY, k) == multiset{}
  {
  }

  // ----- what is given up -----

  lemma {:induction false} SortedOut(bs: seq<Batch>, oldest: int)
    ensures multiset(Kept(bs, oldest)) + multiset(Refused(bs, oldest)) == multiset(bs)
  {
    if bs != [] {
      var n := |bs| - 1;
      var kept, refused := Kept(bs[..n], oldest), Refused(bs[..n], oldest);
      SortedOut(bs[..n], oldest);
      assert bs == bs[..n] + [bs[n]];
      if bs[n].key.bucket > oldest {
        assert Kept(bs, oldest) == kept + [bs[n]] && Refused(bs, oldest) == refused;
      } else {
        assert Kept(bs, oldest) == kept && Refused(bs, oldest) == refused + [bs[n]];
      }
    }
  }

  lemma {:induction false} KeptAndRefused(bs: seq<Batch>, oldest: int, k: Key)
    ensures Held(Kept(bs, oldest), k) + Held(Refused(bs, oldest), k) == Held(bs, k)
  {
    hide Held, Kept, Refused;
    var kept, refused := Kept(bs, oldest), Refused(bs, oldest);
    SortedOut(bs, oldest);
    BagTwo(kept, refused);
    HeldSame(kept + refused, bs, k);
    HeldTwo(kept, refused, k);
  }

  lemma {:induction false} SortedByAge(bs: seq<Batch>, oldest: int)
    ensures forall b :: b in Refused(bs, oldest) ==> b.key.bucket <= oldest
    ensures forall b :: b in Kept(bs, oldest) ==> b.key.bucket > oldest
  {
    if bs != [] { SortedByAge(bs[..|bs| - 1], oldest); }
  }

  lemma {:induction false} GivenUpWhenOld(f: Flight, left: seq<Batch>, b: Batch)
    ensures b in GivenUp(f, left) <==> b in left && (f.final || b.key.bucket <= f.started - RETRY_WINDOW)
  {
    hide Kept, Refused;
    var oldest := f.started - RETRY_WINDOW;
    SortedOut(left, oldest);
    SortedByAge(left, oldest);
    assert b in multiset(left) <==> b in multiset(Kept(left, oldest)) || b in multiset(Refused(left, oldest));
  }

  /** Step i ends a flush that could not write row b: the flush at shutdown, or one that started
      at least the retry window after the row's bucket. */
  ghost predicate TooLate(steps: seq<Step>, i: nat, b: Batch, interval: int)
    requires i < |steps|
  {
    var s := Run(steps[..i], interval);
    && steps[i].Finish? && Enabled(s, steps[i], interval) && b in steps[i].left
    && (var f := s.flights[steps[i].i]; f.final || b.key.bucket <= f.started - RETRY_WINDOW)
  }

  /** Over every run, a row is given up exactly then; any other row that could not be written
      waits for the next flush. */
  lemma {:induction false} LostExactlyWhen(steps: seq<Step>, interval: int, b: Batch)
    ensures b in Run(steps, interval).lost <==> exists i :: 0 <= i < |steps| && TooLate(steps, i, b, interval)
  {
    hide GivenUp, RetriedFrom;
    if steps != [] {
      var n := |steps| - 1;
      var front, s := steps[..n], Run(steps[..n], interval);
      LostExactlyWhen(front, interval, b);
      forall i | 0 <= i < n ensures TooLate(front, i, b, interval) <==> TooLate(steps, i, b, interval) {
        assert front[..i] == steps[..i];
      }
      if steps[n].Finish? && Enabled(s, steps[n], interval) {
        GivenUpWhenOld(s.flights[steps[n].i], steps[n].left, b);
      }
      assert b in Run(steps, interval).lost <==> b in s.lost || TooLate(steps, n, b, interval);
    }
  }

  // ----- one complete row per bucket -----

  ghost function FlightBag(fs: seq<Flight>): multiset<Batch> {
    if fs == [] then multiset{} else FlightBag(fs[..|fs| - 1]) + multiset(fs[|fs| - 1].rows)
  }

  /** Every row ever made, wherever it is. */
  ghost function RowBag(s: State): multiset<Batch> {
    multiset(s.pending) + FlightBag(s.flights) + multiset(s.stored) + multiset(s.lost)
  }

  lemma {:induction false} FlightBagTwo(a: seq<Flight>, b: seq<Flight>)
    ensures FlightBag(a + b) == FlightBag(a) + FlightBag(b)
    decreases |b|
  {
    if b == [] {
      assert a + b == a;
    } else {
      var n := |b| - 1;
      assert (a + b)[..|a + b| - 1] == a + b[..n];
      FlightBagTwo(a, b[..n]);
      Exchange(FlightBag(a), FlightBag(b[..n]), multiset(b[n].rows));
    }
  }

  lemma {:induction false} FlightBagOne(f: Flight)
    ensures FlightBag([f]) == multiset(f.rows)
  {
    assert [f][..0] == [];
    assert FlightBag([]) == multiset{};
  }

  lemma {:induction false} FlightBagWithout(fs: seq<Flight>, i: nat)
    requires i < |fs|
    ensures FlightBag(fs) == FlightBag(fs[..i] + fs[i + 1..]) + multiset(fs[i].rows)
  {
    hide FlightBag;
    assert fs == (fs[..i] + [fs[i]]) + fs[i + 1..];
    FlightBagTwo(fs[..i] + [fs[i]], fs[i + 1..]);
    FlightBagTwo(fs[..i], [fs[i]]);
    FlightBagTwo(fs[..i], fs[i + 1..]);
    FlightBagOne(fs[i]);
    Exchange(FlightBag(fs[..i]), multiset(fs[i].rows), FlightBag(fs[i + 1..]));
  }

  lemma {:induction false} LeftBag(f: Flight, left: seq<Batch>)
    ensures multiset(RetriedFrom(f, left)) + multiset(GivenUp(f, left)) == multiset(left)
  {
    hide Kept, Refused;
    SortedOut(left, f.started - RETRY_WINDOW);
  }

  lemma {:induction false} BagTwo(a: seq<Batch>, b: seq<Batch>)
    ensures multiset(a + b) == multiset(a) + multiset(b)
  {
  }

  lemma {:induction false} FinishKeepsRows(s: State, i: nat, landed: seq<Batch>, left: seq<Batch>, interval: int)
    requires Enabled(s, Finish(i, landed, left), interval)
    ensures RowBag(Done(s, Finish(i, landed, left), interval)) == RowBag(s)
  {
    hide FlightBag, RetriedFrom, GivenUp;
    var f := s.flights[i];
    var keep, drop := RetriedFrom(f, left), GivenUp(f, left);
    FlightBagWithout(s.flights, i);
    LeftBag(f, left);
    BagTwo(keep, s.pending);
    BagTwo(s.stored, landed);
    BagTwo(s.lost, drop);
    ShuffleRows(multiset(s.pending), FlightBag(s.flights[..i] + s.flights[i + 1..]), multiset(s.stored),
                multiset(s.lost), multiset(keep), multiset(landed), multiset(drop));
  }

  lemma {:induction false} ShuffleRows<T>(p: multiset<T>, r: multiset<T>, s: multiset<T>, l: multiset<T>,
                       keep: multiset<T>, landed: multiset<T>, drop: multiset<T>)
    ensures (keep + p) + r + (s + landed) + (l + drop) == p + (r + (landed + (keep + drop))) + s + l
  {
  }

  lemma {:induction false} TakeMakesRows(s: State, keys: seq<Key>, at: int, final: bool, interval: int)
    requires Enabled(s, Take(keys, at, final), interval)
    ensures RowBag(Done(s, Take(keys, at, final), interval)) == RowBag(s) + multiset(Batches(s.open, keys))
  {
    var t := Done(s, Take(keys, at, final), interval);
    assert t.flights[..|t.flights| - 1] == s.flights;
  }

  lemma {:induction false} BatchesOnce(open: map<Key, seq<Point>>, keys: seq<Key>, b: Batch)
    requires Distinct(keys)
    ensures multiset(Batches(open, keys))[b] == if b.key in keys && b.points == PointsAt(open, b.key) then 1 else 0
    decreases |keys|
  {
    if keys != [] {
      var n := |keys| - 1;
      BatchesOnce(open, keys[..n], b);
      assert Batches(open, keys) == Batches(open, keys[..n]) + [Batch(keys[n], PointsAt(open, keys[n]))];
      assert keys == keys[..n] + [keys[n]] && keys[n] !in keys[..n];
    }
  }

  ghost predicate HasRow(bag: multiset<Batch>, k: Key) { exists b :: b in bag && b.key == k }

  /** At most one row of bucket k, of whatever points. */
  ghost predicate OneRow(bag: multiset<Batch>, k: Key) {
    forall b, c :: b in bag && c in bag && b.key == k && c.key == k ==> b == c && bag[b] == 1
  }

  /** A point arrives for bucket k when a row of it has been made. */
  ghost predicate Late(s: State, step: Step, k: Key, interval: int) {
    step.Add? && KeyOf(step.series, step.point, interval) == k && HasRow(RowBag(s), k)
  }

  ghost predicate NoneLate(steps: seq<Step>, k: Key, interval: int) {
    steps == [] || (var n := |steps| - 1;
                    NoneLate(steps[..n], k, interval) && !Late(Run(steps[..n], interval), steps[n], k, interval))
  }

  /** Bucket k has one row made of all its points, or one slot that holds them all, or none. */
  ghost predicate Tidy(open: map<Key, seq<Point>>, bag: multiset<Batch>, k: Key, all: multiset<Point>) {
    && OneRow(bag, k)
    && (forall b :: b in bag && b.key == k ==> multiset(b.points) == all)
    && (HasRow(bag, k) ==> k !in open)
    && (k in open ==> multiset(open[k]) == all)
    && (k !in open && !HasRow(bag, k) ==> all == multiset{})
  }

  lemma {:induction false} AddKeepsRows(s: State, step: Step, interval: int)
    requires step.Add?
    ensures RowBag(Apply(s, step, interval)) == RowBag(s)
  {
  }

  /** Rows are made of which none is of bucket k. */
  lemma {:induction false} TidyUntaken(open: map<Key, seq<Point>>, t: map<Key, seq<Point>>, bag: multiset<Batch>,
                                       made: multiset<Batch>, k: Key, all: multiset<Point>)
    requires Tidy(open, bag, k, all) && (forall b :: b in made ==> b.key != k)
    requires k in t <==> k in open
    requires k in open ==> t[k] == open[k]
    ensures Tidy(t, bag + made, k, all)
  {
    var sum := bag + made;
    forall b | b in sum && b.key == k ensures b in bag && sum[b] == bag[b] { assert b !in made; }
    if HasRow(bag, k) {
      var b :| b in bag && b.key == k;
      assert b in sum;
    }
  }

  /** Rows are made of which one is of bucket k, from its slot. */
  lemma {:induction false} TidyTaken(open: map<Key, seq<Point>>, t: map<Key, seq<Point>>, bag: multiset<Batch>,
                                     made: multiset<Batch>, k: Key, all: multiset<Point>)
    requires Tidy(open, bag, k, all) && k in open && k !in t
    requires made[Batch(k, open[k])] == 1 && forall b :: b in made && b.key == k ==> b == Batch(k, open[k])
    ensures Tidy(t, bag + made, k, all)
  {
    var sum, row := bag + made, Batch(k, open[k]);
    forall b | b in bag ensures b.key != k { assert b.key == k ==> HasRow(bag, k); }
    assert row !in bag && row in sum && sum[row] == 1;
    forall b | b in sum && b.key == k ensures b == row { assert b in made; }
  }

  lemma {:induction false} TidyTake(
      s: State, keys: seq<Key>, at: int, final: bool, interval: int, k: Key, all: multiset<Point>)
    requires Enabled(s, Take(keys, at, final), interval) && Tidy(s.open, RowBag(s), k, all)
    ensures var t := Done(s, Take(keys, at, final), interval); Tidy(t.open, RowBag(t), k, all)
  {
    hide RowBag, Batches, Tidy;
    var t := Done(s, Take(keys, at, final), interval);
    var made := multiset(Batches(s.open, keys));
    TakeMakesRows(s, keys, at, final, interval);
    forall b: Batch ensures made[b] == if b.key in keys && b.points == PointsAt(s.open, b.key) then 1 else 0 {
      BatchesOnce(s.open, keys, b);
    }
    if k in keys {
      TidyTaken(s.open, t.open, RowBag(s), made, k, all);
    } else {
      TidyUntaken(s.open, t.open, RowBag(s), made, k, all);
    }
  }

  lemma {:induction false} TidyStep(s: State, step: Step, interval: int, k: Key, all: multiset<Point>)
    requires Tidy(s.open, RowBag(s), k, all) && !Late(s, step, k, interval)
    ensures var t := Apply(s, step, interval);
            Tidy(t.open, RowBag(t), k,
                 all + if step.Add? && KeyOf(step.series, step.point, interval) == k then multiset{step.point}
                   else multiset{})
  {
    hide RowBag;
    match step
    case Add(series, p, _) => AddKeepsRows(s, step, interval);
    case Take(keys, at, final) =>
      if Enabled(s, step, interval) { TidyTake(s, keys, at, final, interval, k, all); }
    case Finish(i, landed, left) =>
      if Enabled(s, step, interval) { FinishKeepsRows(s, i, landed, left, interval); }
  }

  lemma {:induction false} TidyRun(steps: seq<Step>, interval: int, k: Key)
    requires NoneLate(steps, k, interval)
    ensures var s := Run(steps, interval); Tidy(s.open, RowBag(s), k, Added(steps, k, interval))
  {
    if steps == [] {
      assert RowBag(EMPTY) == multiset{};
    } else {
      hide Tidy, RowBag, Late, Apply;
      var n := |steps| - 1;
      TidyRun(steps[..n], interval, k);
      TidyStep(Run(steps[..n], interval), steps[n], interval, k, Added(steps[..n], k, interval));
    }
  }

  /** While no point of a bucket comes late, every row of the bucket is the same one, however
      often writing fails and whenever it was flushed, and it is folded from all its points. */
  lemma {:induction false} OneRowPerBucket(steps: seq<Step>, interval: int, b: Batch)
    requires NoneLate(steps, b.key, interval) && b in RowBag(Run(steps, interval))
    ensures var bag := RowBag(Run(steps, interval));
            bag[b] == 1 && forall c :: c in bag && c.key == b.key ==> c == b
    ensures multiset(b.points) == Added(steps, b.key, interval)
  {
    hide RowBag, Run;
    TidyRun(steps, interval, b.key);
  }

  // ----- exactly when a bucket gets two rows -----

  /** Stopped anywhere and flushed, the run leaves at most one row of bucket k. */
  ghost predicate OneRowFlushed(steps: seq<Step>, k: Key, interval: int) {
    forall n: nat, keys: seq<Key>, at: int ::
      n <= |steps| && Enabled(Run(steps[..n], interval), Take(keys, at, true), interval) ==>
        OneRow(RowBag(Run(steps[..n] + [Take(keys, at, true)], interval)), k)
  }

  lemma {:induction false} RunMore(steps: seq<Step>, step: Step, interval: int)
    ensures Run(steps + [step], interval) == Apply(Run(steps, interval), step, interval)
  {
    hide Apply;
    assert (steps + [step])[..|steps|] == steps;
  }

  lemma {:induction false} NoneLateMore(steps: seq<Step>, step: Step, k: Key, interval: int)
    ensures NoneLate(steps + [step], k, interval) <==>
              NoneLate(steps, k, interval) && !Late(Run(steps, interval), step, k, interval)
  {
    hide Late, Run;
    assert (steps + [step])[..|steps|] == steps;
  }

  lemma {:induction false} NoneLatePrefix(steps: seq<Step>, n: nat, k: Key, interval: int)
    requires NoneLate(steps, k, interval) && n <= |steps|
    ensures NoneLate(steps[..n], k, interval)
  {
    hide Late, Run;
    if n == |steps| {
      assert steps[..n] == steps;
    } else {
      var front := steps[..|steps| - 1];
      assert front[..n] == steps[..n];
      NoneLatePrefix(front, n, k, interval);
    }
  }

  lemma {:induction false} FirstLate(steps: seq<Step>, k: Key, interval: int) returns (n: nat)
    requires !NoneLate(steps, k, interval)
    ensures n < |steps| && Late(Run(steps[..n], interval), steps[n], k, interval)
  {
    hide Late, Run;
    var front := steps[..|steps| - 1];
    if NoneLate(front, k, interval) {
      n := |steps| - 1;
    } else {
      n := FirstLate(front, k, interval);
      assert front[..n] == steps[..n];
    }
  }

  /** A flush can take all slots in some order. */
  lemma {:induction false} AllKeys(open: set<Key>) returns (keys: seq<Key>)
    ensures Distinct(keys)
    ensures forall k :: k in keys <==> k in open
  {
    if open == {} { return []; }
    var k :| k in open;
    var rest := AllKeys(open - {k});
    keys := rest + [k];
    assert forall i :: 0 <= i < |rest| ==> keys[i] == rest[i] && rest[i] in open - {k};
    assert forall j :: j in open && j != k ==> j in open - {k};
  }

  lemma {:induction false} LateMakesTwo(s: State, step: Step, k: Key, interval: int, keys: seq<Key>, at: int)
    requires Late(s, step, k, interval) && Enabled(Apply(s, step, interval), Take(keys, at, true), interval)
    ensures !OneRow(RowBag(Apply(Apply(s, step, interval), Take(keys, at, true), interval)), k)
  {
    hide RowBag, Batches, Held;
    var t := Apply(s, step, interval);
    AddKeepsRows(s, step, interval);
    TakeMakesRows(t, keys, at, true, interval);
    assert k in t.open && k in keys;
    var b :| b in RowBag(s) && b.key == k;
    var c := Batch(k, t.open[k]);
    BatchesOnce(t.open, keys, c);
    var bag := RowBag(t) + multiset(Batches(t.open, keys));
    assert b in bag && c in bag && (b == c ==> bag[b] > 1);
  }

  /** A bucket gets a second row, or can, exactly when a point of it arrived late. */
  lemma {:induction false} TwoRowsExactlyWhen(steps: seq<Step>, k: Key, interval: int)
    ensures NoneLate(steps, k, interval) <==> OneRowFlushed(steps, k, interval)
  {
    hide Run, RowBag, OneRow, Apply, Enabled;
    if NoneLate(steps, k, interval) {
      forall n: nat, keys: seq<Key>, at: int
        | n <= |steps| && Enabled(Run(steps[..n], interval), Take(keys, at, true), interval)
        ensures OneRow(RowBag(Run(steps[..n] + [Take(keys, at, true)], interval)), k)
      {
        NoneLatePrefix(steps, n, k, interval);
        NoneLateMore(steps[..n], Take(keys, at, true), k, interval);
        TidyRun(steps[..n] + [Take(keys, at, true)], interval, k);
      }
    } else {
      var n := FirstLate(steps, k, interval);
      var t := Run(steps[..n + 1], interval);
      assert steps[..n + 1] == steps[..n] + [steps[n]];
      RunMore(steps[..n], steps[n], interval);
      var keys := AllKeys(t.open.Keys);
      FlushEnabled(t, keys, interval);
      LateMakesTwo(Run(steps[..n], interval), steps[n], k, interval, keys, 0);
      RunMore(steps[..n + 1], Take(keys, 0, true), interval);
    }
  }

  lemma {:induction false} FlushEnabled(s: State, keys: seq<Key>, interval: int)
    requires Distinct(keys)
    requires forall k :: k in keys <==> k in s.open.Keys
    ensures Enabled(s, Take(keys, 0, true), interval)
  {
  }

  // ----- points that are on time are never late -----

  ghost predicate Before(steps: seq<Step>, now: int) {
    forall i :: 0 <= i < |steps| && !steps[i].Finish? ==> steps[i].at <= now
  }

  ghost predicate Shut(steps: seq<Step>) { exists i :: 0 <= i < |steps| && steps[i].Take? && steps[i].final }

  /** The clock never goes back, and every point arrives before the window of its bucket ends
      and before the flush at shutdown. */
  ghost predicate OnTime(steps: seq<Step>, interval: int) {
    if steps == [] then true
    else
      var n := |steps| - 1;
      && OnTime(steps[..n], interval)
      && match steps[n]
         case Add(series, p, at) =>
           Before(steps[..n], at) && !Closed(KeyOf(series, p, interval), at, interval) && !Shut(steps[..n])
         case Take(_, at, _) => Before(steps[..n], at)
         case Finish(_, _, _) => true
  }

  lemma {:induction false} RowsAreClosed(steps: seq<Step>, interval: int, now: int, b: Batch)
    requires OnTime(steps, interval) && Before(steps, now) && b in RowBag(Run(steps, interval))
    ensures Closed(b.key, now, interval) || Shut(steps)
  {
    assert RowBag(EMPTY) == multiset{};
    if steps != [] {
      hide RowBag, Batches;
      var n := |steps| - 1;
      var front, s := steps[..n], Run(steps[..n], interval);
      assert forall i :: 0 <= i < n ==> front[i] == steps[i];
      assert Shut(front) ==> Shut(steps);
      match steps[n]
      case Add(_, _, at) =>
        AddKeepsRows(s, steps[n], interval);
        RowsAreClosed(front, interval, at, b);
      case Take(keys, at, final) =>
        if Enabled(s, steps[n], interval) {
          TakeMakesRows(s, keys, at, final, interval);
          BatchesOnce(s.open, keys, b);
        }
        if b in RowBag(s) { RowsAreClosed(front, interval, at, b); }
      case Finish(i, landed, left) =>
        if Enabled(s, steps[n], interval) { FinishKeepsRows(s, i, landed, left, interval); }
        RowsAreClosed(front, interval, now, b);
    }
  }

  lemma {:induction false} OnTimeIsNotLate(steps: seq<Step>, k: Key, interval: int)
    requires OnTime(steps, interval)
    ensures NoneLate(steps, k, interval)
  {
    hide RowBag, Run;
    if steps != [] {
      var n := |steps| - 1;
      OnTimeIsNotLate(steps[..n], k, interval);
      if Late(Run(steps[..n], interval), steps[n], k, interval) {
        var b :| b in RowBag(Run(steps[..n], interval)) && b.key == k;
        RowsAreClosed(steps[..n], interval, steps[n].at, b);
        assert false;
      }
    }
  }
}
