/** A metric read that takes old buckets from the hour tier and the newest from the
    5-minute tier (internal/api/metrics_tail.go). Times are nanoseconds. */
module TierTail {
  import opened Options
  import opened Buckets

  const FIVE: int := 300_000_000_000
  const HOUR: int := 3_600_000_000_000
  const TAIL_WIDTH: int := 6 * HOUR

  /** A stored bucket of one series. step is 0 until the reader names the tier it came from. */
  datatype Row = Row(start: int, step: int, series: string)

  datatype Filter = Filter(from: int, to: int, limit: int)

  // ----- the store -----

  /** Rows a query may return: a limit out of range means ten thousand. */
  function RowLimit(limit: int): nat { if limit <= 0 || limit > 50000 then 10000 else limit }

  function Between(rows: seq<Row>, from: int, to: int): seq<Row> {
    if rows == [] then []
    else
      var last := rows[|rows| - 1];
      Between(rows[..|rows| - 1], from, to) + if from <= last.start <= to then [last] else []
  }

  function Newest(rows: seq<Row>, n: nat): seq<Row> { if |rows| <= n then rows else rows[|rows| - n..] }

  /** The rows that start within the filter, oldest first, the newest of them under the limit. */
  function Query(tier: seq<Row>, f: Filter): seq<Row> { Newest(Between(tier, f.from, f.to), RowLimit(f.limit)) }

  function Tagged(rows: seq<Row>, step: int): seq<Row> {
    seq(|rows|, i requires 0 <= i < |rows| => rows[i].(step := step))
  }

  // ----- the read -----

  function TailStart(to: int, through: Option<int>, from: int): int {
    var wide := to - TAIL_WIDTH;
    var hour := Truncate(wide, HOUR);
    var bounded := if hour < wide then hour + HOUR else wide;
    var start := if through.Some? && through.value > bounded then through.value else bounded;
    var first := Truncate(from, FIVE);
    if first > start then first else start
  }

  /** The rows of both tiers. fine and hours are the tiers; through is the watermark up to
      which the hour tier is complete, if there is one. */
  function HourTierWithTail(fine: seq<Row>, hours: seq<Row>, f: Filter, through: Option<int>, from: int): seq<Row> {
    var tailFrom := TailStart(f.to, through, from);
    if tailFrom < f.to then
      var tail := Tagged(Query(fine, f.(from := tailFrom)), FIVE);
      if f.limit > 0 && |tail| >= f.limit then tail
      else
        var hf := f.(to := tailFrom - HOUR, limit := if f.limit > 0 then f.limit - |tail| else f.limit);
        if hf.to < hf.from then tail else Tagged(Query(hours, hf), HOUR) + tail
    else Tagged(Query(hours, f), HOUR)
  }

  // ----- which buckets are read from which tier -----

  /** The 5-minute bucket starting at x is read from the 5-minute tier. */
  predicate InTail(x: int, f: Filter, through: Option<int>, from: int) {
    TailStart(f.to, through, from) < f.to && TailStart(f.to, through, from) <= x <= f.to
  }

  /** The hour starting at h is read from the hour tier. */
  predicate InHours(h: int, f: Filter, through: Option<int>, from: int) {
    var tailFrom := TailStart(f.to, through, from);
    f.from <= h <= if tailFrom < f.to then tailFrom - HOUR else f.to
  }

  predicate OnHour(t: int) { (t + ZERO_TIME) % HOUR == 0 }

  predicate OnFive(t: int) { (t + ZERO_TIME) % FIVE == 0 }

  /** The hour tier holds every row of the hour starting at h. */
  predicate Compacted(h: int, through: Option<int>) { through.Some? && h + HOUR <= through.value }

  lemma {:induction false} HourIsFives(t: int)
    ensures Truncate(t, HOUR) <= Truncate(t, FIVE)
  {
    var x := t + ZERO_TIME;
    var r := x % HOUR;
    Divides(x, FIVE, 12 * (x / HOUR) + r / FIVE, r % FIVE);
  }

  lemma {:induction false} HoursApart(a: int, b: int)
    requires OnHour(a) && OnHour(b) && a < b
    ensures a + HOUR <= b
  {
  }

  lemma {:induction false} HoursInOrder(a: int, b: int)
    requires a <= b
    ensures Truncate(a, HOUR) <= Truncate(b, HOUR)
  {
    if Truncate(b, HOUR) < Truncate(a, HOUR) { HoursApart(Truncate(b, HOUR), Truncate(a, HOUR)); }
  }

  lemma {:induction false} TailStartAligned(to: int, through: Option<int>, from: int)
    requires through.Some? ==> OnHour(through.value)
    ensures var start := TailStart(to, through, from); OnHour(start) || start == Truncate(from, FIVE)
    ensures TailStart(to, through, from) >= Truncate(from, FIVE)
    ensures through.Some? ==> TailStart(to, through, from) >= through.value
  {
    var wide := to - TAIL_WIDTH;
    assert Truncate(wide, HOUR) == wide ==> OnHour(wide);
    assert OnHour(Truncate(wide, HOUR) + HOUR);
  }

  /** No instant is read from both tiers. */
  lemma {:induction false} ReadOnce(x: int, h: int, f: Filter, through: Option<int>, from: int)
    requires InTail(x, f, through, from) && InHours(h, f, through, from)
    ensures h + HOUR <= x
  {
  }

  /** Every 5-minute bucket from the one holding from up to the end is read from one tier. */
  lemma {:induction false} ReadSomewhere(x: int, f: Filter, through: Option<int>, from: int)
    requires f.from == Truncate(from, HOUR) && (through.Some? ==> OnHour(through.value))
    requires OnFive(x) && Truncate(from, FIVE) <= x <= f.to
    ensures InTail(x, f, through, from) || InHours(Truncate(x, HOUR), f, through, from)
  {
    TailStartAligned(f.to, through, from);
    var start := TailStart(f.to, through, from);
    HourIsFives(from);
    HoursInOrder(Truncate(from, FIVE), x);
    HoursInOrder(f.from, Truncate(from, FIVE));
    if start < f.to && x < start {
      HoursApart(Truncate(x, HOUR), start);
    }
  }

  /** A bucket whose rows the read can return: from the 5-minute tier, or from an hour the
      hour tier holds in full. */
  predicate Served(x: int, f: Filter, through: Option<int>, from: int) {
    || InTail(x, f, through, from)
    || (InHours(Truncate(x, HOUR), f, through, from) && Compacted(Truncate(x, HOUR), through))
  }

  /** A bucket is left out exactly when its hour is not compacted and it lies before the tail,
      or there is no tail. */
  lemma {:induction false} LeftOutExactlyWhen(x: int, f: Filter, through: Option<int>, from: int)
    requires f.from == Truncate(from, HOUR) && (through.Some? ==> OnHour(through.value))
    requires OnFive(x) && Truncate(from, FIVE) <= x <= f.to
    ensures var start := TailStart(f.to, through, from);
            Served(x, f, through, from) <==> Compacted(Truncate(x, HOUR), through) || (start <= x && start < f.to)
  {
    ReadSomewhere(x, f, through, from);
    TailStartAligned(f.to, through, from);
    var start := TailStart(f.to, through, from);
    if Compacted(Truncate(x, HOUR), through) && !InTail(x, f, through, from) {
      assert InHours(Truncate(x, HOUR), f, through, from);
    }
  }

  /** A compactor that is less than six hours behind and has not passed the end of the range
      leaves nothing out. */
  lemma {:induction false} NothingLeftOut(x: int, f: Filter, through: int, from: int)
    requires f.from == Truncate(from, HOUR) && OnHour(through) && f.to - TAIL_WIDTH <= through < f.to && from < f.to
    requires OnFive(x) && Truncate(from, FIVE) <= x <= f.to
    ensures Served(x, f, Some(through), from)
  {
    LeftOutExactlyWhen(x, f, Some(through), from);
    var start := TailStart(f.to, Some(through), from);
    var wide := f.to - TAIL_WIDTH;
    if Truncate(wide, HOUR) < wide {
      assert OnHour(Truncate(wide, HOUR));
      HoursApart(Truncate(wide, HOUR), through);
    }
    assert start == through || start == Truncate(from, FIVE);
    if x < start {
      assert start == through;
      HoursApart(Truncate(x, HOUR), through);
    }
  }

  /** A watermark at the end of the range leaves out the bucket that starts there. */
  lemma {:induction false} WatermarkAtEnd(f: Filter, from: int)
    requires f.from == Truncate(from, HOUR) && OnHour(f.to) && from <= f.to
    ensures OnFive(f.to) && Truncate(from, FIVE) <= f.to && !Served(f.to, f, Some(f.to), from)
  {
    OnHourOnFive(f.to);
    LeftOutExactlyWhen(f.to, f, Some(f.to), from);
  }

  lemma {:induction false} OnHourOnFive(t: int)
    requires OnHour(t)
    ensures OnFive(t)
  {
    var x := t + ZERO_TIME;
    Divides(x, FIVE, 12 * (x / HOUR), 0);
  }

  // ----- the limit -----

  /** The hour rows and the 5-minute rows of the read, without a limit. */
  function HourRows(hours: seq<Row>, f: Filter, through: Option<int>, from: int): seq<Row> {
    var start := TailStart(f.to, through, from);
    Tagged(Between(hours, f.from, if start < f.to then start - HOUR else f.to), HOUR)
  }

  function TailRows(fine: seq<Row>, f: Filter, through: Option<int>, from: int): seq<Row> {
    var start := TailStart(f.to, through, from);
    if start < f.to then Tagged(Between(fine, start, f.to), FIVE) else []
  }

  lemma {:induction false} NothingBetween(rows: seq<Row>, from: int, to: int)
    requires to < from
    ensures Between(rows, from, to) == []
  {
    if rows != [] { NothingBetween(rows[..|rows| - 1], from, to); }
  }

  lemma {:induction false} TaggedNewest(rows: seq<Row>, n: nat, step: int)
    ensures Tagged(Newest(rows, n), step) == Newest(Tagged(rows, step), n)
  {
  }

  lemma {:induction false} NewestTwo(a: seq<Row>, b: seq<Row>, n: nat)
    ensures |b| >= n ==> Newest(a + b, n) == Newest(b, n)
    ensures |b| <= n ==> Newest(a + b, n) == Newest(a, n - |b|) + b
  {
  }

  /** Reading the tail first and giving the hours what is left of the limit returns the
      newest rows of both tiers together. */
  lemma {:induction false} NewestOfBoth(fine: seq<Row>, hours: seq<Row>, f: Filter, through: Option<int>, from: int)
    requires 1 <= f.limit <= 50000
    ensures HourTierWithTail(fine, hours, f, through, from)
         == Newest(HourRows(hours, f, through, from) + TailRows(fine, f, through, from), f.limit)
  {
    hide Between, Newest, Tagged, TailStart;
    var start := TailStart(f.to, through, from);
    var h, t := HourRows(hours, f, through, from), TailRows(fine, f, through, from);
    NewestTwo(h, t, f.limit);
    if start < f.to {
      var tail := Tagged(Query(fine, f.(from := start)), FIVE);
      TaggedNewest(Between(fine, start, f.to), f.limit, FIVE);
      NewestLength(t, f.limit);
      if |tail| < f.limit {
        TaggedNewest(Between(hours, f.from, start - HOUR), f.limit - |tail|, HOUR);
        if start - HOUR < f.from {
          NothingBetween(hours, f.from, start - HOUR);
          NoRows(f.limit - |tail|);
          assert [] + tail == tail;
        }
      }
    } else {
      TaggedNewest(Between(hours, f.from, f.to), f.limit, HOUR);
      assert h + [] == h;
    }
  }

  lemma {:induction false} NewestLength(rows: seq<Row>, n: nat)
    ensures |Newest(rows, n)| == if |rows| <= n then |rows| else n
    ensures |rows| <= n ==> Newest(rows, n) == rows
  {
  }

  lemma {:induction false} NoRows(n: nat)
    ensures Newest(Tagged([], HOUR), n) == [] && Tagged([], HOUR) == []
  {
  }

  /** With a limit out of range each tier is cut at ten thousand rows on its own: there is a
      hole between the tiers exactly when the tail was cut and hours were read. */
  lemma {:induction false} HoleExactlyWhen(fine: seq<Row>, hours: seq<Row>, f: Filter, through: Option<int>, from: int)
    requires f.limit <= 0 || f.limit > 50000
    ensures var r := HourTierWithTail(fine, hours, f, through, from);
            var h, t := HourRows(hours, f, through, from), TailRows(fine, f, through, from);
            r == Newest(h + t, |r|) <==> |t| <= 10000 || h == []
  {
    hide Between, TailStart, Newest, Tagged, HourTierWithTail;
    var h, t := HourRows(hours, f, through, from), TailRows(fine, f, through, from);
    var left := CutApart(fine, hours, f, through, from);
    TagsStay(Between(hours, f.from,
      if TailStart(f.to, through, from) < f.to then TailStart(f.to, through, from) - HOUR else f.to), HOUR);
    if TailStart(f.to, through, from) < f.to { TagsStay(Between(fine, TailStart(f.to, through, from), f.to), FIVE); }
    HoleBetween(h, t, left, 10000);
  }

  lemma {:induction false} TagsStay(rows: seq<Row>, step: int)
    ensures forall i :: 0 <= i < |Tagged(rows, step)| ==> Tagged(rows, step)[i].step == step
  {
  }

  lemma {:induction false} CutApart(fine: seq<Row>, hours: seq<Row>, f: Filter, through: Option<int>, from: int)
    returns (left: nat)
    requires f.limit <= 0 || f.limit > 50000
    ensures left > 0
    ensures HourTierWithTail(fine, hours, f, through, from)
         == Newest(HourRows(hours, f, through, from), left) + Newest(TailRows(fine, f, through, from), 10000)
  {
    hide Between, TailStart, Newest, Tagged;
    var start := TailStart(f.to, through, from);
    var h, t := HourRows(hours, f, through, from), TailRows(fine, f, through, from);
    NewestLength(t, 10000);
    if start < f.to {
      TaggedNewest(Between(fine, start, f.to), 10000, FIVE);
      left := RowLimit(if f.limit > 0 then f.limit - |Newest(t, 10000)| else f.limit);
      TaggedNewest(Between(hours, f.from, start - HOUR), left, HOUR);
      if start - HOUR < f.from {
        NothingBetween(hours, f.from, start - HOUR);
        NoRows(left);
        assert [] + Newest(t, 10000) == Newest(t, 10000);
      }
    } else {
      left := 10000;
      TaggedNewest(Between(hours, f.from, f.to), 10000, HOUR);
      assert Newest(h, 10000) + [] == Newest(h, 10000);
    }
  }

  lemma {:induction false} NewestAgain(rows: seq<Row>, n: nat)
    ensures Newest(rows, |Newest(rows, n)|) == Newest(rows, n)
  {
  }

  lemma {:induction false} HoleBetween(h: seq<Row>, t: seq<Row>, m: nat, n: nat)
    requires m > 0 && (forall i :: 0 <= i < |h| ==> h[i].step == HOUR)
             && (forall i :: 0 <= i < |t| ==> t[i].step == FIVE)
    ensures var r := Newest(h, m) + Newest(t, n); r == Newest(h + t, |r|) <==> |t| <= n || h == []
  {
    if h == [] {
      assert h + t == t && Newest(h, m) + Newest(t, n) == Newest(t, n);
    } else if |t| > n {
      HoleThere(h, t, m, n);
    } else {
      NoHole(h, t, m, n);
    }
  }

  lemma {:induction false} NoHole(h: seq<Row>, t: seq<Row>, m: nat, n: nat)
    requires |t| <= n
    ensures var r := Newest(h, m) + Newest(t, n); r == Newest(h + t, |r|)
  {
    hide Newest;
    NewestLength(h, m);
    NewestLength(t, n);
    NewestTwo(h, t, |Newest(h, m) + Newest(t, n)|);
    NewestAgain(h, m);
  }

  lemma {:induction false} HoleThere(h: seq<Row>, t: seq<Row>, m: nat, n: nat)
    requires m > 0 && h != [] && |t| > n && h[|h| - 1].step != t[|t| - n - 1].step
    ensures var r := Newest(h, m) + Newest(t, n); r != Newest(h + t, |r|)
  {
    var r := Newest(h, m) + Newest(t, n);
    var last := |Newest(h, m)| - 1;
    assert r[last] == h[|h| - 1];
    assert Newest(h + t, |r|) == (h + t)[|h| + |t| - |r|..];
    assert |h| + |t| - |r| + last == |h| + (|t| - n - 1);
    assert (h + t)[|h| + (|t| - n - 1)] == t[|t| - n - 1];
  }

  lemma {:induction false} AllBetween(rows: seq<Row>, from: int, to: int)
    requires forall i :: 0 <= i < |rows| ==> from <= rows[i].start <= to
    ensures Between(rows, from, to) == rows
  {
    if rows != [] {
      AllBetween(rows[..|rows| - 1], from, to);
      assert rows == rows[..|rows| - 1] + [rows[|rows| - 1]];
    }
  }

  /** One row of each of n series, all of one bucket. */
  function OneBucket(start: int, n: nat): (rows: seq<Row>)
    ensures |rows| == n && forall i :: 0 <= i < n ==> rows[i].start == start
  {
    seq(n, i requires 0 <= i < n => Row(start, 0, seq(i, _ => 'a')))
  }

  /** A read without a limit over 10001 series and an older hour: the hour's row is returned,
      and the first row of the newer bucket is not. */
  lemma {:induction false} HoleSeen(hour: Row)
    requires hour.start == 0
    ensures var rows, f := OneBucket(2 * HOUR, 10001), Filter(0, 7 * HOUR, 0);
            var r := HourTierWithTail(rows, [hour], f, None, 0);
            && r == Tagged([hour], HOUR) + Tagged(rows[1..], FIVE)
            && r != Newest(HourRows([hour], f, None, 0) + TailRows(rows, f, None, 0), |r|)
  {
    hide Between, HourTierWithTail, OneBucket;
    var rows, f := OneBucket(2 * HOUR, 10001), Filter(0, 7 * HOUR, 0);
    assert TailStart(f.to, None, 0) == HOUR;
    AllBetween(rows, HOUR, f.to);
    AllBetween([hour], 0, 0);
    HoleExactlyWhen(rows, [hour], f, None, 0);
    var left := CutApart(rows, [hour], f, None, 0);
    assert Newest(Tagged([hour], HOUR), left) == Tagged([hour], HOUR);
    assert Newest(Tagged(rows, FIVE), 10000) == Tagged(rows[1..], FIVE);
  }
}
