/** Counting service-level buckets tick by tick, resuming after failures
    (internal/alert/slo_eval_counts.go). Times are nanoseconds. */
module SloCounts {
  import opened Options
  import opened Buckets

  const MINUTE: int := 60_000_000_000
  const INGEST_LAG: int := 30_000_000_000
  const MAX_CATCH_UP: int := 60

  datatype Count = Count(bucket: int, good: int, total: int)

  /** The good and total estimates of the spans of a bucket, or none when reading them failed
      or the tick was cancelled. */
  type Reader = int -> Option<(int, int)>

  /** The end of the newest bucket that is safe to count. */
  function CloseBefore(now: int): int { Truncate(now - INGEST_LAG, MINUTE) }

  function Floor(closeBefore: int): int { closeBefore - MAX_CATCH_UP * MINUTE }

  function CountStart(latest: Option<int>, closeBefore: int): int {
    if latest.Some? && latest.value + MINUTE > Floor(closeBefore) then latest.value + MINUTE else Floor(closeBefore)
  }

  /** Good is never more than total. */
  function CountOf(b: int, estimate: (int, int)): Count {
    Count(b, if estimate.0 > estimate.1 then estimate.1 else estimate.0, estimate.1)
  }

  /** The counts from b on, up to the end or the first bucket that fails. */
  function Counted(read: Reader, b: int, end: int): seq<Count>
    decreases end - b
  {
    if b >= end then []
    else match read(b)
      case None => []
      case Some(e) => [CountOf(b, e)] + Counted(read, b + MINUTE, end)
  }

  /** The loop of one tick: what it is going to store. */
  method CountBuckets(latest: Option<int>, now: int, read: Reader) returns (counts: seq<Count>)
    ensures counts == Counted(read, CountStart(latest, CloseBefore(now)), CloseBefore(now))
  {
    hide Counted, CountOf, CountStart, CloseBefore;
    counts := [];
    var end := CloseBefore(now);
    var b := CountStart(latest, end);
    var going := true;
    ghost var all := Counted(read, b, end);
    assert [] + all == all;
    while b < end && going
      invariant counts + (if going then Counted(read, b, end) else []) == all
      decreases going, end - b
    {
      CountedStep(counts, read, b, end);
      var e := read(b);
      if e.None? {
        going := false;
      } else {
        counts := counts + [CountOf(b, e.value)];
        b := b + MINUTE;
      }
    }
    CountedEnd(counts, read, b, end);
  }

  lemma {:induction false} CountedStep(counts: seq<Count>, read: Reader, b: int, end: int)
    requires b < end
    ensures read(b).None? ==> counts + Counted(read, b, end) == counts + []
    ensures read(b).Some? ==>
              counts + Counted(read, b, end) == counts + [CountOf(b, read(b).value)] + Counted(read, b + MINUTE, end)
  {
    if read(b).Some? {
      var c, rest := CountOf(b, read(b).value), Counted(read, b + MINUTE, end);
      assert counts + ([c] + rest) == counts + [c] + rest;
    }
  }

  lemma {:induction false} CountedEnd(counts: seq<Count>, read: Reader, b: int, end: int)
    ensures b >= end ==> counts + Counted(read, b, end) == counts
    ensures counts + [] == counts
  {
  }

  // ----- runs -----

  /** One tick: its time, what reading gives, and whether the insert succeeded. */
  datatype Tick = Tick(now: int, read: Reader, inserted: bool)

  /** The newest stored bucket. */
  function Latest(log: seq<Count>): Option<int> {
    if log == [] then None
    else
      var before := Latest(log[..|log| - 1]);
      var b := log[|log| - 1].bucket;
      if before.Some? && before.value > b then before else Some(b)
  }

  function Stored(log: seq<Count>, t: Tick): seq<Count> {
    if t.inserted then Counted(t.read, CountStart(Latest(log), CloseBefore(t.now)), CloseBefore(t.now)) else []
  }

  /** Everything inserted, in order. */
  ghost function Log(ticks: seq<Tick>): seq<Count> {
    if ticks == [] then []
    else var before := Log(ticks[..|ticks| - 1]); before + Stored(before, ticks[|ticks| - 1])
  }

  predicate OnMinute(b: int) { (b + ZERO_TIME) % MINUTE == 0 }

  /** Buckets are inserted in order, so none twice. */
  ghost predicate Ascending(log: seq<Count>) {
    forall i, j :: 0 <= i < j < |log| ==> log[i].bucket < log[j].bucket
  }

  ghost predicate WellCounted(log: seq<Count>) {
    forall i :: 0 <= i < |log| ==> OnMinute(log[i].bucket) && log[i].good <= log[i].total
  }

  /** Consecutive minutes from the first bucket on. */
  ghost predicate Gapless(log: seq<Count>) {
    forall i :: 0 <= i < |log| ==> log[i].bucket == log[0].bucket + i * MINUTE
  }

  /** Consecutive minutes from b on, all before the end, with good at most total. */
  ghost predicate Stretch(c: seq<Count>, b: int, end: int) {
    forall i :: 0 <= i < |c| ==> c[i].bucket == b + i * MINUTE && c[i].bucket < end && c[i].good <= c[i].total
  }

  lemma {:induction false} CountedShape(read: Reader, b: int, end: int)
    ensures Stretch(Counted(read, b, end), b, end)
    decreases end - b
  {
    if b < end && read(b).Some? {
      CountedShape(read, b + MINUTE, end);
      var rest := Counted(read, b + MINUTE, end);
      var c := Counted(read, b, end);
      assert c == [CountOf(b, read(b).value)] + rest;
      forall i | 0 <= i < |c| ensures c[i].bucket == b + i * MINUTE && c[i].bucket < end && c[i].good <= c[i].total {
        if i > 0 { assert c[i] == rest[i - 1]; }
      }
    }
  }

  lemma {:induction false} LatestIsLast(log: seq<Count>)
    requires Ascending(log)
    ensures Latest(log) == if log == [] then None else Some(log[|log| - 1].bucket)
  {
    if log != [] { LatestIsLast(log[..|log| - 1]); }
  }

  lemma {:induction false} MinutesStay(b: int, i: int)
    requires OnMinute(b)
    ensures OnMinute(b + i * MINUTE)
  {
  }

  lemma {:induction false} StartIsAhead(latest: Option<int>, now: int)
    requires latest.Some? ==> OnMinute(latest.value)
    ensures var start := CountStart(latest, CloseBefore(now));
            OnMinute(start) && start >= Floor(CloseBefore(now)) && (latest.Some? ==> start > latest.value)
  {
    MinutesStay(CloseBefore(now), -MAX_CATCH_UP);
    if latest.Some? { MinutesStay(latest.value, 1); }
  }

  /** Over every run of ticks, with failures anywhere: no bucket is counted twice, buckets are
      whole minutes, and good is at most total. */
  lemma {:induction false} CountedOnce(ticks: seq<Tick>)
    ensures Ascending(Log(ticks)) && WellCounted(Log(ticks))
  {
    if ticks != [] {
      var n := |ticks| - 1;
      CountedOnce(ticks[..n]);
      StoredFits(Log(ticks[..n]), ticks[n]);
    }
  }

  lemma {:induction false} StoredFits(log: seq<Count>, t: Tick)
    requires Ascending(log) && WellCounted(log)
    ensures Ascending(log + Stored(log, t)) && WellCounted(log + Stored(log, t))
  {
    LatestIsLast(log);
    var start, end := CountStart(Latest(log), CloseBefore(t.now)), CloseBefore(t.now);
    var c := Stored(log, t);
    StartIsAhead(Latest(log), t.now);
    CountedShape(t.read, start, end);
    forall i | 0 <= i < |c| ensures OnMinute(c[i].bucket) { MinutesStay(start, i); }
    forall i, j | 0 <= i < |log| && 0 <= j < |c| ensures log[i].bucket < c[j].bucket {}
  }

  /** A tick stores at most sixty buckets, all of them closed for longer than the ingest lag. */
  lemma {:induction false} TickIsBounded(log: seq<Count>, t: Tick)
    requires Ascending(log) && WellCounted(log)
    ensures |Stored(log, t)| <= MAX_CATCH_UP
    ensures forall i :: 0 <= i < |Stored(log, t)| ==> Stored(log, t)[i].bucket + MINUTE + INGEST_LAG <= t.now
  {
    LatestIsLast(log);
    var start, end := CountStart(Latest(log), CloseBefore(t.now)), CloseBefore(t.now);
    var c := Stored(log, t);
    StartIsAhead(Latest(log), t.now);
    CountedShape(t.read, start, end);
    if |c| > 0 { assert c[|c| - 1].bucket == start + (|c| - 1) * MINUTE; }
    forall i | 0 <= i < |c| ensures c[i].bucket + MINUTE + INGEST_LAG <= t.now {
      MinutesStay(start, i);
      MinutesApart(c[i].bucket, end);
    }
  }

  lemma {:induction false} MinutesApart(a: int, b: int)
    requires OnMinute(a) && OnMinute(b) && a < b
    ensures a + MINUTE <= b
  {
  }

  /** Counting has fallen more than sixty buckets behind. */
  predicate Behind(log: seq<Count>, now: int) {
    Latest(log).Some? && Latest(log).value + MINUTE < Floor(CloseBefore(now))
  }

  /** A tick that finds counting behind, reads the oldest bucket it still goes back to, and
      stores it: what lies before that bucket is never counted. */
  predicate Skips(log: seq<Count>, t: Tick) {
    t.inserted && Behind(log, t.now) && t.read(Floor(CloseBefore(t.now))).Some?
  }

  /** The tick leaves a hole exactly then. */
  lemma {:induction false} HoleExactlyWhen(log: seq<Count>, t: Tick)
    requires Ascending(log) && WellCounted(log) && Gapless(log)
    ensures Gapless(log + Stored(log, t)) <==> !Skips(log, t)
  {
    LatestIsLast(log);
    var start, end := CountStart(Latest(log), CloseBefore(t.now)), CloseBefore(t.now);
    var c := Stored(log, t);
    var all := log + c;
    CountedShape(t.read, start, end);
    if log == [] {
      assert all == c;
    } else if c == [] {
      assert all == log;
    } else if Behind(log, t.now) {
      assert all[|log|] == c[0] && all[|log| - 1] == log[|log| - 1];
      assert log[|log| - 1].bucket == log[0].bucket + (|log| - 1) * MINUTE;
    } else {
      forall i | 0 <= i < |all| ensures all[i].bucket == all[0].bucket + i * MINUTE {
        assert log[|log| - 1].bucket == log[0].bucket + (|log| - 1) * MINUTE;
        if i >= |log| { assert all[i] == c[i - |log|]; }
      }
    }
  }

  ghost predicate NoneSkips(ticks: seq<Tick>) {
    forall i :: 0 <= i < |ticks| ==> !Skips(Log(ticks[..i]), ticks[i])
  }

  lemma {:induction false} NoneSkipsMore(ticks: seq<Tick>)
    requires ticks != []
    ensures var front := ticks[..|ticks| - 1];
            NoneSkips(ticks) <==> NoneSkips(front) && !Skips(Log(front), ticks[|ticks| - 1])
  {
    hide Skips, Log;
    var front := ticks[..|ticks| - 1];
    assert forall i :: 0 <= i < |front| ==> front[..i] == ticks[..i] && front[i] == ticks[i];
  }

  lemma {:induction false} GaplessFront(log: seq<Count>, more: seq<Count>)
    requires Gapless(log + more)
    ensures Gapless(log)
  {
    assert forall i :: 0 <= i < |log| ==> log[i] == (log + more)[i];
  }

  /** The stored series has a hole exactly when some tick of the run skipped. */
  lemma {:induction false} NoHolesExactlyWhen(ticks: seq<Tick>)
    ensures Gapless(Log(ticks)) <==> NoneSkips(ticks)
  {
    hide Skips, Stored;
    if ticks != [] {
      hide Gapless, NoneSkips;
      var t := ticks[|ticks| - 1];
      var before := Log(ticks[..|ticks| - 1]);
      NoneSkipsMore(ticks);
      NoHolesExactlyWhen(ticks[..|ticks| - 1]);
      CountedOnce(ticks[..|ticks| - 1]);
      if Gapless(before) { HoleExactlyWhen(before, t); }
      if Gapless(before + Stored(before, t)) { GaplessFront(before, Stored(before, t)); }
    }
  }

  /** After a tick that stored counts and stopped at bucket b, the next one starts at b,
      unless it has fallen behind by then. */
  lemma {:induction false} ResumesAtFailure(log: seq<Count>, t: Tick, b: int, now: int)
    requires Ascending(log) && WellCounted(log)
    requires Stored(log, t) != [] && b == Stored(log, t)[|Stored(log, t)| - 1].bucket + MINUTE
    ensures var after := log + Stored(log, t);
            CountStart(Latest(after), CloseBefore(now)) == if Behind(after, now) then Floor(CloseBefore(now)) else b
  {
    StoredFits(log, t);
    LatestIsLast(log + Stored(log, t));
  }
}
