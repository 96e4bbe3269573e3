/** Token buckets per category and client (internal/api/ratelimit.go). Times are seconds. */
module RateLimits {
  import opened Options

  datatype Bucket = Bucket(tokens: real, max: real, rate: real, last: real)

  /** Tokens per second of each category. */
  datatype Rates = Rates(login: real, ingest: real, api: real)

  function RateOf(rates: Rates, category: string): Option<real> {
    if category == "login" then Some(rates.login)
    else if category == "ingest" then Some(rates.ingest)
    else if category == "api" then Some(rates.api)
    else None
  }

  function KeyOf(category: string, client: string): string { category + ":" + client }

  /** A full bucket holds a minute's worth. */
  function Full(rate: real, now: real): Bucket { Bucket(rate * 60.0, rate * 60.0, rate, now) }

  /** Tokens a rate earns between two times. */
  function Earned(rate: real, from: real, to: real): real { (to - from) * rate }

  function Refill(b: Bucket, now: real): Bucket {
    if now <= b.last then b
    else
      var t := b.tokens + Earned(b.rate, b.last, now);
      b.(tokens := if t > b.max then b.max else t, last := now)
  }

  function Take(b: Bucket): (Bucket, bool) {
    if b.tokens >= 1.0 then (b.(tokens := b.tokens - 1.0), true) else (b, false)
  }

  /** Cleanup removes a bucket not refilled for twice the time it takes to fill. A bucket
      that never refills has no such time and stays. */
  predicate Stale(b: Bucket, now: real) { b.rate != 0.0 && now - b.last > 2.0 * b.max / b.rate }

  // ----- one bucket -----

  /** Ask: rate is that of the category asked for, if there is one. */
  datatype Step = Ask(rate: Option<real>, now: real) | Sweep(now: real)

  function Answer(b: Option<Bucket>, step: Step): (Option<Bucket>, bool) {
    match step
    case Sweep(now) => (if b.Some? && Stale(b.value, now) then None else b, false)
    case Ask(rate, now) =>
      if b.None? && rate.None? then (None, true)
      else
        var got := Take(Refill(if b.Some? then b.value else Full(rate.value, now), now));
        (Some(got.0), got.1)
  }

  function After(b: Option<Bucket>, steps: seq<Step>): Option<Bucket> {
    if steps == [] then b else Answer(After(b, steps[..|steps| - 1]), steps[|steps| - 1]).0
  }

  /** A request of a category with a rate. */
  predicate Rated(step: Step) { step.Ask? && step.rate.Some? }

  /** The answers given to rated requests, in order. */
  function Answers(b: Option<Bucket>, steps: seq<Step>): seq<bool> {
    if steps == [] then []
    else
      var n := |steps| - 1;
      Answers(b, steps[..n]) + if Rated(steps[n]) then [Answer(After(b, steps[..n]), steps[n]).1] else []
  }

  /** How many requests were let through. */
  function Granted(answers: seq<bool>): nat {
    if answers == [] then 0 else Granted(answers[..|answers| - 1]) + if answers[|answers| - 1] then 1 else 0
  }

  /** The step takes from a bucket. */
  predicate Takes(b: Option<Bucket>, step: Step) { step.Ask? && (step.rate.Some? || b.Some?) }

  /** The steps without the cleanups, and without the unrated requests that meet no bucket. */
  function Taken(b: Option<Bucket>, steps: seq<Step>): seq<Step> {
    if steps == [] then []
    else
      var n := |steps| - 1;
      Taken(b, steps[..n]) + if Takes(After(b, steps[..n]), steps[n]) then [steps[n]] else []
  }

  /** Every rated request has this rate. */
  ghost predicate OneRate(steps: seq<Step>, rate: real) {
    forall i :: 0 <= i < |steps| ==> RatedAt(steps[i], rate)
  }

  ghost predicate RatedAt(step: Step, rate: real) { Rated(step) ==> step.rate == Some(rate) }

  ghost predicate Sound(b: Option<Bucket>, rate: real) {
    b.Some? ==> b.value.rate == rate && b.value.max == rate * 60.0 && 0.0 <= b.value.tokens <= b.value.max
  }

  lemma {:induction false} Product(x: real, y: real)
    requires x >= 0.0 && y >= 0.0
    ensures x * y >= 0.0
  {
  }

  lemma {:induction false} EarnedAddsUp(rate: real, a: real, b: real, c: real)
    requires rate >= 0.0 && a <= b <= c
    ensures Earned(rate, a, c) == Earned(rate, a, b) + Earned(rate, b, c)
    ensures Earned(rate, a, b) >= 0.0 && Earned(rate, b, c) >= 0.0
  {
    Product(b - a, rate);
    Product(c - b, rate);
  }

  lemma {:induction false} EarnedMinute(rate: real, a: real)
    ensures Earned(rate, a, a + 60.0) == rate * 60.0
  {
  }

  lemma {:induction false} RefillGains(b: Bucket, now: real)
    requires b.rate >= 0.0 && b.tokens <= b.max
    ensures var c := Refill(b, now);
            && b.tokens <= c.tokens <= b.max && c.max == b.max && c.rate == b.rate
            && c.last == if now > b.last then now else b.last
    ensures now > b.last && Earned(b.rate, b.last, now) >= b.max && b.tokens >= 0.0 ==> Refill(b, now).tokens == b.max
  {
    hide Earned;
    if now > b.last { EarnedAddsUp(b.rate, b.last, now, now); }
  }

  lemma {:induction false} SoundStep(b: Option<Bucket>, step: Step, rate: real)
    requires Sound(b, rate) && rate >= 0.0 && RatedAt(step, rate)
    ensures Sound(Answer(b, step).0, rate)
  {
    hide Refill;
    if Takes(b, step) { RefillGains(if b.Some? then b.value else Full(rate, step.now), step.now); }
  }

  lemma {:induction false} SoundRun(b: Option<Bucket>, steps: seq<Step>, rate: real)
    requires Sound(b, rate) && rate >= 0.0 && OneRate(steps, rate)
    ensures Sound(After(b, steps), rate)
  {
    hide Answer;
    if steps != [] {
      var n := |steps| - 1;
      SoundRun(b, steps[..n], rate);
      SoundStep(After(b, steps[..n]), steps[n], rate);
    }
  }

  // ----- cleanup cannot be noticed -----

  /** Requests read the clock before they take their turn, so times may be out of order; no
      step may be more than a minute behind an earlier one. */
  ghost predicate NearlyInOrder(steps: seq<Step>) {
    forall i, j :: 0 <= i < j < |steps| ==> steps[j].now >= steps[i].now - 60.0
  }

  /** The bucket was removed, but it would be full by the next request. */
  ghost predicate Removed(b: Option<Bucket>, kept: Option<Bucket>, steps: seq<Step>) {
    b.None? && kept.Some? && exists i :: 0 <= i < |steps| && steps[i].now - kept.value.last > 120.0
  }

  lemma {:induction false} StaleAfter(b: Bucket, now: real)
    requires b.rate >= 0.0 && b.max == b.rate * 60.0 && Stale(b, now)
    ensures now - b.last > 120.0
  {
    var wait := 2.0 * b.max / b.rate;
    assert wait * b.rate == 120.0 * b.rate;
    assert wait == 120.0;
  }

  lemma {:induction false} FullByThen(b: Bucket, now: real)
    requires Sound(Some(b), b.rate) && b.rate >= 0.0 && now - b.last > 60.0
    ensures Refill(b, now) == Refill(Full(b.rate, now), now)
  {
    hide Earned;
    EarnedAddsUp(b.rate, b.last, b.last + 60.0, now);
    EarnedMinute(b.rate, b.last);
    RefillGains(b, now);
    assert Refill(b, now) == Bucket(b.max, b.max, b.rate, now);
  }

  lemma {:induction false} SweepsHidden(steps: seq<Step>, rate: real)
    requires rate >= 0.0 && OneRate(steps, rate) && NearlyInOrder(steps)
    ensures var b, kept := After(None, steps), After(None, Taken(None, steps)); b == kept || Removed(b, kept, steps)
    ensures Answers(None, steps) == Answers(None, Taken(None, steps))
    ensures OneRate(Taken(None, steps), rate)
  {
    if steps != [] {
      var n := |steps| - 1;
      var front, step := steps[..n], steps[n];
      SweepsHidden(front, rate);
      SoundRun(None, front, rate);
      SoundRun(None, Taken(None, front), rate);
      HiddenStep(front, steps, After(None, front), After(None, Taken(None, front)), step, rate);
      if Takes(After(None, front), step) {
        assert Taken(None, steps)[..|Taken(None, steps)| - 1] == Taken(None, front);
      } else {
        assert Taken(None, front) + [] == Taken(None, front) && Answers(None, front) + [] == Answers(None, front);
      }
    }
  }

  lemma {:induction false} HiddenStep(
      front: seq<Step>, steps: seq<Step>, b: Option<Bucket>, kept: Option<Bucket>, step: Step, rate: real)
    requires rate >= 0.0 && Sound(b, rate) && Sound(kept, rate) && RatedAt(step, rate)
    requires steps == front + [step] && NearlyInOrder(steps) && (b == kept || Removed(b, kept, front))
    ensures Takes(b, step) ==> Answer(b, step) == Answer(kept, step)
    ensures !Takes(b, step) ==> Answer(b, step).0 == kept || Removed(Answer(b, step).0, kept, steps)
  {
    hide Refill, Stale;
    if b != kept {
      var i :| 0 <= i < |front| && front[i].now - kept.value.last > 120.0;
      assert steps[i] == front[i] && steps[|front|] == step;
      if Rated(step) { FullByThen(kept.value, step.now); }
    } else if step.Sweep? && b.Some? && Stale(b.value, step.now) {
      StaleAfter(b.value, step.now);
      assert steps[|front|] == step;
    }
  }

  // ----- how much gets through -----

  ghost predicate Within(steps: seq<Step>, lo: real, hi: real) {
    forall i :: 0 <= i < |steps| ==> steps[i].Ask? && lo <= steps[i].now <= hi
  }

  /** What a bucket can still hand out by the time hi. */
  ghost function Potential(b: Bucket, hi: real): real {
    b.tokens + if hi > b.last then Earned(b.rate, b.last, hi) else 0.0
  }

  /** A full bucket and what the rate earns between lo and hi. */
  function Ceiling(rate: real, lo: real, hi: real): real { rate * 60.0 + Earned(rate, lo, hi) }

  lemma {:induction false} RefillSpends(b: Bucket, now: real, lo: real, hi: real)
    requires b.rate >= 0.0 && lo <= now <= hi && b.max == b.rate * 60.0 && b.tokens <= b.max
    ensures Potential(Refill(b, now), hi) <= Potential(b, hi)
    ensures Potential(Refill(b, now), hi) <= Ceiling(b.rate, lo, hi)
  {
    hide Earned;
    RefillGains(b, now);
    var c := Refill(b, now);
    EarnedAddsUp(b.rate, lo, lo, hi);
    if now > b.last { EarnedAddsUp(b.rate, b.last, now, hi); }
    if hi > c.last { EarnedAddsUp(b.rate, lo, c.last, hi); }
  }

  lemma {:induction false} WindowSpends(b: Option<Bucket>, steps: seq<Step>, rate: real, lo: real, hi: real)
    requires rate >= 0.0 && lo <= hi && Sound(b, rate) && OneRate(steps, rate) && Within(steps, lo, hi)
    ensures var c, granted := After(b, steps), Granted(Answers(b, steps));
            && (c.None? ==> granted == 0)
            && (c.Some? && steps != [] ==> granted as real + Potential(c.value, hi) <= Ceiling(rate, lo, hi))
  {
    hide Refill, Potential, Ceiling, Earned, Take, Answers, Granted;
    if steps == [] {
      NoAnswers(b);
    } else {
      var n := |steps| - 1;
      var front, step := steps[..n], steps[n];
      var c := After(b, front);
      WindowSpends(b, front, rate, lo, hi);
      SoundRun(b, front, rate);
      AnswersGrow(b, steps);
      if Takes(c, step) {
        var d := if c.Some? then c.value else Full(rate, step.now);
        RefillGains(d, step.now);
        RefillSpends(d, step.now, lo, hi);
        TakeSpends(Refill(d, step.now), hi);
        if front == [] { NoAnswers(b); }
      }
    }
  }

  lemma {:induction false} TakeSpends(b: Bucket, hi: real)
    ensures Potential(Take(b).0, hi) == Potential(b, hi) - if Take(b).1 then 1.0 else 0.0
    ensures Take(b).0.last == b.last
  {
    hide Earned;
  }

  lemma {:induction false} AnswersGrow(b: Option<Bucket>, steps: seq<Step>)
    requires steps != []
    ensures var n := |steps| - 1;
            Granted(Answers(b, steps)) == Granted(Answers(b, steps[..n]))
              + if Rated(steps[n]) && Answer(After(b, steps[..n]), steps[n]).1 then 1 else 0
  {
    var n := |steps| - 1;
    var all := Answers(b, steps);
    if Rated(steps[n]) {
      assert all[..|all| - 1] == Answers(b, steps[..n]);
    } else {
      assert all == Answers(b, steps[..n]);
    }
  }

  lemma {:induction false} AnswersTwo(b: Option<Bucket>, xs: seq<Step>, ys: seq<Step>)
    ensures After(b, xs + ys) == After(After(b, xs), ys)
    ensures Answers(b, xs + ys) == Answers(b, xs) + Answers(After(b, xs), ys)
    decreases |ys|
  {
    hide Answer;
    if ys == [] {
      assert xs + ys == xs;
    } else {
      var n := |ys| - 1;
      assert (xs + ys)[..|xs + ys| - 1] == xs + ys[..n];
      AnswersTwo(b, xs, ys[..n]);
    }
  }

  lemma {:induction false} TakenTwo(b: Option<Bucket>, xs: seq<Step>, ys: seq<Step>)
    ensures Taken(b, xs + ys) == Taken(b, xs) + Taken(After(b, xs), ys)
    decreases |ys|
  {
    hide Takes, After;
    if ys == [] {
      assert xs + ys == xs;
    } else {
      assert (xs + ys)[..|xs + ys| - 1] == xs + ys[..|ys| - 1];
      TakenTwo(b, xs, ys[..|ys| - 1]);
      AnswersTwo(b, xs, ys[..|ys| - 1]);
    }
  }

  lemma {:induction false} TakenWithin(b: Option<Bucket>, steps: seq<Step>, lo: real, hi: real)
    requires AllWithin(steps, lo, hi)
    ensures Within(Taken(b, steps), lo, hi)
  {
    hide After;
    if steps != [] { TakenWithin(b, steps[..|steps| - 1], lo, hi); }
  }

  /** In any stretch of a client's requests, cleanups included, at most a full bucket plus
      what the rate earns in that time gets through. */
  lemma {:induction false} WindowBound(before: seq<Step>, window: seq<Step>, rate: real, lo: real, hi: real)
    requires rate >= 0.0 && lo <= hi && OneRate(before + window, rate) && NearlyInOrder(before + window)
    requires AllWithin(window, lo, hi)
    ensures Granted(Answers(After(None, before), window)) as real <= Ceiling(rate, lo, hi)
  {
    hide Answers, After, Granted, Taken, Ceiling, OneRate, NearlyInOrder, Within;
    PartsInOrder(before, window, rate);
    SweepsHidden(before + window, rate);
    SweepsHidden(before, rate);
    TakenTwo(None, before, window);
    var u, w := Taken(None, before), Taken(After(None, before), window);
    AnswersTwo(None, before, window);
    AnswersTwo(None, u, w);
    SameRest(Answers(None, u), Answers(After(None, before), window), Answers(After(None, u), w));
    TakenWithin(After(None, before), window, lo, hi);
    PartsOneRate(u, w, rate);
    WindowEnds(u, w, rate, lo, hi);
  }

  lemma {:induction false} SameRest(a: seq<bool>, x: seq<bool>, y: seq<bool>)
    requires a + x == a + y
    ensures x == y
  {
    assert x == (a + x)[|a|..] && y == (a + y)[|a|..];
  }

  lemma {:induction false} PartsOneRate(xs: seq<Step>, ys: seq<Step>, rate: real)
    requires OneRate(xs + ys, rate)
    ensures OneRate(xs, rate) && OneRate(ys, rate)
  {
    assert forall i :: 0 <= i < |xs| ==> xs[i] == (xs + ys)[i];
    assert forall i :: 0 <= i < |ys| ==> ys[i] == (xs + ys)[|xs| + i];
  }

  lemma {:induction false} PartsInOrder(xs: seq<Step>, ys: seq<Step>, rate: real)
    requires OneRate(xs + ys, rate) && NearlyInOrder(xs + ys)
    ensures OneRate(xs, rate) && NearlyInOrder(xs)
  {
    assert forall i :: 0 <= i < |xs| ==> xs[i] == (xs + ys)[i];
  }

  lemma {:induction false} WindowEnds(u: seq<Step>, w: seq<Step>, rate: real, lo: real, hi: real)
    requires rate >= 0.0 && lo <= hi && OneRate(u, rate) && OneRate(w, rate) && Within(w, lo, hi)
    ensures Granted(Answers(After(None, u), w)) as real <= Ceiling(rate, lo, hi)
  {
    hide Answers, After, Granted, Potential, Ceiling, Sound;
    NoBucket(rate);
    SoundRun(None, u, rate);
    SoundRun(After(None, u), w, rate);
    var c := After(After(None, u), w);
    WindowSpends(After(None, u), w, rate, lo, hi);
    CeilingNotNegative(rate, lo, hi);
    if w == [] { NoAnswers(After(None, u)); }
    if c.Some? { PotentialNotNegative(c.value, rate, hi); }
  }

  lemma {:induction false} PotentialNotNegative(b: Bucket, rate: real, hi: real)
    requires rate >= 0.0 && Sound(Some(b), rate)
    ensures Potential(b, hi) >= 0.0
  {
    hide Earned;
    if hi > b.last { EarnedAddsUp(rate, b.last, hi, hi); }
  }

  lemma {:induction false} CeilingNotNegative(rate: real, lo: real, hi: real)
    requires rate >= 0.0 && lo <= hi
    ensures Ceiling(rate, lo, hi) >= 0.0
  {
    hide Earned;
    EarnedAddsUp(rate, lo, hi, hi);
  }

  lemma {:induction false} NoBucket(rate: real)
    ensures Sound(None, rate)
  {
  }

  lemma {:induction false} NoAnswers(b: Option<Bucket>)
    ensures Granted(Answers(b, [])) == 0
  {
  }

  /** A category without a rate lets nothing through. */
  lemma {:induction false} NothingWithoutRate(steps: seq<Step>, rate: real)
    requires rate <= 0.0 && OneRate(steps, rate)
    ensures Granted(Answers(None, steps)) == 0
    ensures After(None, steps).Some? ==> After(None, steps).value.rate == rate && After(None, steps).value.tokens <= 0.0
                                         && After(None, steps).value.max <= 0.0
  {
    if steps != [] {
      var n := |steps| - 1;
      NothingWithoutRate(steps[..n], rate);
      AnswersGrow(None, steps);
    }
  }

  // ----- all buckets -----

  datatype Event = Request(category: string, client: string, now: real) | Cleanup(now: real)

  function At(m: map<string, Bucket>, k: string): Option<Bucket> { if k in m then Some(m[k]) else None }

  function Next(rates: Rates, m: map<string, Bucket>, e: Event): (map<string, Bucket>, bool) {
    match e
    case Cleanup(now) => (map k | k in m && !Stale(m[k], now) :: m[k], false)
    case Request(category, client, now) =>
      var k := KeyOf(category, client);
      var r := Answer(At(m, k), Ask(RateOf(rates, category), now));
      (if r.0.Some? then m[k := r.0.value] else m, r.1)
  }

  function Buckets(rates: Rates, es: seq<Event>): map<string, Bucket> {
    if es == [] then map[] else Next(rates, Buckets(rates, es[..|es| - 1]), es[|es| - 1]).0
  }

  predicate Touches(e: Event, k: string) { e.Cleanup? || KeyOf(e.category, e.client) == k }

  function StepOf(rates: Rates, e: Event): Step {
    match e
    case Cleanup(now) => Sweep(now)
    case Request(category, _, now) => Ask(RateOf(rates, category), now)
  }

  /** The steps the bucket of key k sees. */
  function StepsFor(rates: Rates, es: seq<Event>, k: string): seq<Step> {
    if es == [] then []
    else
      var n := |es| - 1;
      StepsFor(rates, es[..n], k) + if Touches(es[n], k) then [StepOf(rates, es[n])] else []
  }

  /** The answers to the rated requests of key k among the events from the first-th on. */
  function AnswersFrom(rates: Rates, es: seq<Event>, first: nat, k: string): seq<bool> {
    if |es| <= first then []
    else
      var n := |es| - 1;
      AnswersFrom(rates, es[..n], first, k)
      + if Rated(StepOf(rates, es[n])) && Touches(es[n], k) then [Next(rates, Buckets(rates, es[..n]), es[n]).1] else []
  }

  lemma {:induction false} StepApart(rates: Rates, m: map<string, Bucket>, e: Event, k: string)
    ensures At(Next(rates, m, e).0, k) == if Touches(e, k) then Answer(At(m, k), StepOf(rates, e)).0 else At(m, k)
    ensures Touches(e, k) && e.Request? ==> Next(rates, m, e).1 == Answer(At(m, k), StepOf(rates, e)).1
  {
  }

  /** No bucket is changed by requests of other keys. */
  lemma {:induction false} BucketsApart(rates: Rates, es: seq<Event>, k: string)
    ensures At(Buckets(rates, es), k) == After(None, StepsFor(rates, es, k))
  {
    hide Answer, Next;
    if es != [] {
      var n := |es| - 1;
      BucketsApart(rates, es[..n], k);
      StepApart(rates, Buckets(rates, es[..n]), es[n], k);
      var steps := StepsFor(rates, es, k);
      if Touches(es[n], k) {
        assert steps[..|steps| - 1] == StepsFor(rates, es[..n], k);
      } else {
        assert steps == StepsFor(rates, es[..n], k);
      }
    }
  }

  lemma {:induction false} OneMore(b: Option<Bucket>, steps: seq<Step>, step: Step)
    ensures After(b, steps + [step]) == Answer(After(b, steps), step).0
    ensures Answers(b, steps + [step]) == Answers(b, steps) + if Rated(step) then [Answer(After(b, steps), step).1]
            else []
  {
    assert (steps + [step])[..|steps|] == steps;
  }

  lemma {:induction false} OneMoreEvent(rates: Rates, es: seq<Event>, e: Event, first: nat, k: string)
    requires first <= |es|
    ensures StepsFor(rates, es + [e], k) == StepsFor(rates, es, k) + if Touches(e, k) then [StepOf(rates, e)] else []
    ensures AnswersFrom(rates, es + [e], first, k)
         == AnswersFrom(rates, es, first, k)
            + if Rated(StepOf(rates, e)) && Touches(e, k) then [Next(rates, Buckets(rates, es), e).1] else []
  {
    assert (es + [e])[..|es|] == es;
  }

  lemma {:induction false} StepsForTwo(rates: Rates, before: seq<Event>, window: seq<Event>, k: string)
    ensures StepsFor(rates, before + window, k) == StepsFor(rates, before, k) + StepsFor(rates, window, k)
    decreases |window|
  {
    if window == [] {
      assert before + window == before;
    } else {
      assert (before + window)[..|before + window| - 1] == before + window[..|window| - 1];
      StepsForTwo(rates, before, window[..|window| - 1], k);
    }
  }

  lemma {:induction false} AnswersApart(rates: Rates, before: seq<Event>, window: seq<Event>, k: string)
    ensures AnswersFrom(rates, before + window, |before|, k)
         == Answers(After(None, StepsFor(rates, before, k)), StepsFor(rates, window, k))
    decreases |window|
  {
    if window == [] {
      assert before + window == before;
    } else {
      var n := |window| - 1;
      AnswersApart(rates, before, window[..n], k);
      assert before + window == before + window[..n] + [window[n]] && window == window[..n] + [window[n]];
      ApartStep(rates, before, window[..n], window[n], k);
    }
  }

  lemma {:induction false} ApartStep(rates: Rates, before: seq<Event>, window: seq<Event>, e: Event, k: string)
    requires AnswersFrom(rates, before + window, |before|, k)
          == Answers(After(None, StepsFor(rates, before, k)), StepsFor(rates, window, k))
    ensures AnswersFrom(rates, before + window + [e], |before|, k)
         == Answers(After(None, StepsFor(rates, before, k)), StepsFor(rates, window + [e], k))
  {
    hide Answer, Next, Answers, After, StepsFor, AnswersFrom, Buckets;
    var front := before + window;
    var b, steps := After(None, StepsFor(rates, before, k)), StepsFor(rates, window, k);
    BucketsApart(rates, front, k);
    StepsForTwo(rates, before, window, k);
    AnswersTwo(None, StepsFor(rates, before, k), steps);
    StepApart(rates, Buckets(rates, front), e, k);
    OneMoreEvent(rates, front, e, |before|, k);
    OneMoreEvent(rates, window, e, 0, k);
    OneMore(b, steps, StepOf(rates, e));
    if !Touches(e, k) { assert steps + [] == steps; }
  }

  /** The three categories start with different letters, so a key belongs to one. */
  lemma {:induction false} KeysAreOneCategory(rates: Rates, a: string, b: string, client: string, other: string)
    requires RateOf(rates, a).Some? && RateOf(rates, b).Some? && KeyOf(a, client) == KeyOf(b, other)
    ensures a == b && client == other
  {
    assert KeyOf(a, client)[0] == a[0] && KeyOf(b, other)[0] == b[0];
    assert a == b;
    assert client == KeyOf(a, client)[|a| + 1..] && other == KeyOf(b, other)[|b| + 1..];
  }

  ghost predicate EventsNearlyInOrder(es: seq<Event>) {
    forall i, j :: 0 <= i < j < |es| ==> es[j].now >= es[i].now - 60.0
  }

  lemma {:induction false} StepsFit(rates: Rates, es: seq<Event>, category: string, client: string, rate: real)
    requires RateOf(rates, category) == Some(rate) && EventsNearlyInOrder(es)
    ensures var steps := StepsFor(rates, es, KeyOf(category, client));
            && OneRate(steps, rate) && NearlyInOrder(steps)
            && forall j :: 0 <= j < |steps| ==> exists i :: 0 <= i < |es| && es[i].now == steps[j].now
  {
    if es != [] {
      var n := |es| - 1;
      var k := KeyOf(category, client);
      StepsFit(rates, es[..n], category, client, rate);
      var front, steps := StepsFor(rates, es[..n], k), StepsFor(rates, es, k);
      forall j | 0 <= j < |front| ensures exists i :: 0 <= i < n && es[i].now == front[j].now {
        var i :| 0 <= i < n && es[..n][i].now == front[j].now;
        assert es[i].now == front[j].now;
      }
      if Touches(es[n], k) {
        if Rated(StepOf(rates, es[n])) { KeysAreOneCategory(rates, category, es[n].category, client, es[n].client); }
        assert StepOf(rates, es[n]).now == es[n].now;
      }
    }
  }

  ghost predicate AllWithin(steps: seq<Step>, lo: real, hi: real) {
    forall i :: 0 <= i < |steps| ==> lo <= steps[i].now <= hi
  }

  lemma {:induction false} StepsWithin(rates: Rates, es: seq<Event>, k: string, lo: real, hi: real)
    requires forall i :: 0 <= i < |es| ==> lo <= es[i].now <= hi
    ensures AllWithin(StepsFor(rates, es, k), lo, hi)
  {
    if es != [] {
      StepsWithin(rates, es[..|es| - 1], k, lo, hi);
    }
  }

  /** However requests of all clients and cleanups interleave, in any stretch of time one
      client gets at most a minute's worth plus what the category's rate earns meanwhile. */
  lemma {:induction false} ClientBound(
      rates: Rates, before: seq<Event>, window: seq<Event>, category: string, client: string, rate: real, lo: real,
      hi: real)
    requires RateOf(rates, category) == Some(rate) && rate >= 0.0 && lo <= hi
    requires EventsNearlyInOrder(before + window)
    requires forall i :: 0 <= i < |window| ==> lo <= window[i].now <= hi
    ensures Granted(AnswersFrom(rates, before + window, |before|, KeyOf(category, client))) as real
            <= Ceiling(rate, lo, hi)
  {
    hide Granted, Answers, AnswersFrom, After, Ceiling, StepsFor;
    var k := KeyOf(category, client);
    AnswersApart(rates, before, window, k);
    StepsForTwo(rates, before, window, k);
    StepsFit(rates, before + window, category, client, rate);
    StepsWithin(rates, window, k, lo, hi);
    WindowBound(StepsFor(rates, before, k), StepsFor(rates, window, k), rate, lo, hi);
  }

  // ----- the object -----

  class RateLimiter {
    var limiters: map<string, Bucket>
    const rates: Rates

    constructor (rates: Rates)
      ensures limiters == map[] && this.rates == rates
    {
      limiters := map[];
      this.rates := rates;
    }

    method Allow(category: string, client: string, now: real) returns (ok: bool)
      modifies this
      ensures (limiters, ok) == Next(rates, old(limiters), Request(category, client, now))
    {
      hide Earned;
      var key := KeyOf(category, client);
      if key !in limiters {
        var rate := RateOf(rates, category);
        if rate.None? { return true; }
        limiters := limiters[key := Full(rate.value, now)];
      }
      var b := limiters[key];
      var elapsed := now - b.last;
      if elapsed > 0.0 {
        b := b.(tokens := b.tokens + Earned(b.rate, b.last, now));
        if b.tokens > b.max { b := b.(tokens := b.max); }
        b := b.(last := now);
      }
      ok := b.tokens >= 1.0;
      if ok { b := b.(tokens := b.tokens - 1.0); }
      limiters := limiters[key := b];
      assert limiters == old(limiters)[key := b];
    }

    /** One round of the cleanup loop. */
    method RemoveStale(now: real)
      modifies this
      ensures limiters == Next(rates, old(limiters), Cleanup(now)).0
    {
      hide Stale;
      var todo := limiters.Keys;
      ghost var was := limiters;
      while todo != {}
        invariant todo <= limiters.Keys
        invariant limiters == map k | k in was && (k in todo || !Stale(was[k], now)) :: was[k]
        decreases |todo|
      {
        var k :| k in todo;
        todo := todo - {k};
        if Stale(limiters[k], now) { limiters := limiters - {k}; }
      }
    }
  }
}
