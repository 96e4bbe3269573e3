/** Rows that a flight hands to the requests waiting on it: their expiry is not looked at again
    (internal/api/sessions.go). Exactly when that serves an expired token. */
module SessionHandover {
  import opened Options
  import opened Sessions
  import T = SessionTimes

  /** Served on an expired token that a flight handed over as refreshed. */
  ghost predicate HandedExpired(q: Req) { q.Served? && q.kind.Refreshed? && AccessExpired(q.shown, q.when) }

  ghost predicate SomeHanded(reqs: map<nat, Req>) { exists r :: r in reqs && HandedExpired(reqs[r]) }

  /** A request that wants to be served waits for a flight. */
  predicate Waits(q: Req) { q.InFlight? && !q.forced }

  predicate SomeWaits(reqs: map<nat, Req>) { exists r :: r in reqs && Waits(reqs[r]) }

  /** A request that wants to be served has been given a row whose token has expired by now. */
  predicate GivenExpired(q: Req, now: int) {
    q.Got? && !q.forced && q.result.Fresh? && AccessExpired(q.result.row, now)
  }

  predicate SomeGiven(reqs: map<nat, Req>, now: int) { exists r :: r in reqs && GivenExpired(reqs[r], now) }

  /** What leaves a request with an expired row: its flight finds a row that was refreshed
      before and has expired since, the provider's new token has expired when it is saved, or
      the clock passes the expiry of a row that was handed over and not used yet. */
  predicate Sours(s: Sys, step: Step) {
    match step
    case Look(read, _, _) =>
      && s.flight.Looking? && read && s.row.Some? && s.row.value.access != s.flight.stale
      && AccessExpired(s.row.value, s.now) && SomeWaits(s.reqs)
    case Save(stuck) =>
      && s.flight.Granted? && s.flight.allowed && s.row.Some? && !stuck
      && s.flight.expires != 0 && s.now + SKEW >= s.flight.expires && SomeWaits(s.reqs)
    case Tick(to) => to >= s.now && SomeGiven(s.reqs, to)
    case _ => false
  }

  /** A flight that ends hands an expired row over exactly if it ends with one and someone waits. */
  lemma {:induction false} SourFinish(s: Sys, result: Result)
    requires !SomeGiven(s.reqs, s.now)
    ensures SomeGiven(Finish(s, result).reqs, s.now) <==>
              result.Fresh? && AccessExpired(result.row, s.now) && SomeWaits(s.reqs)
    ensures SomeHanded(Finish(s, result).reqs) <==> SomeHanded(s.reqs)
  {
    var t := Finish(s, result);
    forall r | r in s.reqs
      ensures GivenExpired(t.reqs[r], s.now) <==> result.Fresh? && AccessExpired(result.row, s.now) && Waits(s.reqs[r])
      ensures HandedExpired(t.reqs[r]) <==> HandedExpired(s.reqs[r])
    {
      assert !GivenExpired(s.reqs[r], s.now);
    }
    if SomeWaits(s.reqs) { var r :| r in s.reqs && Waits(s.reqs[r]); assert r in t.reqs; }
    if SomeHanded(s.reqs) { var r :| r in s.reqs && HandedExpired(s.reqs[r]); assert r in t.reqs; }
  }

  /** From a state in which no request has been given an expired row, a step gives one
      exactly when it is one of the three, and serves none. */
  lemma {:induction false} SourStep(s: Sys, step: Step, grace: int)
    requires !SomeGiven(s.reqs, s.now)
    ensures SomeGiven(Next(s, step, grace).reqs, Next(s, step, grace).now) <==> Sours(s, step)
    ensures SomeHanded(Next(s, step, grace).reqs) <==> SomeHanded(s.reqs)
  {
    if step.Look? || step.Grant? || step.Save? {
      SourFlight(s, step, grace);
    } else if step.Tick? || step.Delete? {
    } else {
      SourRequest(s, step, grace);
    }
  }

  lemma {:induction false} SourFlight(s: Sys, step: Step, grace: int)
    requires !SomeGiven(s.reqs, s.now) && (step.Look? || step.Grant? || step.Save?)
    ensures SomeGiven(Next(s, step, grace).reqs, Next(s, step, grace).now) <==> Sours(s, step)
    ensures SomeHanded(Next(s, step, grace).reqs) <==> SomeHanded(s.reqs)
  {
    hide Finish, SomeGiven, SomeHanded, SomeWaits;
    forall t: Sys, result: Result | t.reqs == s.reqs && t.now == s.now
      ensures SomeGiven(Finish(t, result).reqs, s.now) <==>
                result.Fresh? && AccessExpired(result.row, s.now) && SomeWaits(s.reqs)
      ensures SomeHanded(Finish(t, result).reqs) <==> SomeHanded(s.reqs)
      ensures Finish(t, result).now == s.now
    {
      SourFinish(t, result);
      FinishKeepsTime(t, result);
    }
  }

  lemma {:induction false} FinishKeepsTime(s: Sys, result: Result)
    ensures Finish(s, result).now == s.now
  {
  }

  lemma {:induction false} SourRequest(s: Sys, step: Step, grace: int)
    requires !SomeGiven(s.reqs, s.now) && (step.Arrive? || step.Ask? || step.Glance? || step.Enter? || step.Conclude?)
    ensures !SomeGiven(Next(s, step, grace).reqs, Next(s, step, grace).now)
    ensures SomeHanded(Next(s, step, grace).reqs) <==> SomeHanded(s.reqs)
  {
    var t := Next(s, step, grace);
    forall r | r in t.reqs ensures !GivenExpired(t.reqs[r], t.now) {
      if r in s.reqs { assert !GivenExpired(s.reqs[r], s.now); }
    }
    forall r | r in t.reqs ensures HandedExpired(t.reqs[r]) <==> r in s.reqs && HandedExpired(s.reqs[r]) {
      if r in s.reqs { assert !GivenExpired(s.reqs[r], s.now); }
    }
    assert forall r :: r in s.reqs ==> r in t.reqs;
  }

  ghost predicate NoneSours(s: Sys, steps: seq<Step>, grace: int) { Avoids(Sours, s, steps, grace) }

  lemma {:induction false} SourRun(s: Sys, steps: seq<Step>, grace: int)
    requires !SomeGiven(s.reqs, s.now) && !SomeHanded(s.reqs) && NoneSours(s, steps, grace)
    ensures var t := Run(s, steps, grace); !SomeGiven(t.reqs, t.now) && !SomeHanded(t.reqs)
  {
    hide Next, SomeGiven, SomeHanded, Sours;
    if steps != [] {
      var n := |steps| - 1;
      SourRun(s, steps[..n], grace);
      SourStep(Run(s, steps[..n], grace), steps[n], grace);
    }
  }

  /** No request, going on at any point of the run, is served an expired token as refreshed. */
  ghost predicate HandsOverFresh(s: Sys, steps: seq<Step>, grace: int) {
    forall n: nat, r: nat :: n <= |steps| ==> !SomeHanded(Run(s, steps[..n] + [Conclude(r)], grace).reqs)
  }

  /** A request that goes on takes what it was given. */
  lemma {:induction false} TakesOver(s: Sys, grace: int) returns (r: nat)
    requires SomeGiven(s.reqs, s.now)
    ensures SomeHanded(Next(s, Conclude(r), grace).reqs)
  {
    r :| r in s.reqs && GivenExpired(s.reqs[r], s.now);
    assert HandedExpired(Next(s, Conclude(r), grace).reqs[r]);
  }

  /** Over every run: requests can be served an expired token as refreshed exactly when some
      step is one of the three that leave one with an expired row. */
  lemma {:induction false} HandedExactlyWhen(s: Sys, steps: seq<Step>, grace: int)
    requires s.reqs == map[]
    ensures NoneSours(s, steps, grace) <==> HandsOverFresh(s, steps, grace)
  {
    hide Run, Avoids, Next, Sours;
    assert !SomeGiven(s.reqs, s.now) && !SomeHanded(s.reqs);
    hide SomeGiven, SomeHanded;
    if NoneSours(s, steps, grace) {
      forall n: nat, r: nat | n <= |steps| ensures !SomeHanded(Run(s, steps[..n] + [Conclude(r)], grace).reqs) {
        AvoidsPrefix(Sours, s, steps, n, grace);
        ConcludeIsFresh(s, steps[..n], r, grace);
        SourRun(s, steps[..n] + [Conclude(r)], grace);
      }
    } else {
      var n := FirstBad(Sours, s, steps, grace);
      assert steps[..n + 1] == steps[..n] + [steps[n]];
      SourRun(s, steps[..n], grace);
      RunMore(s, steps[..n], steps[n], grace);
      SourStep(Run(s, steps[..n], grace), steps[n], grace);
      var r := TakesOver(Run(s, steps[..n + 1], grace), grace);
      RunMore(s, steps[..n + 1], Conclude(r), grace);
      assert SomeHanded(Run(s, steps[..n + 1] + [Conclude(r)], grace).reqs);
    }
  }

  lemma {:induction false} ConcludeIsFresh(s: Sys, steps: seq<Step>, r: nat, grace: int)
    requires NoneSours(s, steps, grace)
    ensures NoneSours(s, steps + [Conclude(r)], grace)
  {
    hide Run, Avoids;
    AvoidsMore(Sours, s, steps, Conclude(r), grace);
  }

  // ----- the whole bound -----

  /** Served on an expired access token with nothing that allows it. */
  ghost predicate Late(q: Req, grace: int) { T.PastGrace(q, grace) || HandedExpired(q) }

  /** Over every run of writer and replicas that keeps its failure stamps and leaves no request
      with an expired row: an expired access token is served on the writer only while refreshing
      fails, no later than the first failure of the outage plus grace, and on a replica no later
      than its expiry plus grace. */
  lemma {:induction false} ServedInTime(
      steps: seq<Step>, grace: int, now: int, accessExpires: int, absoluteExpires: int, renewable: bool)
    requires now > 0
    requires var s := Start(now, accessExpires, absoluteExpires, renewable);
             T.KeepsStamps(s, steps, grace) && NoneSours(s, steps, grace)
    ensures var reqs := Run(Start(now, accessExpires, absoluteExpires, renewable), steps, grace).reqs;
            forall r :: r in reqs ==> !Late(reqs[r], grace)
  {
    hide Run, Avoids;
    var s := Start(now, accessExpires, absoluteExpires, renewable);
    T.GraceKept(steps, grace, now, accessExpires, absoluteExpires, renewable);
    SourRun(s, steps, grace);
  }

  // ----- runs that are not fresh -----

  /** A request was loaded before another one's refresh was stored. */
  lemma {:induction false} LoadedBeforeRefresh() returns (steps: seq<Step>)
    ensures var s := Run(Start(100, 100, 100000, true), steps, 10);
            && s.row == Some(Row(2, Some(3), 200, 100000, 0)) && s.flight == NoFlight
            && s.outage == None && s.now == 100
            && 2 in s.reqs && s.reqs[2] == Loaded(Row(0, Some(1), 100, 100000, 0), 100, 0, false)
  {
    hide Run;
    var s0 := Start(100, 100, 100000, true);
    var s := s0;
    steps := [];
    assert Run(s0, [], 10) == s0 by { T.RunNone(s0, 10); }
    steps, s := T.Extend(s0, steps, s, Arrive(2, true, false), 10);
    steps, s := T.Extend(s0, steps, s, Ask(1, None, true, false), 10);
    steps, s := T.Extend(s0, steps, s, Enter(1), 10);
    steps, s := T.Extend(s0, steps, s, Look(true, true, false), 10);
    assert s.flight == Holding(0, s0.row.value) && s.row == s0.row && s.reqs[2].Loaded? && s.outage == None;
    steps, s := T.Extend(s0, steps, s, Grant(Success(200, true), false), 10);
    assert s.flight == Granted(0, s0.row.value, 2, 3, 200, true) && s.row == s0.row && s.outage == None;
    steps, s := T.Extend(s0, steps, s, Save(false), 10);
  }

  /** A request that finds its session refreshed by another is served on that row as it is:
      here 800 seconds after its access token expired, although no refresh ever failed. */
  lemma {:induction false} RefreshedElsewhereIsNotRechecked() returns (steps: seq<Step>)
    ensures var s := Run(Start(100, 100, 100000, true), steps, 10);
            && 2 in s.reqs && HandedExpired(s.reqs[2]) && s.outage == None
            && s.reqs[2].when == s.reqs[2].shown.accessExpires + 800
  {
    hide Run;
    var s0 := Start(100, 100, 100000, true);
    steps := LoadedBeforeRefresh();
    var s := Run(s0, steps, 10);
    steps, s := T.Extend(s0, steps, s, Tick(1000), 10);
    steps, s := T.Extend(s0, steps, s, Enter(2), 10);
    steps, s := T.Extend(s0, steps, s, Look(true, true, false), 10);
    assert s.reqs[2].Got? && s.reqs[2].result == Fresh(s.row.value) && !s.reqs[2].forced && s.outage == None;
    steps, s := T.Extend(s0, steps, s, Conclude(2), 10);
  }

  /** The flight is shared by all requests of the session but judged by the token of the one
      that started it. A request that joins a flight started with some other token is served its
      own expired row as refreshed, and nothing is sent to the provider. */
  lemma {:induction false} JoinedFlightReturnsOwnRow(
      now: int, accessExpires: int, absoluteExpires: int, renewable: bool, other: nat, grace: int)
    requires accessExpires != 0 && now + SKEW >= accessExpires && now < absoluteExpires && other != 0
    ensures var s0 := Start(now, accessExpires, absoluteExpires, renewable);
            var s := Run(s0, [Arrive(2, true, false)] + [Ask(1, Some(other), true, false)] + [Enter(1)] + [Enter(2)]
                             + [Look(true, true, false)] + [Conclude(2)], grace);
            2 in s.reqs && HandedExpired(s.reqs[2]) && s.reqs[2].shown == s0.row.value && s.sent == []
  {
    var s0 := Start(now, accessExpires, absoluteExpires, renewable);
    var a, b, c, d, e, f := Arrive(2, true, false), Ask(1, Some(other), true, false), Enter(1), Enter(2),
      Look(true, true, false), Conclude(2);
    RunOne(s0, a, grace);
    RunMore(s0, [a], b, grace);
    RunMore(s0, [a] + [b], c, grace);
    RunMore(s0, [a] + [b] + [c], d, grace);
    RunMore(s0, [a] + [b] + [c] + [d], e, grace);
    RunMore(s0, [a] + [b] + [c] + [d] + [e], f, grace);
    var t := Run(s0, [a] + [b] + [c] + [d], grace);
    assert t.flight == Looking(other) && t.row == s0.row && t.reqs[2] == InFlight(s0.row.value, now, false)
      && t.sent == [];
  }
}
