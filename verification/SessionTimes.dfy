/** How long a session is served: on the writer within grace of the first failed refresh, on a
    read-only replica within grace of the access token's expiry, and on neither when it was
    loaded at or past the absolute expiry. */
module SessionTimes {
  import opened Options
  import opened Sessions

  /** The failure stamp of a row agrees with when the outage began. */
  ghost predicate Stamped(row: Row, outage: Option<int>) {
    row.failingSince == if outage.Some? then outage.value else 0
  }

  ghost predicate ReqInv(q: Req, grace: int) {
    match q
    case Got(row, at, _, result) => at < row.absoluteExpires
      && (result.Unavailable? ==> result.row.failingSince == result.since > 0)
    case Served(row, at, kind, shown, when, since) =>
      && at < row.absoluteExpires
      && (kind.Unexpired? ==> when == at && shown == row && !AccessExpired(shown, when))
      && (kind.OnReplica? ==>
          when == at && shown == row && (AccessExpired(shown, when) ==> when <= shown.accessExpires + grace))
      && (kind.InGrace? ==> when <= since + grace)
    case Loaded(row, at, _, _) => at < row.absoluteExpires
    case InFlight(row, at, _) => at < row.absoluteExpires
    case _ => true
  }

  ghost predicate ReqsInv(reqs: map<nat, Req>, grace: int) { forall r :: r in reqs ==> ReqInv(reqs[r], grace) }

  ghost predicate TimeInv(s: Sys, grace: int) {
    && s.now > 0 && (s.outage.Some? ==> s.outage.value > 0)
    && (s.row.Some? ==> Stamped(s.row.value, s.outage))
    && (s.flight.Holding? ==>
        Stamped(s.flight.cur, s.outage) && (s.row.Some? ==> s.row.value.refresh == s.flight.cur.refresh))
    && ReqsInv(s.reqs, grace)
  }

  /** The first refresh to fail, and its stamp is not stored although the row is there. */
  predicate LosesStamp(s: Sys, step: Step) {
    && s.row.Some? && s.outage.None?
    && match step
       case Look(read, configured, stuck) =>
         stuck && read && !configured && s.flight.Looking? && s.row.value.access == s.flight.stale
           && s.row.value.refresh.Some?
       case Grant(Transient(_), stuck) => stuck && s.flight.Holding? && s.flight.cur.refresh.Some?
       case _ => false
  }

  lemma {:induction false} FinishTimes(s: Sys, result: Result, grace: int)
    requires ReqsInv(s.reqs, grace) && (result.Unavailable? ==> result.row.failingSince == result.since > 0)
    ensures ReqsInv(Finish(s, result).reqs, grace)
  {
    var t := Finish(s, result);
    forall r | r in t.reqs ensures ReqInv(t.reqs[r], grace) { assert ReqInv(s.reqs[r], grace); }
  }

  /** The requests come out right, whatever the step. */
  lemma {:induction false} ReqsStep(s: Sys, step: Step, grace: int)
    requires TimeInv(s, grace)
    ensures ReqsInv(Next(s, step, grace).reqs, grace)
  {
    match step
    case Arrive(r, read, stuck) =>
    case Ask(r, stale, read, stuck) =>
    case Glance(r, read) =>
    case Enter(r) => if r in s.reqs { assert ReqInv(s.reqs[r], grace); }
    case Conclude(r) => if r in s.reqs { assert ReqInv(s.reqs[r], grace); }
    case Look(read, configured, stuck) => ReqsFlight(s, step, grace);
    case Grant(reply, stuck) => ReqsFlight(s, step, grace);
    case Save(stuck) => ReqsFlight(s, step, grace);
    case _ =>
  }

  lemma {:induction false} ReqsFlight(s: Sys, step: Step, grace: int)
    requires TimeInv(s, grace) && (step.Look? || step.Grant? || step.Save?)
    ensures ReqsInv(Next(s, step, grace).reqs, grace)
  {
    hide Finish, ReqInv;
    forall t: Sys, result: Result | t.reqs == s.reqs
      && (result.Unavailable? ==> result.row.failingSince == result.since > 0)
      ensures ReqsInv(Finish(t, result).reqs, grace)
    {
      FinishTimes(t, result, grace);
    }
  }

  /** From a sound state, a step makes the stored stamp disagree with the outage exactly when it
      loses the stamp of the first failure. */
  lemma {:induction false} TimeStep(s: Sys, step: Step, grace: int)
    requires TimeInv(s, grace)
    ensures var t := Next(s, step, grace);
            && ((t.row.Some? && !Stamped(t.row.value, t.outage)) <==> LosesStamp(s, step))
            && (!LosesStamp(s, step) ==> TimeInv(t, grace))
            && (LosesStamp(s, step) ==>
                t.flight.NoFlight? && t.row == s.row && t.row.value.refresh.Some? && t.outage == Some(t.now)
                  && t.now == s.now)
  {
    hide ReqInv, ReqsInv;
    ReqsStep(s, step, grace);
  }

  ghost predicate KeepsStamps(s: Sys, steps: seq<Step>, grace: int) { Avoids(LosesStamp, s, steps, grace) }

  lemma {:induction false} TimeRun(s: Sys, steps: seq<Step>, grace: int)
    requires TimeInv(s, grace) && KeepsStamps(s, steps, grace)
    ensures TimeInv(Run(s, steps, grace), grace)
  {
    hide TimeInv, Next, LosesStamp;
    if steps != [] {
      var n := |steps| - 1;
      TimeRun(s, steps[..n], grace);
      TimeStep(Run(s, steps[..n], grace), steps[n], grace);
    }
  }

  lemma {:induction false} StartInTime(now: int, accessExpires: int, absoluteExpires: int, renewable: bool, grace: int)
    requires now > 0
    ensures TimeInv(Start(now, accessExpires, absoluteExpires, renewable), grace)
  {
  }

  /** Served on an expired access token past the grace: on the writer that of the outage, on a
      replica that of the token. */
  ghost predicate PastGrace(q: Req, grace: int) {
    && q.Served? && AccessExpired(q.shown, q.when)
    && match q.kind
       case Unexpired => true
       case InGrace => q.when > q.since + grace
       case OnReplica => q.when > q.shown.accessExpires + grace
       case Refreshed => false
  }

  ghost predicate NonePastGrace(reqs: map<nat, Req>, grace: int) {
    forall r :: r in reqs ==> !PastGrace(reqs[r], grace)
  }

  /** Over every run of writer and replicas that keeps its failure stamps, an expired access
      token is served on the writer no later than the first failure of the outage plus grace,
      and on a replica no later than its expiry plus grace; a row handed over by a flight is
      another matter. */
  lemma {:induction false} GraceKept(
      steps: seq<Step>, grace: int, now: int, accessExpires: int, absoluteExpires: int, renewable: bool)
    requires now > 0 && KeepsStamps(Start(now, accessExpires, absoluteExpires, renewable), steps, grace)
    ensures NonePastGrace(Run(Start(now, accessExpires, absoluteExpires, renewable), steps, grace).reqs, grace)
  {
    hide Run, KeepsStamps;
    StartInTime(now, accessExpires, absoluteExpires, renewable, grace);
    TimeRun(Start(now, accessExpires, absoluteExpires, renewable), steps, grace);
    NotPastGrace(Run(Start(now, accessExpires, absoluteExpires, renewable), steps, grace).reqs, grace);
  }

  lemma {:induction false} NotPastGrace(reqs: map<nat, Req>, grace: int)
    requires ReqsInv(reqs, grace)
    ensures NonePastGrace(reqs, grace)
  {
    forall r | r in reqs ensures !PastGrace(reqs[r], grace) { assert ReqInv(reqs[r], grace); }
  }

  // ----- exactly when the writer's bound can fail -----

  /** At time at, refreshing fails again and a request is served in what it takes for grace. */
  function Outage(r: nat, at: int): seq<Step> {
    [Tick(at)] + [Arrive(r, true, false)] + [Enter(r)] + [Look(true, false, false)] + [Conclude(r)]
  }

  lemma {:induction false} OutageServes(s: Sys, r: nat, at: int, grace: int)
    requires s.flight.NoFlight? && r !in s.reqs && s.row.Some? && s.row.value.refresh.Some?
             && s.row.value.failingSince == 0
    requires s.outage.Some? && s.now <= at < s.row.value.absoluteExpires && AccessExpired(s.row.value, at)
             && grace >= 0 && at > 0
    ensures var t := Run(s, Outage(r, at), grace);
            r in t.reqs && t.reqs[r].Served? && t.reqs[r].kind.InGrace? && t.reqs[r].when == at
              && t.reqs[r].since == s.outage.value
            && AccessExpired(t.reqs[r].shown, at)
  {
    var k, a, e, l, c := Tick(at), Arrive(r, true, false), Enter(r), Look(true, false, false), Conclude(r);
    RunOne(s, k, grace);
    RunMore(s, [k], a, grace);
    RunMore(s, [k] + [a], e, grace);
    RunMore(s, [k] + [a] + [e], l, grace);
    RunMore(s, [k] + [a] + [e] + [l], c, grace);
    var s2 := Next(Next(s, k, grace), a, grace);
    assert s2.reqs[r] == Loaded(s.row.value, at, s.row.value.access, false) && s2.row == s.row;
    var s4 := Next(Next(s2, e, grace), l, grace);
    assert s4.reqs[r] == Got(s.row.value, at, false, Unavailable(s.row.value.(failingSince := at), s.outage.value));
  }

  lemma {:induction false} OutageAvoids(s: Sys, steps: seq<Step>, r: nat, at: int, grace: int)
    requires KeepsStamps(s, steps, grace)
    ensures KeepsStamps(s, steps + Outage(r, at), grace)
  {
    hide Run, Avoids;
    var k, a, e, l, c := Tick(at), Arrive(r, true, false), Enter(r), Look(true, false, false), Conclude(r);
    AvoidsMore(LosesStamp, s, steps, k, grace);
    AvoidsMore(LosesStamp, s, steps + [k], a, grace);
    AvoidsMore(LosesStamp, s, steps + [k] + [a], e, grace);
    AvoidsMore(LosesStamp, s, steps + [k] + [a] + [e], l, grace);
    AvoidsMore(LosesStamp, s, steps + [k] + [a] + [e] + [l], c, grace);
    assert steps + Outage(r, at) == steps + [k] + [a] + [e] + [l] + [c];
  }

  /** Later in the session's life than at, whatever the row was along the run, its access token
      has expired and a grace begun during the run is over. */
  ghost predicate Afterwards(s: Sys, steps: seq<Step>, at: int, grace: int, expires: int) {
    && grace >= 0 && Run(s, steps, grace).now + grace < at < expires
    && forall n: nat :: n <= |steps| && Run(s, steps[..n], grace).row.Some? ==>
       AccessExpired(Run(s, steps[..n], grace).row.value, at)
  }

  /** No outage later on, after any part of the run, serves a request past its grace. */
  ghost predicate GraceHolds(s: Sys, steps: seq<Step>, at: int, grace: int) {
    forall n: nat, r: nat ::
      n <= |steps| && r !in Run(s, steps[..n], grace).reqs
      ==> NonePastGrace(Run(s, steps[..n] + Outage(r, at), grace).reqs, grace)
  }

  /** The grace of an outage can be overrun exactly when some step loses the stamp of the first
      failure. */
  lemma {:induction false} GraceExactlyWhen(
      steps: seq<Step>, at: int, grace: int, now: int, accessExpires: int, absoluteExpires: int, renewable: bool)
    requires now > 0
             && Afterwards(Start(now, accessExpires, absoluteExpires, renewable), steps, at, grace, absoluteExpires)
    ensures var s := Start(now, accessExpires, absoluteExpires, renewable);
            KeepsStamps(s, steps, grace) <==> GraceHolds(s, steps, at, grace)
  {
    hide Run, Avoids, TimeInv, Next, Outage, Afterwards, NonePastGrace;
    var s := Start(now, accessExpires, absoluteExpires, renewable);
    if KeepsStamps(s, steps, grace) {
      forall n: nat, r: nat | n <= |steps| && r !in Run(s, steps[..n], grace).reqs
        ensures NonePastGrace(Run(s, steps[..n] + Outage(r, at), grace).reqs, grace)
      {
        AvoidsPrefix(LosesStamp, s, steps, n, grace);
        OutageAvoids(s, steps[..n], r, at, grace);
        GraceKept(steps[..n] + Outage(r, at), grace, now, accessExpires, absoluteExpires, renewable);
      }
    } else {
      var n := FirstBad(LosesStamp, s, steps, grace);
      StartInTime(now, accessExpires, absoluteExpires, renewable, grace);
      var r := LostStampOverruns(s, steps, n, at, grace, absoluteExpires);
      assert !NonePastGrace(Run(s, steps[..n + 1] + Outage(r, at), grace).reqs, grace);
    }
  }

  lemma {:induction false} LostStampOverruns(s: Sys, steps: seq<Step>, n: nat, at: int, grace: int, expires: int)
    returns (r: nat)
    requires TimeInv(s, grace) && Lifetime(s, expires) && Afterwards(s, steps, at, grace, expires)
    requires n < |steps| && KeepsStamps(s, steps[..n], grace) && LosesStamp(Run(s, steps[..n], grace), steps[n])
    ensures r !in Run(s, steps[..n + 1], grace).reqs
    ensures !NonePastGrace(Run(s, steps[..n + 1] + Outage(r, at), grace).reqs, grace)
  {
    hide Run, Avoids, Next, Outage;
    var part := steps[..n + 1];
    assert part == steps[..n] + [steps[n]];
    TimeRun(s, steps[..n], grace);
    RunMore(s, steps[..n], steps[n], grace);
    var t := Run(s, part, grace);
    TimeStep(Run(s, steps[..n], grace), steps[n], grace);
    RunLifetime(s, part, 0, grace, expires);
    RunLifetime(s, steps, n + 1, grace, expires);
    r := UnusedRequest(t.reqs);
    OutageServes(t, r, at, grace);
    RunTwo(s, part, Outage(r, at), grace);
    assert PastGrace(Run(s, part + Outage(r, at), grace).reqs[r], grace);
  }

  // ----- bounds that need no assumption -----

  ghost predicate LoadedInTime(q: Req, expires: int, grace: int) {
    match q
    case Loaded(row, at, _, _) => row.absoluteExpires == expires && at < expires
    case InFlight(row, at, _) => row.absoluteExpires == expires && at < expires
    case Got(row, at, _, _) => row.absoluteExpires == expires && at < expires
    case Served(row, at, kind, shown, when, _) =>
      && row.absoluteExpires == expires && at < expires
      && (kind.OnReplica? ==>
          when < expires && shown == row && (AccessExpired(row, when) ==> when <= row.accessExpires + grace))
      && (kind.Unexpired? ==> when < expires)
    case _ => true
  }

  ghost predicate AllLoaded(reqs: map<nat, Req>, expires: int, grace: int) {
    forall r :: r in reqs ==> LoadedInTime(reqs[r], expires, grace)
  }

  lemma {:induction false} LoadedStep(s: Sys, step: Step, grace: int, expires: int)
    requires Lifetime(s, expires) && AllLoaded(s.reqs, expires, grace)
    ensures AllLoaded(Next(s, step, grace).reqs, expires, grace)
  {
    var t := Next(s, step, grace);
    forall r | r in t.reqs ensures LoadedInTime(t.reqs[r], expires, grace) {
      if r in s.reqs { assert LoadedInTime(s.reqs[r], expires, grace); }
    }
  }

  lemma {:induction false} LoadedRun(s: Sys, steps: seq<Step>, grace: int, expires: int)
    requires Lifetime(s, expires) && AllLoaded(s.reqs, expires, grace)
    ensures AllLoaded(Run(s, steps, grace).reqs, expires, grace)
  {
    hide Next, Lifetime, LoadedInTime;
    if steps != [] {
      var front := steps[..|steps| - 1];
      LoadedRun(s, front, grace, expires);
      RunLifetime(s, front, 0, grace, expires);
      LoadedStep(Run(s, front, grace), steps[|steps| - 1], grace, expires);
    }
  }

  /** Over every run, whatever fails: a served session was loaded before its absolute expiry,
      and one served on a replica, or unexpired, is served before it. */
  lemma {:induction false} NeverLoadedPastExpiry(
      steps: seq<Step>, grace: int, now: int, accessExpires: int, absoluteExpires: int, renewable: bool)
    ensures AllLoaded(Run(Start(now, accessExpires, absoluteExpires, renewable), steps, grace).reqs, absoluteExpires,
            grace)
  {
    LoadedRun(Start(now, accessExpires, absoluteExpires, renewable), steps, grace, absoluteExpires);
  }

  /** A replica answers its own request and does nothing else: it sends no grant. */
  lemma {:induction false} ReplicaOnlyAnswers(s: Sys, r: nat, read: bool, grace: int)
    ensures var t := Next(s, Glance(r, read), grace);
            && t == s.(reqs := t.reqs) && (forall q :: q in s.reqs ==> q in t.reqs && t.reqs[q] == s.reqs[q])
            && t.reqs.Keys == s.reqs.Keys + {r}
    ensures r !in s.reqs && grace >= 0 ==>
              (Next(s, Glance(r, read), grace).reqs[r].Served? <==>
                 read && s.row.Some? && s.now < s.row.value.absoluteExpires
                 && (s.row.value.accessExpires == 0 || s.now <= s.row.value.accessExpires + grace))
  {
  }

  // ----- runs that show the bounds are sharp -----

  lemma {:induction false} Extend(s0: Sys, steps: seq<Step>, s: Sys, step: Step, grace: int)
    returns (steps': seq<Step>, s': Sys)
    requires Run(s0, steps, grace) == s
    ensures steps' == steps + [step] && s' == Next(s, step, grace) && Run(s0, steps', grace) == s'
  {
    steps', s' := steps + [step], Next(s, step, grace);
    RunMore(s0, steps, step, grace);
  }

  /** A stamp that was not stored restarts the grace: 900 seconds after the first failure a
      session with 10 seconds of grace is still served. */
  lemma {:induction false} LostStampRestartsGrace() returns (steps: seq<Step>)
    ensures var s := Run(Start(100, 100, 100000, true), steps, 10);
            2 in s.reqs && s.reqs[2].Served? && s.reqs[2].kind.InGrace? && s.reqs[2].when == s.reqs[2].since + 900
  {
    hide Run;
    var s0 := Start(100, 100, 100000, true);
    var s := s0;
    steps := [];
    assert Run(s0, [], 10) == s0 by { RunNone(s0, 10); }
    steps, s := Extend(s0, steps, s, Arrive(1, true, false), 10);
    steps, s := Extend(s0, steps, s, Enter(1), 10);
    steps, s := Extend(s0, steps, s, Look(true, false, true), 10);
    assert s.row == s0.row && s.outage == Some(100) && s.flight == NoFlight && 2 !in s.reqs;
    OutageServes(s, 2, 1000, 10);
    RunTwo(s0, steps, Outage(2, 1000), 10);
    steps := steps + Outage(2, 1000);
  }

  lemma {:induction false} RunNone(s: Sys, grace: int)
    ensures Run(s, [], grace) == s
  {
  }
}
