/** The absolute expiry of a session is looked at when a request loads it
    (internal/api/sessions.go). Exactly when a request is served past it. */
module SessionExpiry {
  import opened Sessions
  import K = SessionTokens
  import T = SessionTimes

  ghost predicate NoneServedPast(reqs: map<nat, Req>, expires: int) {
    forall r :: r in reqs && reqs[r].Served? ==> reqs[r].when < expires
  }

  predicate InGraceNow(row: Row, now: int, grace: int) {
    now - (if row.failingSince == 0 then now else row.failingSince) <= grace
  }

  /** A flight for another token than the row's is under way, or a request can start one: it
      ends with the row as it is. */
  predicate Odd(s: Sys) {
    && s.row.Some?
    && ((s.flight.Looking? && s.flight.stale != s.row.value.access)
        || exists r :: r in s.reqs && s.reqs[r].Loaded? && s.reqs[r].stale != s.row.value.access)
  }

  /** What is left of its flight lets the request be served. */
  predicate FlightHope(s: Sys, grace: int) {
    match s.flight
    case NoFlight => false
    case Looking(stale) => s.row.Some? && (s.row.value.access != stale || s.row.value.refresh.Some?)
    case Holding(_, cur) => s.row.Some? || InGraceNow(cur, s.now, grace)
    case Granted(_, _, _, _, _, allowed) => s.row.Some? && allowed
  }

  /** A request that wants to be served still can be. */
  predicate Hope(s: Sys, q: Req, grace: int) {
    match q
    case Loaded(_, _, stale, forced) =>
      !forced && ((s.row.Some? && (s.row.value.refresh.Some? || stale != s.row.value.access || Odd(s)))
                  || (s.flight.Holding? && InGraceNow(s.flight.cur, s.now, grace)))
    case InFlight(_, _, forced) => !forced && FlightHope(s, grace)
    case Got(_, _, forced, Fresh(_)) => !forced
    case Got(_, _, forced, Unavailable(row, _)) => !forced && InGraceNow(row, s.now, grace)
    case _ => false
  }

  predicate SomeHope(s: Sys, grace: int) { exists r :: r in s.reqs && Hope(s, s.reqs[r], grace) }

  /** The clock passes the expiry while some request can still be served. */
  ghost function Overdue(expires: int, grace: int): (Sys, Step) -> bool {
    (s: Sys, step: Step) => step.Tick? && s.now < expires <= step.to && SomeHope(s.(now := step.to), grace)
  }

  /** Nobody waits without a flight, and a flight holds a row it can renew. */
  ghost predicate FlightsHeld(s: Sys) {
    && (forall r :: r in s.reqs && s.reqs[r].InFlight? ==> !s.flight.NoFlight?)
    && (s.flight.Holding? ==> s.flight.cur.refresh.Some?)
  }

  ghost predicate ExpiryInv(s: Sys, expires: int, grace: int) {
    && K.FlightInv(s) && Lifetime(s, expires) && FlightsHeld(s) && NoneServedPast(s.reqs, expires)
    && (s.now >= expires ==> !SomeHope(s, grace))
  }

  lemma {:induction false} HeldStep(s: Sys, step: Step, grace: int)
    requires FlightsHeld(s)
    ensures FlightsHeld(Next(s, step, grace))
  {
    var t := Next(s, step, grace);
    forall r | r in t.reqs && t.reqs[r].InFlight? ensures !t.flight.NoFlight? {
      if r in s.reqs && s.reqs[r].InFlight? { assert !s.flight.NoFlight?; }
    }
  }

  /** Past the expiry no step but a save starts something odd. */
  lemma {:induction false} OddStays(s: Sys, step: Step, grace: int, expires: int)
    requires Lifetime(s, expires) && s.now >= expires && !step.Save? && Odd(Next(s, step, grace))
    ensures Odd(s)
  {
    var t := Next(s, step, grace);
    assert s.row.Some? && t.row.value.access == s.row.value.access;
    if r :| r in t.reqs && t.reqs[r].Loaded? && t.reqs[r].stale != t.row.value.access {
      assert r in s.reqs && s.reqs[r] == t.reqs[r];
    } else if step.Enter? && step.r in s.reqs && s.reqs[step.r].Loaded? && s.flight.NoFlight? {
      assert s.reqs[step.r].stale == t.flight.stale;
    }
  }

  /** Past the expiry, hope that is lost stays lost, and nobody is served. */
  lemma {:induction false} HopeStaysLost(s: Sys, step: Step, grace: int, expires: int, r: nat)
    requires K.FlightInv(s) && Lifetime(s, expires) && FlightsHeld(s) && s.now >= expires && !SomeHope(s, grace)
    ensures var t := Next(s, step, grace);
            r in t.reqs ==> !Hope(t, t.reqs[r], grace) && (t.reqs[r].Served? ==> r in s.reqs && t.reqs[r] == s.reqs[r])
  {
    var t := Next(s, step, grace);
    if r in t.reqs && r in s.reqs {
      assert !Hope(s, s.reqs[r], grace);
      if !step.Save? && Odd(t) { OddStays(s, step, grace, expires); }
      hide Odd;
      if step.Look? {
        LostInLook(s, step, grace, r);
      } else if step.Grant? {
        LostInGrant(s, step, grace, r);
      } else if step.Save? {
        LostInSave(s, step, grace, r);
      } else {
        LostElsewhere(s, step, grace, expires, r);
      }
    }
  }

  lemma {:induction false} LostInLook(s: Sys, step: Step, grace: int, r: nat)
    requires K.FlightInv(s) && FlightsHeld(s) && step.Look?
    requires r in s.reqs && !Hope(s, s.reqs[r], grace) && (Odd(Next(s, step, grace)) ==> Odd(s))
    ensures var t := Next(s, step, grace);
            r in t.reqs && !Hope(t, t.reqs[r], grace) && (t.reqs[r].Served? ==> t.reqs[r] == s.reqs[r])
  {
    hide Odd;
  }

  lemma {:induction false} LostInGrant(s: Sys, step: Step, grace: int, r: nat)
    requires K.FlightInv(s) && FlightsHeld(s) && step.Grant?
    requires r in s.reqs && !Hope(s, s.reqs[r], grace) && (Odd(Next(s, step, grace)) ==> Odd(s))
    ensures var t := Next(s, step, grace);
            r in t.reqs && !Hope(t, t.reqs[r], grace) && (t.reqs[r].Served? ==> t.reqs[r] == s.reqs[r])
  {
    hide Odd;
  }

  lemma {:induction false} LostInSave(s: Sys, step: Step, grace: int, r: nat)
    requires K.FlightInv(s) && FlightsHeld(s) && step.Save?
    requires r in s.reqs && !Hope(s, s.reqs[r], grace)
    ensures var t := Next(s, step, grace);
            r in t.reqs && !Hope(t, t.reqs[r], grace) && (t.reqs[r].Served? ==> t.reqs[r] == s.reqs[r])
  {
    hide Odd;
  }

  lemma {:induction false} LostElsewhere(s: Sys, step: Step, grace: int, expires: int, r: nat)
    requires K.FlightInv(s) && Lifetime(s, expires) && FlightsHeld(s) && s.now >= expires
    requires !step.Look? && !step.Grant? && !step.Save?
    requires r in s.reqs && !Hope(s, s.reqs[r], grace) && (Odd(Next(s, step, grace)) ==> Odd(s))
    ensures var t := Next(s, step, grace);
            r in t.reqs && !Hope(t, t.reqs[r], grace) && (t.reqs[r].Served? ==> t.reqs[r] == s.reqs[r])
  {
    if step.Enter? && step.r == r && s.flight.Looking? && s.row.Some? && s.flight.stale != s.row.value.access {
      assert Odd(s);
    }
    hide Odd;
  }

  lemma {:induction false} ExpiryStep(s: Sys, step: Step, grace: int, expires: int)
    requires ExpiryInv(s, expires, grace) && !Overdue(expires, grace)(s, step)
    ensures ExpiryInv(Next(s, step, grace), expires, grace)
  {
    hide Next, Hope, K.FlightInv, FlightsHeld;
    var t := Next(s, step, grace);
    K.FlightStep(s, step, grace);
    HeldStep(s, step, grace);
    StepLifetime(s, step, grace, expires);
    if s.now >= expires {
      forall r | r in t.reqs ensures !Hope(t, t.reqs[r], grace) && (t.reqs[r].Served? ==> t.reqs[r].when < expires) {
        HopeStaysLost(s, step, grace, expires, r);
      }
    } else {
      ServedBefore(s, step, grace, expires);
      TickOnly(s, step, grace);
    }
  }

  lemma {:induction false} TickOnly(s: Sys, step: Step, grace: int)
    ensures var t := Next(s, step, grace); t.now != s.now ==> step.Tick? && t == s.(now := step.to)
  {
  }

  lemma {:induction false} ServedBefore(s: Sys, step: Step, grace: int, expires: int)
    requires s.now < expires && NoneServedPast(s.reqs, expires)
    ensures NoneServedPast(Next(s, step, grace).reqs, expires)
  {
    var t := Next(s, step, grace);
    forall r | r in t.reqs && t.reqs[r].Served? ensures t.reqs[r].when < expires {
      if r in s.reqs && s.reqs[r].Served? { assert s.reqs[r].when < expires; }
    }
  }

  ghost predicate NoneOverdue(s: Sys, steps: seq<Step>, expires: int, grace: int) {
    Avoids(Overdue(expires, grace), s, steps, grace)
  }

  lemma {:induction false} ExpiryRun(s: Sys, steps: seq<Step>, grace: int, expires: int)
    requires ExpiryInv(s, expires, grace) && NoneOverdue(s, steps, expires, grace)
    ensures ExpiryInv(Run(s, steps, grace), expires, grace)
  {
    hide Next, ExpiryInv, Overdue;
    if steps != [] {
      var n := |steps| - 1;
      ExpiryRun(s, steps[..n], grace, expires);
      ExpiryStep(Run(s, steps[..n], grace), steps[n], grace, expires);
    }
  }

  // ----- how a request with hope is served -----

  ghost predicate NoTicks(steps: seq<Step>) { forall i :: 0 <= i < |steps| ==> !steps[i].Tick? }

  /** more serves request r, now. */
  ghost predicate Serves(s: Sys, more: seq<Step>, r: nat, grace: int) {
    var t := Run(s, more, grace);
    NoTicks(more) && r in t.reqs && t.reqs[r].Served? && t.reqs[r].when == s.now
  }

  lemma {:induction false} StepFirst(s: Sys, step: Step, more: seq<Step>, r: nat, grace: int)
    requires !step.Tick? && Serves(Next(s, step, grace), more, r, grace)
    ensures Serves(s, [step] + more, r, grace)
  {
    hide Next;
    RunTwo(s, [step], more, grace);
    RunOne(s, step, grace);
    TickOnly(s, step, grace);
  }

  lemma {:induction false} ServeGot(s: Sys, r: nat, grace: int) returns (more: seq<Step>)
    requires r in s.reqs && s.reqs[r].Got? && Hope(s, s.reqs[r], grace)
    ensures Serves(s, more, r, grace)
  {
    more := [Conclude(r)];
    RunOne(s, Conclude(r), grace);
  }

  lemma {:induction false} ServeGranted(s: Sys, r: nat, grace: int) returns (more: seq<Step>)
    requires r in s.reqs && s.reqs[r].InFlight? && !s.reqs[r].forced && s.flight.Granted? && FlightHope(s, grace)
    ensures Serves(s, more, r, grace)
  {
    var t := Next(s, Save(false), grace);
    assert t.reqs[r].Got? && t.reqs[r].result.Fresh?;
    more := ServeGot(t, r, grace);
    StepFirst(s, Save(false), more, r, grace);
    more := [Save(false)] + more;
  }

  lemma {:induction false} ServeHolding(s: Sys, r: nat, grace: int) returns (more: seq<Step>)
    requires r in s.reqs && s.reqs[r].InFlight? && !s.reqs[r].forced && s.flight.Holding? && FlightHope(s, grace)
    requires s.flight.cur.refresh.Some?
    ensures Serves(s, more, r, grace)
  {
    if s.row.Some? {
      var g := Grant(Success(0, true), false);
      var t := Next(s, g, grace);
      assert t.flight.Granted? && t.flight.allowed && t.row == s.row && t.reqs == s.reqs;
      more := ServeGranted(t, r, grace);
      StepFirst(s, g, more, r, grace);
      more := [g] + more;
    } else {
      var g := Grant(Transient(false), false);
      var t := Next(s, g, grace);
      assert t.reqs[r].Got? && t.reqs[r].result.Unavailable? && InGraceNow(t.reqs[r].result.row, t.now, grace);
      more := ServeGot(t, r, grace);
      StepFirst(s, g, more, r, grace);
      more := [g] + more;
    }
  }

  lemma {:induction false} ServeLooking(s: Sys, r: nat, grace: int) returns (more: seq<Step>)
    requires r in s.reqs && s.reqs[r].InFlight? && !s.reqs[r].forced && s.flight.Looking? && FlightHope(s, grace)
    ensures Serves(s, more, r, grace)
  {
    var l := Look(true, true, false);
    var t := Next(s, l, grace);
    if s.row.value.access != s.flight.stale {
      assert t.reqs[r].Got? && t.reqs[r].result.Fresh?;
      more := ServeGot(t, r, grace);
    } else {
      assert t.flight == Holding(s.flight.stale, s.row.value) && t.row == s.row && t.reqs == s.reqs;
      more := ServeHolding(t, r, grace);
    }
    StepFirst(s, l, more, r, grace);
    more := [l] + more;
  }

  lemma {:induction false} ServeInFlight(s: Sys, r: nat, grace: int) returns (more: seq<Step>)
    requires r in s.reqs && s.reqs[r].InFlight? && Hope(s, s.reqs[r], grace) && FlightsHeld(s)
    ensures Serves(s, more, r, grace)
  {
    match s.flight
    case NoFlight =>
    case Looking(_) => more := ServeLooking(s, r, grace);
    case Holding(_, _) => more := ServeHolding(s, r, grace);
    case Granted(_, _, _, _, _, _) => more := ServeGranted(s, r, grace);
  }

  /** Ends the flight under way and leaves the row. */
  function Abandon(f: Flight): Step {
    match f
    case Holding(_, _) => Grant(Rejected, true)
    case Granted(_, _, _, _, _, _) => Save(true)
    case _ => Look(false, true, true)
  }

  lemma {:induction false} Abandoned(s: Sys, grace: int)
    requires FlightsHeld(s)
    ensures var t := Next(s, Abandon(s.flight), grace);
            && t.flight.NoFlight? && t.row == s.row && t.now == s.now && FlightsHeld(t)
            && forall r :: r in s.reqs && s.reqs[r].Loaded? ==> r in t.reqs && t.reqs[r] == s.reqs[r]
  {
  }

  lemma {:induction false} ServeEntering(s: Sys, r: nat, grace: int) returns (more: seq<Step>)
    requires FlightsHeld(s) && r in s.reqs && s.reqs[r].Loaded? && !s.reqs[r].forced
    requires FlightHope(Next(s, Enter(r), grace), grace)
    ensures Serves(s, more, r, grace)
  {
    HeldStep(s, Enter(r), grace);
    more := ServeInFlight(Next(s, Enter(r), grace), r, grace);
    StepFirst(s, Enter(r), more, r, grace);
    more := [Enter(r)] + more;
  }

  /** With no flight under way. */
  lemma {:induction false} ServeIdle(s: Sys, r: nat, grace: int) returns (more: seq<Step>)
    requires FlightsHeld(s) && s.flight.NoFlight? && s.row.Some?
    requires r in s.reqs && s.reqs[r].Loaded? && Hope(s, s.reqs[r], grace)
    ensures Serves(s, more, r, grace)
  {
    if s.row.value.refresh.Some? || s.reqs[r].stale != s.row.value.access {
      more := ServeEntering(s, r, grace);
    } else {
      var other :| other in s.reqs && s.reqs[other].Loaded? && s.reqs[other].stale != s.row.value.access;
      HeldStep(s, Enter(other), grace);
      more := ServeEntering(Next(s, Enter(other), grace), r, grace);
      StepFirst(s, Enter(other), more, r, grace);
      more := [Enter(other)] + more;
    }
  }

  lemma {:induction false} ServeLoaded(s: Sys, r: nat, grace: int) returns (more: seq<Step>)
    requires FlightsHeld(s) && r in s.reqs && s.reqs[r].Loaded? && Hope(s, s.reqs[r], grace)
    ensures Serves(s, more, r, grace)
  {
    if (s.flight.Holding? && InGraceNow(s.flight.cur, s.now, grace))
       || (s.flight.Looking? && s.row.Some? && s.flight.stale != s.row.value.access) {
      more := ServeEntering(s, r, grace);
    } else {
      Abandoned(s, grace);
      var e := Abandon(s.flight);
      var t := Next(s, e, grace);
      OddKept(s, t);
      more := ServeIdle(t, r, grace);
      StepFirst(s, e, more, r, grace);
      more := [e] + more;
    }
  }

  lemma {:induction false} OddKept(s: Sys, t: Sys)
    requires t.row == s.row && !(s.flight.Looking? && s.row.Some? && s.flight.stale != s.row.value.access)
    requires forall r :: r in s.reqs && s.reqs[r].Loaded? ==> r in t.reqs && t.reqs[r] == s.reqs[r]
    ensures Odd(s) ==> Odd(t)
  {
  }

  /** Hope is met: some continuation serves the request at once. */
  lemma {:induction false} HopeIsMet(s: Sys, r: nat, grace: int) returns (more: seq<Step>)
    requires FlightsHeld(s) && r in s.reqs && Hope(s, s.reqs[r], grace)
    ensures Serves(s, more, r, grace)
  {
    match s.reqs[r]
    case Loaded(_, _, _, _) => more := ServeLoaded(s, r, grace);
    case InFlight(_, _, _) => more := ServeInFlight(s, r, grace);
    case Got(_, _, _, _) => more := ServeGot(s, r, grace);
    case _ =>
  }

  // ----- exactly when -----

  /** Stopped anywhere and carried on without waiting, the run serves nobody past the expiry. */
  ghost predicate NeverPast(s: Sys, steps: seq<Step>, expires: int, grace: int) {
    forall n: nat, more: seq<Step> ::
      n <= |steps| && NoTicks(more) ==> NoneServedPast(Run(s, steps[..n] + more, grace).reqs, expires)
  }

  lemma {:induction false} NoTicksOverdue(s: Sys, steps: seq<Step>, more: seq<Step>, expires: int, grace: int)
    requires NoneOverdue(s, steps, expires, grace) && NoTicks(more)
    ensures NoneOverdue(s, steps + more, expires, grace)
    decreases |more|
  {
    hide Run, SomeHope;
    if more == [] {
      assert steps + more == steps;
    } else {
      var front := more[..|more| - 1];
      NoTicksOverdue(s, steps, front, expires, grace);
      AvoidsMore(Overdue(expires, grace), s, steps + front, more[|more| - 1], grace);
      assert steps + more == steps + front + [more[|more| - 1]];
    }
  }

  lemma {:induction false} OverdueIsServed(s: Sys, steps: seq<Step>, n: nat, expires: int, grace: int)
    returns (more: seq<Step>)
    requires ExpiryInv(s, expires, grace) && n < |steps| && NoneOverdue(s, steps[..n], expires, grace)
    requires Overdue(expires, grace)(Run(s, steps[..n], grace), steps[n])
    ensures NoTicks(more) && !NoneServedPast(Run(s, steps[..n + 1] + more, grace).reqs, expires)
  {
    hide Run, Hope, K.FlightInv, FlightsHeld;
    ExpiryRun(s, steps[..n], grace, expires);
    assert steps[..n + 1] == steps[..n] + [steps[n]];
    RunMore(s, steps[..n], steps[n], grace);
    var u := Run(s, steps[..n], grace);
    var t := Next(u, steps[n], grace);
    assert t == u.(now := steps[n].to);
    HeldStep(u, steps[n], grace);
    var r :| r in t.reqs && Hope(t, t.reqs[r], grace);
    more := HopeIsMet(t, r, grace);
    RunTwo(s, steps[..n + 1], more, grace);
  }

  /** A request is served past the absolute expiry, or can be, exactly when the clock passed it
      while some request could still be served. */
  lemma {:induction false} ExpiryExactlyWhen(
      steps: seq<Step>, grace: int, now: int, accessExpires: int, expires: int, renewable: bool)
    ensures var s := Start(now, accessExpires, expires, renewable);
            NoneOverdue(s, steps, expires, grace) <==> NeverPast(s, steps, expires, grace)
  {
    hide Run, Avoids, Overdue, Hope;
    var s := Start(now, accessExpires, expires, renewable);
    assert ExpiryInv(s, expires, grace);
    if NoneOverdue(s, steps, expires, grace) {
      forall n: nat, more: seq<Step> | n <= |steps| && NoTicks(more)
        ensures NoneServedPast(Run(s, steps[..n] + more, grace).reqs, expires)
      {
        AvoidsPrefix(Overdue(expires, grace), s, steps, n, grace);
        NoTicksOverdue(s, steps[..n], more, expires, grace);
        ExpiryRun(s, steps[..n] + more, grace, expires);
      }
    } else {
      var n := FirstBad(Overdue(expires, grace), s, steps, grace);
      var more := OverdueIsServed(s, steps, n, expires, grace);
    }
  }

  /** The absolute expiry is looked at when a session is loaded, not when it is served: a
      request that waits for its flight can be served past it. */
  lemma {:induction false} ServedPastAbsoluteExpiry() returns (steps: seq<Step>)
    ensures var s := Run(Start(100, 100, 200, true), steps, 10);
            1 in s.reqs && s.reqs[1].Served? && s.reqs[1].when == s.reqs[1].row.absoluteExpires + 50
  {
    hide Run;
    var s0 := Start(100, 100, 200, true);
    var s := s0;
    steps := [];
    assert Run(s0, [], 10) == s0 by { T.RunNone(s0, 10); }
    steps, s := T.Extend(s0, steps, s, Arrive(1, true, false), 10);
    steps, s := T.Extend(s0, steps, s, Enter(1), 10);
    steps, s := T.Extend(s0, steps, s, Look(true, true, false), 10);
    steps, s := T.Extend(s0, steps, s, Grant(Success(5000, true), false), 10);
    steps, s := T.Extend(s0, steps, s, Tick(250), 10);
    steps, s := T.Extend(s0, steps, s, Save(false), 10);
    steps, s := T.Extend(s0, steps, s, Conclude(1), 10);
  }
}
