/** What the single flight and the stale-token test buy: one successful grant per access token,
    and no grant with a refresh token the provider has rotated; each with exactly what breaks it. */
module SessionTokens {
  import opened Options
  import opened Sequences
  import opened Sessions

  ghost predicate Below(row: Row, issued: nat) {
    row.access < issued && (row.refresh.Some? ==> row.refresh.value < issued)
  }

  /** While a flight holds the row, nobody else changes its tokens; it may be deleted. */
  ghost predicate SameTokens(row: Option<Row>, cur: Row) {
    row.Some? ==> row.value.access == cur.access && row.value.refresh == cur.refresh
  }

  /** The flight acts for the token of the row it holds, and every token is an issued one. */
  ghost predicate FlightInv(s: Sys) {
    && (s.row.Some? ==> Below(s.row.value, s.issued))
    && (s.flight.Holding? ==>
        s.flight.stale == s.flight.cur.access && Below(s.flight.cur, s.issued) && SameTokens(s.row, s.flight.cur))
    && (s.flight.Granted? ==>
        s.flight.stale == s.flight.cur.access && s.flight.access < s.issued && s.flight.refresh < s.issued
                              && s.flight.cur.refresh.Some? && SameTokens(s.row, s.flight.cur))
  }

  lemma {:induction false} FlightStep(s: Sys, step: Step, grace: int)
    requires FlightInv(s)
    ensures FlightInv(Next(s, step, grace))
  {
  }

  // ----- one successful grant per access token -----

  /** The row still carries an access token that a grant has replaced. */
  ghost predicate Reusable(s: Sys) { !s.flight.Granted? && s.row.Some? && s.row.value.access in s.wins }

  ghost predicate WinInv(s: Sys) {
    && FlightInv(s) && !Reusable(s) && Distinct(s.wins)
    && (forall i :: 0 <= i < |s.wins| ==> s.wins[i] < s.issued)
    && (s.flight.Holding? ==> s.flight.stale !in s.wins)
    && (s.flight.Granted? ==> s.flight.stale in s.wins && s.flight.access !in s.wins)
  }

  /** The tokens of a successful grant are not stored, or the row of a user who lost access is
      not deleted, although the row is there. */
  predicate LosesTokens(s: Sys, step: Step) { step.Save? && step.stuck && s.flight.Granted? && s.row.Some? }

  ghost predicate FlightFacts(s: Sys) {
    && (s.row.Some? ==> s.row.value.access < s.issued)
    && (s.flight.Holding? ==> s.flight.stale < s.issued && (s.row.Some? ==> s.row.value.access == s.flight.stale))
    && (s.flight.Granted? ==> s.flight.access < s.issued && (s.row.Some? ==> s.row.value.access == s.flight.stale))
  }

  lemma {:induction false} Facts(s: Sys)
    requires FlightInv(s)
    ensures FlightFacts(s)
  {
  }

  lemma {:induction false} WinFlight(s: Sys, step: Step, grace: int)
    requires WinInv(s) && FlightFacts(s) && FlightInv(Next(s, step, grace)) && (step.Grant? || step.Save? || step.Look?)
    ensures Reusable(Next(s, step, grace)) <==> LosesTokens(s, step)
    ensures !LosesTokens(s, step) ==> WinInv(Next(s, step, grace))
    ensures LosesTokens(s, step) ==> Next(s, step, grace).flight.NoFlight?
  {
    hide FlightInv;
  }

  lemma {:induction false} WinStep(s: Sys, step: Step, grace: int)
    requires WinInv(s)
    ensures Reusable(Next(s, step, grace)) <==> LosesTokens(s, step)
    ensures !LosesTokens(s, step) ==> WinInv(Next(s, step, grace))
    ensures LosesTokens(s, step) ==> Next(s, step, grace).flight.NoFlight?
  {
    hide FlightInv;
    FlightStep(s, step, grace);
    Facts(s);
    if step.Grant? || step.Save? || step.Look? {
      WinFlight(s, step, grace);
    } else {
      hide GrantStep, SaveStep, LookStep;
    }
  }

  /** No step of the run loses the tokens of a grant. */
  ghost predicate Kept(s: Sys, steps: seq<Step>, grace: int) { Avoids(LosesTokens, s, steps, grace) }

  lemma {:induction false} WinRun(s: Sys, steps: seq<Step>, grace: int)
    requires WinInv(s) && Kept(s, steps, grace)
    ensures WinInv(Run(s, steps, grace))
  {
    hide WinInv, Next, LosesTokens;
    if steps != [] {
      WinRun(s, steps[..|steps| - 1], grace);
      WinStep(Run(s, steps[..|steps| - 1], grace), steps[|steps| - 1], grace);
    }
  }

  lemma {:induction false} StartWins(now: int, accessExpires: int, absoluteExpires: int, renewable: bool)
    ensures WinInv(Start(now, accessExpires, absoluteExpires, renewable))
  {
  }

  /** Over every run that keeps the tokens of its grants, even with a provider that accepts
      replays, no access token is refreshed with success twice, however many requests hold it. */
  lemma {:induction false} OneGrantPerToken(
      steps: seq<Step>, grace: int, now: int, accessExpires: int, absoluteExpires: int, renewable: bool)
    requires Kept(Start(now, accessExpires, absoluteExpires, renewable), steps, grace)
    ensures Distinct(Run(Start(now, accessExpires, absoluteExpires, renewable), steps, grace).wins)
  {
    hide Run, Kept;
    StartWins(now, accessExpires, absoluteExpires, renewable);
    WinRun(Start(now, accessExpires, absoluteExpires, renewable), steps, grace);
  }

  /** A request that forces a refresh, and the provider's answer. */
  function Renewal(r: nat, reply: Reply): seq<Step> {
    [Ask(r, None, true, false)] + [Enter(r)] + [Look(true, true, false)] + [Grant(reply, false)]
  }

  /** From an idle session within its lifetime a renewal sends the row's refresh token for the
      row's access token. */
  lemma {:induction false} RenewalSends(s: Sys, r: nat, reply: Reply, grace: int)
    requires s.flight.NoFlight? && r !in s.reqs && s.row.Some? && s.row.value.refresh.Some?
             && s.now < s.row.value.absoluteExpires
    ensures var t, token := Run(s, Renewal(r, reply), grace), s.row.value.refresh.value;
            && t.sent == s.sent + [Sending(token, token in s.rotated)]
            && t.wins == if reply.Success? then s.wins + [s.row.value.access] else s.wins
  {
    var a, e, l, g := Ask(r, None, true, false), Enter(r), Look(true, true, false), Grant(reply, false);
    RunOne(s, a, grace);
    RunMore(s, [a], e, grace);
    RunMore(s, [a] + [e], l, grace);
    RunMore(s, [a] + [e] + [l], g, grace);
    var s1 := Next(s, a, grace);
    var s2 := Next(s1, e, grace);
    assert s2.flight == Looking(s.row.value.access) && s2.row == s.row;
    var s3 := Next(s2, l, grace);
    assert s3.flight == Holding(s.row.value.access, s.row.value) && s3.sent == s.sent && s3.wins == s.wins
      && s3.rotated == s.rotated;
  }

  /** A bad step that is neither a save nor a failed grant does not occur in a renewal. */
  lemma {:induction false} RenewalAvoids(
      bad: (Sys, Step) -> bool, s: Sys, steps: seq<Step>, r: nat, reply: Reply, grace: int)
    requires Avoids(bad, s, steps, grace) && !reply.Transient?
    requires forall t: Sys, step: Step :: bad(t, step) ==> step.Save? || (step.Grant? && step.reply.Transient?)
    ensures Avoids(bad, s, steps + Renewal(r, reply), grace)
  {
    hide Run, Avoids;
    var a, e, l, g := Ask(r, None, true, false), Enter(r), Look(true, true, false), Grant(reply, false);
    AvoidsMore(bad, s, steps, a, grace);
    AvoidsMore(bad, s, steps + [a], e, grace);
    AvoidsMore(bad, s, steps + [a] + [e], l, grace);
    AvoidsMore(bad, s, steps + [a] + [e] + [l], g, grace);
    assert steps + Renewal(r, reply) == steps + [a] + [e] + [l] + [g];
  }

  /** No renewal, tried after any part of the run, is a second success for some token. */
  ghost predicate RenewsOnce(s: Sys, steps: seq<Step>, grace: int) {
    forall n: nat, r: nat, expires: int ::
      n <= |steps| && r !in Run(s, steps[..n], grace).reqs
      ==> Distinct(Run(s, steps[..n] + Renewal(r, Success(expires, true)), grace).wins)
  }

  /** Within the session's lifetime, a token can be refreshed with success twice exactly when
      some step loses the tokens of a grant. */
  lemma {:induction false} OneGrantExactlyWhen(
      steps: seq<Step>, grace: int, now: int, accessExpires: int, absoluteExpires: int, renewable: bool)
    requires Run(Start(now, accessExpires, absoluteExpires, renewable), steps, grace).now < absoluteExpires
    ensures var s := Start(now, accessExpires, absoluteExpires, renewable);
            Kept(s, steps, grace) <==> RenewsOnce(s, steps, grace)
  {
    hide Run, Avoids, WinInv, Next, Renewal;
    var s := Start(now, accessExpires, absoluteExpires, renewable);
    if Kept(s, steps, grace) {
      forall n: nat, r: nat, expires: int | n <= |steps| && r !in Run(s, steps[..n], grace).reqs
        ensures Distinct(Run(s, steps[..n] + Renewal(r, Success(expires, true)), grace).wins)
      {
        AvoidsPrefix(LosesTokens, s, steps, n, grace);
        RenewalAvoids(LosesTokens, s, steps[..n], r, Success(expires, true), grace);
        OneGrantPerToken(steps[..n] + Renewal(r, Success(expires, true)), grace, now, accessExpires, absoluteExpires,
          renewable);
      }
    } else {
      var n := FirstBad(LosesTokens, s, steps, grace);
      StartWins(now, accessExpires, absoluteExpires, renewable);
      var r := LostTokensGrantTwice(s, steps, n, grace, absoluteExpires);
      assert !Distinct(Run(s, steps[..n + 1] + Renewal(r, Success(0, true)), grace).wins);
    }
  }

  lemma {:induction false} LostTokensGrantTwice(s: Sys, steps: seq<Step>, n: nat, grace: int, absoluteExpires: int)
    returns (r: nat)
    requires WinInv(s) && Lifetime(s, absoluteExpires) && Run(s, steps, grace).now < absoluteExpires
    requires n < |steps| && Kept(s, steps[..n], grace) && LosesTokens(Run(s, steps[..n], grace), steps[n])
    ensures r !in Run(s, steps[..n + 1], grace).reqs
    ensures !Distinct(Run(s, steps[..n + 1] + Renewal(r, Success(0, true)), grace).wins)
  {
    hide Run, Kept, Next, Renewal, LosesTokens;
    var part := steps[..n + 1];
    assert part == steps[..n] + [steps[n]];
    WinRun(s, steps[..n], grace);
    RunMore(s, steps[..n], steps[n], grace);
    var before, t := Run(s, steps[..n], grace), Run(s, part, grace);
    WinStep(before, steps[n], grace);
    LostRow(before, steps[n], grace);
    RunLifetime(s, part, 0, grace, absoluteExpires);
    RunLifetime(s, steps, n + 1, grace, absoluteExpires);
    r := UnusedRequest(t.reqs);
    RenewalSends(t, r, Success(0, true), grace);
    RunTwo(s, part, Renewal(r, Success(0, true)), grace);
    TwiceInWins(t.wins, t.row.value.access);
  }

  lemma {:induction false} LostRow(s: Sys, step: Step, grace: int)
    requires WinInv(s) && LosesTokens(s, step)
    ensures var t := Next(s, step, grace);
            t.row.Some? && t.row.value.refresh.Some? && t.row == s.row && t.wins == s.wins
  {
  }

  lemma {:induction false} TwiceInWins(wins: seq<nat>, token: nat)
    requires token in wins
    ensures !Distinct(wins + [token])
  {
    var i :| 0 <= i < |wins| && wins[i] == token;
    var all := wins + [token];
    assert all[i] == all[|wins|];
  }

  // ----- no grant with a rotated token -----

  /** The row keeps a refresh token that the provider has rotated, and no flight is about to
      replace it. */
  ghost predicate Dead(s: Sys) {
    !s.flight.Granted? && s.row.Some? && s.row.value.refresh.Some? && s.row.value.refresh.value in s.rotated
  }

  ghost predicate LiveInv(s: Sys) {
    && FlightInv(s) && !Dead(s)
    && (forall t :: t in s.rotated ==> t < s.issued)
    && (s.flight.Holding? && s.flight.cur.refresh.Some? ==> s.flight.cur.refresh.value !in s.rotated)
    && (s.flight.Granted? ==> s.flight.refresh !in s.rotated && s.flight.cur.refresh.value in s.rotated)
    && (forall i :: 0 <= i < |s.sent| ==> !s.sent[i].rotated)
  }

  /** The three ways a row is left with a dead token: a grant that fails but rotates, tokens
      that cannot be saved, and a row that cannot be deleted after its user lost access. */
  predicate LeavesDead(s: Sys, step: Step) {
    match step
    case Grant(Transient(anyway), _) => anyway && s.flight.Holding? && s.flight.cur.refresh.Some? && s.row.Some?
    case Save(stuck) => stuck && s.flight.Granted? && s.row.Some?
    case _ => false
  }

  lemma {:induction false} LiveFlight(s: Sys, step: Step, grace: int)
    requires LiveInv(s) && FlightInv(Next(s, step, grace)) && (step.Grant? || step.Save? || step.Look?)
    ensures Dead(Next(s, step, grace)) <==> LeavesDead(s, step)
    ensures !LeavesDead(s, step) ==> LiveInv(Next(s, step, grace))
    ensures LeavesDead(s, step) ==> Next(s, step, grace).flight.NoFlight?
  {
  }

  lemma {:induction false} LiveStep(s: Sys, step: Step, grace: int)
    requires LiveInv(s)
    ensures Dead(Next(s, step, grace)) <==> LeavesDead(s, step)
    ensures !LeavesDead(s, step) ==> LiveInv(Next(s, step, grace))
    ensures LeavesDead(s, step) ==> Next(s, step, grace).flight.NoFlight?
  {
    FlightStep(s, step, grace);
    if step.Grant? || step.Save? || step.Look? {
      LiveFlight(s, step, grace);
    } else {
      hide GrantStep, SaveStep, LookStep, FlightInv;
    }
  }

  /** No failed grant rotated, saves fail only when the row has gone, and so does the delete of
      a session whose user lost access. */
  ghost predicate Sound(s: Sys, steps: seq<Step>, grace: int) { Avoids(LeavesDead, s, steps, grace) }

  lemma {:induction false} LiveRun(s: Sys, steps: seq<Step>, grace: int)
    requires LiveInv(s) && Sound(s, steps, grace)
    ensures LiveInv(Run(s, steps, grace))
  {
    hide LiveInv, Next, LeavesDead;
    if steps != [] {
      LiveRun(s, steps[..|steps| - 1], grace);
      LiveStep(Run(s, steps[..|steps| - 1], grace), steps[|steps| - 1], grace);
    }
  }

  lemma {:induction false} StartLives(now: int, accessExpires: int, absoluteExpires: int, renewable: bool)
    ensures LiveInv(Start(now, accessExpires, absoluteExpires, renewable))
  {
  }

  ghost predicate NoneRotated(sent: seq<Sending>) { forall i :: 0 <= i < |sent| ==> !sent[i].rotated }

  /** Over every sound interleaving, no refresh token that the provider has rotated is sent in
      a grant again. */
  lemma {:induction false} NeverResent(
      steps: seq<Step>, grace: int, now: int, accessExpires: int, absoluteExpires: int, renewable: bool)
    requires Sound(Start(now, accessExpires, absoluteExpires, renewable), steps, grace)
    ensures NoneRotated(Run(Start(now, accessExpires, absoluteExpires, renewable), steps, grace).sent)
  {
    hide Run, Sound;
    StartLives(now, accessExpires, absoluteExpires, renewable);
    LiveRun(Start(now, accessExpires, absoluteExpires, renewable), steps, grace);
  }

  /** A run is sound exactly when at no point of it the row holds a dead token. */
  lemma {:induction false} DeadExactlyWhen(s: Sys, steps: seq<Step>, grace: int)
    requires LiveInv(s)
    ensures Sound(s, steps, grace) <==> forall n: nat :: n <= |steps| ==> !Dead(Run(s, steps[..n], grace))
  {
    hide Run, Avoids, LiveInv, Next, LeavesDead, Dead;
    if Sound(s, steps, grace) {
      forall n: nat | n <= |steps| ensures !Dead(Run(s, steps[..n], grace)) {
        AvoidsPrefix(LeavesDead, s, steps, n, grace);
        LiveRun(s, steps[..n], grace);
        NotDead(Run(s, steps[..n], grace));
      }
    } else {
      var n := FirstBad(LeavesDead, s, steps, grace);
      FirstDead(s, steps, n, grace);
    }
  }

  lemma {:induction false} NotDead(s: Sys)
    requires LiveInv(s)
    ensures !Dead(s)
  {
  }

  lemma {:induction false} FirstDead(s: Sys, steps: seq<Step>, n: nat, grace: int)
    requires LiveInv(s) && n < |steps| && Sound(s, steps[..n], grace) && LeavesDead(Run(s, steps[..n], grace), steps[n])
    ensures var t := Run(s, steps[..n + 1], grace); Dead(t) && t.flight.NoFlight?
  {
    hide Run, Avoids, LiveInv, Next, LeavesDead, Dead;
    assert steps[..n + 1] == steps[..n] + [steps[n]];
    LiveRun(s, steps[..n], grace);
    RunMore(s, steps[..n], steps[n], grace);
    LiveStep(Run(s, steps[..n], grace), steps[n], grace);
  }

  /** No renewal, tried after any part of the run, sends a rotated token. */
  ghost predicate RenewsFresh(s: Sys, steps: seq<Step>, grace: int) {
    forall n: nat, r: nat ::
      n <= |steps| && r !in Run(s, steps[..n], grace).reqs
      ==> NoneRotated(Run(s, steps[..n] + Renewal(r, Rejected), grace).sent)
  }

  /** Within the session's lifetime, a rotated token can be sent in a grant exactly when some
      step is one of the three that leave a dead token. */
  lemma {:induction false} ResentExactlyWhen(
      steps: seq<Step>, grace: int, now: int, accessExpires: int, absoluteExpires: int, renewable: bool)
    requires Run(Start(now, accessExpires, absoluteExpires, renewable), steps, grace).now < absoluteExpires
    ensures var s := Start(now, accessExpires, absoluteExpires, renewable);
            Sound(s, steps, grace) <==> RenewsFresh(s, steps, grace)
  {
    hide Run, Avoids, LiveInv, Next, Renewal;
    var s := Start(now, accessExpires, absoluteExpires, renewable);
    if Sound(s, steps, grace) {
      forall n: nat, r: nat | n <= |steps| && r !in Run(s, steps[..n], grace).reqs
        ensures NoneRotated(Run(s, steps[..n] + Renewal(r, Rejected), grace).sent)
      {
        AvoidsPrefix(LeavesDead, s, steps, n, grace);
        RenewalAvoids(LeavesDead, s, steps[..n], r, Rejected, grace);
        NeverResent(steps[..n] + Renewal(r, Rejected), grace, now, accessExpires, absoluteExpires, renewable);
      }
    } else {
      var n := FirstBad(LeavesDead, s, steps, grace);
      StartLives(now, accessExpires, absoluteExpires, renewable);
      var r := DeadIsResent(s, steps, n, grace, absoluteExpires);
      assert !NoneRotated(Run(s, steps[..n + 1] + Renewal(r, Rejected), grace).sent);
    }
  }

  /** After the first step that leaves a dead token, the next renewal sends it. */
  lemma {:induction false} DeadIsResent(s: Sys, steps: seq<Step>, n: nat, grace: int, absoluteExpires: int)
    returns (r: nat)
    requires LiveInv(s) && Lifetime(s, absoluteExpires) && Run(s, steps, grace).now < absoluteExpires
    requires n < |steps| && Sound(s, steps[..n], grace) && LeavesDead(Run(s, steps[..n], grace), steps[n])
    ensures r !in Run(s, steps[..n + 1], grace).reqs
    ensures !NoneRotated(Run(s, steps[..n + 1] + Renewal(r, Rejected), grace).sent)
  {
    hide Run, Sound, Next, Renewal, LeavesDead, LiveInv;
    var part := steps[..n + 1];
    FirstDead(s, steps, n, grace);
    var t := Run(s, part, grace);
    RunLifetime(s, part, 0, grace, absoluteExpires);
    RunLifetime(s, steps, n + 1, grace, absoluteExpires);
    r := UnusedRequest(t.reqs);
    RenewalSends(t, r, Rejected, grace);
    RunTwo(s, part, Renewal(r, Rejected), grace);
    var sent := Run(s, part + Renewal(r, Rejected), grace).sent;
    assert sent[|t.sent|].rotated;
  }

  /** The ways to a dead token, from login on: the provider rotates and fails to answer, the
      new tokens are not stored, or the row of a user who lost access is not deleted. */
  function WayToDead(way: nat, expires: int): seq<Step> {
    if way == 0 then Renewal(0, Transient(true))
    else Renewal(0, Success(expires, way == 1)) + [Save(true)]
  }

  /** All three happen in every session that can be renewed, and the second and third also let
      its token be refreshed twice. */
  lemma {:induction false} EveryWayHappens(
      way: nat, expires: int, grace: int, now: int, accessExpires: int, absoluteExpires: int)
    requires now < absoluteExpires && way < 3
    ensures var s := Start(now, accessExpires, absoluteExpires, true);
            && !Sound(s, WayToDead(way, expires), grace)
            && (way > 0 ==> !Kept(s, WayToDead(way, expires), grace))
  {
    hide Avoids;
    var s := Start(now, accessExpires, absoluteExpires, true);
    var a, e, l := Ask(0, None, true, false), Enter(0), Look(true, true, false);
    var g := Grant(if way == 0 then Transient(true) else Success(expires, way == 1), false);
    RunOne(s, a, grace);
    RunMore(s, [a], e, grace);
    RunMore(s, [a] + [e], l, grace);
    var t := Run(s, [a] + [e] + [l], grace);
    assert t.flight == Holding(0, s.row.value) && t.row == s.row;
    AvoidsMore(LeavesDead, s, [a] + [e] + [l], g, grace);
    if way > 0 {
      RunMore(s, [a] + [e] + [l], g, grace);
      AvoidsMore(LeavesDead, s, [a] + [e] + [l] + [g], Save(true), grace);
      AvoidsMore(LosesTokens, s, [a] + [e] + [l] + [g], Save(true), grace);
    }
  }
}
