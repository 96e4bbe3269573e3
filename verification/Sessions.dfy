/** One token-bound session of internal/api/sessions.go: concurrent requests on the writer, the
    single flight that refreshes it, requests on read-only replicas, the stored row, and an
    identity provider that rotates refresh tokens (section 6 of RFC 6749, section 4.14.2 of
    RFC 9700). The step system below takes every interleaving; times are unix seconds. */
module Sessions {
  import opened Options

  const SKEW: int := 30

  datatype Row = Row(access: nat, refresh: Option<nat>, accessExpires: int, absoluteExpires: int, failingSince: int)

  /** What a flight hands to the requests that wait on it. since is when the outage began
      during which a refresh was unavailable. */
  datatype Result = Fresh(row: Row) | Unavailable(row: Row, since: int) | Gone

  /** stale is the access token the flight was started to replace. */
  datatype Flight =
    | NoFlight
    | Looking(stale: nat)
    | Holding(stale: nat, cur: Row)
    | Granted(stale: nat, cur: Row, access: nat, refresh: nat, expires: int, allowed: bool)

  datatype Kind = Unexpired | Refreshed | InGrace | OnReplica

  /** A forced request asks for a refresh rather than to be served. */
  datatype Req =
    | Loaded(row: Row, at: int, stale: nat, forced: bool)
    | InFlight(row: Row, at: int, forced: bool)
    | Got(row: Row, at: int, forced: bool, result: Result)
    | Served(row: Row, at: int, kind: Kind, shown: Row, when: int, since: int)
    | Returned
    | Denied

  /** A refresh token sent in a grant, and whether the provider had rotated it before. */
  datatype Sending = Sending(token: nat, rotated: bool)

  datatype Sys = Sys(
    now: int,
    row: Option<Row>,
    flight: Flight,
    reqs: map<nat, Req>,
    rotated: set<nat>,        // refresh tokens the provider has exchanged
    issued: nat,              // every token so far is below
    sent: seq<Sending>,
    wins: seq<nat>,           // the access token each successful grant was made for
    outage: Option<int>       // when refreshes began to fail, if they do
  )

  /** The provider's answer to a grant. It may accept a token it has rotated, or rotate one and
      fail to answer; the tokens it issues are new. */
  datatype Reply =
    | Success(expires: int, allowed: bool)
    | Rejected
    | Transient(rotatedAnyway: bool)

  /** read says that reading the row succeeded; stuck that the write of the step failed, which
      the code ignores or treats as a session that has gone. */
  datatype Step =
    | Tick(to: int)
    | Arrive(r: nat, read: bool, stuck: bool)
    | Ask(r: nat, stale: Option<nat>, read: bool, stuck: bool)
    | Glance(r: nat, read: bool)
    | Enter(r: nat)
    | Look(read: bool, configured: bool, stuck: bool)
    | Grant(reply: Reply, stuck: bool)
    | Save(stuck: bool)
    | Conclude(r: nat)
    | Delete

  predicate AccessExpired(row: Row, now: int) { row.accessExpires != 0 && now + SKEW >= row.accessExpires }

  // ----- the steps -----

  /** Ends the flight and gives its result to everyone who waits. */
  function Finish(s: Sys, result: Result): Sys {
    s.(flight := NoFlight,
       reqs := map r | r in s.reqs ::
                 if s.reqs[r].InFlight? then Got(s.reqs[r].row, s.reqs[r].at, s.reqs[r].forced, result) else s.reqs[r])
  }

  function DeleteRow(s: Sys, stuck: bool): Sys { if stuck then s else s.(row := None) }

  /** Loads the row for a request: past the absolute cap it is deleted. A forced request goes
      on to refresh the token it names, or the row's; any other only when the token expired. */
  function Load(s: Sys, r: nat, forced: bool, stale: Option<nat>, read: bool, stuck: bool): Sys {
    if r in s.reqs then s
    else if !read || s.row.None? then s.(reqs := s.reqs[r := Denied])
    else
      var ws := s.row.value;
      if s.now >= ws.absoluteExpires then DeleteRow(s, stuck).(reqs := s.reqs[r := Denied])
      else if forced then
        s.(reqs := s.reqs[r := Loaded(ws, s.now, if stale.Some? then stale.value else ws.access, true)])
      else if !AccessExpired(ws, s.now) then s.(reqs := s.reqs[r := Served(ws, s.now, Unexpired, ws, s.now, 0)])
      else s.(reqs := s.reqs[r := Loaded(ws, s.now, ws.access, false)])
  }

  /** A read-only replica answers from the row alone. */
  function ReadOnly(s: Sys, r: nat, read: bool, grace: int): Sys {
    if r in s.reqs then s
    else if !read || s.row.None? || s.now >= s.row.value.absoluteExpires then s.(reqs := s.reqs[r := Denied])
    else
      var ws := s.row.value;
      if !AccessExpired(ws, s.now) || s.now <= ws.accessExpires + grace
      then s.(reqs := s.reqs[r := Served(ws, s.now, OnReplica, ws, s.now, 0)])
      else s.(reqs := s.reqs[r := Denied])
  }

  /** A request that needs a refresh joins the flight under way, or starts one. */
  function Join(s: Sys, r: nat): Sys {
    if r !in s.reqs || !s.reqs[r].Loaded? then s
    else
      var q := s.reqs[r];
      s.(reqs := s.reqs[r := InFlight(q.row, q.at, q.forced)],
         flight := if s.flight.NoFlight? then Looking(q.stale) else s.flight)
  }

  /** Stamps the first failure, if the stamp sticks, and returns the stale row. */
  function MarkFailing(s: Sys, cur: Row, stuck: bool): Sys {
    var since := if s.outage.Some? then s.outage.value else s.now;
    var row := if s.row.Some? && !stuck && s.row.value.failingSince == 0
      then Some(s.row.value.(failingSince := s.now)) else s.row;
    var shown := if cur.failingSince == 0 then cur.(failingSince := s.now) else cur;
    Finish(s.(row := row, outage := Some(since)), Unavailable(shown, since))
  }

  function LookStep(s: Sys, read: bool, configured: bool, stuck: bool): Sys {
    if !s.flight.Looking? then s
    else if !read || s.row.None? then Finish(s, Gone)
    else
      var cur := s.row.value;
      if cur.access != s.flight.stale then Finish(s, Fresh(cur))
      else if cur.refresh.None? then Finish(DeleteRow(s, stuck), Gone)
      else if !configured then MarkFailing(s, cur, stuck)
      else s.(flight := Holding(s.flight.stale, cur))
  }

  function GrantStep(s: Sys, reply: Reply, stuck: bool): Sys {
    if !s.flight.Holding? || s.flight.cur.refresh.None? then s
    else
      var cur := s.flight.cur;
      var token := cur.refresh.value;
      var t := s.(sent := s.sent + [Sending(token, token in s.rotated)]);
      match reply
      case Success(expires, allowed) =>
        t.(rotated := t.rotated + {token}, issued := t.issued + 2, wins := t.wins + [s.flight.stale],
           flight := Granted(s.flight.stale, cur, t.issued, t.issued + 1, expires, allowed))
      case Rejected => Finish(DeleteRow(t, stuck), Gone)
      case Transient(anyway) =>
        MarkFailing(if anyway then t.(rotated := t.rotated + {token}) else t, cur, stuck)
  }

  function SaveStep(s: Sys, stuck: bool): Sys {
    if !s.flight.Granted? then s
    else
      var f := s.flight;
      if !f.allowed then Finish(DeleteRow(s, stuck), Gone)
      else if s.row.None? || stuck then Finish(s, Gone)
      else
        var stored := s.row.value.(access := f.access, refresh := Some(f.refresh), accessExpires := f.expires,
          failingSince := 0);
        var shown := f.cur.(access := f.access, refresh := Some(f.refresh), accessExpires := f.expires,
          failingSince := 0);
        Finish(s.(row := Some(stored), outage := None), Fresh(shown))
  }

  /** What a request does with the result of its flight. */
  function ConcludeStep(s: Sys, r: nat, grace: int): Sys {
    if r !in s.reqs || !s.reqs[r].Got? then s
    else
      var q := s.reqs[r];
      if q.forced then s.(reqs := s.reqs[r := Returned])
      else
        match q.result
        case Fresh(row) => s.(reqs := s.reqs[r := Served(q.row, q.at, Refreshed, row, s.now, 0)])
        case Gone => s.(reqs := s.reqs[r := Denied])
        case Unavailable(row, since) =>
          var failing := if row.failingSince == 0 then s.now else row.failingSince;
          if s.now - failing <= grace then s.(reqs := s.reqs[r := Served(q.row, q.at, InGrace, row, s.now, since)])
          else s.(reqs := s.reqs[r := Denied])
  }

  function Next(s: Sys, step: Step, grace: int): Sys {
    match step
    case Tick(to) => if to < s.now then s else s.(now := to)
    case Arrive(r, read, stuck) => Load(s, r, false, None, read, stuck)
    case Ask(r, stale, read, stuck) => Load(s, r, true, stale, read, stuck)
    case Glance(r, read) => ReadOnly(s, r, read, grace)
    case Enter(r) => Join(s, r)
    case Look(read, configured, stuck) => LookStep(s, read, configured, stuck)
    case Grant(reply, stuck) => GrantStep(s, reply, stuck)
    case Save(stuck) => SaveStep(s, stuck)
    case Conclude(r) => ConcludeStep(s, r, grace)
    case Delete => s.(row := None)
  }

  /** A session as login stores it, with the tokens 0 and 1. */
  function Start(now: int, accessExpires: int, absoluteExpires: int, renewable: bool): Sys {
    Sys(now, Some(Row(0, if renewable then Some(1) else None, accessExpires, absoluteExpires, 0)),
        NoFlight, map[], {}, 2, [], [], None)
  }

  ghost function Run(s: Sys, steps: seq<Step>, grace: int): Sys {
    if steps == [] then s else Next(Run(s, steps[..|steps| - 1], grace), steps[|steps| - 1], grace)
  }

  // ----- runs -----

  lemma {:induction false} RunTwo(s: Sys, xs: seq<Step>, ys: seq<Step>, grace: int)
    ensures Run(s, xs + ys, grace) == Run(Run(s, xs, grace), ys, grace)
    decreases |ys|
  {
    hide Next;
    if ys == [] {
      assert xs + ys == xs;
    } else {
      assert (xs + ys)[..|xs + ys| - 1] == xs + ys[..|ys| - 1];
      RunTwo(s, xs, ys[..|ys| - 1], grace);
    }
  }

  lemma {:induction false} RunOne(s: Sys, step: Step, grace: int)
    ensures Run(s, [step], grace) == Next(s, step, grace)
  {
    hide Next;
    assert [step][..0] == [];
    assert Run(s, [], grace) == s;
  }

  lemma {:induction false} RunMore(s: Sys, steps: seq<Step>, step: Step, grace: int)
    ensures Run(s, steps + [step], grace) == Next(Run(s, steps, grace), step, grace)
  {
    hide Next;
    assert (steps + [step])[..|steps|] == steps;
  }

  /** No step of the run is bad in the state it meets. */
  ghost predicate Avoids(bad: (Sys, Step) -> bool, s: Sys, steps: seq<Step>, grace: int) {
    steps == [] ||
      (Avoids(bad, s, steps[..|steps| - 1], grace) && !bad(Run(s, steps[..|steps| - 1], grace), steps[|steps| - 1]))
  }

  lemma {:induction false} AvoidsMore(bad: (Sys, Step) -> bool, s: Sys, steps: seq<Step>, step: Step, grace: int)
    ensures Avoids(bad, s, steps + [step], grace) <==> Avoids(bad, s, steps, grace) && !bad(Run(s, steps, grace), step)
  {
    hide Run;
    assert (steps + [step])[..|steps|] == steps;
  }

  lemma {:induction false} AvoidsPrefix(bad: (Sys, Step) -> bool, s: Sys, steps: seq<Step>, n: nat, grace: int)
    requires Avoids(bad, s, steps, grace) && n <= |steps|
    ensures Avoids(bad, s, steps[..n], grace)
  {
    hide Run;
    if n < |steps| {
      var front := steps[..|steps| - 1];
      assert front[..n] == steps[..n];
      AvoidsPrefix(bad, s, front, n, grace);
    } else {
      assert steps[..n] == steps;
    }
  }

  /** The first bad step of a run that has one. */
  lemma {:induction false} FirstBad(bad: (Sys, Step) -> bool, s: Sys, steps: seq<Step>, grace: int) returns (n: nat)
    requires !Avoids(bad, s, steps, grace)
    ensures n < |steps| && Avoids(bad, s, steps[..n], grace) && bad(Run(s, steps[..n], grace), steps[n])
  {
    hide Run;
    var front := steps[..|steps| - 1];
    if Avoids(bad, s, front, grace) {
      n := |steps| - 1;
    } else {
      n := FirstBad(bad, s, front, grace);
      assert front[..n] == steps[..n];
    }
  }

  /** The clock never goes back, and the row keeps the absolute expiry it was made with. */
  ghost predicate Lifetime(s: Sys, expires: int) { s.row.Some? ==> s.row.value.absoluteExpires == expires }

  lemma {:induction false} StepLifetime(s: Sys, step: Step, grace: int, expires: int)
    requires Lifetime(s, expires)
    ensures Lifetime(Next(s, step, grace), expires) && s.now <= Next(s, step, grace).now
  {
  }

  lemma {:induction false} RunLifetime(s: Sys, steps: seq<Step>, n: nat, grace: int, expires: int)
    requires Lifetime(s, expires) && n <= |steps|
    ensures Lifetime(Run(s, steps, grace), expires) && Run(s, steps[..n], grace).now <= Run(s, steps, grace).now
  {
    hide Next, Lifetime;
    if n == |steps| {
      assert steps[..n] == steps;
      if steps != [] {
        RunLifetime(s, steps[..|steps| - 1], 0, grace, expires);
        StepLifetime(Run(s, steps[..|steps| - 1], grace), steps[|steps| - 1], grace, expires);
      }
    } else {
      var front := steps[..|steps| - 1];
      assert front[..n] == steps[..n];
      RunLifetime(s, front, n, grace, expires);
      StepLifetime(Run(s, front, grace), steps[|steps| - 1], grace, expires);
    }
  }

  lemma {:induction false} UnusedRequest(reqs: map<nat, Req>) returns (r: nat)
    ensures r !in reqs
  {
    r := Above(reqs.Keys);
  }

  lemma {:induction false} Above(ids: set<nat>) returns (r: nat)
    ensures forall i :: i in ids ==> i < r
  {
    if ids == {} { return 0; }
    var i :| i in ids;
    r := Above(ids - {i});
    assert forall j :: j in ids && j != i ==> j in ids - {i};
    if r <= i { r := i + 1; }
  }
}
