/** The consumer of the logs queue: a claimed batch stays on a processing list until it is
    acknowledged (cmd/spanbarn/consumers.go, cmd/spanbarn/store_retry.go, internal/queue/batch.go). */
module LogsConsumer {
  import opened Options

  const STORE_ATTEMPTS: nat := 5

  // ----- one insert with retries -----

  /** How an insert went. A panic unwinds past the retry loop. */
  datatype Outcome = Inserted | Transient | DiskFull | Panicked

  /** An attempt, and whether the wait after it ended because of a shutdown. */
  datatype Attempt = Attempt(outcome: Outcome, cancelled: bool)

  /** What the retry loop came to; Trying while it has not ended. */
  datatype Verdict = Done | Error | Unwound | Trying(failures: nat)

  /** One turn of the loop after so many transient failures. */
  function Turn(failures: nat, a: Attempt): Verdict {
    match a.outcome
    case Inserted => Done
    case Panicked => Unwound
    case DiskFull => if a.cancelled then Error else Trying(failures)
    case Transient => if failures + 1 >= STORE_ATTEMPTS || a.cancelled then Error else Trying(failures + 1)
  }

  /** The verdict after some attempts; attempts after the loop ended do not happen. */
  function Retried(attempts: seq<Attempt>): Verdict {
    if attempts == [] then Trying(0)
    else
      var before := Retried(attempts[..|attempts| - 1]);
      if before.Trying? then Turn(before.failures, attempts[|attempts| - 1]) else before
  }

  /** The retry loop. attempts lists what the inserts will do; the loop uses as many as it needs. */
  method StoreWithRetry(attempts: seq<Attempt>) returns (v: Verdict, used: nat)
    ensures v == Retried(attempts) && used <= |attempts| && v == Retried(attempts[..used])
    ensures used < |attempts| ==> !v.Trying?
    ensures forall i :: 0 <= i < used ==> Retried(attempts[..i]).Trying?
  {
    var failures := 0;
    used := 0;
    v := Trying(0);
    while used < |attempts|
      invariant used <= |attempts| && v == Trying(failures) == Retried(attempts[..used])
      invariant forall i :: 0 <= i < used ==> Retried(attempts[..i]).Trying?
    {
      var a := attempts[used];
      assert attempts[..used + 1][..used] == attempts[..used];
      used := used + 1;
      if a.outcome.Inserted? {
        v := Done;
        break;
      }
      if a.outcome.Panicked? {
        v := Unwound;
        break;
      }
      if a.outcome.Transient? {
        failures := failures + 1;
        if failures >= STORE_ATTEMPTS {
          v := Error;
          break;
        }
      }
      if a.cancelled {
        v := Error;
        break;
      }
      v := Trying(failures);
    }
    Settled(attempts, used);
  }

  lemma {:induction false} Settled(attempts: seq<Attempt>, n: nat)
    requires n <= |attempts| && (!Retried(attempts[..n]).Trying? || n == |attempts|)
    ensures Retried(attempts) == Retried(attempts[..n])
  {
    if n == |attempts| {
      assert attempts[..n] == attempts;
    } else {
      var m := |attempts| - 1;
      assert attempts[..m][..n] == attempts[..n];
      Settled(attempts[..m], n);
    }
  }

  function Transients(attempts: seq<Attempt>): nat {
    if attempts == [] then 0
    else Transients(attempts[..|attempts| - 1]) + if attempts[|attempts| - 1].outcome.Transient? then 1 else 0
  }

  ghost predicate AllHeld(attempts: seq<Attempt>) {
    forall i :: 0 <= i < |attempts| ==>
      !attempts[i].outcome.Inserted? && !attempts[i].outcome.Panicked? && !attempts[i].cancelled
  }

  /** The loop goes on exactly while nothing was inserted, nothing panicked, no wait was
      cancelled and fewer than five failures were transient; a full disk never ends it. */
  lemma {:induction false} TryingExactlyWhen(attempts: seq<Attempt>)
    ensures Retried(attempts).Trying? <==> AllHeld(attempts) && Transients(attempts) < STORE_ATTEMPTS
    ensures Retried(attempts).Trying? ==> Retried(attempts).failures == Transients(attempts)
  {
    if attempts != [] {
      var n := |attempts| - 1;
      TryingExactlyWhen(attempts[..n]);
      if AllHeld(attempts) { assert AllHeld(attempts[..n]); }
    }
  }

  // ----- the lists -----

  /** A batch by its stored text, of which there may be equal ones. */
  type Batch = string

  /** Between: holding no batch. Storing: in the retry loop. Failed: the loop returned an
      error. Finished: about to acknowledge; at is the step that finished it. */
  datatype Phase =
    | Between
    | Storing(batch: Batch, attempts: seq<Attempt>)
    | Failed(batch: Batch, attempts: seq<Attempt>)
    | Finished(batch: Batch, why: Why, at: nat)

  datatype Why = WasStored | StorePanicked | GaveUp(attempts: seq<Attempt>) | Unreadable

  /** A batch that is on neither list any more, and the step that decided so. */
  datatype Gone = Gone(batch: Batch, why: Why, at: nat)

  datatype State = State(queue: seq<Batch>, processing: seq<Batch>, phase: Phase, shutdown: bool, gone: seq<Gone>,
    steps: nat)

  const START: State := State([], [], Between, false, [], 0)

  datatype Step =
    | Publish(batch: Batch)
    | Claim(reply: Reply)
    | Try(attempt: Attempt)
    | Decide
    | Ack(reached: bool)
    | Reclaim(moved: nat)
    | Shutdown
    | Restart

  /** What came back of a claim: the batch, nothing because the reply was lost, or text that
      does not parse, which is removed unless that fails too. */
  datatype Reply = Received | Lost | Malformed(removed: bool)

  function Init<T>(xs: seq<T>): seq<T>
    requires xs != []
  {
    xs[..|xs| - 1]
  }

  /** xs without its first b. */
  function Without(xs: seq<Batch>, b: Batch): seq<Batch> {
    if xs == [] then [] else if xs[0] == b then xs[1..] else [xs[0]] + Without(xs[1..], b)
  }

  predicate Enabled(s: State, step: Step) {
    match step
    case Publish(_) => true
    case Claim(_) => s.phase.Between? && s.queue != []
    case Try(a) => s.phase.Storing? && (a.cancelled ==> s.shutdown)
    case Decide => s.phase.Failed?
    case Ack(_) => s.phase.Finished?
    case Reclaim(n) => s.phase.Between? && n <= |s.processing|
    case Shutdown => true
    case Restart => true
  }

  function After(s: State, step: Step): State
    requires Enabled(s, step)
  {
    match step
    case Publish(b) => s.(queue := [b] + s.queue)
    case Claim(reply) =>
      var b := s.queue[|s.queue| - 1];
      var t := s.(queue := Init(s.queue), processing := [b] + s.processing);
      (match reply
       case Received => t.(phase := Storing(b, []))
       case Lost => t
       case Malformed(removed) =>
         if removed then s.(queue := Init(s.queue), gone := s.gone + [Gone(b, Unreadable, s.steps)]) else t)
    case Try(a) =>
      var b, tried := s.phase.batch, s.phase.attempts + [a];
      var v := Retried(tried);
      s.(phase := if v.Done? then Finished(b, WasStored, s.steps)
                  else if v.Unwound? then Finished(b, StorePanicked, s.steps)
                  else if v.Error? then Failed(b, tried)
                  else Storing(b, tried))
    case Decide =>
      s.(phase := if s.shutdown then Between else Finished(s.phase.batch, GaveUp(s.phase.attempts), s.steps))
    case Ack(reached) =>
      var b := s.phase.batch;
      if reached && b in s.processing then
        s.(processing := Without(s.processing, b), phase := Between,
          gone := s.gone + [Gone(b, s.phase.why, s.phase.at)])
      else s.(phase := Between)
    case Reclaim(n) =>
      s.(processing := s.processing[..|s.processing| - n],
        queue := s.queue + Reversed(s.processing[|s.processing| - n..]))
    case Shutdown => s.(shutdown := true)
    case Restart => s.(phase := Between, shutdown := false)
  }

  /** Each batch is moved from the right end to the right end, so a run of them turns round. */
  function Reversed(xs: seq<Batch>): seq<Batch> { if xs == [] then [] else [xs[|xs| - 1]] + Reversed(Init(xs)) }

  /** A step that cannot happen changes nothing but the count of steps. */
  function Next(s: State, step: Step): State {
    (if Enabled(s, step) then After(s, step) else s).(steps := s.steps + 1)
  }

  function Run(steps: seq<Step>): State {
    if steps == [] then START else Next(Run(Init(steps)), steps[|steps| - 1])
  }

  // ----- nothing is lost in silence -----

  ghost function Published(steps: seq<Step>): multiset<Batch> {
    if steps == [] then multiset{}
    else Published(Init(steps)) + if steps[|steps| - 1].Publish? then multiset{steps[|steps| - 1].batch} else multiset{}
  }

  ghost function GoneBag(gone: seq<Gone>): multiset<Batch> {
    if gone == [] then multiset{} else GoneBag(Init(gone)) + multiset{gone[|gone| - 1].batch}
  }

  ghost function Everywhere(s: State): multiset<Batch> {
    multiset(s.queue) + multiset(s.processing) + GoneBag(s.gone)
  }

  lemma {:induction false} WithoutBag(xs: seq<Batch>, b: Batch)
    requires b in xs
    ensures multiset(Without(xs, b)) == multiset(xs) - multiset{b}
  {
    assert xs == [xs[0]] + xs[1..];
    if xs[0] != b { WithoutBag(xs[1..], b); }
  }

  lemma {:induction false} ReversedBag(xs: seq<Batch>)
    ensures multiset(Reversed(xs)) == multiset(xs)
  {
    if xs != [] {
      assert xs == Init(xs) + [xs[|xs| - 1]];
      ReversedBag(Init(xs));
    }
  }

  lemma {:induction false} GoneGrows(gone: seq<Gone>, g: Gone)
    ensures GoneBag(gone + [g]) == GoneBag(gone) + multiset{g.batch}
  {
    assert Init(gone + [g]) == gone;
  }

  lemma {:induction false} ClaimKeepsBatches(s: State, reply: Reply)
    requires Enabled(s, Claim(reply))
    ensures Everywhere(After(s, Claim(reply))) == Everywhere(s)
  {
    hide GoneBag;
    var b := s.queue[|s.queue| - 1];
    assert s.queue == Init(s.queue) + [b];
    assert multiset(s.queue) == multiset(Init(s.queue)) + multiset{b};
    if reply.Malformed? && reply.removed {
      GoneGrows(s.gone, Gone(b, Unreadable, s.steps));
    } else {
      assert multiset([b] + s.processing) == multiset{b} + multiset(s.processing);
    }
  }

  lemma {:induction false} AckKeepsBatches(s: State, reached: bool)
    requires Enabled(s, Ack(reached))
    ensures Everywhere(After(s, Ack(reached))) == Everywhere(s)
  {
    hide GoneBag;
    if reached && s.phase.batch in s.processing {
      WithoutBag(s.processing, s.phase.batch);
      assert s.phase.batch in multiset(s.processing);
      GoneGrows(s.gone, Gone(s.phase.batch, s.phase.why, s.phase.at));
    }
  }

  lemma {:induction false} ReclaimKeepsBatches(s: State, n: nat)
    requires Enabled(s, Reclaim(n))
    ensures Everywhere(After(s, Reclaim(n))) == Everywhere(s)
  {
    hide GoneBag, Reversed;
    var cut := |s.processing| - n;
    assert s.processing == s.processing[..cut] + s.processing[cut..];
    assert multiset(s.processing) == multiset(s.processing[..cut]) + multiset(s.processing[cut..]);
    ReversedBag(s.processing[cut..]);
  }

  lemma {:induction false} StepKeepsBatches(s: State, step: Step)
    ensures Everywhere(Next(s, step)) == Everywhere(s) + if step.Publish? then multiset{step.batch} else multiset{}
  {
    hide Retried, GoneBag, Reversed, Without, Everywhere;
    SameLists(if Enabled(s, step) then After(s, step) else s, Next(s, step));
    if Enabled(s, step) {
      if step.Publish? {
        PublishAdds(s, step.batch);
      } else if step.Claim? {
        ClaimKeepsBatches(s, step.reply);
      } else if step.Ack? {
        AckKeepsBatches(s, step.reached);
      } else if step.Reclaim? {
        ReclaimKeepsBatches(s, step.moved);
      } else {
        SameLists(s, After(s, step));
      }
    }
  }

  lemma {:induction false} PublishAdds(s: State, b: Batch)
    ensures Everywhere(After(s, Publish(b))) == Everywhere(s) + multiset{b}
  {
    assert multiset([b] + s.queue) == multiset{b} + multiset(s.queue);
  }

  lemma {:induction false} SameLists(t: State, u: State)
    ensures t.queue == u.queue && t.processing == u.processing && t.gone == u.gone ==> Everywhere(t) == Everywhere(u)
  {
  }

  /** Over every run, each published batch is on the queue, on the processing list, or gone
      for a recorded reason. */
  lemma {:induction false} BatchesConserved(steps: seq<Step>)
    ensures Everywhere(Run(steps)) == Published(steps)
  {
    hide Everywhere, Next;
    if steps == [] {
      NothingYet();
    } else {
      BatchesConserved(Init(steps));
      StepKeepsBatches(Run(Init(steps)), steps[|steps| - 1]);
    }
  }

  lemma {:induction false} NothingYet()
    ensures Everywhere(START) == multiset{}
  {
  }

  // ----- why batches go -----

  /** Whether the running writer has been told to stop. */
  function Stopping(steps: seq<Step>): bool {
    if steps == [] then false
    else match steps[|steps| - 1]
      case Shutdown => true
      case Restart => false
      case _ => Stopping(Init(steps))
  }

  /** The inserts tried since the last claim of the running writer. */
  function Tried(steps: seq<Step>): seq<Attempt> {
    if steps == [] then []
    else match steps[|steps| - 1]
      case Try(a) => if Enabled(Run(Init(steps)), Try(a)) then Tried(Init(steps)) + [a] else Tried(Init(steps))
      case Claim(r) => if Enabled(Run(Init(steps)), Claim(r)) then [] else Tried(Init(steps))
      case Restart => []
      case _ => Tried(Init(steps))
  }

  /** The batch the consumer holds. */
  function Holding(p: Phase): Option<Batch> { if p.Between? then None else Some(p.batch) }

  ghost predicate PhaseFits(s: State, tried: seq<Attempt>) {
    match s.phase
    case Between => true
    case Storing(b, tries) => tries == tried && Retried(tries).Trying? && b in s.processing
    case Failed(b, tries) => tries == tried && (s.shutdown || Transients(tries) == STORE_ATTEMPTS) && b in s.processing
    case Finished(b, _, _) => b in s.processing
  }

  lemma {:induction false} ErrorMeans(tries: seq<Attempt>, a: Attempt)
    requires Retried(tries).Trying?
    ensures Retried(tries + [a]) == Turn(Transients(tries), a)
    ensures Retried(tries + [a]).Error? ==> a.cancelled || Transients(tries + [a]) == STORE_ATTEMPTS
  {
    assert (tries + [a])[..|tries|] == tries;
    TryingExactlyWhen(tries);
  }

  /** A held batch stays on the processing list for as long as it is held, and the phase
      knows exactly the inserts that were tried for it. */
  lemma {:induction false} HeldStaysListed(steps: seq<Step>)
    ensures var s := Run(steps);
            && PhaseFits(s, Tried(steps)) && s.shutdown == Stopping(steps) && s.steps == |steps|
            && (Holding(s.phase).Some? ==> Holding(s.phase).value in s.processing)
  {
    hide Retried, Transients;
    if steps == [] {
    } else {
      HeldStaysListed(Init(steps));
      FitsStep(steps);
    }
  }

  lemma {:induction false} FitsStep(steps: seq<Step>)
    requires steps != [] && PhaseFits(Run(Init(steps)), Tried(Init(steps)))
    ensures PhaseFits(Run(steps), Tried(steps))
  {
    hide Retried, Transients, Turn;
    var s, step := Run(Init(steps)), steps[|steps| - 1];
    if Enabled(s, step) {
      match step
      case Try(a) =>
        ErrorMeans(s.phase.attempts, a);
      case Claim(reply) =>
        FirstTry();
        assert (s.queue[|s.queue| - 1]) in [s.queue[|s.queue| - 1]] + s.processing;
      case _ =>
    }
  }

  lemma {:induction false} FirstTry()
    ensures Retried([]) == Trying(0)
  {
  }

  /** The reason recorded for a batch that is gone is what happened: its insert succeeded, the
      store panicked on it, five inserts of it failed with a disk that was not full and no
      shutdown under way, or its text did not parse. */
  ghost predicate Justified(g: Gone, steps: seq<Step>) {
    g.at < |steps| &&
    var s, step := Run(steps[..g.at]), steps[g.at];
    match g.why
    case WasStored => step.Try? && step.attempt.outcome.Inserted? && Holding(s.phase) == Some(g.batch)
    case StorePanicked => step.Try? && step.attempt.outcome.Panicked? && Holding(s.phase) == Some(g.batch)
    case GaveUp(tries) =>
      && step.Decide? && Holding(s.phase) == Some(g.batch) && !Stopping(steps[..g.at])
      && tries == Tried(steps[..g.at]) && Transients(tries) == STORE_ATTEMPTS
    case Unreadable => step.Claim? && step.reply.Malformed? && s.queue != [] && g.batch == s.queue[|s.queue| - 1]
  }

  lemma {:induction false} JustifiedStays(g: Gone, steps: seq<Step>)
    requires steps != [] && Justified(g, Init(steps))
    ensures Justified(g, steps)
  {
    assert Init(steps)[..g.at] == steps[..g.at] && Init(steps)[g.at] == steps[g.at];
  }

  ghost predicate Explained(s: State, steps: seq<Step>) {
    && (forall i :: 0 <= i < |s.gone| ==> Justified(s.gone[i], steps))
    && (s.phase.Finished? ==> Justified(Gone(s.phase.batch, s.phase.why, s.phase.at), steps))
  }

  /** Over every run of publishes, lost replies, insert errors, full disks, panics, failed
      acknowledgements, reclaims, shutdowns and killed writers, a batch leaves the queue and
      the processing list only for a justified reason. */
  lemma {:induction false} NoSilentLoss(steps: seq<Step>)
    ensures Explained(Run(steps), steps)
  {
    hide Justified, Run, Tried, Stopping;
    if steps == [] {
      assert Run(steps) == START by { NoSteps(); }
    } else {
      NoSilentLoss(Init(steps));
      HeldStaysListed(Init(steps));
      var t := Run(steps);
      forall i | 0 <= i < |t.gone| ensures Justified(t.gone[i], steps) { GoneExplained(steps, i); }
      if t.phase.Finished? { FinishExplained(steps); }
    }
  }

  lemma {:induction false} NoSteps()
    ensures Run([]) == START
  {
  }

  /** What a step adds to what is gone: nothing, the batch acknowledged, or the malformed one. */
  lemma {:induction false} GoneChanges(s: State, step: Step, i: nat)
    requires i < |Next(s, step).gone|
    ensures var g := Next(s, step).gone[i];
            if i < |s.gone| then g == s.gone[i]
            else if step.Ack? then s.phase.Finished? && g == Gone(s.phase.batch, s.phase.why, s.phase.at)
            else step == Claim(Malformed(true)) && Enabled(s, step) && i == |s.gone|
  {
    hide Retried, Without, Reversed;
  }

  lemma {:induction false} PhaseChanges(s: State, step: Step)
    ensures var p := Next(s, step).phase;
            p.Finished? ==> p == s.phase || (Enabled(s, step) && (step.Try? || step.Decide?))
  {
    hide Retried, Without, Reversed;
  }

  ghost predicate Ready(steps: seq<Step>) {
    steps != [] &&
    var s := Run(Init(steps));
    PhaseFits(s, Tried(Init(steps))) && s.shutdown == Stopping(Init(steps)) && s.steps == |steps| - 1
  }

  lemma {:induction false} GoneExplained(steps: seq<Step>, i: nat)
    requires Ready(steps) && Explained(Run(Init(steps)), Init(steps)) && i < |Run(steps).gone|
    ensures Justified(Run(steps).gone[i], steps)
  {
    hide Justified, Next, PhaseFits, Tried, Stopping, Enabled, Run;
    RunStep(steps);
    var s, step := Run(Init(steps)), steps[|steps| - 1];
    GoneChanges(s, step, i);
    if i < |s.gone| {
      JustifiedStays(s.gone[i], steps);
    } else if step.Ack? {
      JustifiedStays(Gone(s.phase.batch, s.phase.why, s.phase.at), steps);
    } else {
      GoneByClaim(steps);
    }
  }

  lemma {:induction false} FinishExplained(steps: seq<Step>)
    requires Ready(steps) && Explained(Run(Init(steps)), Init(steps)) && Run(steps).phase.Finished?
    ensures var p := Run(steps).phase; Justified(Gone(p.batch, p.why, p.at), steps)
  {
    hide Justified, Next, PhaseFits, Tried, Stopping, Enabled, Run;
    RunStep(steps);
    var s, t, step := Run(Init(steps)), Run(steps), steps[|steps| - 1];
    PhaseChanges(s, step);
    if t.phase == s.phase {
      JustifiedStays(Gone(s.phase.batch, s.phase.why, s.phase.at), steps);
    } else if step.Try? {
      FinishedByTry(steps);
    } else {
      FinishedByDecide(steps);
    }
  }

  lemma {:induction false} RunStep(steps: seq<Step>)
    requires steps != []
    ensures Run(steps) == Next(Run(Init(steps)), steps[|steps| - 1])
  {
  }

  lemma {:induction false} FinishedByTry(steps: seq<Step>)
    requires steps != [] && steps[|steps| - 1].Try?
    requires var s := Run(Init(steps));
             Enabled(s, steps[|steps| - 1]) && PhaseFits(s, Tried(Init(steps))) && s.steps == |steps| - 1
    requires Run(steps).phase.Finished?
    ensures var p := Run(steps).phase; Justified(Gone(p.batch, p.why, p.at), steps)
  {
    hide Transients, Retried, Tried;
    var n := |steps| - 1;
    assert steps[..n] == Init(steps);
    ErrorMeans(Run(Init(steps)).phase.attempts, steps[n].attempt);
  }

  lemma {:induction false} FinishedByDecide(steps: seq<Step>)
    requires steps != [] && steps[|steps| - 1].Decide?
    requires var s := Run(Init(steps));
             Enabled(s, Decide) && PhaseFits(s, Tried(Init(steps))) && s.shutdown == Stopping(Init(steps))
               && s.steps == |steps| - 1
    requires Run(steps).phase.Finished?
    ensures var p := Run(steps).phase; Justified(Gone(p.batch, p.why, p.at), steps)
  {
    hide Transients, Retried;
    assert steps[..|steps| - 1] == Init(steps);
  }

  lemma {:induction false} GoneByClaim(steps: seq<Step>)
    requires steps != [] && steps[|steps| - 1] == Claim(Malformed(true))
    requires var s := Run(Init(steps)); Enabled(s, Claim(Malformed(true))) && s.steps == |steps| - 1
    ensures |Run(steps).gone| > |Run(Init(steps)).gone| && Justified(Run(steps).gone[|Run(Init(steps)).gone|], steps)
  {
    hide Transients, Retried;
    assert steps[..|steps| - 1] == Init(steps);
  }

  // ----- the objects -----

  /** The two lists of one queue. */
  class BatchQueue {
    var queue: seq<Batch>
    var processing: seq<Batch>

    constructor ()
      ensures queue == [] && processing == []
    {
      queue, processing := [], [];
    }

    /** Moves one batch to the processing list. */
    method Claim() returns (b: Option<Batch>)
      modifies this
      ensures old(queue) == [] ==> b == None && queue == [] && processing == old(processing)
      ensures old(queue) != [] ==>
              b == Some(old(queue)[|old(queue)| - 1]) && queue == Init(old(queue))
                && processing == [b.value] + old(processing)
    {
      if queue == [] { return None; }
      b := Some(queue[|queue| - 1]);
      queue, processing := queue[..|queue| - 1], [b.value] + processing;
    }

    /** Removes one batch from the processing list. */
    method Remove(b: Batch)
      modifies this
      ensures queue == old(queue) && processing == Without(old(processing), b)
    {
      var i := 0;
      while i < |processing| && processing[i] != b
        invariant 0 <= i <= |processing| && processing[..i] + Without(processing[i..], b) == Without(processing, b)
      {
        assert processing[i..][1..] == processing[i + 1..];
        i := i + 1;
      }
      if i < |processing| {
        assert processing[i..][1..] == processing[i + 1..];
        processing := processing[..i] + processing[i + 1..];
      } else {
        assert processing[..i] + [] == processing;
      }
    }

    /** Moves batches back to the end the next claim reads, until the list is empty or a move
        fails after so many. */
    method MoveBack(working: nat) returns (moved: nat)
      modifies this
      ensures moved == if working < |old(processing)| then working else |old(processing)|
      ensures processing == old(processing)[..|old(processing)| - moved]
      ensures queue == old(queue) + Reversed(old(processing)[|old(processing)| - moved..])
    {
      moved := 0;
      ghost var was := processing;
      while processing != [] && moved < working
        invariant moved <= |was| && moved <= working && processing == was[..|was| - moved]
        invariant queue == old(queue) + Reversed(was[|was| - moved..])
        decreases |processing|
      {
        ghost var back := was[|was| - moved..];
        var b := processing[|processing| - 1];
        assert was[|was| - moved - 1..] == [b] + back;
        ReversedFront(b, back);
        queue, processing := queue + [b], processing[..|processing| - 1];
        moved := moved + 1;
      }
    }
  }

  lemma {:induction false} ReversedFront(b: Batch, xs: seq<Batch>)
    ensures Reversed([b] + xs) == Reversed(xs) + [b]
  {
    if xs == [] {
      assert [b] + xs == [b] && Init([b]) == [];
      assert Reversed([b]) == [b] + Reversed([]);
    } else {
      assert Init([b] + xs) == [b] + Init(xs);
      ReversedFront(b, Init(xs));
    }
  }

  /** Stores a claimed batch and acknowledges it unless it is left for the next writer.
      stopping is whether a shutdown was under way when the retries had failed. */
  method Process(q: BatchQueue, b: Batch, attempts: seq<Attempt>, stopping: bool, reached: bool)
    returns (finished: bool)
    requires !Retried(attempts).Trying?
    modifies q
    ensures finished == !(Retried(attempts).Error? && stopping)
    ensures q.queue == old(q.queue)
    ensures q.processing == if finished && reached then Without(old(q.processing), b) else old(q.processing)
  {
    var v, used := StoreWithRetry(attempts);
    finished := !(v.Error? && stopping);
    if finished && reached { q.Remove(b); }
  }

  // ----- processing as steps -----

  function Then(s: State, steps: seq<Step>): State {
    if steps == [] then s else Next(Then(s, Init(steps)), steps[|steps| - 1])
  }

  function Tries(attempts: seq<Attempt>): seq<Step> {
    seq(|attempts|, i requires 0 <= i < |attempts| => Try(attempts[i]))
  }

  function PhaseOf(b: Batch, attempts: seq<Attempt>, steps: nat): Phase {
    var at := if steps == 0 then 0 else steps - 1;
    match Retried(attempts)
    case Done => Finished(b, WasStored, at)
    case Unwound => Finished(b, StorePanicked, at)
    case Error => Failed(b, attempts)
    case Trying(_) => Storing(b, attempts)
  }

  /** The loop uses every attempt and the ones that follow a shutdown say so. */
  ghost predicate Plausible(s: State, attempts: seq<Attempt>) {
    && (forall i :: 0 <= i < |attempts| ==> Retried(attempts[..i]).Trying?)
    && (forall i :: 0 <= i < |attempts| && attempts[i].cancelled ==> s.shutdown)
  }

  lemma {:induction false} TryLeads(s: State, b: Batch, tried: seq<Attempt>, a: Attempt)
    requires s.phase == Storing(b, tried) && (a.cancelled ==> s.shutdown)
    ensures Next(s, Try(a)) == s.(phase := PhaseOf(b, tried + [a], s.steps + 1), steps := s.steps + 1)
  {
    hide Retried;
  }

  lemma {:induction false} TriesLead(s: State, b: Batch, attempts: seq<Attempt>)
    requires s.phase == Storing(b, []) && Plausible(s, attempts)
    ensures Then(s, Tries(attempts))
            == s.(phase := PhaseOf(b, attempts, s.steps + |attempts|), steps := s.steps + |attempts|)
  {
    hide Retried, Next;
    if attempts == [] {
      FirstTry();
    } else {
      var n := |attempts| - 1;
      var front := attempts[..n];
      forall i | 0 <= i < n ensures Retried(front[..i]).Trying? { assert front[..i] == attempts[..i]; }
      TriesLead(s, b, front);
      assert Init(Tries(attempts)) == Tries(front);
      assert front + [attempts[n]] == attempts;
      TryLeads(Then(s, Tries(front)), b, front, attempts[n]);
    }
  }

  /** Processing a batch is the run of its tries, the decision and the acknowledgement. */
  lemma {:induction false} ProcessIsSteps(s: State, b: Batch, attempts: seq<Attempt>, reached: bool)
    requires s.phase == Storing(b, []) && Plausible(s, attempts) && !Retried(attempts).Trying? && b in s.processing
    ensures var failed := Retried(attempts).Error?;
            var t := Then(s, Tries(attempts) + (if failed then [Decide, Ack(reached)] else [Ack(reached)]));
            && t.phase.Between? && t.queue == s.queue
            && t.processing == (if !(failed && s.shutdown) && reached then Without(s.processing, b) else s.processing)
  {
    hide Retried, Without;
    TriesLead(s, b, attempts);
    var tries := Tries(attempts);
    var u := Then(s, tries);
    if Retried(attempts).Error? {
      var all := tries + [Decide, Ack(reached)];
      assert Init(all) == tries + [Decide] && Init(tries + [Decide]) == tries;
      assert Then(s, all) == Next(Next(u, Decide), Ack(reached));
    } else {
      var all := tries + [Ack(reached)];
      assert Init(all) == tries;
      assert Then(s, all) == Next(u, Ack(reached));
    }
  }
}
