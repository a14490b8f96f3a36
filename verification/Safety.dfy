/** Exclusive claims, the dead-letter invariant, attempt accounting and the finality of success. */
module Safety {
  import opened Tables
  import opened Protocol

  /** The timing assumption: a handler that holds an event is younger than the staleness threshold. */
  ghost predicate Timely(s: State) {
    forall a :: 0 <= a < |s.agents| && s.agents[a].Holding? ==> s.now - s.agents[a].claimedAt < STALE
  }

  /** The assumption over a run: it holds whenever a step is taken. */
  ghost predicate TimelyRun(s: State, steps: seq<Step>)
    decreases |steps|
  {
    steps != [] ==> Timely(s) && TimelyRun(Next(s, steps[0]), steps[1..])
  }

  /** A holder's row is "processing" since its claim, with the counts the holder read. */
  ghost predicate HolderOk(s: State, h: Agent)
    requires h.Holding?
  {
    && h.event < |s.rows|
    && s.rows[h.event].status == Processing
    && s.rows[h.event].updatedAt == h.claimedAt
    && s.rows[h.event].attemptCount == h.readCount
    && s.rows[h.event].maxAttempts == h.readMax
  }

  /** No event has two live holders. */
  ghost predicate Exclusive(s: State) {
    forall a, b ::
      0 <= a < b < |s.agents| && s.agents[a].Holding? && s.agents[b].Holding? ==>
        s.agents[a].event != s.agents[b].event
  }

  ghost predicate HoldersOk(s: State) {
    forall a :: 0 <= a < |s.agents| && s.agents[a].Holding? ==> HolderOk(s, s.agents[a])
  }

  ghost predicate RowsOk(s: State) {
    forall e :: 0 <= e < |s.rows| ==> RowOk(s.rows[e])
  }

  ghost predicate Core(s: State) {
    HoldersOk(s) && Exclusive(s) && RowsOk(s)
  }

  ghost predicate Inv(s: State) {
    WellFormed(s) && Core(s)
  }

  /** A step on one event leaves the holders alone when nobody holds the event. */
  lemma UnheldRowChange(s: State, e: nat, row: Row)
    requires Core(s) && e < |s.rows| && s.rows[e].status != Processing && RowOk(row)
    ensures Core(SetRow(s, e, row))
  {
  }

  lemma ClaimKeepsCore(s: State, a: nat)
    requires Core(s) && Timely(s) && Enabled(s, Claim(a))
    ensures Core(DoClaim(s, a))
  {
    var payload := s.entries[s.agents[a].entry].payload;
    if payload.Id? && payload.event < |s.rows| && IsClaimable(s.rows[payload.event], s.now) {
      var e := payload.event;
      // A holder of e would be fresh, and its fresh row is not claimable.
      assert forall b :: 0 <= b < |s.agents| && Holds(s.agents[b], e) ==> HolderOk(s, s.agents[b]);
      UnheldClaim(s, a, e);
    } else {
      QuietKeepsCore(s, DoClaim(s, a));
    }
  }

  lemma UnheldClaim(s: State, a: nat, e: nat)
    requires Core(s) && Enabled(s, Claim(a)) && e < |s.rows| && !IsTerminal(s.rows[e].status)
    requires forall b :: 0 <= b < |s.agents| ==> !Holds(s.agents[b], e)
    ensures var row := s.rows[e];
            Core(SetAgent(SetRow(s, e, ClaimRow(row, s.now)), a,
                          Holding(s.agents[a].entry, e, row.attemptCount, row.maxAttempts, s.now)))
  {
    assert RowOk(ClaimRow(s.rows[e], s.now));
  }

  lemma FinishKeepsCore(s: State, a: nat, row: Row, debt: Agent)
    requires Core(s) && IsAgent(s, a) && s.agents[a].Holding?
    requires RowOk(row) && !debt.Holding?
    ensures Core(SetAgent(SetRow(s, s.agents[a].event, row), a, debt))
  {
  }

  lemma SucceedKeepsCore(s: State, a: nat)
    requires Core(s) && Enabled(s, Succeed(a))
    ensures Core(DoSucceed(s, a))
  {
    var h := s.agents[a];
    assert HolderOk(s, h);
    SucceedKeepsRowOk(s.rows[h.event], s.now);
    FinishKeepsCore(s, a, SucceedRow(s.rows[h.event], h.readCount + 1, s.now), OwesAck(h.entry));
  }

  lemma FailKeepsCore(s: State, a: nat)
    requires Core(s) && Enabled(s, Fail(a))
    ensures Core(DoFail(s, a))
  {
    var h := s.agents[a];
    assert HolderOk(s, h);
    FailKeepsRowOk(s.rows[h.event], s.now);
    FinishKeepsCore(s, a, FailRow(s.rows[h.event], h.readCount, h.readMax, s.now), DoFail(s, a).agents[a]);
  }

  lemma ReplayKeepsCore(s: State, e: nat, d: nat)
    requires Core(s) && Enabled(s, Replay(e, d))
    ensures Core(DoReplay(s, e, d))
  {
    ReplayableIsDeadLettered(s.rows[e], d);
    ReplayKeepsRowOk(s.rows[e], d, s.now);
    UnheldRowChange(s, e, ReplayRow(s.rows[e], d, s.now));
  }

  lemma IngestKeepsCore(s: State, e: nat, maxAttempts: int)
    requires Core(s) && Enabled(s, Ingest(e, maxAttempts))
    ensures Core(DoIngest(s, e, maxAttempts))
  {
    if e < |s.rows| {
      UnheldRowChange(s, e, RequeueRow(s.rows[e], s.now));
    } else {
      assert RowOk(NewRow(Queued, maxAttempts, s.now));
    }
  }

  lemma AbortedKeepsCore(s: State, maxAttempts: int)
    requires Inv(s)
    ensures Core(Next(s, IngestAborted(maxAttempts)))
  {
    assert RowOk(NewRow(Received, maxAttempts, s.now));
  }

  /** The steps that may change an event row or start holding one. */
  predicate TouchesRows(step: Step) {
    step.Ingest? || step.IngestAborted? || step.Claim? || step.Succeed? || step.Fail? || step.Replay?
  }

  lemma QuietStep(s: State, step: Step)
    requires !TouchesRows(step)
    ensures Next(s, step).rows == s.rows
    ensures forall a :: 0 <= a < |Next(s, step).agents| && Next(s, step).agents[a].Holding? ==>
              a < |s.agents| && s.agents[a] == Next(s, step).agents[a]
  {
  }

  lemma QuietKeepsCore(s: State, s': State)
    requires Core(s) && s'.rows == s.rows
    requires forall a :: 0 <= a < |s'.agents| && s'.agents[a].Holding? ==>
               a < |s.agents| && s.agents[a] == s'.agents[a]
    ensures Core(s')
  {
  }

  lemma StepKeepsInv(s: State, step: Step)
    requires Inv(s) && Timely(s)
    ensures Inv(Next(s, step))
  {
    StepKeepsWellFormed(s, step);
    if !TouchesRows(step) {
      QuietStep(s, step);
      QuietKeepsCore(s, Next(s, step));
      return;
    }
    if Enabled(s, step) {
      match step
      case Ingest(e, m) => IngestKeepsCore(s, e, m);
      case IngestAborted(m) => AbortedKeepsCore(s, m);
      case Claim(a) => ClaimKeepsCore(s, a);
      case Succeed(a) => SucceedKeepsCore(s, a);
      case Fail(a) => FailKeepsCore(s, a);
      case Replay(e, d) => ReplayKeepsCore(s, e, d);
      case _ =>
    }
  }

  /** Safety over whole runs: however many workers, janitors, schedulers, crashes, replays and duplicate
      messages there are, no event has two live holders, a live holder's row is "processing" with that
      claim's timestamp, and every event's rows have the shape `RowOk`. */
  lemma {:induction false} RunKeepsInv(s: State, steps: seq<Step>)
    requires Inv(s) && TimelyRun(s, steps)
    ensures Inv(Run(s, steps))
    decreases |steps|
  {
    if steps != [] {
      StepKeepsInv(s, steps[0]);
      RunKeepsInv(Next(s, steps[0]), steps[1..]);
    }
  }

  lemma ReachableInv(steps: seq<Step>)
    requires TimelyRun(INITIAL, steps)
    ensures Inv(Run(INITIAL, steps))
  {
    RunKeepsInv(INITIAL, steps);
  }

  /** The timing assumption is exactly what exclusion rests on: a message for a held event produces a
      second holder if and only if the first one has outlived the threshold. */
  lemma SecondHolderIffStale(s: State, a: nat, b: nat)
    requires Inv(s) && IsAgent(s, b) && s.agents[b].Holding?
    requires Enabled(s, Claim(a)) && s.entries[s.agents[a].entry].payload == Id(s.agents[b].event)
    ensures Exclusive(Next(s, Claim(a))) <==> s.now - s.agents[b].claimedAt < STALE
  {
    var e := s.agents[b].event;
    var s' := Next(s, Claim(a));
    assert HolderOk(s, s.agents[b]);
    assert a != b;
    assert s'.agents[b] == s.agents[b];
    if s.now - s.agents[b].claimedAt >= STALE {
      assert IsClaimable(s.rows[e], s.now);
      assert Holds(s'.agents[a], e) && Holds(s'.agents[b], e);
    }
  }

  lemma StepKeepsSuccess(s: State, step: Step, e: nat)
    requires Inv(s) && e < |s.rows| && s.rows[e].status == Succeeded
    ensures e < |Next(s, step).rows| && Next(s, step).rows[e] == s.rows[e]
  {
    if Enabled(s, step) {
      match step
      case Succeed(a) => assert HolderOk(s, s.agents[a]);
      case Fail(a) => assert HolderOk(s, s.agents[a]);
      case Replay(e', d) => ReplayableIsDeadLettered(s.rows[e'], d);
      case _ =>
    }
  }

  /** Success is final: no later step of any kind touches the rows of a succeeded event. */
  lemma {:induction false} SuccessIsFinal(s: State, steps: seq<Step>, e: nat)
    requires Inv(s) && TimelyRun(s, steps)
    requires e < |s.rows| && s.rows[e].status == Succeeded
    ensures e < |Run(s, steps).rows| && Run(s, steps).rows[e] == s.rows[e]
    decreases |steps|
  {
    if steps != [] {
      StepKeepsSuccess(s, steps[0], e);
      StepKeepsInv(s, steps[0]);
      SuccessIsFinal(Next(s, steps[0]), steps[1..], e);
    }
  }

  // ---------------------------------------------------------------------------------------------
  // Accounting, from the request that created an event

  /** Step n is the request that creates event e. */
  predicate CreatesAt(steps: seq<Step>, n: nat, e: nat) {
    && n < |steps| && |At(steps, n).rows| == e
    && (steps[n].IngestAborted? || (steps[n].Ingest? && steps[n].event == e))
  }

  lemma StepKeepsBudget(s: State, step: Step, e: nat)
    requires e < |s.rows|
    ensures e < |Next(s, step).rows| && Next(s, step).rows[e].maxAttempts == s.rows[e].maxAttempts
  {
  }

  lemma {:induction false} BudgetIsRequested(steps: seq<Step>, n: nat, end: nat, e: nat)
    requires CreatesAt(steps, n, e) && n < end <= |steps|
    ensures e < |At(steps, end).rows| && At(steps, end).rows[e].maxAttempts == steps[n].maxAttempts
    decreases end
  {
    if n < end - 1 {
      BudgetIsRequested(steps, n, end - 1, e);
      StepKeepsBudget(At(steps, end - 1), steps[end - 1], e);
    }
  }

  lemma NewRowIsRequested(s: State, step: Step, e: nat)
    requires |s.rows| <= e < |Next(s, step).rows|
    ensures |s.rows| == e && (step.IngestAborted? || (step.Ingest? && step.event == e))
  {
  }

  lemma {:induction false} EveryEventWasRequested(steps: seq<Step>, end: nat, e: nat) returns (n: nat)
    requires end <= |steps| && e < |At(steps, end).rows|
    ensures n < end && CreatesAt(steps, n, e)
    decreases end
  {
    if e < |At(steps, end - 1).rows| {
      n := EveryEventWasRequested(steps, end - 1, e);
    } else {
      NewRowIsRequested(At(steps, end - 1), steps[end - 1], e);
      n := end - 1;
    }
  }

  /** In every reachable state, for every event: some request created it, and with m the max_attempts of that
      request the failures are numbered 1..attempt_count once each, there is one success row exactly when
      succeeded and one open dead letter exactly when dead-lettered; the first dead letter comes exactly with
      failure max(1, m), and each replay buys exactly one more attempt. */
  lemma ReachableAccounting(steps: seq<Step>, e: nat) returns (n: nat)
    requires TimelyRun(INITIAL, steps) && e < |Run(INITIAL, steps).rows|
    ensures CreatesAt(steps, n, e)
    ensures var row, m := Run(INITIAL, steps).rows[e], steps[n].maxAttempts;
            var budget := if m < 1 then 1 else m;
            && row.maxAttempts == m && row.attemptCount >= 0
            && Numbers(row.attempts, Lost) == seq(row.attemptCount, i => i + 1)
            && Numbers(row.attempts, Won) == (if row.status == Succeeded then [row.attemptCount + 1] else [])
            && Unreplayed(row.deadLetters) == (if row.status == DeadLettered then 1 else 0)
            && |Numbers(row.attempts, Requested)| + Unreplayed(row.deadLetters) == |row.deadLetters|
            && (|row.deadLetters| == 0 ==> row.attemptCount < budget)
            && (|row.deadLetters| > 0 ==> row.attemptCount == budget + |row.deadLetters| - 1)
  {
    ReachableInv(steps);
    AtIsRun(steps, |steps|);
    assert steps[..|steps|] == steps;
    assert RowOk(Run(INITIAL, steps).rows[e]);
    n := EveryEventWasRequested(steps, |steps|, e);
    BudgetIsRequested(steps, n, |steps|, e);
  }

  /** Replay re-queues only dead-lettered events although it never checks the status. */
  lemma ReplayOnlyRequeuesDeadLettered(steps: seq<Step>, e: nat, d: nat)
    requires TimelyRun(INITIAL, steps)
    requires Enabled(Run(INITIAL, steps), Replay(e, d))
    ensures Run(INITIAL, steps).rows[e].status == DeadLettered
    ensures Next(Run(INITIAL, steps), Replay(e, d)).rows[e].status == Queued
    ensures !IsReplayable(Next(Run(INITIAL, steps), Replay(e, d)).rows[e], d)
  {
    ReachableInv(steps);
    ReplayableIsDeadLettered(Run(INITIAL, steps).rows[e], d);
  }
}
