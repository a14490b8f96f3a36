/** Crashes included: the work a run can do is bounded by what it started with and by how often the janitor
    reclaims, and a system at rest after crashes and disciplined reclaims is converged. */
module Recovery {
  import opened Tables
  import opened Protocol
  import opened Safety
  import opened Coverage
  import opened CrashCoverage
  import opened Convergence
  import opened Drain
  import opened Sums

  predicate IsFault(step: Step) {
    step.Crash? || step.ScheduleFailed?
  }

  /** Everything that can happen without a new request. */
  predicate IsInternal(step: Step) {
    IsWork(step) || IsPoll(step) || IsFault(step) || step.Reclaim?
  }

  function Reclaims(steps: seq<Step>): (count: nat) {
    if steps == [] then 0 else (if steps[0].Reclaim? then 1 else 0) + Reclaims(steps[1..])
  }

  lemma FaultMeasure(s: State, step: Step)
    requires IsFault(step)
    ensures Measure(Next(s, step)) <= Measure(s)
  {
    if Enabled(s, step) {
      SetAgentMeasure(s, step.agent, Next(s, step).agents[step.agent]);
    }
  }

  lemma ReclaimMeasure(s: State, i: nat, c: nat)
    ensures Measure(Next(s, Reclaim(i, c))) <= Measure(s) + 3
  {
    if Enabled(s, Reclaim(i, c)) {
      MoveMeasure(s, i, Pending(c, s.now));
      SpawnMeasure(Move(s, i, Pending(c, s.now)), Claiming(i));
    }
  }

  lemma InternalMeasure(s: State, step: Step)
    requires Core(s) && IsInternal(step)
    ensures (if IsProductive(s, step) then 1 else 0) + Measure(Next(s, step)) <=
            Measure(s) + (if step.Reclaim? then 3 else 0)
  {
    if IsFault(step) {
      FaultMeasure(s, step);
    } else if step.Reclaim? {
      ReclaimMeasure(s, step.entry, step.consumer);
    } else {
      StepMeasure(s, step);
    }
  }

  /** Each reclaim buys at most three productive steps; crashes and failed writes buy none. */
  lemma {:induction false} RecoveryTerminates(s: State, steps: seq<Step>)
    requires Inv(s) && TimelyRun(s, steps)
    requires forall k :: 0 <= k < |steps| ==> IsInternal(steps[k])
    ensures Productive(s, steps) + Measure(Run(s, steps)) <= Measure(s) + 3 * Reclaims(steps)
    decreases |steps|
  {
    if steps != [] {
      InternalMeasure(s, steps[0]);
      StepKeepsInv(s, steps[0]);
      RecoveryTerminates(Next(s, steps[0]), steps[1..]);
    }
  }

  /** The clock is past every retry time, every reclaim window and every claim's threshold. */
  predicate ClockIsPast(s: State) {
    && AllDue(s)
    && (forall i :: 0 <= i < |s.entries| && s.entries[i].place.Pending? ==> s.now - s.entries[i].place.since >= RECLAIM_IDLE)
    && (forall e :: 0 <= e < |s.rows| ==> !IsFresh(s.rows[e], s.now))
  }

  /** Nothing left to do, and nothing left that the janitor may reclaim. */
  ghost predicate IsAtRest(s: State) {
    && IsIdle(s)
    && (forall i :: 0 <= i < |s.entries| && Enabled(s, Reclaim(i, 0)) ==> !IsDisciplinedReclaim(s, i))
  }

  lemma AtRestHasNoPending(s: State)
    requires WellFormed(s) && IsAtRest(s) && ClockIsPast(s)
    ensures forall i :: 0 <= i < |s.entries| ==> s.entries[i].place.Acked?
  {
    IdleHasNoWork(s);
    forall i | 0 <= i < |s.entries| ensures s.entries[i].place.Acked? {
      assert Enabled(s, Reclaim(i, 0)) ==> !IsDisciplinedReclaim(s, i);
      assert IsDisciplinedReclaim(s, i);
    }
  }

  lemma AtRestIsConverged(s: State)
    requires Inv(s) && CrashInv(s) && IsAtRest(s) && ClockIsPast(s)
    ensures IsConverged(s, true)
  {
    IdleHasNoRetries(s);
    IdleHasNoWork(s);
    AtRestHasNoPending(s);
    forall e | 0 <= e < |s.rows|
      ensures IsTerminal(s.rows[e].status) && |Numbers(s.rows[e].attempts, Won)| <= 1
    {
      assert IsSafe(s, e) && RowOk(s.rows[e]);
    }
  }

  /** The recovery theorem: after any timely run with crashing handlers and disciplined reclaims, let the
      system go on by itself. Its work is bounded, and if it comes to rest with the clock past every window,
      every event has finished and the report says so. */
  lemma RecoveryTheorem(before: seq<Step>, after: seq<Step>)
    requires TimelyRun(INITIAL, before) && ToleratedRun(INITIAL, before)
    requires forall k :: 0 <= k < |after| ==> IsInternal(after[k])
    requires TimelyRun(Run(INITIAL, before), after) && ToleratedRun(Run(INITIAL, before), after)
    ensures var s := Run(INITIAL, before);
            var s' := Run(s, after);
            && Productive(s, after) <= Measure(s) + 3 * Reclaims(after)
            && (IsAtRest(s') && ClockIsPast(s') ==> IsConverged(s', true))
  {
    var s := Run(INITIAL, before);
    var s' := Run(s, after);
    ReachableInv(before);
    CrashRunIsSafe(INITIAL, before);
    RecoveryTerminates(s, after);
    RunKeepsInv(s, after);
    CrashRunIsSafe(s, after);
    if IsAtRest(s') && ClockIsPast(s') {
      AtRestIsConverged(s');
    }
  }

  // ---------------------------------------------------------------------------------------------
  // Recovery is always possible

  /** Timely work, polling and disciplined reclaims that lead to rest with the clock past every window. */
  ghost predicate RecoversBy(s: State, steps: seq<Step>) {
    && (forall k :: 0 <= k < |steps| ==> IsWork(steps[k]) || IsPoll(steps[k]) || steps[k].Reclaim?)
    && TimelyRun(s, steps) && ToleratedRun(s, steps)
    && IsAtRest(Run(s, steps)) && ClockIsPast(Run(s, steps))
  }

  lemma RecoversCons(s: State, step: Step, rest: seq<Step>)
    requires Timely(s) && Tolerated(s, step) && (IsWork(step) || IsPoll(step) || step.Reclaim?)
    requires RecoversBy(Next(s, step), rest)
    ensures RecoversBy(s, [step] + rest)
  {
    assert ([step] + rest)[1..] == rest;
  }

  lemma {:induction false} RecoversAppend(s: State, first: seq<Step>, rest: seq<Step>)
    requires IsWorkOrPoll(first) && TimelyRun(s, first) && RecoversBy(Run(s, first), rest)
    ensures RecoversBy(s, first + rest)
    decreases |first|
  {
    if first == [] {
      assert first + rest == rest;
    } else {
      RecoversAppend(Next(s, first[0]), first[1..], rest);
      RecoversCons(s, first[0], first[1..] + rest);
      assert first + rest == [first[0]] + (first[1..] + rest);
    }
  }

  lemma {:induction false} WorkIsTolerated(s: State, steps: seq<Step>)
    requires IsWorkOrPoll(steps)
    ensures ToleratedRun(s, steps)
    decreases |steps|
  {
    if steps != [] {
      WorkIsTolerated(Next(s, steps[0]), steps[1..]);
    }
  }

  /** Only the given entries may be pending without a handler. */
  ghost predicate HandledExcept(s: State, orphans: set<nat>) {
    forall i :: 0 <= i < |s.entries| && s.entries[i].place.Pending? ==> i in orphans || HasHandler(s, i)
  }

  lemma StepKeepsExcept(s: State, step: Step, orphans: set<nat>)
    requires HandledExcept(s, orphans) && Faultless(step) && NoPoison(s) && NoPoison(Next(s, step))
    requires step.Reclaim? ==> step.entry !in orphans
    ensures HandledExcept(Next(s, step), orphans)
  {
    var s' := Next(s, step);
    StepGrows(s, step);
    forall i | 0 <= i < |s'.entries| && s'.entries[i].place.Pending? && i !in orphans ensures HasHandler(s', i) {
      StepKeepsHandled(s, step, i);
    }
  }

  lemma {:induction false} WorkKeepsExcept(s: State, steps: seq<Step>, orphans: set<nat>)
    requires HandledExcept(s, orphans) && NoPoison(s) && IsWorkOrPoll(steps)
    ensures HandledExcept(Run(s, steps), orphans)
    decreases |steps|
  {
    if steps != [] {
      StepKeepsExcept(s, steps[0], orphans);
      WorkKeepsExcept(Next(s, steps[0]), steps[1..], orphans);
    }
  }

  /** Everything a recovering system keeps. */
  ghost predicate CanGoOn(s: State, orphans: set<nat>) {
    Inv(s) && CrashInv(s) && Timely(s) && NoPoison(s) && HandledExcept(s, orphans)
  }

  lemma DrainKeeps(s: State, drain: seq<Step>, orphans: set<nat>)
    requires CanGoOn(s, orphans) && DrainsBy(s, drain)
    ensures CanGoOn(Run(s, drain), orphans) && NobodyHolds(Run(s, drain))
  {
    RunKeepsInv(s, drain);
    WorkIsTolerated(s, drain);
    CrashRunIsSafe(s, drain);
    WorkAddsNoPoison(s, drain);
    WorkKeepsExcept(s, drain, orphans);
    IdleHasNoWork(Run(s, drain));
  }

  lemma DrainedIsAtRest(s: State)
    requires Inv(s) && CrashInv(s) && IsIdle(s) && AllDue(s)
    requires forall i :: 0 <= i < |s.entries| ==> !s.entries[i].place.Pending?
    ensures IsAtRest(s) && ClockIsPast(s)
  {
    IdleHasNoWork(s);
    forall e | 0 <= e < |s.rows| ensures !IsFresh(s.rows[e], s.now) {
      assert IsSafe(s, e);
    }
  }

  /** How long to wait until entry i may be reclaimed and its row is stale. */
  function WaitFor(s: State, i: nat): (elapsed: nat)
    requires IsEntry(s, i) && s.entries[i].place.Pending?
  {
    var idle := s.entries[i].place.since + RECLAIM_IDLE - s.now;
    var payload := s.entries[i].payload;
    var stale := if payload.Id? && payload.event < |s.rows| then s.rows[payload.event].updatedAt + STALE - s.now else 0;
    if idle < 0 && stale < 0 then 0 else if idle < stale then stale else idle
  }

  lemma WaitSuffices(s: State, i: nat)
    requires IsEntry(s, i) && s.entries[i].place.Pending?
    requires forall a :: 0 <= a < |s.agents| ==> !Handles(s.agents[a], i)
    ensures var waited := Next(s, Tick(WaitFor(s, i)));
            IsDisciplinedReclaim(waited, i) && Enabled(waited, Reclaim(i, 0))
  {
  }

  lemma WaitKeepsExcept(s: State, elapsed: nat, orphans: set<nat>)
    requires HandledExcept(s, orphans)
    ensures HandledExcept(Next(s, Tick(elapsed)), orphans)
  {
    forall i | 0 <= i < |s.entries| && s.entries[i].place.Pending? && i !in orphans
      ensures HasHandler(Next(s, Tick(elapsed)), i)
    {
      assert HasHandler(s, i);
    }
  }

  /** One orphan fewer: wait, and reclaim it. */
  lemma ReclaimOrphan(s: State, i: nat, orphans: set<nat>)
    requires CanGoOn(s, orphans) && NobodyHolds(s) && IsEntry(s, i) && s.entries[i].place.Pending?
    requires forall a :: 0 <= a < |s.agents| ==> !Handles(s.agents[a], i)
    ensures var waited := Next(s, Tick(WaitFor(s, i)));
            && Timely(waited) && Tolerated(waited, Reclaim(i, 0))
            && CanGoOn(Next(waited, Reclaim(i, 0)), orphans - {i})
  {
    var tick, reclaim := Tick(WaitFor(s, i)), Reclaim(i, 0);
    var waited := Next(s, tick);
    WaitSuffices(s, i);
    StepKeepsInv(s, tick);
    StepKeepsInv(waited, reclaim);
    StepKeepsCrashInv(s, tick);
    StepKeepsCrashInv(waited, reclaim);
    WaitKeepsExcept(s, WaitFor(s, i), orphans);
    OrphanIsHandled(waited, i, orphans);
  }

  lemma OrphanIsHandled(s: State, i: nat, orphans: set<nat>)
    requires HandledExcept(s, orphans) && NoPoison(s) && Enabled(s, Reclaim(i, 0))
    ensures HandledExcept(Next(s, Reclaim(i, 0)), orphans - {i}) && NoPoison(Next(s, Reclaim(i, 0)))
  {
    var s' := Next(s, Reclaim(i, 0));
    assert Handles(s'.agents[|s.agents|], i);
    forall j | 0 <= j < |s'.entries| && s'.entries[j].place.Pending? && j !in orphans - {i} ensures HasHandler(s', j) {
      if j != i {
        var a :| 0 <= a < |s.agents| && Handles(s.agents[a], j);
        assert Handles(s'.agents[a], j);
      }
    }
  }

  lemma {:induction false} RecoverOrphans(s: State, orphans: set<nat>) returns (steps: seq<Step>)
    requires CanGoOn(s, orphans)
    ensures RecoversBy(s, steps)
    decreases |orphans|
  {
    var drain := CanDrain(s);
    var s1 := Run(s, drain);
    DrainKeeps(s, drain, orphans);
    IdleHasNoWork(s1);
    if i :| 0 <= i < |s1.entries| && s1.entries[i].place.Pending? {
      assert !HasHandler(s1, i);
      ReclaimOrphan(s1, i, orphans);
      var tick, reclaim := Tick(WaitFor(s1, i)), Reclaim(i, 0);
      var rest := RecoverOrphans(Next(Next(s1, tick), reclaim), orphans - {i});
      RecoversCons(Next(s1, tick), reclaim, rest);
      RecoversCons(s1, tick, [reclaim] + rest);
      RecoversAppend(s, drain, [tick] + ([reclaim] + rest));
      steps := drain + ([tick] + ([reclaim] + rest));
    } else {
      DrainedIsAtRest(s1);
      assert RecoversBy(s1, []);
      RecoversAppend(s, drain, []);
      steps := drain + [];
    }
  }

  /** After any timely run with crashing handlers and disciplined reclaims, work, polling, waiting and further
      disciplined reclaims can finish every event and reach a state the report calls converged, provided no
      message carries an id that is no UUID. */
  lemma RecoveryIsReachable(before: seq<Step>)
    requires TimelyRun(INITIAL, before) && ToleratedRun(INITIAL, before)
    requires Timely(Run(INITIAL, before)) && NoPoison(Run(INITIAL, before))
    ensures exists steps :: RecoversBy(Run(INITIAL, before), steps) && IsConverged(Run(Run(INITIAL, before), steps), true)
  {
    var s := Run(INITIAL, before);
    ReachableInv(before);
    CrashRunIsSafe(INITIAL, before);
    var steps := RecoverOrphans(s, set i: nat | i < |s.entries| && IsEntry(s, i));
    RunKeepsInv(s, steps);
    CrashRunIsSafe(s, steps);
    AtRestIsConverged(Run(s, steps));
  }
}
