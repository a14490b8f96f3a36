/** How an event can be forgotten, what brings it back, and exactly which reclaims lose one. */
module Forgetting {
  import opened Basics
  import opened Tables
  import opened Protocol
  import opened Safety
  import opened Coverage
  import opened CrashCoverage
  import opened Convergence
  import opened RetryFlush
  import J = Janitor

  /** Nothing in the system carries the unfinished event: no holder, no carrier, every entry acknowledged. */
  ghost predicate IsForgotten(s: State, e: nat) {
    && e < |s.rows| && IsActive(s.rows[e].status)
    && !HasHolder(s, e) && !HasCarrier(s, e)
    && AllAcked(s, e)
  }

  ghost predicate AllAcked(s: State, e: nat) {
    forall i :: 0 <= i < |s.entries| && s.entries[i].payload == Id(e) ==> s.entries[i].place.Acked?
  }

  /** Forgotten while "processing", the one status a duplicate request does not publish again. */
  ghost predicate IsLost(s: State, e: nat) {
    IsForgotten(s, e) && s.rows[e].status == Processing
  }

  // ---------------------------------------------------------------------------------------------
  // What brings a forgotten event back

  predicate Revives(s: State, step: Step, e: nat) {
    || (step.Inject? && step.payload == Id(e))
    || (step.Ingest? && step.event == e && e < |s.rows| && IsRepublishable(s.rows[e].status))
  }

  predicate NeverRevived(s: State, steps: seq<Step>, e: nat)
    decreases |steps|
  {
    steps != [] ==> !Revives(s, steps[0], e) && NeverRevived(Next(s, steps[0]), steps[1..], e)
  }

  predicate Knows(s: State, agent: Agent, e: nat) {
    Holds(agent, e) || Carries(s, agent, e)
  }

  lemma ForgottenAgents(s: State, e: nat)
    ensures !HasHolder(s, e) && !(exists a :: 0 <= a < |s.agents| && Carries(s, s.agents[a], e)) <==>
            forall a :: 0 <= a < |s.agents| ==> !Knows(s, s.agents[a], e)
  {
    if forall a :: 0 <= a < |s.agents| ==> !Knows(s, s.agents[a], e) {
      assert forall a :: 0 <= a < |s.agents| ==> !Holds(s.agents[a], e) && !Carries(s, s.agents[a], e) by {
        forall a | 0 <= a < |s.agents| ensures !Holds(s.agents[a], e) && !Carries(s, s.agents[a], e) {
          assert !Knows(s, s.agents[a], e);
        }
      }
    }
  }

  lemma ForgottenRowStays(s: State, step: Step, e: nat)
    requires WellFormed(s) && IsForgotten(s, e) && RowOk(s.rows[e]) && !Revives(s, step, e)
    ensures e < |Next(s, step).rows| && Next(s, step).rows[e] == s.rows[e]
  {
    ForgottenAgents(s, e);
    if !TouchesRows(step) {
      QuietStep(s, step);
    } else if Enabled(s, step) {
      match step
      case Claim(a) => assert !Knows(s, s.agents[a], e);
      case Succeed(a) => assert !Knows(s, s.agents[a], e);
      case Fail(a) => assert !Knows(s, s.agents[a], e);
      case Replay(e', d) =>
        if e' == e {
          ReplayableIsDeadLettered(s.rows[e], d);
        }
      case _ =>
    }
  }

  lemma NamedAgentForgets(s: State, step: Step, e: nat)
    requires NamesAgent(step) && Enabled(s, step) && AgentOk(s, s.agents[step.agent])
    requires !Knows(s, s.agents[step.agent], e) && e !in s.retry
    ensures !Knows(Next(s, step), Next(s, step).agents[step.agent], e)
  {
  }

  lemma NewAgentForgets(s: State, step: Step, e: nat)
    requires e < |s.rows| && IsActive(s.rows[e].status) && RowOk(s.rows[e]) && !Revives(s, step, e) && AllAcked(s, e)
    requires !NamesAgent(step) && |Next(s, step).agents| == |s.agents| + 1
    ensures !Knows(Next(s, step), Next(s, step).agents[|s.agents|], e)
  {
    if step.Replay? && step.event == e {
      ReplayableIsDeadLettered(s.rows[e], step.letter);
    }
  }

  lemma ForgottenAgentsStay(s: State, step: Step, e: nat, a: nat)
    requires WellFormed(s) && IsForgotten(s, e) && RowOk(s.rows[e]) && !Revives(s, step, e)
    requires a < |Next(s, step).agents|
    ensures !Knows(Next(s, step), Next(s, step).agents[a], e)
  {
    ForgottenAgents(s, e);
    OneAgentChanges(s, step);
    if a == |s.agents| {
      NewAgentForgets(s, step, e);
    } else {
      assert AgentOk(s, s.agents[a]) && !Knows(s, s.agents[a], e);
      if Next(s, step).agents[a] == s.agents[a] {
        StepGrows(s, step);
      } else {
        NamedAgentForgets(s, step, e);
      }
    }
  }

  lemma ForgottenStreamsStay(s: State, step: Step, e: nat)
    requires IsForgotten(s, e) && !Revives(s, step, e)
    ensures AllAcked(Next(s, step), e) && e !in Next(s, step).retry
  {
    ForgottenAgents(s, e);
    if NamesAgent(step) && Enabled(s, step) {
      assert !Knows(s, s.agents[step.agent], e);
    }
  }

  /** A step leaves a forgotten event forgotten, and its row untouched, unless it is another publisher's
      message for it or a duplicate request that finds it received, queued or retrying. */
  lemma StaysForgottenIff(s: State, step: Step, e: nat)
    requires WellFormed(s) && IsForgotten(s, e) && RowOk(s.rows[e])
    ensures IsForgotten(Next(s, step), e) <==> !Revives(s, step, e)
    ensures !Revives(s, step, e) ==> e < |Next(s, step).rows| && Next(s, step).rows[e] == s.rows[e]
  {
    var s' := Next(s, step);
    if Revives(s, step, e) {
      if step.Inject? {
        assert Waits(s'.entries[|s.entries|], e);
      } else {
        assert Carries(s', s'.agents[|s.agents|], e);
      }
    } else {
      ForgottenRowStays(s, step, e);
      ForgottenStreamsStay(s, step, e);
      forall a | 0 <= a < |s'.agents| ensures !Knows(s', s'.agents[a], e) {
        ForgottenAgentsStay(s, step, e, a);
      }
      ForgottenAgents(s', e);
      assert forall i :: 0 <= i < |s'.entries| ==> !Waits(s'.entries[i], e);
    }
  }

  /** Left alone by other publishers and by duplicate requests, a forgotten event stays forgotten. */
  lemma {:induction false} ForgottenUntilRevived(s: State, steps: seq<Step>, e: nat)
    requires WellFormed(s) && IsForgotten(s, e) && RowOk(s.rows[e]) && NeverRevived(s, steps, e)
    ensures IsForgotten(Run(s, steps), e) && Run(s, steps).rows[e] == s.rows[e]
    decreases |steps|
  {
    if steps != [] {
      StaysForgottenIff(s, steps[0], e);
      StepKeepsWellFormed(s, steps[0]);
      ForgottenUntilRevived(Next(s, steps[0]), steps[1..], e);
    }
  }

  predicate NoOtherPublisher(steps: seq<Step>, e: nat) {
    forall k :: 0 <= k < |steps| ==> !(steps[k].Inject? && steps[k].payload == Id(e))
  }

  /** A lost event is lost for good: whatever the API, the workers, the janitors and the schedulers do, it
      stays "processing" and the report never says "converged" again. */
  lemma {:induction false} LostForGood(s: State, steps: seq<Step>, e: nat, redisUp: bool)
    requires WellFormed(s) && IsLost(s, e) && RowOk(s.rows[e]) && NoOtherPublisher(steps, e)
    ensures IsLost(Run(s, steps), e) && Run(s, steps).rows[e] == s.rows[e]
    ensures !IsConverged(Run(s, steps), redisUp)
    decreases |steps|
  {
    if steps != [] {
      assert !Revives(s, steps[0], e);
      StaysForgottenIff(s, steps[0], e);
      StepKeepsWellFormed(s, steps[0]);
      LostForGood(Next(s, steps[0]), steps[1..], e, redisUp);
    }
  }

  /** Lost now and after everything that may follow. */
  ghost predicate IsGone(s: State, e: nat) {
    forall steps :: NoOtherPublisher(steps, e) ==> IsLost(Run(s, steps), e)
  }

  lemma LostIsGone(s: State, e: nat)
    requires WellFormed(s) && IsLost(s, e) && RowOk(s.rows[e])
    ensures IsGone(s, e)
  {
    forall steps | NoOtherPublisher(steps, e) ensures IsLost(Run(s, steps), e) {
      LostForGood(s, steps, e, true);
    }
  }

  // ---------------------------------------------------------------------------------------------
  // Exactly which reclaims lose an event

  /** The unfinished event e is known only to pending entry i and to a handler that is working on it. */
  ghost predicate IsAlone(s: State, i: nat, e: nat) {
    && e < |s.rows| && IsActive(s.rows[e].status)
    && IsEntry(s, i) && s.entries[i].place.Pending? && s.entries[i].payload == Id(e)
    && (forall j :: 0 <= j < |s.entries| && j != i && s.entries[j].payload == Id(e) ==> s.entries[j].place.Acked?)
    && e !in s.retry
    && (forall a :: 0 <= a < |s.agents| && Knows(s, s.agents[a], e) ==> IsBusyWith(s.agents[a], i))
  }

  predicate IsBusyWith(agent: Agent, i: nat) {
    (agent.Claiming? || agent.Holding?) && agent.entry == i
  }

  predicate IsBusy(s: State, i: nat) {
    exists a :: 0 <= a < |s.agents| && IsBusyWith(s.agents[a], i)
  }

  /** What the janitor would have to look at before it takes entry i. */
  predicate IsUnsafe(s: State, i: nat, e: nat)
    requires e < |s.rows|
  {
    IsBusy(s, i) || IsFresh(s.rows[e], s.now)
  }

  predicate IsHandlerMove(s: State, step: Step) {
    || step.Claim? || step.Succeed? || step.Fail? || step.Schedule? || step.Ack?
    || (step.Crash? && IsAgent(s, step.agent) && IsHandler(s.agents[step.agent]))
  }

  predicate HandlerRun(s: State, steps: seq<Step>)
    decreases |steps|
  {
    steps != [] ==> IsHandlerMove(s, steps[0]) && HandlerRun(Next(s, steps[0]), steps[1..])
  }

  /** Handlers alone, working or crashing and without any time passing, can lose e for good from here. */
  ghost predicate HandlersCanLose(s: State, e: nat) {
    exists steps :: HandlerRun(s, steps) && IsGone(Run(s, steps), e)
  }

  /** Some continuation with tolerated crashes and disciplined reclaims forgets e. */
  ghost predicate CanBeForgotten(s: State, e: nat) {
    exists steps :: ToleratedRun(s, steps) && IsForgotten(Run(s, steps), e)
  }

  lemma {:induction false} HandlerRunIsTolerated(s: State, steps: seq<Step>)
    requires HandlerRun(s, steps)
    ensures ToleratedRun(s, steps)
    decreases |steps|
  {
    if steps != [] {
      HandlerRunIsTolerated(Next(s, steps[0]), steps[1..]);
    }
  }

  lemma HandlerMoveKeepsTimely(s: State, step: Step)
    requires Timely(s) && IsHandlerMove(s, step)
    ensures Timely(Next(s, step))
  {
  }

  /** No time passes, so the claims stay exclusive. */
  lemma {:induction false} HandlerRunKeepsInv(s: State, steps: seq<Step>)
    requires Inv(s) && Timely(s) && HandlerRun(s, steps)
    ensures Inv(Run(s, steps))
    decreases |steps|
  {
    if steps != [] {
      StepKeepsInv(s, steps[0]);
      HandlerMoveKeepsTimely(s, steps[0]);
      HandlerRunKeepsInv(Next(s, steps[0]), steps[1..]);
    }
  }

  lemma SafeIsNotForgotten(s: State, e: nat)
    requires CrashInv(s) && e < |s.rows|
    ensures !IsForgotten(s, e)
  {
    assert IsSafe(s, e);
    if IsForgotten(s, e) {
      ForgottenAgents(s, e);
      assert forall a :: 0 <= a < |s.agents| && Owes(s.agents[a], e) ==> Knows(s, s.agents[a], e);
    }
  }

  /** When entry i alone carries e, its handler, if any, is claiming a claimable row or holding a fresh one. */
  lemma AloneHandler(s: State, i: nat, e: nat, a: nat)
    requires Inv(s) && CrashInv(s) && Timely(s) && IsAlone(s, i, e) && IsAgent(s, a) && Handles(s.agents[a], i)
    ensures IsBusyWith(s.agents[a], i)
    ensures s.agents[a].Claiming? ==> !IsFresh(s.rows[e], s.now)
    ensures s.agents[a].Holding? ==> s.agents[a].event == e && IsFresh(s.rows[e], s.now)
    ensures forall b :: 0 <= b < |s.agents| && b != a ==> !Handles(s.agents[b], i) && !Knows(s, s.agents[b], e)
  {
    assert AgentOk(s, s.agents[a]) && IsSafe(s, e);
    forall b | 0 <= b < |s.agents| && b != a ensures !Handles(s.agents[b], i) && !Knows(s, s.agents[b], e) {
      assert Handles(s.agents[b], i) ==> IsHandler(s.agents[b]);
      assert IsHandler(s.agents[a]);
    }
    if s.agents[a].Holding? {
      assert HolderOk(s, s.agents[a]);
    } else {
      AloneIsRecoverable(s, i, e, a);
    }
  }

  lemma AloneIsRecoverable(s: State, i: nat, e: nat, a: nat)
    requires IsAlone(s, i, e) && IsSafe(s, e) && IsAgent(s, a) && Handles(s.agents[a], i) && !s.agents[a].Holding?
    requires forall b :: 0 <= b < |s.agents| && b != a ==> !Knows(s, s.agents[b], e)
    ensures s.agents[a].Claiming? && !IsFresh(s.rows[e], s.now)
  {
    assert forall b :: 0 <= b < |s.agents| && (Owes(s.agents[b], e) || Holds(s.agents[b], e)) ==> Knows(s, s.agents[b], e);
    var j :| 0 <= j < |s.entries| && IsRecoverable(s, j, e);
    assert j == i;
  }

  lemma DisciplinedIff(s: State, i: nat, e: nat)
    requires Inv(s) && CrashInv(s) && Timely(s) && IsAlone(s, i, e)
    ensures IsDisciplinedReclaim(s, i) <==> !IsUnsafe(s, i, e)
  {
    forall a | 0 <= a < |s.agents| && Handles(s.agents[a], i) ensures IsBusyWith(s.agents[a], i) {
      AloneHandler(s, i, e, a);
    }
    assert forall a :: 0 <= a < |s.agents| && IsBusyWith(s.agents[a], i) ==> Handles(s.agents[a], i);
  }

  /** A handler that finds its row freshly claimed acknowledges its entry and does nothing else. */
  lemma SkipThenAck(s: State, n: nat)
    requires Enabled(s, Claim(n)) && s.entries[s.agents[n].entry].place.Pending?
    requires var payload := s.entries[s.agents[n].entry].payload;
             payload.Id? && payload.event < |s.rows| && IsFresh(s.rows[payload.event], s.now)
    ensures var i := s.agents[n].entry;
            && Run(s, [Claim(n)] + [Ack(n)]) ==
               s.(agents := s.agents[n := Done], entries := s.entries[i := s.entries[i].(place := Acked)])
            && HandlerRun(s, [Claim(n)] + [Ack(n)])
  {
    var i := s.agents[n].entry;
    var s1 := Next(s, Claim(n));
    assert s1 == s.(agents := s.agents[n := OwesAck(i)]);
    assert s1.agents[n := Done] == s.agents[n := Done];
    RunOneMore(s, [], Claim(n));
    assert [] + [Claim(n)] == [Claim(n)];
    RunOneMore(s, [Claim(n)], Ack(n));
    assert ([Claim(n)] + [Ack(n)])[1..] == [Ack(n)];
    assert [Ack(n)][1..] == [];
  }

  lemma {:induction false} HandlerRunAppend(s: State, first: seq<Step>, second: seq<Step>)
    requires HandlerRun(s, first) && HandlerRun(Run(s, first), second)
    ensures HandlerRun(s, first + second)
    decreases |first|
  {
    if first == [] {
      assert first + second == second;
    } else {
      assert (first + second)[1..] == first[1..] + second;
      HandlerRunAppend(Next(s, first[0]), first[1..], second);
    }
  }

  lemma OneHandlerMove(s: State, step: Step)
    requires IsHandlerMove(s, step)
    ensures HandlerRun(s, [step]) && Run(s, [step]) == Next(s, step)
  {
    assert [step][1..] == [];
  }

  /** Entry i is all there is for e, and its row is fresh; only handlers n and a know about the event. */
  ghost predicate IsContended(s: State, i: nat, e: nat, n: nat, a: nat) {
    && IsEntry(s, i) && s.entries[i].place.Pending? && s.entries[i].payload == Id(e)
    && e < |s.rows| && IsFresh(s.rows[e], s.now) && e !in s.retry
    && (forall j :: 0 <= j < |s.entries| && j != i && s.entries[j].payload == Id(e) ==> s.entries[j].place.Acked?)
    && IsAgent(s, n) && s.agents[n] == Claiming(i)
    && (a != n ==> IsAgent(s, a) && IsHandler(s.agents[a]))
    && (forall b :: 0 <= b < |s.agents| && b != n && b != a ==> !Knows(s, s.agents[b], e))
  }

  /** The reclaiming handler skips and acknowledges; then the first handler, if there is one, crashes. */
  function SkipThenCrash(n: nat, a: nat): (steps: seq<Step>) {
    [Claim(n)] + [Ack(n)] + if a == n then [] else [Crash(a)]
  }

  lemma ContendedIsLost(s: State, i: nat, e: nat, n: nat, a: nat)
    requires IsContended(s, i, e, n, a)
    ensures HandlerRun(s, SkipThenCrash(n, a)) && IsLost(Run(s, SkipThenCrash(n, a)), e)
  {
    SkipThenAck(s, n);
    var skipped := Run(s, [Claim(n)] + [Ack(n)]);
    var end := Run(s, SkipThenCrash(n, a));
    if a == n {
      assert SkipThenCrash(n, a) == [Claim(n)] + [Ack(n)];
    } else {
      OneHandlerMove(skipped, Crash(a));
      HandlerRunAppend(s, [Claim(n)] + [Ack(n)], [Crash(a)]);
      RunAppend(s, [Claim(n)] + [Ack(n)], [Crash(a)]);
    }
    assert end.agents == skipped.agents[a := Done] && end.entries == skipped.entries;
    forall b | 0 <= b < |end.agents| ensures !Knows(end, end.agents[b], e) {
      assert b != n && b != a ==> end.agents[b] == s.agents[b] && !Knows(s, s.agents[b], e);
    }
    ForgottenAgents(end, e);
    assert forall j :: 0 <= j < |end.entries| ==> !Waits(end.entries[j], e);
  }

  lemma ContendedIsGone(s: State, i: nat, e: nat, n: nat, a: nat)
    requires Inv(s) && Timely(s) && IsContended(s, i, e, n, a)
    ensures HandlerRun(s, SkipThenCrash(n, a)) && IsGone(Run(s, SkipThenCrash(n, a)), e)
  {
    ContendedIsLost(s, i, e, n, a);
    HandlerRunKeepsInv(s, SkipThenCrash(n, a));
    LostIsGone(Run(s, SkipThenCrash(n, a)), e);
  }

  lemma UnsafeReclaimLoses(s: State, i: nat, consumer: nat, e: nat)
    requires Inv(s) && CrashInv(s) && Timely(s) && IsAlone(s, i, e) && Enabled(s, Reclaim(i, consumer))
    requires IsUnsafe(s, i, e)
    ensures HandlersCanLose(Next(s, Reclaim(i, consumer)), e)
  {
    var s', n := Next(s, Reclaim(i, consumer)), |s.agents|;
    StepKeepsInv(s, Reclaim(i, consumer));
    if a :| 0 <= a < |s.agents| && IsBusyWith(s.agents[a], i) {
      AloneHandler(s, i, e, a);
      if s.agents[a].Holding? {
        StillUnknown(s, i, consumer, e, a);
        ContendedIsGone(s', i, e, n, a);
      } else {
        ClaimingReclaimLoses(s, i, consumer, e, a);
      }
    } else {
      assert forall a :: 0 <= a < |s.agents| ==> !Knows(s, s.agents[a], e);
      StillUnknown(s, i, consumer, e, n);
      ContendedIsGone(s', i, e, n, n);
    }
  }

  /** A reclaim tells only its new handler about the event. */
  lemma StillUnknown(s: State, i: nat, consumer: nat, e: nat, a: nat)
    requires IsAlone(s, i, e) && Enabled(s, Reclaim(i, consumer))
    requires forall b :: 0 <= b < |s.agents| && b != a ==> !Knows(s, s.agents[b], e)
    requires a == |s.agents| || (IsAgent(s, a) && IsHandler(s.agents[a]))
    ensures IsFresh(s.rows[e], s.now) ==> IsContended(Next(s, Reclaim(i, consumer)), i, e, |s.agents|, a)
    ensures forall b :: 0 <= b < |s.agents| && b != a ==>
              !Knows(Next(s, Reclaim(i, consumer)), Next(s, Reclaim(i, consumer)).agents[b], e)
  {
    var s' := Next(s, Reclaim(i, consumer));
    assert s'.agents == s.agents + [Claiming(i)];
    forall b | 0 <= b < |s.agents| && b != a ensures !Knows(s', s'.agents[b], e) {
      assert s'.agents[b] == s.agents[b] && !Knows(s, s.agents[b], e);
    }
  }

  /** The first handler claims the row, so the second one skips it. */
  lemma ClaimingReclaimLoses(s: State, i: nat, consumer: nat, e: nat, a: nat)
    requires IsAlone(s, i, e) && Enabled(s, Reclaim(i, consumer))
    requires Inv(Next(s, Reclaim(i, consumer))) && Timely(Next(s, Reclaim(i, consumer)))
    requires IsAgent(s, a) && s.agents[a] == Claiming(i) && !IsFresh(s.rows[e], s.now)
    requires forall b :: 0 <= b < |s.agents| && b != a ==> !Knows(s, s.agents[b], e)
    ensures HandlersCanLose(Next(s, Reclaim(i, consumer)), e)
  {
    var s', n := Next(s, Reclaim(i, consumer)), |s.agents|;
    StillUnknown(s, i, consumer, e, a);
    var claimed := Next(s', Claim(a));
    var row := s.rows[e];
    assert s'.agents[a] == Claiming(i);
    StepKeepsInv(s', Claim(a));
    HandlerMoveKeepsTimely(s', Claim(a));
    assert claimed.agents == s'.agents[a := Holding(i, e, row.attemptCount, row.maxAttempts, s.now)];
    forall b | 0 <= b < |claimed.agents| && b != n && b != a ensures !Knows(claimed, claimed.agents[b], e) {
      assert claimed.agents[b] == s'.agents[b] && !Knows(s', s'.agents[b], e);
    }
    ContendedIsGone(claimed, i, e, n, a);
    OneHandlerMove(s', Claim(a));
    HandlerRunAppend(s', [Claim(a)], SkipThenCrash(n, a));
    RunAppend(s', [Claim(a)], SkipThenCrash(n, a));
  }

  lemma DisciplinedNeverForgets(s: State, i: nat, consumer: nat, e: nat)
    requires CrashInv(s) && e < |s.rows| && IsDisciplinedReclaim(s, i)
    ensures !CanBeForgotten(Next(s, Reclaim(i, consumer)), e)
  {
    var reclaim := Reclaim(i, consumer);
    var s' := Next(s, reclaim);
    forall steps | ToleratedRun(s', steps) ensures !IsForgotten(Run(s', steps), e) {
      assert ([reclaim] + steps)[1..] == steps;
      CrashRunIsSafe(s, [reclaim] + steps);
      if e < |Run(s', steps).rows| {
        SafeIsNotForgotten(Run(s', steps), e);
      }
    }
  }

  lemma LosingIsForgetting(s: State, e: nat)
    requires HandlersCanLose(s, e)
    ensures CanBeForgotten(s, e)
  {
    var steps :| HandlerRun(s, steps) && IsGone(Run(s, steps), e);
    HandlerRunIsTolerated(s, steps);
    assert NoOtherPublisher([], e) && Run(Run(s, steps), []) == Run(s, steps);
  }

  /** The exact price of a reclaim. When entry i alone carries an unfinished event, reclaiming it can lose the
      event if and only if its handler is still claiming or holding, or its row is freshly claimed. Then
      handlers alone lose it, at once and for good; otherwise no tolerated continuation forgets it. */
  lemma ReclaimLosesIff(s: State, i: nat, consumer: nat, e: nat)
    requires Inv(s) && CrashInv(s) && Timely(s) && IsAlone(s, i, e) && Enabled(s, Reclaim(i, consumer))
    ensures HandlersCanLose(Next(s, Reclaim(i, consumer)), e) <==> IsUnsafe(s, i, e)
    ensures CanBeForgotten(Next(s, Reclaim(i, consumer)), e) <==> IsUnsafe(s, i, e)
    ensures IsDisciplinedReclaim(s, i) <==> !IsUnsafe(s, i, e)
  {
    DisciplinedIff(s, i, e);
    if IsUnsafe(s, i, e) {
      UnsafeReclaimLoses(s, i, consumer, e);
      LosingIsForgetting(Next(s, Reclaim(i, consumer)), e);
    } else {
      DisciplinedNeverForgets(s, i, consumer, e);
      if HandlersCanLose(Next(s, Reclaim(i, consumer)), e) {
        LosingIsForgetting(Next(s, Reclaim(i, consumer)), e);
      }
    }
  }

  // ---------------------------------------------------------------------------------------------
  // The documented recovery: the worker is dead when its entry is reclaimed

  const WORKER_DIES: seq<Step> :=
    [Ingest(0, 4)] + [PublishIncoming(0)] + [Deliver(0, 0)] + [Claim(1)] + [Crash(1)] + [Tick(5 * SECOND)]

  /** Five seconds after its crash the worker's message is pending, nobody handles it, and its consumer has
      been silent since time 0. */
  lemma WorkerDies()
    ensures Run(INITIAL, WORKER_DIES) ==
            State(5 * SECOND, [ClaimRow(NewRow(Queued, 4, 0), 0)], [Entry(Incoming, Id(0), Pending(0, 0))], map[],
                  [Done, Done], map[])
  {
    ReachFirstClaim();
    var start := [Ingest(0, 4)] + [PublishIncoming(0)] + [Deliver(0, 0)] + [Claim(1)];
    RunOneMore(INITIAL, start, Crash(1));
    RunOneMore(INITIAL, start + [Crash(1)], Tick(5 * SECOND));
  }

  /** Another worker takes the message, finds the row fresh and acknowledges it. */
  const SKIPPED: seq<Step> := [Reclaim(0, 1)] + [Claim(2)] + [Ack(2)]

  lemma ReclaimSkips()
    ensures var lost := Run(Run(INITIAL, WORKER_DIES), SKIPPED);
            IsLost(lost, 0) && WellFormed(lost) && lost.rows == [ClaimRow(NewRow(Queued, 4, 0), 0)]
  {
    WorkerDies();
    var dead := Run(INITIAL, WORKER_DIES);
    var reclaimed := Next(dead, Reclaim(0, 1));
    assert reclaimed.agents == dead.agents + [Claiming(0)];
    ContendedIsLost(reclaimed, 0, 0, 2, 2);
    SkipThenAck(reclaimed, 2);
    assert SkipThenCrash(2, 2) == [Claim(2)] + [Ack(2)];
    assert SKIPPED[1..] == [Claim(2)] + [Ack(2)];
    RunKeepsWellFormed(INITIAL, WORKER_DIES);
    RunKeepsWellFormed(dead, SKIPPED);
  }

  /** A worker claims an event and dies. Five seconds later its consumer is stale, and its message is reclaimed
      and acknowledged. Whatever happens afterwards, short of another publisher's message for the event, it
      stays "processing". */
  lemma DeadWorkersEventIsLost(later: seq<Step>, redisUp: bool)
    requires NoOtherPublisher(later, 0)
    ensures var dead := Run(INITIAL, WORKER_DIES);
            && dead.now == 5 * SECOND && (forall a :: 0 <= a < |dead.agents| ==> dead.agents[a].Done?)
            && dead.entries == [Entry(Incoming, Id(0), Pending(0, 0))]
            && J.IsStale(J.ConsumerInfo(0, |dead.entries|, dead.now - dead.entries[0].place.since), 1, 5 * SECOND)
            && Enabled(dead, Reclaim(0, 1)) && !Enabled(dead.(now := dead.now - 1), Reclaim(0, 1))
    ensures var end := Run(Run(Run(INITIAL, WORKER_DIES), SKIPPED), later);
            IsLost(end, 0) && !IsConverged(end, redisUp)
  {
    WorkerDies();
    ReclaimSkips();
    assert RowOk(ClaimRow(NewRow(Queued, 4, 0), 0));
    LostForGood(Run(Run(INITIAL, WORKER_DIES), SKIPPED), later, 0, redisUp);
  }

  // ---------------------------------------------------------------------------------------------
  // The other excluded crash: between ZREM and XADD

  /** Loop a, between ZREM and XADD, is the only thing that knows about its unfinished event. */
  ghost predicate IsInOneHand(s: State, a: nat, e: nat) {
    && e < |s.rows| && IsActive(s.rows[e].status) && e !in s.retry && AllAcked(s, e)
    && (forall b :: 0 <= b < |s.agents| && b != a ==> !Knows(s, s.agents[b], e))
  }

  lemma CrashInHandForgetsIff(s: State, a: nat)
    requires IsAgent(s, a) && s.agents[a].Republishing?
    ensures IsForgotten(Next(s, Crash(a)), s.agents[a].event) <==> IsInOneHand(s, a, s.agents[a].event)
  {
    var s', e := Next(s, Crash(a)), s.agents[a].event;
    ForgottenAgents(s', e);
    forall b | 0 <= b < |s'.agents| && b != a ensures Knows(s', s'.agents[b], e) <==> Knows(s, s.agents[b], e) {
    }
    if IsInOneHand(s, a, e) {
      assert forall i :: 0 <= i < |s'.entries| ==> !Waits(s'.entries[i], e);
    } else if IsForgotten(s', e) {
      forall b | 0 <= b < |s.agents| && b != a ensures !Knows(s, s.agents[b], e) {
        assert !Knows(s', s'.agents[b], e);
      }
    }
  }

  /** Handler a, which owes the ZADD, and its entry i are the only things that know about the unfinished event. */
  ghost predicate IsOwedOnce(s: State, a: nat, i: nat, e: nat) {
    && e < |s.rows| && IsActive(s.rows[e].status) && e !in s.retry
    && (forall j :: 0 <= j < |s.entries| && j != i && s.entries[j].payload == Id(e) ==> s.entries[j].place.Acked?)
    && (forall b :: 0 <= b < |s.agents| && b != a ==> !Knows(s, s.agents[b], e))
  }

  /** A ZADD that fails is only logged, and the handler goes on to acknowledge: that forgets the event if and
      only if nothing else knows about it. */
  lemma FailedScheduleForgetsIff(s: State, a: nat)
    requires WellFormed(s) && IsAgent(s, a) && s.agents[a].OwesSchedule?
    requires s.entries[s.agents[a].entry].place.Pending?
    ensures IsForgotten(Next(Next(s, ScheduleFailed(a)), Ack(a)), s.agents[a].event) <==>
            IsOwedOnce(s, a, s.agents[a].entry, s.agents[a].event)
  {
    var i, e := s.agents[a].entry, s.agents[a].event;
    var logged := Next(s, ScheduleFailed(a));
    var s' := Next(logged, Ack(a));
    assert AgentOk(s, s.agents[a]);
    assert logged == s.(agents := s.agents[a := OwesAck(i)]);
    assert s'.agents == s.agents[a := Done] && s'.entries == s.entries[i := s.entries[i].(place := Acked)];
    ForgottenAgents(s', e);
    forall b | 0 <= b < |s'.agents| && b != a ensures Knows(s', s'.agents[b], e) <==> Knows(s, s.agents[b], e) {
    }
    if IsOwedOnce(s, a, i, e) {
      assert forall j :: 0 <= j < |s'.entries| ==> !Waits(s'.entries[j], e);
    } else if IsForgotten(s', e) {
      forall b | 0 <= b < |s.agents| && b != a ensures !Knows(s, s.agents[b], e) {
        assert !Knows(s', s'.agents[b], e);
      }
      forall j | 0 <= j < |s.entries| && j != i && s.entries[j].payload == Id(e) ensures s.entries[j].place.Acked? {
        assert s'.entries[j] == s.entries[j];
      }
    }
  }

  const LOOP_DIES: seq<Step> := [Schedule(1)] + [Ack(1)] + [ListDue([0])] + [Remove(2)]

  lemma FirstRetryListed()
    ensures Next(Next(Next(FIRST_FAILURE, Schedule(1)), Ack(1)), ListDue([0])) ==
            FIRST_FAILURE.(retry := map[0 := 0], entries := [Entry(Incoming, Id(0), Acked)],
                           agents := [Done, Done, Flushing(0, [0])])
  {
    var s1 := Next(FIRST_FAILURE, Schedule(1));
    assert s1 == FIRST_FAILURE.(retry := map[0 := 0], agents := [Done, OwesAck(0)]);
    var s2 := Next(s1, Ack(1));
    assert s2 == s1.(entries := [Entry(Incoming, Id(0), Acked)], agents := [Done, Done]);
    assert IsDueListing(s2.retry, 0, [0]);
  }

  /** A first failure is due at once; the loop that takes it out of the retry set dies before XADD. */
  lemma LoopDies()
    ensures Run(FIRST_FAILURE, LOOP_DIES) ==
            FIRST_FAILURE.(entries := [Entry(Incoming, Id(0), Acked)], agents := [Done, Done, Republishing(0, 0, [])])
  {
    FirstRetryListed();
    var s3 := Next(Next(Next(FIRST_FAILURE, Schedule(1)), Ack(1)), ListDue([0]));
    assert [0][1..] == [] && map[0 := 0] - {0} == map[];
    assert Next(s3, Remove(2)).agents == [Done, Done, Republishing(0, 0, [])];
    RunFour(FIRST_FAILURE, Schedule(1), Ack(1), ListDue([0]), Remove(2));
  }

  lemma DeadLoopIsForgotten()
    ensures var s := Next(Run(FIRST_FAILURE, LOOP_DIES), Crash(2));
            WellFormed(s) && IsForgotten(s, 0) && s.rows == FIRST_FAILURE.rows
  {
    LoopDies();
    var s := Run(FIRST_FAILURE, LOOP_DIES);
    assert IsInOneHand(s, 2, 0);
    CrashInHandForgetsIff(s, 2);
    assert Next(s, Crash(2)).agents == [Done, Done, Done];
  }

  /** The loss between ZREM and XADD is reachable, and lasts until somebody publishes the event again. */
  lemma DeadLoopsEventIsForgotten(later: seq<Step>)
    requires NeverRevived(Next(Run(FIRST_FAILURE, LOOP_DIES), Crash(2)), later, 0)
    ensures exists steps :: Run(INITIAL, steps) == Run(FIRST_FAILURE, LOOP_DIES)
    ensures var end := Run(Next(Run(FIRST_FAILURE, LOOP_DIES), Crash(2)), later);
            IsForgotten(end, 0) && end.rows[0].status == Retrying
  {
    var failed := [Ingest(0, 4)] + [PublishIncoming(0)] + [Deliver(0, 0)] + [Claim(1)] + [Fail(1)];
    ReachFirstFailure();
    RunAppend(INITIAL, failed, LOOP_DIES);
    DeadLoopIsForgotten();
    FailedRowOk();
    ForgottenUntilRevived(Next(Run(FIRST_FAILURE, LOOP_DIES), Crash(2)), later, 0);
  }

  lemma FailedRowOk()
    ensures RowOk(FIRST_FAILURE.rows[0])
  {
    var row := ClaimRow(NewRow(Queued, 4, 0), 0);
    assert RowOk(row);
    FailKeepsRowOk(row, 0);
  }
}
