/** Left alone, the system drains: its steps use up a measure, and where none is left the report says
    "converged". */
module Drain {
  import opened Basics
  import opened Tables
  import opened Protocol
  import opened Safety
  import opened Coverage
  import opened Convergence
  import opened Sums

  /** Deliver, claim, finalise, schedule, flush, publish, acknowledge: no request, reclaim or fault. */
  predicate IsWork(step: Step) {
    || step.PublishIncoming? || step.Deliver? || step.Claim? || step.Succeed? || step.Fail?
    || step.Schedule? || step.Ack? || step.Remove? || step.Republish?
  }

  /** Time, heartbeats and the scheduler's query. */
  predicate IsPoll(step: Step) {
    step.Tick? || step.Heartbeat? || step.ListDue?
  }

  /** A work step that does something; removing a member another loop already took does not. */
  predicate IsProductive(s: State, step: Step) {
    IsWork(step) && Enabled(s, step) && (step.Remove? ==> s.agents[step.agent].ids[0] in s.retry)
  }

  // ---------------------------------------------------------------------------------------------
  // The measure

  function AgentWeight(agent: Agent): (weight: nat) {
    match agent
    case Done => 0
    case OwesIncoming(_) => 5
    case Claiming(_) => 3
    case Holding(_, _, _, _, _) => 2
    case OwesSchedule(_, _, _) => 8
    case OwesAck(_) => 1
    case Flushing(_, _) => 0
    case Republishing(_, _, _) => 5
  }

  function EntryWeight(entry: Entry): (weight: nat) {
    if entry.place.Undelivered? then 4 else 0
  }

  /** Each failure that leads to a retry uses up one of the remaining attempts. */
  function RowWeight(row: Row): (weight: nat) {
    if row.attemptCount + 1 < row.maxAttempts then 7 * (row.maxAttempts - 1 - row.attemptCount) else 0
  }

  function Measure(s: State): (measure: nat) {
    Sum(s.agents, AgentWeight) + Sum(s.entries, EntryWeight) + Sum(s.rows, RowWeight) + 6 * |s.retry|
  }

  lemma SetAgentMeasure(s: State, a: nat, agent: Agent)
    requires IsAgent(s, a)
    ensures Measure(SetAgent(s, a, agent)) == Measure(s) - AgentWeight(s.agents[a]) + AgentWeight(agent)
  {
    SumUpdate(s.agents, a, agent, AgentWeight);
  }

  lemma SetRowMeasure(s: State, e: nat, row: Row)
    requires e < |s.rows|
    ensures Measure(SetRow(s, e, row)) == Measure(s) - RowWeight(s.rows[e]) + RowWeight(row)
  {
    SumUpdate(s.rows, e, row, RowWeight);
  }

  lemma MoveMeasure(s: State, i: nat, place: Place)
    requires IsEntry(s, i)
    ensures Measure(Move(s, i, place)) ==
            Measure(s) - EntryWeight(s.entries[i]) + EntryWeight(s.entries[i].(place := place))
  {
    SumUpdate(s.entries, i, s.entries[i].(place := place), EntryWeight);
  }

  lemma PublishMeasure(s: State, stream: Stream, payload: Payload)
    ensures Measure(Publish(s, stream, payload)) == Measure(s) + 4
  {
    SumAppend(s.entries, Entry(stream, payload, Undelivered), EntryWeight);
  }

  lemma SpawnMeasure(s: State, agent: Agent)
    ensures Measure(Spawn(s, agent)) == Measure(s) + AgentWeight(agent)
  {
    SumAppend(s.agents, agent, AgentWeight);
  }

  lemma PublishingDecreases(s: State, a: nat)
    requires IsAgent(s, a)
    ensures s.agents[a].OwesIncoming? ==> Measure(Next(s, PublishIncoming(a))) < Measure(s)
    ensures s.agents[a].Republishing? ==> Measure(Next(s, Republish(a))) < Measure(s)
  {
    var g := s.agents[a];
    if g.OwesIncoming? {
      PublishMeasure(s, Incoming, Id(g.event));
      SetAgentMeasure(Publish(s, Incoming, Id(g.event)), a, Done);
    } else if g.Republishing? {
      PublishMeasure(s, Retry, Id(g.event));
      SetAgentMeasure(Publish(s, Retry, Id(g.event)), a, Flushing(g.bound, g.ids));
    }
  }

  lemma DeliverDecreases(s: State, i: nat, c: nat)
    requires Enabled(s, Deliver(i, c))
    ensures Measure(Next(s, Deliver(i, c))) < Measure(s)
  {
    MoveMeasure(s, i, Pending(c, s.now));
    SpawnMeasure(Move(s, i, Pending(c, s.now)), Claiming(i));
  }

  lemma ClaimDecreases(s: State, a: nat)
    requires Enabled(s, Claim(a))
    ensures Measure(DoClaim(s, a)) < Measure(s)
  {
    var payload := s.entries[s.agents[a].entry].payload;
    if payload.Id? && payload.event < |s.rows| && IsClaimable(s.rows[payload.event], s.now) {
      var claimed := SetRow(s, payload.event, ClaimRow(s.rows[payload.event], s.now));
      SetRowMeasure(s, payload.event, ClaimRow(s.rows[payload.event], s.now));
      SetAgentMeasure(claimed, a, DoClaim(s, a).agents[a]);
    } else {
      SetAgentMeasure(s, a, DoClaim(s, a).agents[a]);
    }
  }

  lemma SucceedDecreases(s: State, a: nat)
    requires Core(s) && Enabled(s, Succeed(a))
    ensures Measure(DoSucceed(s, a)) < Measure(s)
  {
    var h := s.agents[a];
    assert HolderOk(s, h);
    var won := SucceedRow(s.rows[h.event], h.readCount + 1, s.now);
    SetRowMeasure(s, h.event, won);
    SetAgentMeasure(SetRow(s, h.event, won), a, OwesAck(h.entry));
  }

  lemma FailDecreases(s: State, a: nat)
    requires Core(s) && Enabled(s, Fail(a))
    ensures Measure(DoFail(s, a)) < Measure(s)
  {
    var h := s.agents[a];
    assert HolderOk(s, h);
    var lost := FailRow(s.rows[h.event], h.readCount, h.readMax, s.now);
    SetRowMeasure(s, h.event, lost);
    SetAgentMeasure(SetRow(s, h.event, lost), a, DoFail(s, a).agents[a]);
  }

  lemma ScheduleDecreases(s: State, a: nat)
    requires Enabled(s, Schedule(a))
    ensures Measure(DoSchedule(s, a)) < Measure(s)
  {
    var h := s.agents[a];
    MembersGrow(s.retry, h.event, h.retryAt);
    SetAgentMeasure(s.(retry := s.retry[h.event := h.retryAt]), a, OwesAck(h.entry));
  }

  lemma MembersGrow(retry: map<nat, int>, e: nat, at: int)
    ensures |retry[e := at]| <= |retry| + 1
    ensures e in retry ==> |retry - {e}| == |retry| - 1
  {
    assert retry[e := at].Keys == retry.Keys + {e};
    assert (retry - {e}).Keys == retry.Keys - {e};
  }

  lemma AckDecreases(s: State, a: nat)
    requires Enabled(s, Ack(a))
    ensures Measure(DoAck(s, a)) < Measure(s)
  {
    var i := s.agents[a].entry;
    if s.entries[i].place.Pending? {
      MoveMeasure(s, i, Acked);
      SetAgentMeasure(Move(s, i, Acked), a, Done);
    } else {
      SetAgentMeasure(s, a, Done);
    }
  }

  lemma RemoveMeasure(s: State, a: nat)
    requires Enabled(s, Remove(a))
    ensures s.agents[a].ids[0] in s.retry ==> Measure(DoRemove(s, a)) < Measure(s)
    ensures s.agents[a].ids[0] !in s.retry ==> Measure(DoRemove(s, a)) == Measure(s)
  {
    var g := s.agents[a];
    var e := g.ids[0];
    if e in s.retry {
      MembersGrow(s.retry, e, 0);
      SetAgentMeasure(s.(retry := s.retry - {e}), a, Republishing(g.bound, e, g.ids[1..]));
    } else {
      SetAgentMeasure(s, a, Flushing(g.bound, g.ids[1..]));
    }
  }

  predicate IsHandlerStep(step: Step) {
    step.Claim? || step.Succeed? || step.Fail? || step.Schedule? || step.Ack?
  }

  lemma HandlerStepDecreases(s: State, step: Step)
    requires Core(s) && IsHandlerStep(step) && Enabled(s, step)
    ensures Measure(Next(s, step)) < Measure(s)
  {
    match step
    case Claim(a) => ClaimDecreases(s, a);
    case Succeed(a) => SucceedDecreases(s, a);
    case Fail(a) => FailDecreases(s, a);
    case Schedule(a) => ScheduleDecreases(s, a);
    case Ack(a) => AckDecreases(s, a);
  }

  lemma StreamStepMeasure(s: State, step: Step)
    requires IsWork(step) && !IsHandlerStep(step) && Enabled(s, step)
    ensures IsProductive(s, step) ==> Measure(Next(s, step)) < Measure(s)
    ensures !IsProductive(s, step) ==> Measure(Next(s, step)) == Measure(s)
  {
    match step
    case PublishIncoming(a) => PublishingDecreases(s, a);
    case Republish(a) => PublishingDecreases(s, a);
    case Deliver(i, c) => DeliverDecreases(s, i, c);
    case Remove(a) => RemoveMeasure(s, a);
  }

  lemma StepMeasure(s: State, step: Step)
    requires Core(s) && (IsWork(step) || IsPoll(step))
    ensures IsProductive(s, step) ==> Measure(Next(s, step)) < Measure(s)
    ensures !IsProductive(s, step) ==> Measure(Next(s, step)) == Measure(s)
  {
    if Enabled(s, step) {
      if IsHandlerStep(step) {
        HandlerStepDecreases(s, step);
      } else if IsWork(step) {
        StreamStepMeasure(s, step);
      } else if step.ListDue? {
        SpawnMeasure(s, Flushing(Score(s.now), step.ids));
      }
    }
  }

  /** How many steps of a run do something. */
  ghost function Productive(s: State, steps: seq<Step>): (count: nat)
    decreases |steps|
  {
    if steps == [] then 0
    else (if IsProductive(s, steps[0]) then 1 else 0) + Productive(Next(s, steps[0]), steps[1..])
  }

  /** Termination: a run of work and polling has at most `Measure(s)` productive steps. */
  lemma {:induction false} DrainTerminates(s: State, steps: seq<Step>)
    requires Inv(s) && TimelyRun(s, steps)
    requires forall k :: 0 <= k < |steps| ==> IsWork(steps[k]) || IsPoll(steps[k])
    ensures Productive(s, steps) + Measure(Run(s, steps)) <= Measure(s)
    decreases |steps|
  {
    if steps != [] {
      StepMeasure(s, steps[0]);
      StepKeepsInv(s, steps[0]);
      DrainTerminates(Next(s, steps[0]), steps[1..]);
    }
  }

  // ---------------------------------------------------------------------------------------------
  // Where a drained system ends up

  /** A message whose id is no UUID is never acknowledged. */
  ghost predicate PoisonStays(s: State) {
    && (forall i :: 0 <= i < |s.entries| && s.entries[i].payload == NotUuid ==> !s.entries[i].place.Acked?)
    && (forall a :: 0 <= a < |s.agents| && s.agents[a].OwesAck? && IsEntry(s, s.agents[a].entry) ==>
          s.entries[s.agents[a].entry].payload != NotUuid)
  }

  predicate HasHandler(s: State, i: nat) {
    exists a :: 0 <= a < |s.agents| && Handles(s.agents[a], i)
  }

  /** Without faults, every pending entry is being handled, unless its id is no UUID. */
  ghost predicate PendingIsHandled(s: State) {
    forall i :: 0 <= i < |s.entries| && s.entries[i].place.Pending? && s.entries[i].payload != NotUuid ==>
      HasHandler(s, i)
  }

  lemma PoisonNotAcked(s: State, step: Step, i: nat)
    requires PoisonStays(s) && i < |Next(s, step).entries| && Next(s, step).entries[i].payload == NotUuid
    ensures !Next(s, step).entries[i].place.Acked?
  {
  }

  lemma NewAgentsOweNoAck(s: State, step: Step, a: nat)
    requires a < |Next(s, step).agents| && Next(s, step).agents[a].OwesAck?
    ensures a < |s.agents|
  {
  }

  lemma PoisonNotOwed(s: State, step: Step, a: nat)
    requires WellFormed(s) && PoisonStays(s)
    requires a < |Next(s, step).agents| && Next(s, step).agents[a].OwesAck? && a < |s.agents|
    requires IsEntry(Next(s, step), Next(s, step).agents[a].entry)
    ensures Next(s, step).entries[Next(s, step).agents[a].entry].payload != NotUuid
  {
    OneAgentChanges(s, step);
    StepGrows(s, step);
    if Next(s, step).agents[a] != s.agents[a] {
      assert NamesAgent(step) && step.agent == a;
      assert AgentOk(s, s.agents[a]);
      NamedNotOwed(s, step);
    } else {
      assert AgentOk(s, s.agents[a]);
    }
  }

  lemma NamedNotOwed(s: State, step: Step)
    requires NamesAgent(step) && Enabled(s, step) && AgentOk(s, s.agents[step.agent])
    requires Next(s, step).agents[step.agent].OwesAck? && Next(s, step).agents[step.agent] != s.agents[step.agent]
    ensures IsEntry(s, Next(s, step).agents[step.agent].entry)
    ensures s.entries[Next(s, step).agents[step.agent].entry].payload != NotUuid
  {
  }

  lemma StepKeepsPoison(s: State, step: Step)
    requires WellFormed(s) && PoisonStays(s)
    ensures PoisonStays(Next(s, step))
  {
    var s' := Next(s, step);
    forall i | 0 <= i < |s'.entries| && s'.entries[i].payload == NotUuid ensures !s'.entries[i].place.Acked? {
      PoisonNotAcked(s, step, i);
    }
    forall a | 0 <= a < |s'.agents| && s'.agents[a].OwesAck? && IsEntry(s', s'.agents[a].entry)
      ensures s'.entries[s'.agents[a].entry].payload != NotUuid
    {
      NewAgentsOweNoAck(s, step, a);
      PoisonNotOwed(s, step, a);
    }
  }

  lemma HandlerStays(s: State, step: Step, i: nat, a: nat)
    requires Faultless(step) && IsEntry(s, i) && IsAgent(s, a) && Handles(s.agents[a], i)
    requires Next(s, step).entries[i].place.Pending? && s.entries[i].payload != NotUuid
    ensures Handles(Next(s, step).agents[a], i)
  {
    OneAgentChanges(s, step);
  }

  lemma StepKeepsHandled(s: State, step: Step, i: nat)
    requires Faultless(step) && (IsEntry(s, i) && s.entries[i].place.Pending? ==> HasHandler(s, i))
    requires i < |Next(s, step).entries| && Next(s, step).entries[i].place.Pending?
    requires Next(s, step).entries[i].payload != NotUuid
    ensures HasHandler(Next(s, step), i)
  {
    var s' := Next(s, step);
    StepGrows(s, step);
    if i < |s.entries| && s.entries[i].place.Pending? {
      var a :| 0 <= a < |s.agents| && Handles(s.agents[a], i);
      HandlerStays(s, step, i, a);
    } else {
      assert Handles(s'.agents[|s.agents|], i);
    }
  }

  lemma {:induction false} FaultlessRunIsHandled(s: State, steps: seq<Step>)
    requires WellFormed(s) && PendingIsHandled(s) && PoisonStays(s)
    requires forall k :: 0 <= k < |steps| ==> Faultless(steps[k])
    ensures WellFormed(Run(s, steps)) && PendingIsHandled(Run(s, steps)) && PoisonStays(Run(s, steps))
    decreases |steps|
  {
    if steps != [] {
      var s' := Next(s, steps[0]);
      StepKeepsWellFormed(s, steps[0]);
      StepKeepsPoison(s, steps[0]);
      forall i | 0 <= i < |s'.entries| && s'.entries[i].place.Pending? && s'.entries[i].payload != NotUuid
        ensures HasHandler(s', i)
      {
        StepGrows(s, steps[0]);
        StepKeepsHandled(s, steps[0], i);
      }
      FaultlessRunIsHandled(s', steps[1..]);
    }
  }

  ghost predicate IsStuck(s: State) {
    forall step :: !IsProductive(s, step)
  }

  /** Nothing is left to do, not even after the scheduler looks at the retry set once more. */
  ghost predicate IsIdle(s: State) {
    IsStuck(s) && forall ids :: Enabled(s, ListDue(ids)) ==> IsStuck(Next(s, ListDue(ids)))
  }

  predicate AllDue(s: State) {
    forall e <- s.retry.Keys :: IsDue(s.retry, Score(s.now), e)
  }

  lemma {:induction false} EnumerateSet(members: set<nat>) returns (ids: seq<nat>)
    ensures NoDuplicates(ids) && forall x :: x in ids <==> x in members
  {
    if members == {} {
      ids := [];
    } else {
      var x :| x in members;
      var rest := EnumerateSet(members - {x});
      ids := [x] + rest;
    }
  }

  lemma IdleHasNoRetries(s: State)
    requires IsIdle(s) && AllDue(s)
    ensures s.retry == map[]
  {
    if s.retry != map[] {
      var e :| e in s.retry;
      var ids := EnumerateSet(s.retry.Keys);
      assert e in ids && ids[0] in s.retry;
      assert Enabled(s, ListDue(ids));
      assert IsProductive(Next(s, ListDue(ids)), Remove(|s.agents|));
    }
  }

  lemma IdleHasNoWork(s: State)
    requires WellFormed(s) && IsStuck(s)
    ensures forall a :: 0 <= a < |s.agents| ==> s.agents[a].Done? || s.agents[a].Flushing?
    ensures forall i :: 0 <= i < |s.entries| ==> !s.entries[i].place.Undelivered?
  {
    forall a | 0 <= a < |s.agents| ensures s.agents[a].Done? || s.agents[a].Flushing? {
      assert AgentOk(s, s.agents[a]);
      assert !IsProductive(s, PublishIncoming(a)) && !IsProductive(s, Claim(a)) && !IsProductive(s, Succeed(a));
      assert !IsProductive(s, Schedule(a)) && !IsProductive(s, Ack(a)) && !IsProductive(s, Republish(a));
    }
    forall i | 0 <= i < |s.entries| ensures !s.entries[i].place.Undelivered? {
      assert !IsProductive(s, Deliver(i, 0));
    }
  }

  /** The drained state: every event is finished, and the report calls it converged if and only if no
      message carries an id that is no UUID. */
  lemma IdleIsConverged(s: State)
    requires Inv(s) && AllCovered(s) && PendingIsHandled(s) && PoisonStays(s)
    requires IsIdle(s) && AllDue(s)
    ensures forall e :: 0 <= e < |s.rows| ==> IsTerminal(s.rows[e].status)
    ensures IsConverged(s, true) <==> forall i :: 0 <= i < |s.entries| ==> s.entries[i].payload != NotUuid
  {
    IdleHasNoRetries(s);
    IdleHasNoWork(s);
    forall e | 0 <= e < |s.rows|
      ensures IsTerminal(s.rows[e].status) && |Numbers(s.rows[e].attempts, Won)| <= 1
    {
      assert IsCovered(s, e) && RowOk(s.rows[e]);
    }
    forall i | 0 <= i < |s.entries| ensures s.entries[i].place.Pending? <==> s.entries[i].payload == NotUuid {
      assert !HasHandler(s, i);
    }
  }

  /** The drain theorem: after any timely run without faults, let the system work on its own, with no new
      request and no reclaim. It does at most `Measure` productive steps, and if it comes to rest with the
      clock past all retry times, every event is finished and the report agrees. */
  lemma DrainTheorem(before: seq<Step>, drain: seq<Step>)
    requires forall k :: 0 <= k < |before| ==> Faultless(before[k])
    requires forall k :: 0 <= k < |drain| ==> IsWork(drain[k]) || IsPoll(drain[k])
    requires TimelyRun(INITIAL, before) && TimelyRun(Run(INITIAL, before), drain)
    ensures var s := Run(INITIAL, before);
            var s' := Run(s, drain);
            && Productive(s, drain) <= Measure(s)
            && (IsIdle(s') && AllDue(s') ==>
                  && (forall e :: 0 <= e < |s'.rows| ==> IsTerminal(s'.rows[e].status))
                  && (IsConverged(s', true) <==>
                        forall i :: 0 <= i < |s'.entries| ==> s'.entries[i].payload != NotUuid))
  {
    var s := Run(INITIAL, before);
    var s' := Run(s, drain);
    ReachableInv(before);
    FaultlessRunIsCovered(INITIAL, before);
    FaultlessRunIsHandled(INITIAL, before);
    DrainTerminates(s, drain);
    RunKeepsInv(s, drain);
    FaultlessRunIsCovered(s, drain);
    FaultlessRunIsHandled(s, drain);
    if IsIdle(s') && AllDue(s') {
      IdleIsConverged(s');
    }
  }

  // ---------------------------------------------------------------------------------------------
  // Rest can always be reached

  predicate IsWorkOrPoll(steps: seq<Step>) {
    forall k :: 0 <= k < |steps| ==> IsWork(steps[k]) || IsPoll(steps[k])
  }

  /** The steps are timely work and polling, and end where nothing is left to do. */
  ghost predicate DrainsBy(s: State, steps: seq<Step>) {
    IsWorkOrPoll(steps) && TimelyRun(s, steps) && IsIdle(Run(s, steps)) && AllDue(Run(s, steps))
  }

  lemma DrainsCons(s: State, step: Step, rest: seq<Step>)
    requires Timely(s) && (IsWork(step) || IsPoll(step)) && DrainsBy(Next(s, step), rest)
    ensures DrainsBy(s, [step] + rest)
  {
    assert ([step] + rest)[1..] == rest;
  }

  lemma WorkKeepsTimely(s: State, step: Step)
    requires Timely(s) && IsWork(step)
    ensures Timely(Next(s, step))
  {
  }

  lemma NoWorkIsStuck(s: State)
    requires forall a :: 0 <= a < |s.agents| ==> s.agents[a].Done? || s.agents[a].Flushing?
    requires forall i :: 0 <= i < |s.entries| ==> !s.entries[i].place.Undelivered?
    requires s.retry == map[]
    ensures IsStuck(s)
  {
  }

  lemma StuckWithoutRetriesIsIdle(s: State)
    requires WellFormed(s) && IsStuck(s) && s.retry == map[]
    ensures IsIdle(s) && AllDue(s)
  {
    IdleHasNoWork(s);
    forall ids | Enabled(s, ListDue(ids)) ensures IsStuck(Next(s, ListDue(ids))) {
      NoWorkIsStuck(Next(s, ListDue(ids)));
    }
  }

  lemma {:induction false} LatestRetry(retry: map<nat, int>) returns (latest: int)
    ensures forall e <- retry.Keys :: retry[e] <= latest
    decreases |retry|
  {
    if retry == map[] {
      latest := 0;
    } else {
      var e :| e in retry;
      MembersGrow(retry, e, 0);
      var rest := LatestRetry(retry - {e});
      latest := if rest < retry[e] then retry[e] else rest;
      assert forall x <- retry.Keys :: x != e ==> x in retry - {e} && (retry - {e})[x] == retry[x];
    }
  }

  predicate NobodyHolds(s: State) {
    forall a :: 0 <= a < |s.agents| ==> !s.agents[a].Holding?
  }

  lemma NobodyStartsHolding(s: State, step: Step)
    requires NobodyHolds(s) && Inv(s) && (step.Tick? || step.ListDue? || step.Remove?)
    ensures NobodyHolds(Next(s, step)) && Inv(Next(s, step)) && Timely(Next(s, step))
  {
    StepKeepsInv(s, step);
  }

  /** The scheduler waits for the latest retry and lists them all. */
  lemma WaitThenList(s: State) returns (elapsed: nat, ids: seq<nat>)
    requires s.retry != map[]
    ensures Enabled(Next(s, Tick(elapsed)), ListDue(ids)) && ids != [] && ids[0] in s.retry
  {
    var latest := LatestRetry(s.retry);
    elapsed := if latest > s.now then latest - s.now else 0;
    ids := EnumerateSet(s.retry.Keys);
    var e :| e in s.retry;
    assert e in ids;
  }

  /** A stuck system with retries goes on by waiting, listing and removing one. */
  lemma WaitListRemove(s: State) returns (elapsed: nat, ids: seq<nat>)
    requires Inv(s) && IsStuck(s) && s.retry != map[]
    ensures var waited := Next(s, Tick(elapsed));
            var listed := Next(waited, ListDue(ids));
            var removed := Next(listed, Remove(|s.agents|));
            Timely(waited) && Timely(listed) && Timely(removed) && Inv(removed) && Measure(removed) < Measure(s)
  {
    IdleHasNoWork(s);
    elapsed, ids := WaitThenList(s);
    var waited := Next(s, Tick(elapsed));
    var listed := Next(waited, ListDue(ids));
    NobodyStartsHolding(s, Tick(elapsed));
    NobodyStartsHolding(waited, ListDue(ids));
    NobodyStartsHolding(listed, Remove(|s.agents|));
    StepMeasure(s, Tick(elapsed));
    StepMeasure(waited, ListDue(ids));
    RemoveMeasure(listed, |s.agents|);
  }

  /** Progress: from every timely state some run of work and polling comes to rest past all retry times. */
  lemma {:induction false} CanDrain(s: State) returns (steps: seq<Step>)
    requires Inv(s) && Timely(s)
    ensures DrainsBy(s, steps)
    decreases Measure(s)
  {
    if !IsStuck(s) {
      var step :| IsProductive(s, step);
      StepMeasure(s, step);
      StepKeepsInv(s, step);
      WorkKeepsTimely(s, step);
      var rest := CanDrain(Next(s, step));
      DrainsCons(s, step, rest);
      steps := [step] + rest;
    } else if s.retry == map[] {
      StuckWithoutRetriesIsIdle(s);
      steps := [];
    } else {
      var elapsed, ids := WaitListRemove(s);
      var waited := Next(s, Tick(elapsed));
      var listed := Next(waited, ListDue(ids));
      var rest := CanDrain(Next(listed, Remove(|s.agents|)));
      DrainsCons(listed, Remove(|s.agents|), rest);
      DrainsCons(waited, ListDue(ids), [Remove(|s.agents|)] + rest);
      DrainsCons(s, Tick(elapsed), [ListDue(ids)] + ([Remove(|s.agents|)] + rest));
      steps := [Tick(elapsed)] + ([ListDue(ids)] + ([Remove(|s.agents|)] + rest));
    }
  }

  predicate NoPoison(s: State) {
    forall i :: 0 <= i < |s.entries| ==> s.entries[i].payload != NotUuid
  }

  lemma {:induction false} WorkAddsNoPoison(s: State, steps: seq<Step>)
    requires NoPoison(s) && IsWorkOrPoll(steps)
    ensures NoPoison(Run(s, steps))
    decreases |steps|
  {
    if steps != [] {
      WorkAddsNoPoison(Next(s, steps[0]), steps[1..]);
    }
  }

  /** After any timely run without faults, the system can finish every event by work and polling alone, and
      reach a state the report calls converged unless some message carries an id that is no UUID. */
  lemma ConvergenceIsReachable(before: seq<Step>)
    requires forall k :: 0 <= k < |before| ==> Faultless(before[k])
    requires TimelyRun(INITIAL, before) && Timely(Run(INITIAL, before))
    ensures exists drain ::
              var end := Run(Run(INITIAL, before), drain);
              && DrainsBy(Run(INITIAL, before), drain)
              && (forall e :: 0 <= e < |end.rows| ==> IsTerminal(end.rows[e].status))
              && (NoPoison(Run(INITIAL, before)) ==> IsConverged(end, true))
  {
    var s := Run(INITIAL, before);
    ReachableInv(before);
    var drain := CanDrain(s);
    DrainTheorem(before, drain);
    if NoPoison(s) {
      WorkAddsNoPoison(s, drain);
    }
    assert DrainsBy(s, drain);
  }
}
