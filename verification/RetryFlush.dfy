/** The retry set between ZADD and XADD: memberships are conserved, and when they leave early. */
module RetryFlush {
  import opened Basics
  import opened Backoff
  import opened Tables
  import opened Protocol
  import opened Sums

  function RepublishesOne(e: nat): (weight: Agent -> nat) {
    (agent: Agent) => if agent.Republishing? && agent.event == e then 1 else 0
  }

  function RetryEntryOne(e: nat): (weight: Entry -> nat) {
    (entry: Entry) => if entry.stream == Retry && entry.payload == Id(e) then 1 else 0
  }

  function Members(s: State, e: nat): (count: nat) {
    if e in s.retry then 1 else 0
  }

  /** Loops that removed the member and have not published it yet. */
  function InHand(s: State, e: nat): (count: nat) {
    Sum(s.agents, RepublishesOne(e))
  }

  function RetryEntries(s: State, e: nat): (count: nat) {
    Sum(s.entries, RetryEntryOne(e))
  }

  /** Where the memberships of an event are: in the set, in the hands of a loop, or in the stream. */
  function Account(s: State, e: nat): (count: nat) {
    Members(s, e) + InHand(s, e) + RetryEntries(s, e)
  }

  /** A ZADD that creates a membership, or another publisher writing to the retry stream. */
  predicate IsCredit(s: State, step: Step, e: nat) {
    || (step.Schedule? && Enabled(s, step) && s.agents[step.agent].event == e && e !in s.retry)
    || step == Inject(Retry, Id(e))
  }

  /** A loop that dies between ZREM and XADD. */
  predicate IsDebit(s: State, step: Step, e: nat) {
    step.Crash? && Enabled(s, step) && s.agents[step.agent].Republishing? && s.agents[step.agent].event == e
  }

  predicate RemovesMember(s: State, step: Step, e: nat) {
    step.Remove? && Enabled(s, step) && s.agents[step.agent].ids[0] == e && e in s.retry
  }

  predicate RepublishesMember(s: State, step: Step, e: nat) {
    step.Republish? && Enabled(s, step) && s.agents[step.agent].event == e
  }

  lemma NamedAgentInHand(s: State, step: Step, e: nat)
    requires NamesAgent(step) && Enabled(s, step)
    ensures RepublishesOne(e)(Next(s, step).agents[step.agent]) == RepublishesOne(e)(s.agents[step.agent])
              + (if RemovesMember(s, step, e) then 1 else 0)
              - (if RepublishesMember(s, step, e) || IsDebit(s, step, e) then 1 else 0)
  {
  }

  lemma AgentsAccount(s: State, step: Step, e: nat)
    ensures InHand(Next(s, step), e) == InHand(s, e)
              + (if RemovesMember(s, step, e) then 1 else 0)
              - (if RepublishesMember(s, step, e) || IsDebit(s, step, e) then 1 else 0)
  {
    if Enabled(s, step) {
      OneAgentChanges(s, step);
      var agents := Next(s, step).agents;
      if NamesAgent(step) {
        NamedAgentInHand(s, step, e);
        SumUpdate(s.agents, step.agent, agents[step.agent], RepublishesOne(e));
      } else if agents != s.agents {
        SumAppend(s.agents, agents[|s.agents|], RepublishesOne(e));
      }
    }
  }

  lemma EntriesAccount(s: State, step: Step, e: nat)
    ensures RetryEntries(Next(s, step), e) == RetryEntries(s, e)
              + (if RepublishesMember(s, step, e) then 1 else 0)
              + (if step == Inject(Retry, Id(e)) then 1 else 0)
  {
    var s' := Next(s, step);
    if |s'.entries| > |s.entries| {
      SumAppend(s.entries, s'.entries[|s.entries|], RetryEntryOne(e));
    } else if s'.entries != s.entries {
      var i := if step.Ack? then s.agents[step.agent].entry else step.entry;
      SumUpdate(s.entries, i, s'.entries[i], RetryEntryOne(e));
    }
  }

  lemma StepAccount(s: State, step: Step, e: nat)
    ensures Account(Next(s, step), e) ==
            Account(s, e) + (if IsCredit(s, step, e) then 1 else 0) - (if IsDebit(s, step, e) then 1 else 0)
  {
    AgentsAccount(s, step, e);
    EntriesAccount(s, step, e);
    MembersAccount(s, step, e);
  }

  lemma MembersAccount(s: State, step: Step, e: nat)
    ensures Members(Next(s, step), e) == Members(s, e)
              + (if step.Schedule? && Enabled(s, step) && s.agents[step.agent].event == e && e !in s.retry then 1 else 0)
              - (if RemovesMember(s, step, e) then 1 else 0)
  {
  }

  ghost function Credits(s: State, steps: seq<Step>, e: nat): (count: nat)
    decreases |steps|
  {
    if steps == [] then 0
    else (if IsCredit(s, steps[0], e) then 1 else 0) + Credits(Next(s, steps[0]), steps[1..], e)
  }

  ghost function Debits(s: State, steps: seq<Step>, e: nat): (count: nat)
    decreases |steps|
  {
    if steps == [] then 0
    else (if IsDebit(s, steps[0], e) then 1 else 0) + Debits(Next(s, steps[0]), steps[1..], e)
  }

  lemma {:induction false} RunAccount(s: State, steps: seq<Step>, e: nat)
    ensures Account(Run(s, steps), e) + Debits(s, steps, e) == Account(s, e) + Credits(s, steps, e)
    decreases |steps|
  {
    if steps != [] {
      StepAccount(s, steps[0], e);
      RunAccount(Next(s, steps[0]), steps[1..], e);
    }
  }

  /** Flush conservation: over every interleaving of scheduler loops, each membership becomes at most one
      retry-stream entry, and exactly one once it has left the set, unless the loop that removed it died
      before XADD. */
  lemma FlushConserves(steps: seq<Step>, e: nat)
    ensures var s := Run(INITIAL, steps);
            && RetryEntries(s, e) <= Credits(INITIAL, steps, e)
            && (e !in s.retry && InHand(s, e) == 0 && Debits(INITIAL, steps, e) == 0 ==>
                  RetryEntries(s, e) == Credits(INITIAL, steps, e))
  {
    RunAccount(INITIAL, steps, e);
  }

  /** The steps of one loop. */
  predicate IsLoopRun(steps: seq<Step>, a: nat) {
    forall k :: 0 <= k < |steps| ==> steps[k] == Remove(a) || steps[k] == Republish(a)
  }

  lemma {:induction false} LoopRunBalances(s: State, steps: seq<Step>, a: nat, e: nat)
    requires IsLoopRun(steps, a)
    ensures Account(Run(s, steps), e) == Account(s, e)
    decreases |steps|
  {
    if steps != [] {
      StepAccount(s, steps[0], e);
      LoopRunBalances(Next(s, steps[0]), steps[1..], a, e);
    }
  }

  /** One listed id: it is taken out and published if it is still there, and skipped otherwise. */
  lemma LoopTurn(s: State, a: nat) returns (steps: seq<Step>)
    requires IsAgent(s, a) && s.agents[a].Flushing? && s.agents[a].ids != []
    ensures IsLoopRun(steps, a)
    ensures var end, ids := Run(s, steps), s.agents[a].ids;
            && end.agents == s.agents[a := Flushing(s.agents[a].bound, ids[1..])]
            && end.rows == s.rows && end.retry == s.retry - {ids[0]}
  {
    var ids := s.agents[a].ids;
    var removed := Next(s, Remove(a));
    RunOneMore(s, [], Remove(a));
    assert [] + [Remove(a)] == [Remove(a)];
    steps := [Remove(a)];
    if ids[0] in s.retry {
      RunOneMore(s, [Remove(a)], Republish(a));
      steps := [Remove(a)] + [Republish(a)];
      assert removed.agents[a := Flushing(s.agents[a].bound, ids[1..])] == s.agents[a := Flushing(s.agents[a].bound, ids[1..])];
    } else {
      assert s.retry - {ids[0]} == s.retry;
    }
  }

  /** A loop that is not interrupted visits every id of its listing, whatever the other loops took meanwhile. */
  lemma {:induction false} LoopFinishes(s: State, a: nat) returns (steps: seq<Step>)
    requires IsAgent(s, a) && s.agents[a].Flushing?
    ensures IsLoopRun(steps, a)
    ensures var end := Run(s, steps);
            && end.agents == s.agents[a := Flushing(s.agents[a].bound, [])] && end.rows == s.rows
            && (forall e :: e in end.retry <==> e in s.retry && e !in s.agents[a].ids)
            && (forall e <- end.retry.Keys :: end.retry[e] == s.retry[e])
    decreases |s.agents[a].ids|
  {
    var ids := s.agents[a].ids;
    if ids == [] {
      assert s.agents[a := Flushing(s.agents[a].bound, [])] == s.agents;
      steps := [];
    } else {
      var first := LoopTurn(s, a);
      var rest := LoopFinishes(Run(s, first), a);
      RunAppend(s, first, rest);
      steps := first + rest;
      assert forall e :: e in ids <==> e == ids[0] || e in ids[1..];
    }
  }

  lemma LoopHandsBalance(s: State, s': State, a: nat, e: nat)
    requires IsAgent(s, a) && s.agents[a].Flushing? && s'.agents == s.agents[a := Flushing(s.agents[a].bound, [])]
    ensures InHand(s', e) == InHand(s, e)
  {
    SumUpdate(s.agents, a, Flushing(s.agents[a].bound, []), RepublishesOne(e));
  }

  /** Left to itself a loop turns every membership it listed, and that is still there, into exactly one entry of
      the retry stream, and leaves all others where they are. */
  lemma LoopMovesItsListing(s: State, a: nat) returns (steps: seq<Step>)
    requires IsAgent(s, a) && s.agents[a].Flushing?
    ensures IsLoopRun(steps, a)
    ensures var end := Run(s, steps);
            && (forall e :: e in end.retry <==> e in s.retry && e !in s.agents[a].ids)
            && (forall e: nat :: RetryEntries(end, e) ==
                  RetryEntries(s, e) + if e in s.retry && e in s.agents[a].ids then 1 else 0)
  {
    steps := LoopFinishes(s, a);
    var end := Run(s, steps);
    forall e: nat ensures RetryEntries(end, e) ==
                          RetryEntries(s, e) + if e in s.retry && e in s.agents[a].ids then 1 else 0 {
      LoopRunBalances(s, steps, a, e);
      LoopHandsBalance(s, end, a, e);
    }
  }

  // ---------------------------------------------------------------------------------------------
  // How early a membership can leave

  /** The step writes a retry time for e into the set. */
  predicate Reschedules(s: State, step: Step, e: nat) {
    step.Schedule? && Enabled(s, step) && s.agents[step.agent].event == e
  }

  predicate NeverReschedules(s: State, steps: seq<Step>, e: nat)
    decreases |steps|
  {
    steps != [] ==> !Reschedules(s, steps[0], e) && NeverReschedules(Next(s, steps[0]), steps[1..], e)
  }

  lemma {:induction false} ListedStaysDue(s: State, steps: seq<Step>, e: nat, bound: int)
    requires e in s.retry ==> IsDue(s.retry, bound, e)
    requires NeverReschedules(s, steps, e)
    ensures e in Run(s, steps).retry ==> IsDue(Run(s, steps).retry, bound, e)
    decreases |steps|
  {
    if steps != [] {
      ListedStaysDue(Next(s, steps[0]), steps[1..], e, bound);
    }
  }

  lemma {:induction false} ClockAdvances(s: State, steps: seq<Step>)
    ensures s.now <= Run(s, steps).now
    decreases |steps|
  {
    if steps != [] {
      StepGrows(s, steps[0]);
      ClockAdvances(Next(s, steps[0]), steps[1..]);
    }
  }

  /** Whatever happens after a loop lists e, when it removes e the retry time is less than a second away,
      despite the truncation to whole seconds, as long as nobody rescheduled e in between. */
  lemma ListedIsNotEarly(s: State, ids: seq<nat>, steps: seq<Step>, e: nat)
    requires Enabled(s, ListDue(ids)) && e in ids
    requires NeverReschedules(Next(s, ListDue(ids)), steps, e)
    ensures var s' := Run(Next(s, ListDue(ids)), steps);
            e in s'.retry ==> s'.retry[e] < s'.now + SECOND
  {
    var listed := Next(s, ListDue(ids));
    ListedStaysDue(listed, steps, e, Score(s.now));
    ClockAdvances(listed, steps);
  }

  /** Step m is a ZADD for e. */
  predicate WritesAt(steps: seq<Step>, m: nat, e: nat) {
    m < |steps| && Reschedules(At(steps, m), steps[m], e)
  }

  /** It is the latest one before the end. */
  predicate IsLastWrite(steps: seq<Step>, m: nat, end: nat, e: nat) {
    m < end <= |steps| && WritesAt(steps, m, e) && forall n :: m < n < end ==> !WritesAt(steps, n, e)
  }

  /** Without a ZADD for it, a member that is still in the set was there before, with the same retry time. */
  lemma {:induction false} RetryTimeStays(steps: seq<Step>, from: nat, end: nat, e: nat)
    requires from <= end <= |steps| && e in At(steps, end).retry
    requires forall n :: from <= n < end ==> !WritesAt(steps, n, e)
    ensures e in At(steps, from).retry && At(steps, from).retry[e] == At(steps, end).retry[e]
    decreases end
  {
    if from < end {
      assert !WritesAt(steps, end - 1, e);
      RetryTimeStays(steps, from, end - 1, e);
    }
  }

  lemma {:induction false} ClockNeverTurnsBack(steps: seq<Step>, from: nat, end: nat)
    requires from <= end <= |steps|
    ensures At(steps, from).now <= At(steps, end).now
    decreases end
  {
    if from < end {
      ClockNeverTurnsBack(steps, from, end - 1);
      StepGrows(At(steps, end - 1), steps[end - 1]);
    }
  }

  lemma {:induction false} LastWriteExists(steps: seq<Step>, n: nat, end: nat, e: nat) returns (m: nat)
    requires n < end <= |steps| && WritesAt(steps, n, e)
    ensures n <= m && IsLastWrite(steps, m, end, e)
    decreases end - n
  {
    if n' :| n < n' < end && WritesAt(steps, n', e) {
      m := LastWriteExists(steps, n', end, e);
    } else {
      m := n;
    }
  }

  /** Step j is the committed failure transaction of handler a. */
  predicate FailsAt(steps: seq<Step>, j: nat, a: nat) {
    j < |steps| && steps[j] == Fail(a) && Enabled(At(steps, j), Fail(a))
  }

  /** The number of the attempt that failed at step j. */
  function FailedAttempt(steps: seq<Step>, j: nat, a: nat): (attempt: int)
    requires FailsAt(steps, j, a)
  {
    At(steps, j).agents[a].readCount + 1
  }

  lemma NewlyOwed(s: State, step: Step, a: nat)
    requires IsAgent(Next(s, step), a) && Next(s, step).agents[a].OwesSchedule?
    requires IsAgent(s, a) ==> s.agents[a] != Next(s, step).agents[a]
    ensures step == Fail(a) && Enabled(s, step)
  {
  }

  /** A handler that owes a ZADD has committed a failure. */
  lemma {:induction false} OwedSinceFailure(steps: seq<Step>, n: nat, a: nat) returns (j: nat)
    requires n <= |steps| && IsAgent(At(steps, n), a) && At(steps, n).agents[a].OwesSchedule?
    ensures j < n && FailsAt(steps, j, a)
    decreases n
  {
    var s := At(steps, n - 1);
    if IsAgent(s, a) && s.agents[a] == At(steps, n).agents[a] {
      j := OwedSinceFailure(steps, n - 1, a);
    } else {
      NewlyOwed(s, steps[n - 1], a);
      j := n - 1;
    }
  }

  /** A handler behind its failure transaction: it owes exactly that retry time, or is past it. */
  predicate OwesOnly(s: State, a: nat, at: int) {
    IsAgent(s, a) && (s.agents[a].Done? || s.agents[a].OwesAck? || (s.agents[a].OwesSchedule? && s.agents[a].retryAt == at))
  }

  lemma OwesOnlyStays(s: State, step: Step, a: nat, at: int)
    requires OwesOnly(s, a, at)
    ensures OwesOnly(Next(s, step), a, at)
  {
    OneAgentChanges(s, step);
  }

  lemma FailedOwes(s: State, a: nat)
    requires Enabled(s, Fail(a))
    ensures OwesOnly(Next(s, Fail(a)), a, RetryAt(s.agents[a].readCount + 1, s.now))
  {
  }

  lemma {:induction false} OwedKeepsTime(steps: seq<Step>, j: nat, n: nat, a: nat)
    requires j < n <= |steps| && FailsAt(steps, j, a)
    ensures OwesOnly(At(steps, n), a, RetryAt(FailedAttempt(steps, j, a), At(steps, j).now))
    decreases n
  {
    if j < n - 1 {
      OwedKeepsTime(steps, j, n - 1, a);
      OwesOnlyStays(At(steps, n - 1), steps[n - 1], a, RetryAt(FailedAttempt(steps, j, a), At(steps, j).now));
    } else {
      FailedOwes(At(steps, j), a);
    }
  }

  /** The retry time in the set is that of the failure behind the latest ZADD. */
  lemma LastWriteDecides(steps: seq<Step>, j: nat, m: nat, end: nat, e: nat)
    requires IsLastWrite(steps, m, end, e) && j < m && FailsAt(steps, j, steps[m].agent) && e in At(steps, end).retry
    ensures At(steps, end).retry[e] == At(steps, j).now + GoDelay(FailedAttempt(steps, j, steps[m].agent)) * SECOND
  {
    OwedKeepsTime(steps, j, m, steps[m].agent);
    RetryTimeStays(steps, m + 1, end, e);
  }

  /** The failure committed at step j was scheduled at step m, after the listing and last of all, and at the
      end its backoff still has a second or more to go. */
  predicate IsLateSchedule(steps: seq<Step>, listing: nat, end: nat, e: nat, j: nat, m: nat) {
    && listing < m && IsLastWrite(steps, m, end, e)
    && j < m && FailsAt(steps, j, steps[m].agent)
    && GoDelay(FailedAttempt(steps, j, steps[m].agent)) * SECOND - (At(steps, end).now - At(steps, j).now) >= SECOND
  }

  /** Step `listing` is the query of a loop, and e is in its reply. */
  predicate ListsAt(steps: seq<Step>, listing: nat, e: nat) {
    && listing < |steps| && steps[listing].ListDue? && e in steps[listing].ids
    && Enabled(At(steps, listing), steps[listing])
  }

  lemma UnwrittenIsNotEarly(steps: seq<Step>, listing: nat, end: nat, e: nat)
    requires ListsAt(steps, listing, e) && listing < end <= |steps| && e in At(steps, end).retry
    requires forall n :: listing < n < end ==> !WritesAt(steps, n, e)
    ensures At(steps, end).retry[e] < At(steps, end).now + SECOND
  {
    RetryTimeStays(steps, listing + 1, end, e);
    ClockNeverTurnsBack(steps, listing, end);
    assert IsDue(At(steps, listing).retry, Score(At(steps, listing).now), e);
  }

  lemma LateScheduleExists(steps: seq<Step>, listing: nat, end: nat, e: nat)
    requires ListsAt(steps, listing, e) && listing < end <= |steps| && e in At(steps, end).retry
    requires At(steps, end).retry[e] >= At(steps, end).now + SECOND
    ensures exists j, m :: IsLateSchedule(steps, listing, end, e, j, m)
  {
    if forall n :: listing < n < end ==> !WritesAt(steps, n, e) {
      UnwrittenIsNotEarly(steps, listing, end, e);
    } else {
      var n :| listing < n < end && WritesAt(steps, n, e);
      var m := LastWriteExists(steps, n, end, e);
      var j := OwedSinceFailure(steps, m, steps[m].agent);
      LastWriteDecides(steps, j, m, end, e);
      assert IsLateSchedule(steps, listing, end, e, j, m);
    }
  }

  /** Exactly when a listed member leaves early. If the loop that listed e at step `listing` removes it at step
      `end`, the retry time is a second or more away if and only if the latest ZADD for e came after the
      listing and belongs to a failed attempt whose backoff has at least a second to go. */
  lemma EarlyRemovalIff(steps: seq<Step>, listing: nat, end: nat, e: nat)
    requires ListsAt(steps, listing, e) && listing < end <= |steps| && e in At(steps, end).retry
    ensures At(steps, end).retry[e] >= At(steps, end).now + SECOND <==>
            exists j, m :: IsLateSchedule(steps, listing, end, e, j, m)
  {
    if j, m :| IsLateSchedule(steps, listing, end, e, j, m) {
      LastWriteDecides(steps, j, m, end, e);
    } else if At(steps, end).retry[e] >= At(steps, end).now + SECOND {
      LateScheduleExists(steps, listing, end, e);
    }
  }

  // The general promise is false: a loop that is slow between its query and its ZREM publishes an event
  // that another loop flushed and a worker rescheduled in the meantime.

  const FIRST_FAILURE := State(0, [FailRow(ClaimRow(NewRow(Queued, 4, 0), 0), 0, 4, 0)],
                               [Entry(Incoming, Id(0), Pending(0, 0))], map[], [Done, OwesSchedule(0, 0, 0)], map[])

  /** One event, one worker, one claim. */
  lemma ReachFirstClaim()
    ensures Run(INITIAL, [Ingest(0, 4)] + [PublishIncoming(0)] + [Deliver(0, 0)] + [Claim(1)]) ==
            State(0, [ClaimRow(NewRow(Queued, 4, 0), 0)], [Entry(Incoming, Id(0), Pending(0, 0))], map[],
                  [Done, Holding(0, 0, 0, 4, 0)], map[])
  {
    RunFour(INITIAL, Ingest(0, 4), PublishIncoming(0), Deliver(0, 0), Claim(1));
    var s1 := Next(INITIAL, Ingest(0, 4));
    assert s1 == INITIAL.(rows := [NewRow(Queued, 4, 0)], agents := [OwesIncoming(0)]);
    var s2 := Next(s1, PublishIncoming(0));
    assert s2 == s1.(entries := [Entry(Incoming, Id(0), Undelivered)], agents := [Done]);
    var s3 := Next(s2, Deliver(0, 0));
    assert s3 == s2.(entries := [Entry(Incoming, Id(0), Pending(0, 0))], agents := [Done, Claiming(0)]);
  }

  lemma ReachFirstFailure()
    ensures Run(INITIAL, [Ingest(0, 4)] + [PublishIncoming(0)] + [Deliver(0, 0)] + [Claim(1)] + [Fail(1)]) ==
            FIRST_FAILURE
  {
    ReachFirstClaim();
    RunOneMore(INITIAL, [Ingest(0, 4)] + [PublishIncoming(0)] + [Deliver(0, 0)] + [Claim(1)], Fail(1));
  }

  const SECOND_LISTING := FIRST_FAILURE.(
    retry := map[0 := 0], agents := [Done, OwesAck(0), Flushing(0, [0]), Flushing(0, [0])])

  lemma ReachSecondListing()
    ensures Run(FIRST_FAILURE, [Schedule(1)] + [ListDue([0])] + [ListDue([0])] + [Remove(3)]) ==
            SECOND_LISTING.(retry := map[], agents := [Done, OwesAck(0), Flushing(0, [0]), Republishing(0, 0, [])])
  {
    var s1 := Next(FIRST_FAILURE, Schedule(1));
    assert s1 == FIRST_FAILURE.(retry := map[0 := 0], agents := [Done, OwesAck(0)]);
    assert IsDueListing(s1.retry, 0, [0]);
    var s2 := Next(s1, ListDue([0]));
    assert s2 == s1.(agents := [Done, OwesAck(0), Flushing(0, [0])]);
    var s3 := Next(s2, ListDue([0]));
    assert s3 == SECOND_LISTING;
    RemoveOnly(s3);
    RunFour(FIRST_FAILURE, Schedule(1), ListDue([0]), ListDue([0]), Remove(3));
  }

  lemma RemoveOnly(s: State)
    requires s == SECOND_LISTING
    ensures Next(s, Remove(3)) ==
            s.(retry := map[], agents := [Done, OwesAck(0), Flushing(0, [0]), Republishing(0, 0, [])])
  {
    assert [0][1..] == [];
    assert map[0 := 0] - {0} == map[];
  }

  const RETRY_STARTED := FIRST_FAILURE.(
    rows := [ClaimRow(FIRST_FAILURE.rows[0], 0)],
    entries := [Entry(Incoming, Id(0), Pending(0, 0)), Entry(Retry, Id(0), Pending(0, 0))],
    agents := [Done, OwesAck(0), Flushing(0, [0]), Flushing(0, []), Holding(1, 0, 1, 4, 0)])

  lemma ReachRetryStarted(s: State)
    requires s == SECOND_LISTING.(
                    retry := map[], agents := [Done, OwesAck(0), Flushing(0, [0]), Republishing(0, 0, [])])
    ensures Next(Next(Next(s, Republish(3)), Deliver(1, 0)), Claim(4)) == RETRY_STARTED
  {
    var s1 := Next(s, Republish(3));
    assert s1.entries == [Entry(Incoming, Id(0), Pending(0, 0)), Entry(Retry, Id(0), Undelivered)];
    assert s1.agents == [Done, OwesAck(0), Flushing(0, [0]), Flushing(0, [])];
    var s2 := Next(s1, Deliver(1, 0));
    assert s2.entries == RETRY_STARTED.entries;
    assert s2.agents == [Done, OwesAck(0), Flushing(0, [0]), Flushing(0, []), Claiming(1)];
    assert s2.rows == FIRST_FAILURE.rows;
    assert Next(s2, Claim(4)).agents == RETRY_STARTED.agents;
  }

  lemma ReachEarlyRemoval()
    ensures var s := Next(Next(RETRY_STARTED, Fail(4)), Schedule(4));
            IsAgent(s, 2) && s.agents[2] == Flushing(0, [0]) && s.retry == map[0 := 10 * SECOND] && s.now == 0
  {
    var s1 := Next(RETRY_STARTED, Fail(4));
    assert s1.agents[4] == OwesSchedule(1, 0, 10 * SECOND);
  }

  lemma RetryIsReached() returns (steps: seq<Step>)
    ensures Run(INITIAL, steps) == RETRY_STARTED
  {
    var first := [Ingest(0, 4)] + [PublishIncoming(0)] + [Deliver(0, 0)] + [Claim(1)] + [Fail(1)];
    var second := [Schedule(1)] + [ListDue([0])] + [ListDue([0])] + [Remove(3)];
    ReachFirstFailure();
    ReachSecondListing();
    RunAppend(INITIAL, first, second);
    ReachRetryStarted(Run(INITIAL, first + second));
    RunOneMore(INITIAL, first + second, Republish(3));
    RunOneMore(INITIAL, first + second + [Republish(3)], Deliver(1, 0));
    RunOneMore(INITIAL, first + second + [Republish(3)] + [Deliver(1, 0)], Claim(4));
    steps := first + second + [Republish(3)] + [Deliver(1, 0)] + [Claim(4)];
  }

  /** Without a pause anywhere, a slow loop takes an event out of the set whose second failure has just been
      scheduled for ten seconds later. */
  lemma EarlyRemovalHappens()
    ensures exists steps: seq<Step> ::
              var s := Run(INITIAL, steps);
              && s.now == 0 && RemovesMember(s, Remove(2), 0) && s.retry[0] == 10 * SECOND
              && 0 !in Next(s, Remove(2)).retry
  {
    var steps := RetryIsReached();
    ReachEarlyRemoval();
    RunOneMore(INITIAL, steps, Fail(4));
    RunOneMore(INITIAL, steps + [Fail(4)], Schedule(4));
    var s := Run(INITIAL, steps + [Fail(4)] + [Schedule(4)]);
    assert RemovesMember(s, Remove(2), 0) && 0 !in Next(s, Remove(2)).retry;
  }
}
