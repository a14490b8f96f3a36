/** Coverage when worker handlers crash: the pending list keeps what a dead handler had, provided an entry
    is reclaimed only after its handler is gone and its row is no longer freshly claimed. */
module CrashCoverage {
  import opened Tables
  import opened Protocol
  import opened Coverage

  predicate IsHandler(agent: Agent) {
    agent.Claiming? || agent.Holding? || agent.OwesSchedule? || agent.OwesAck?
  }

  /** The reclaim hypothesis. The idle windows of 5 s and 30 s alone do not give it. */
  predicate IsDisciplinedReclaim(s: State, i: nat) {
    && (forall a :: 0 <= a < |s.agents| ==> !Handles(s.agents[a], i))
    && (IsEntry(s, i) && s.entries[i].payload.Id? && s.entries[i].payload.event < |s.rows| ==>
          !IsFresh(s.rows[s.entries[i].payload.event], s.now))
  }

  /** Any handler or scheduler loop may crash, except between ZREM and XADD; requests do not die between
      their commit and their publish, and no write fails. */
  predicate Tolerated(s: State, step: Step) {
    match step
    case Crash(a) => IsAgent(s, a) ==> !s.agents[a].OwesIncoming? && !s.agents[a].Republishing?
    case Reclaim(i, _) => IsDisciplinedReclaim(s, i)
    case ScheduleFailed(_) => false
    case IngestAborted(_) => false
    case _ => true
  }

  predicate ToleratedRun(s: State, steps: seq<Step>)
    decreases |steps|
  {
    steps != [] ==> Tolerated(s, steps[0]) && ToleratedRun(Next(s, steps[0]), steps[1..])
  }

  /** Each entry has at most one handler, and a handled entry is pending. */
  ghost predicate Solo(s: State) {
    && (forall a :: 0 <= a < |s.agents| && IsHandler(s.agents[a]) ==>
          IsEntry(s, s.agents[a].entry) && s.entries[s.agents[a].entry].place.Pending?)
    && (forall a, b ::
          0 <= a < b < |s.agents| && IsHandler(s.agents[a]) && IsHandler(s.agents[b]) ==>
            s.agents[a].entry != s.agents[b].entry)
  }

  /** A pending entry from which the event will be processed again: it has no handler, or one whose claim
      will succeed. */
  predicate IsRecoverable(s: State, i: nat, e: nat)
    requires e < |s.rows|
  {
    && IsEntry(s, i) && s.entries[i].place.Pending? && s.entries[i].payload == Id(e)
    && (forall a :: 0 <= a < |s.agents| && Handles(s.agents[a], i) ==>
          s.agents[a].Claiming? && !IsFresh(s.rows[e], s.now))
  }

  predicate HasRecoverable(s: State, e: nat)
    requires e < |s.rows|
  {
    exists i :: 0 <= i < |s.entries| && IsRecoverable(s, i, e)
  }

  predicate Owes(agent: Agent, e: nat) {
    (agent.OwesIncoming? || agent.OwesSchedule? || agent.Republishing?) && agent.event == e
  }

  predicate HasDebt(s: State, e: nat) {
    || (exists a :: 0 <= a < |s.agents| && Owes(s.agents[a], e))
    || (exists i :: 0 <= i < |s.entries| && Waits(s.entries[i], e))
    || e in s.retry
  }

  predicate IsSafe(s: State, e: nat)
    requires e < |s.rows|
  {
    && (s.rows[e].status == Processing ==> HasHolder(s, e) || HasRecoverable(s, e))
    && (IsRepublishable(s.rows[e].status) ==> HasDebt(s, e) || HasRecoverable(s, e))
  }

  ghost predicate CrashInv(s: State) {
    && WellFormed(s)
    && Solo(s)
    && (forall e :: 0 <= e < |s.rows| ==> IsSafe(s, e))
  }

  /** Every handler of s' is the same handler of s, on the same entry. */
  ghost predicate HandlersShrink(s: State, s': State) {
    forall a :: 0 <= a < |s'.agents| && IsHandler(s'.agents[a]) ==>
      a < |s.agents| && IsHandler(s.agents[a]) && s'.agents[a].entry == s.agents[a].entry
  }

  lemma HandlersShrinkStep(s: State, step: Step)
    requires !step.Deliver? && !step.Reclaim? && !step.Ack?
    ensures HandlersShrink(s, Next(s, step)) && s.entries <= Next(s, step).entries
  {
  }

  lemma ShrinkKeepsSolo(s: State, s': State)
    requires Solo(s) && HandlersShrink(s, s') && s.entries <= s'.entries
    ensures Solo(s')
  {
  }

  lemma AssignKeepsSolo(s: State, i: nat, consumer: nat)
    requires Solo(s) && IsEntry(s, i) && forall a :: 0 <= a < |s.agents| ==> !Handles(s.agents[a], i)
    ensures Solo(Assign(s, i, consumer))
  {
  }

  lemma AckKeepsSolo(s: State, a: nat)
    requires Solo(s) && Enabled(s, Ack(a))
    ensures Solo(DoAck(s, a))
  {
  }

  lemma StepKeepsSolo(s: State, step: Step)
    requires WellFormed(s) && Solo(s) && Tolerated(s, step)
    ensures Solo(Next(s, step))
  {
    if Enabled(s, step) {
      match step
      case Deliver(i, c) => AssignKeepsSolo(s, i, c);
      case Reclaim(i, c) => AssignKeepsSolo(s, i, c);
      case Ack(a) => AckKeepsSolo(s, a);
      case _ =>
        HandlersShrinkStep(s, step);
        ShrinkKeepsSolo(s, Next(s, step));
    }
  }

  lemma HolderOrEntryStays(s: State, step: Step, e: nat)
    requires WellFormed(s) && Solo(s) && Tolerated(s, step) && e < |s.rows| && HasHolder(s, e)
    requires Next(s, step).rows[e].status == Processing
    ensures HasHolder(Next(s, step), e) || HasRecoverable(Next(s, step), e)
  {
    var s' := Next(s, step);
    var a :| 0 <= a < |s.agents| && Holds(s.agents[a], e);
    OneAgentChanges(s, step);
    if s'.agents[a] == s.agents[a] {
      assert Holds(s'.agents[a], e);
    } else {
      HolderLeavesByCrash(s, step, a);
      CrashLeavesRecoverable(s, e, a);
    }
  }

  lemma HolderLeavesByCrash(s: State, step: Step, a: nat)
    requires IsAgent(s, a) && s.agents[a].Holding? && s.agents[a].event < |s.rows|
    requires IsAgent(Next(s, step), a) && Next(s, step).agents[a] != s.agents[a]
    requires Next(s, step).rows[s.agents[a].event].status == Processing
    ensures step == Crash(a)
  {
  }

  /** The entry of a crashed handler is pending and has no handler left. */
  lemma CrashLeavesRecoverable(s: State, e: nat, a: nat)
    requires WellFormed(s) && Solo(s) && IsAgent(s, a) && e < |s.rows|
    requires s.agents[a].Holding? || s.agents[a].OwesSchedule?
    requires s.agents[a].event == e
    ensures HasRecoverable(Next(s, Crash(a)), e)
  {
    assert AgentOk(s, s.agents[a]);
    assert IsRecoverable(Next(s, Crash(a)), s.agents[a].entry, e);
  }

  lemma DebtStays(s: State, step: Step, e: nat)
    requires WellFormed(s) && Solo(s) && Tolerated(s, step) && e < |s.rows| && HasDebt(s, e)
    requires IsRepublishable(s.rows[e].status) && IsRepublishable(Next(s, step).rows[e].status)
    ensures HasDebt(Next(s, step), e) || HasRecoverable(Next(s, step), e)
  {
    var s' := Next(s, step);
    if a :| 0 <= a < |s.agents| && Owes(s.agents[a], e) {
      assert AgentOk(s, s.agents[a]);
      OwingAgentStays(s, step, e, a);
    } else if i :| 0 <= i < |s.entries| && Waits(s.entries[i], e) {
      if s'.entries[i] == s.entries[i] {
        assert Waits(s'.entries[i], e);
      } else {
        assert IsRecoverable(s', i, e);
      }
    } else if e !in s'.retry {
      assert Owes(s'.agents[step.agent], e);
    }
  }

  lemma OwingAgentStays(s: State, step: Step, e: nat, a: nat)
    requires WellFormed(s) && Solo(s) && Tolerated(s, step) && e < |s.rows|
    requires IsAgent(s, a) && Owes(s.agents[a], e)
    ensures HasDebt(Next(s, step), e) || HasRecoverable(Next(s, step), e)
  {
    var s' := Next(s, step);
    if s'.agents[a] == s.agents[a] {
      assert Owes(s'.agents[a], e);
    } else {
      OneAgentChanges(s, step);
      match step
      case PublishIncoming(_) => assert Waits(s'.entries[|s.entries|], e);
      case Republish(_) => assert Waits(s'.entries[|s.entries|], e);
      case Crash(_) => CrashLeavesRecoverable(s, e, a);
      case _ =>
    }
  }

  lemma NewDebt(s: State, step: Step, e: nat)
    requires WellFormed(s) && Tolerated(s, step) && e < |Next(s, step).rows|
    requires e < |s.rows| ==> !IsRepublishable(s.rows[e].status)
    requires IsRepublishable(Next(s, step).rows[e].status)
    ensures HasDebt(Next(s, step), e)
  {
    var s' := Next(s, step);
    match step
    case Ingest(_, _) => assert Owes(s'.agents[|s.agents|], e);
    case Replay(_, _) => assert Owes(s'.agents[|s.agents|], e);
    case Fail(a) => assert Owes(s'.agents[a], e);
    case _ =>
  }

  lemma StepKeepsSafe(s: State, step: Step, e: nat)
    requires CrashInv(s) && Tolerated(s, step) && e < |Next(s, step).rows|
    ensures IsSafe(Next(s, step), e)
  {
    var s' := Next(s, step);
    if e < |s.rows| {
      assert IsSafe(s, e);
    }
    if s'.rows[e].status == Processing {
      ProcessingSafe(s, step, e);
    } else if IsRepublishable(s'.rows[e].status) {
      RepublishableSafe(s, step, e);
    }
  }

  lemma ProcessingSafe(s: State, step: Step, e: nat)
    requires CrashInv(s) && Tolerated(s, step) && e < |Next(s, step).rows|
    requires Next(s, step).rows[e].status == Processing
    ensures HasHolder(Next(s, step), e) || HasRecoverable(Next(s, step), e)
  {
    var s' := Next(s, step);
    if e < |s.rows| && s.rows[e] == s'.rows[e] {
      assert IsSafe(s, e);
      if HasHolder(s, e) {
        HolderOrEntryStays(s, step, e);
      } else {
        var i :| 0 <= i < |s.entries| && IsRecoverable(s, i, e);
        EntryStays(s, step, e, i);
      }
    } else {
      assert Holds(s'.agents[step.agent], e);
    }
  }

  /** A recoverable entry stays recoverable until its row changes. */
  lemma EntryStays(s: State, step: Step, e: nat, i: nat)
    requires WellFormed(s) && Solo(s) && Tolerated(s, step) && e < |s.rows| && IsRecoverable(s, i, e)
    requires IsActive(s.rows[e].status) && Next(s, step).rows[e] == s.rows[e]
    ensures IsRecoverable(Next(s, step), i, e)
  {
    var s' := Next(s, step);
    StepGrows(s, step);
    EntryStaysPending(s, step, e, i);
    forall a | 0 <= a < |s'.agents| && Handles(s'.agents[a], i)
      ensures s'.agents[a].Claiming? && !IsFresh(s'.rows[e], s'.now)
    {
      HandlerStaysClaiming(s, step, e, i, a);
    }
  }

  lemma EntryStaysPending(s: State, step: Step, e: nat, i: nat)
    requires e < |s.rows| && IsRecoverable(s, i, e)
    ensures Next(s, step).entries[i].place.Pending?
  {
  }

  lemma HandlerStaysClaiming(s: State, step: Step, e: nat, i: nat, a: nat)
    requires Tolerated(s, step) && e < |s.rows| && IsRecoverable(s, i, e)
    requires IsActive(s.rows[e].status) && Next(s, step).rows[e] == s.rows[e]
    requires a < |Next(s, step).agents| && Handles(Next(s, step).agents[a], i)
    ensures Next(s, step).agents[a].Claiming? && !IsFresh(s.rows[e], Next(s, step).now)
  {
    OneAgentChanges(s, step);
    StepGrows(s, step);
    if a < |s.agents| && Next(s, step).agents[a] == s.agents[a] {
      assert Handles(s.agents[a], i);
    } else if a < |s.agents| {
      assert NamesAgent(step) && step.agent == a;
      NamedHandlerStaysClaiming(s, step, e, i);
    } else {
      assert step.Reclaim? || step.Deliver?;
    }
  }

  /** A handler of a recoverable entry moves on only by claiming the row. */
  lemma NamedHandlerStaysClaiming(s: State, step: Step, e: nat, i: nat)
    requires NamesAgent(step) && Enabled(s, step) && e < |s.rows| && IsRecoverable(s, i, e)
    requires IsActive(s.rows[e].status) && Next(s, step).rows[e] == s.rows[e]
    ensures !Handles(Next(s, step).agents[step.agent], i)
  {
    var before, after := s.agents[step.agent], Next(s, step).agents[step.agent];
    assert !Handles(before, i) ==> !Handles(after, i);
  }

  lemma RepublishableSafe(s: State, step: Step, e: nat)
    requires CrashInv(s) && Tolerated(s, step) && e < |Next(s, step).rows|
    requires IsRepublishable(Next(s, step).rows[e].status)
    ensures HasDebt(Next(s, step), e) || HasRecoverable(Next(s, step), e)
  {
    var s' := Next(s, step);
    if e < |s.rows| && IsRepublishable(s.rows[e].status) {
      assert IsSafe(s, e);
      if HasDebt(s, e) {
        DebtStays(s, step, e);
      } else if s.rows[e] == s'.rows[e] {
        var i :| 0 <= i < |s.entries| && IsRecoverable(s, i, e);
        EntryStays(s, step, e, i);
      } else {
        RewrittenOwes(s, step, e);
      }
    } else {
      NewDebt(s, step, e);
    }
  }

  lemma RewrittenOwes(s: State, step: Step, e: nat)
    requires WellFormed(s) && e < |s.rows| && s.rows[e] != Next(s, step).rows[e]
    requires IsRepublishable(Next(s, step).rows[e].status)
    ensures HasDebt(Next(s, step), e)
  {
    var s' := Next(s, step);
    match step
    case Ingest(_, _) => assert Owes(s'.agents[|s.agents|], e);
    case Replay(_, _) => assert Owes(s'.agents[|s.agents|], e);
    case Fail(a) => assert Owes(s'.agents[a], e);
    case _ =>
  }

  lemma StepKeepsCrashInv(s: State, step: Step)
    requires CrashInv(s) && Tolerated(s, step)
    ensures CrashInv(Next(s, step))
  {
    StepKeepsWellFormed(s, step);
    StepKeepsSolo(s, step);
    forall e | 0 <= e < |Next(s, step).rows| ensures IsSafe(Next(s, step), e) {
      StepKeepsSafe(s, step, e);
    }
  }

  /** Coverage under crashes: in every run whose reclaims are disciplined, each unfinished event keeps a
      holder, an owed write, a waiting or recoverable entry, or its place in the retry set. */
  lemma {:induction false} CrashRunIsSafe(s: State, steps: seq<Step>)
    requires CrashInv(s) && ToleratedRun(s, steps)
    ensures CrashInv(Run(s, steps))
    decreases |steps|
  {
    if steps != [] {
      StepKeepsCrashInv(s, steps[0]);
      CrashRunIsSafe(Next(s, steps[0]), steps[1..]);
    }
  }
}
