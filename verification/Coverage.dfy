/** No event is forgotten: as long as an event is unfinished, something in the system still carries it. */
module Coverage {
  import opened Tables
  import opened Protocol

  predicate IsActive(status: Status) {
    !IsTerminal(status)
  }

  /** The agent will put the event back in motion; a holder is not counted here. */
  predicate Carries(s: State, agent: Agent, e: nat) {
    match agent
    case OwesIncoming(e') => e' == e
    case Claiming(i) => IsEntry(s, i) && s.entries[i].payload == Id(e)
    case OwesSchedule(_, e', _) => e' == e
    case Republishing(_, e', _) => e' == e
    case _ => false
  }

  predicate Waits(entry: Entry, e: nat) {
    entry.place == Undelivered && entry.payload == Id(e)
  }

  predicate HasHolder(s: State, e: nat) {
    exists a :: 0 <= a < |s.agents| && Holds(s.agents[a], e)
  }

  predicate HasCarrier(s: State, e: nat) {
    || (exists a :: 0 <= a < |s.agents| && Carries(s, s.agents[a], e))
    || (exists i :: 0 <= i < |s.entries| && Waits(s.entries[i], e))
    || e in s.retry
  }

  predicate IsCovered(s: State, e: nat)
    requires e < |s.rows|
  {
    && (s.rows[e].status == Processing ==> HasHolder(s, e))
    && (IsRepublishable(s.rows[e].status) ==> HasCarrier(s, e))
  }

  predicate AllCovered(s: State) {
    forall e :: 0 <= e < |s.rows| ==> IsCovered(s, e)
  }

  /** No crash, no failed write and no ingest request that dies halfway. Reclaims are unrestricted. */
  predicate Faultless(step: Step) {
    !step.Crash? && !step.ScheduleFailed? && !step.IngestAborted?
  }

  lemma HolderStays(s: State, step: Step, e: nat)
    requires Faultless(step) && e < |s.rows| && HasHolder(s, e)
    requires Next(s, step).rows[e].status == Processing
    ensures HasHolder(Next(s, step), e)
  {
    var s' := Next(s, step);
    var a :| 0 <= a < |s.agents| && Holds(s.agents[a], e);
    assert Holds(s'.agents[a], e);
  }

  /** A carrier hands the event on to the next carrier, as long as the row is not claimed. */
  lemma CarrierStays(s: State, step: Step, e: nat)
    requires WellFormed(s) && Faultless(step) && e < |s.rows| && HasCarrier(s, e)
    requires IsRepublishable(s.rows[e].status) && IsRepublishable(Next(s, step).rows[e].status)
    ensures HasCarrier(Next(s, step), e)
  {
    var s' := Next(s, step);
    if a :| 0 <= a < |s.agents| && Carries(s, s.agents[a], e) {
      assert AgentOk(s, s.agents[a]);
      AgentHandsOn(s, step, e, a);
    } else if i :| 0 <= i < |s.entries| && Waits(s.entries[i], e) {
      EntryHandsOn(s, step, e, i);
    } else {
      MemberHandsOn(s, step, e);
    }
  }

  lemma EntryHandsOn(s: State, step: Step, e: nat, i: nat)
    requires IsEntry(s, i) && Waits(s.entries[i], e)
    ensures HasCarrier(Next(s, step), e)
  {
    var s' := Next(s, step);
    if s'.entries[i] == s.entries[i] {
      assert Waits(s'.entries[i], e);
    } else {
      assert Carries(s', s'.agents[|s.agents|], e);
    }
  }

  lemma MemberHandsOn(s: State, step: Step, e: nat)
    requires e in s.retry
    ensures HasCarrier(Next(s, step), e)
  {
    var s' := Next(s, step);
    if e !in s'.retry {
      assert Carries(s', s'.agents[step.agent], e);
    }
  }

  lemma AgentHandsOn(s: State, step: Step, e: nat, a: nat)
    requires Faultless(step) && e < |s.rows|
    requires IsRepublishable(s.rows[e].status) && IsRepublishable(Next(s, step).rows[e].status)
    requires IsAgent(s, a) && AgentOk(s, s.agents[a]) && Carries(s, s.agents[a], e)
    ensures HasCarrier(Next(s, step), e)
  {
    if Next(s, step).agents[a] == s.agents[a] {
      StepGrows(s, step);
      assert Carries(Next(s, step), Next(s, step).agents[a], e);
    } else {
      OneAgentChanges(s, step);
      assert NamesAgent(step) && step.agent == a;
      NamedAgentHandsOn(s, step, e);
    }
  }

  lemma NamedAgentHandsOn(s: State, step: Step, e: nat)
    requires Faultless(step) && NamesAgent(step) && Enabled(s, step) && e < |s.rows|
    requires IsRepublishable(s.rows[e].status) && IsRepublishable(Next(s, step).rows[e].status)
    requires AgentOk(s, s.agents[step.agent]) && Carries(s, s.agents[step.agent], e)
    ensures HasCarrier(Next(s, step), e)
  {
    var s' := Next(s, step);
    match step
    case PublishIncoming(_) => assert Waits(s'.entries[|s.entries|], e);
    case Republish(_) => assert Waits(s'.entries[|s.entries|], e);
    case _ =>
  }

  /** A step that makes the row unfinished, or that rewrites an unfinished row, leaves a new carrier. */
  lemma NewCarrier(s: State, step: Step, e: nat)
    requires WellFormed(s) && Faultless(step) && e < |Next(s, step).rows|
    requires e < |s.rows| ==> s.rows[e].status == Processing || IsTerminal(s.rows[e].status)
    requires IsRepublishable(Next(s, step).rows[e].status)
    ensures HasCarrier(Next(s, step), e)
  {
    RequeuedBy(s, step, e);
    var s' := Next(s, step);
    match step
    case Ingest(_, _) => assert Carries(s', s'.agents[|s.agents|], e);
    case Replay(_, _) => assert Carries(s', s'.agents[|s.agents|], e);
    case Fail(a) => assert Carries(s', s'.agents[a], e);
  }

  /** Only these steps make a row unfinished, and they leave an agent that owes the next write. */
  lemma RequeuedBy(s: State, step: Step, e: nat)
    requires Faultless(step) && e < |Next(s, step).rows|
    requires e < |s.rows| ==> s.rows[e].status == Processing || IsTerminal(s.rows[e].status)
    requires IsRepublishable(Next(s, step).rows[e].status)
    ensures Enabled(s, step) && (step.Ingest? || step.Replay? || step.Fail?)
    ensures step.Ingest? || step.Replay? ==> step.event == e
    ensures step.Fail? ==> s.agents[step.agent].event == e
  {
  }

  lemma StepKeepsCovered(s: State, step: Step, e: nat)
    requires WellFormed(s) && AllCovered(s) && Faultless(step) && e < |Next(s, step).rows|
    ensures IsCovered(Next(s, step), e)
  {
    var s' := Next(s, step);
    if e < |s.rows| {
      assert IsCovered(s, e);
    }
    if s'.rows[e].status == Processing {
      if e < |s.rows| && s.rows[e].status == Processing {
        HolderStays(s, step, e);
      } else {
        assert Holds(s'.agents[step.agent], e);
      }
    } else if IsRepublishable(s'.rows[e].status) {
      if e < |s.rows| && IsRepublishable(s.rows[e].status) {
        CarrierStays(s, step, e);
      } else {
        NewCarrier(s, step, e);
      }
    }
  }

  /** Coverage without faults: in every run without crashes and failed writes, whatever is reclaimed,
      duplicated or replayed, each unfinished event has a live holder or a carrier. */
  lemma {:induction false} FaultlessRunIsCovered(s: State, steps: seq<Step>)
    requires WellFormed(s) && AllCovered(s)
    requires forall k :: 0 <= k < |steps| ==> Faultless(steps[k])
    ensures WellFormed(Run(s, steps)) && AllCovered(Run(s, steps))
    decreases |steps|
  {
    if steps != [] {
      var s' := Next(s, steps[0]);
      StepKeepsWellFormed(s, steps[0]);
      forall e | 0 <= e < |s'.rows| ensures IsCovered(s', e) {
        StepKeepsCovered(s, steps[0], e);
      }
      FaultlessRunIsCovered(s', steps[1..]);
    }
  }
}
