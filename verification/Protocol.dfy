/** Delivery and recovery of events as a state machine: PostgreSQL rows, the two Redis streams with their
    pending lists, the retry sorted set, and the memory of every request, handler and scheduler loop.
    Each transaction and each Redis command is one step, so every interleaving is a sequence of steps. */
module Protocol {
  import opened Basics
  import opened Tables

  datatype Stream = Incoming | Retry

  /** The "event_id" field of a stream entry: missing or blank, not a UUID, or the id of an event. */
  datatype Payload = Blank | NotUuid | Id(event: nat)

  /** Not yet read by the group, in the pending list of a consumer, or acknowledged. */
  datatype Place = Undelivered | Pending(consumer: nat, since: int) | Acked

  datatype Entry = Entry(stream: Stream, payload: Payload, place: Place)

  /** What one request, handler or scheduler loop still has to do. */
  datatype Agent =
    | Done
    | OwesIncoming(event: nat)                                 // committed "queued", XADD outstanding
    | Claiming(entry: nat)                                     // has the message, claim outstanding
    | Holding(entry: nat, event: nat, readCount: int, readMax: int, claimedAt: int)
    | OwesSchedule(entry: nat, event: nat, retryAt: int)       // committed "retrying", ZADD outstanding
    | OwesAck(entry: nat)                                      // XACK outstanding
    | Flushing(bound: int, ids: seq<nat>)                      // listed the retries due at second `bound`
    | Republishing(bound: int, event: nat, ids: seq<nat>)      // ZREM done, XADD outstanding

  /** `retry` maps each member of the sorted set to its retry time; its score is `Score` of that time. */
  datatype State = State(
    now: int,
    rows: seq<Row>,
    entries: seq<Entry>,
    retry: map<nat, int>,
    agents: seq<Agent>,
    workers: map<nat, Option<nat>>)

  const INITIAL := State(0, [], [], map[], [], map[])

  /** The shortest idle time after which a pending entry may be handed to another consumer. */
  const RECLAIM_IDLE := 5 * SECOND

  datatype Step =
    | Tick(elapsed: nat)
    | Ingest(event: nat, maxAttempts: int)
    | IngestAborted(maxAttempts: int)              // the request dies between its two commits
    | PublishIncoming(agent: nat)
    | Inject(stream: Stream, payload: Payload)     // any other publisher, including duplicates
    | Deliver(entry: nat, consumer: nat)
    | Claim(agent: nat)
    | Succeed(agent: nat)
    | Fail(agent: nat)
    | Schedule(agent: nat)
    | ScheduleFailed(agent: nat)                   // ZADD failed; the error is only logged
    | Ack(agent: nat)
    | ListDue(ids: seq<nat>)
    | Remove(agent: nat)
    | Republish(agent: nat)
    | Reclaim(entry: nat, consumer: nat)
    | Replay(event: nat, letter: nat)
    | Crash(agent: nat)
    | Heartbeat(worker: nat, current: Option<nat>)

  /** The sorted set keeps whole seconds. */
  function Score(at: int): (score: int) {
    at / SECOND
  }

  predicate Handles(agent: Agent, entry: nat) {
    (agent.Claiming? || agent.Holding? || agent.OwesSchedule? || agent.OwesAck?) && agent.entry == entry
  }

  predicate Holds(agent: Agent, event: nat) {
    agent.Holding? && agent.event == event
  }

  predicate IsDue(retry: map<nat, int>, bound: int, event: nat) {
    event in retry && Score(retry[event]) <= bound
  }

  /** A ZRANGEBYSCORE reply: each due member once. */
  predicate IsDueListing(retry: map<nat, int>, bound: int, ids: seq<nat>) {
    && NoDuplicates(ids)
    && (forall i :: 0 <= i < |ids| ==> IsDue(retry, bound, ids[i]))
    && (forall event <- retry.Keys :: IsDue(retry, bound, event) ==> event in ids)
  }

  predicate IsAgent(s: State, a: nat) {
    a < |s.agents|
  }

  predicate IsEntry(s: State, i: nat) {
    i < |s.entries|
  }

  /** Whether the step can be taken; the other steps leave the state alone. */
  predicate Enabled(s: State, step: Step) {
    match step
    case Tick(_) => true
    case Ingest(e, _) => e == |s.rows| || (e < |s.rows| && IsRepublishable(s.rows[e].status))
    case IngestAborted(_) => true
    case PublishIncoming(a) => IsAgent(s, a) && s.agents[a].OwesIncoming?
    case Inject(_, _) => true
    case Deliver(i, _) => IsEntry(s, i) && s.entries[i].place.Undelivered?
    case Claim(a) => IsAgent(s, a) && s.agents[a].Claiming? && IsEntry(s, s.agents[a].entry)
    case Succeed(a) => IsAgent(s, a) && s.agents[a].Holding? && s.agents[a].event < |s.rows|
    case Fail(a) => IsAgent(s, a) && s.agents[a].Holding? && s.agents[a].event < |s.rows|
    case Schedule(a) => IsAgent(s, a) && s.agents[a].OwesSchedule?
    case ScheduleFailed(a) => IsAgent(s, a) && s.agents[a].OwesSchedule?
    case Ack(a) => IsAgent(s, a) && s.agents[a].OwesAck? && IsEntry(s, s.agents[a].entry)
    case ListDue(ids) => IsDueListing(s.retry, Score(s.now), ids)
    case Remove(a) => IsAgent(s, a) && s.agents[a].Flushing? && s.agents[a].ids != []
    case Republish(a) => IsAgent(s, a) && s.agents[a].Republishing?
    case Reclaim(i, _) =>
      IsEntry(s, i) && s.entries[i].place.Pending? && s.now - s.entries[i].place.since >= RECLAIM_IDLE
    case Replay(e, d) => e < |s.rows| && IsReplayable(s.rows[e], d)
    case Crash(a) => IsAgent(s, a)
    case Heartbeat(_, current) => current.Some? ==> current.value < |s.rows|
  }

  function SetAgent(s: State, a: nat, agent: Agent): (s': State)
    requires IsAgent(s, a)
  {
    s.(agents := s.agents[a := agent])
  }

  function Spawn(s: State, agent: Agent): (s': State) {
    s.(agents := s.agents + [agent])
  }

  function SetRow(s: State, e: nat, row: Row): (s': State)
    requires e < |s.rows|
  {
    s.(rows := s.rows[e := row])
  }

  function Publish(s: State, stream: Stream, payload: Payload): (s': State) {
    s.(entries := s.entries + [Entry(stream, payload, Undelivered)])
  }

  function Move(s: State, i: nat, place: Place): (s': State)
    requires IsEntry(s, i)
  {
    s.(entries := s.entries[i := s.entries[i].(place := place)])
  }

  /** Hands entry i to a consumer, whose new handler starts with the message in memory. */
  function Assign(s: State, i: nat, consumer: nat): (s': State)
    requires IsEntry(s, i)
  {
    Spawn(Move(s, i, Pending(consumer, s.now)), Claiming(i))
  }

  function DoIngest(s: State, e: nat, maxAttempts: int): (s': State)
    requires Enabled(s, Ingest(e, maxAttempts))
  {
    var stored :=
      if e == |s.rows| then s.(rows := s.rows + [NewRow(Queued, maxAttempts, s.now)])
      else SetRow(s, e, RequeueRow(s.rows[e], s.now));
    Spawn(stored, OwesIncoming(e))
  }

  /** A blank message and a message for an unknown or unclaimable row are acknowledged; an id that is no
      UUID makes the query fail, and the handler returns without acknowledging. */
  function DoClaim(s: State, a: nat): (s': State)
    requires Enabled(s, Claim(a))
  {
    var i := s.agents[a].entry;
    match s.entries[i].payload
    case Blank => SetAgent(s, a, OwesAck(i))
    case NotUuid => SetAgent(s, a, Done)
    case Id(e) =>
      if e < |s.rows| && IsClaimable(s.rows[e], s.now) then
        var row := s.rows[e];
        SetAgent(SetRow(s, e, ClaimRow(row, s.now)), a, Holding(i, e, row.attemptCount, row.maxAttempts, s.now))
      else
        SetAgent(s, a, OwesAck(i))
  }

  function DoSucceed(s: State, a: nat): (s': State)
    requires Enabled(s, Succeed(a))
  {
    var h := s.agents[a];
    SetAgent(SetRow(s, h.event, SucceedRow(s.rows[h.event], h.readCount + 1, s.now)), a, OwesAck(h.entry))
  }

  function DoFail(s: State, a: nat): (s': State)
    requires Enabled(s, Fail(a))
  {
    var h := s.agents[a];
    var next := h.readCount + 1;
    var debt := if next >= h.readMax then OwesAck(h.entry)
                else OwesSchedule(h.entry, h.event, RetryAt(next, s.now));
    SetAgent(SetRow(s, h.event, FailRow(s.rows[h.event], h.readCount, h.readMax, s.now)), a, debt)
  }

  function DoSchedule(s: State, a: nat): (s': State)
    requires Enabled(s, Schedule(a))
  {
    var h := s.agents[a];
    SetAgent(s.(retry := s.retry[h.event := h.retryAt]), a, OwesAck(h.entry))
  }

  /** Acknowledging an entry that is no longer pending does nothing. */
  function DoAck(s: State, a: nat): (s': State)
    requires Enabled(s, Ack(a))
  {
    var i := s.agents[a].entry;
    SetAgent(if s.entries[i].place.Pending? then Move(s, i, Acked) else s, a, Done)
  }

  function DoRemove(s: State, a: nat): (s': State)
    requires Enabled(s, Remove(a))
  {
    var g := s.agents[a];
    var e := g.ids[0];
    if e in s.retry then SetAgent(s.(retry := s.retry - {e}), a, Republishing(g.bound, e, g.ids[1..]))
    else SetAgent(s, a, Flushing(g.bound, g.ids[1..]))
  }

  function DoRepublish(s: State, a: nat): (s': State)
    requires Enabled(s, Republish(a))
  {
    var g := s.agents[a];
    SetAgent(Publish(s, Retry, Id(g.event)), a, Flushing(g.bound, g.ids))
  }

  function DoReplay(s: State, e: nat, d: nat): (s': State)
    requires Enabled(s, Replay(e, d))
  {
    Spawn(SetRow(s, e, ReplayRow(s.rows[e], d, s.now)), OwesIncoming(e))
  }

  /** The state after a step. */
  function Next(s: State, step: Step): (s': State) {
    if !Enabled(s, step) then s else
      match step
      case Tick(d) => s.(now := s.now + d)
      case Ingest(e, m) => DoIngest(s, e, m)
      case IngestAborted(m) => s.(rows := s.rows + [NewRow(Received, m, s.now)])
      case PublishIncoming(a) => SetAgent(Publish(s, Incoming, Id(s.agents[a].event)), a, Done)
      case Inject(stream, payload) => Publish(s, stream, payload)
      case Deliver(i, c) => Assign(s, i, c)
      case Claim(a) => DoClaim(s, a)
      case Succeed(a) => DoSucceed(s, a)
      case Fail(a) => DoFail(s, a)
      case Schedule(a) => DoSchedule(s, a)
      case ScheduleFailed(a) => SetAgent(s, a, OwesAck(s.agents[a].entry))
      case Ack(a) => DoAck(s, a)
      case ListDue(ids) => Spawn(s, Flushing(Score(s.now), ids))
      case Remove(a) => DoRemove(s, a)
      case Republish(a) => DoRepublish(s, a)
      case Reclaim(i, c) => Assign(s, i, c)
      case Replay(e, d) => DoReplay(s, e, d)
      case Crash(a) => SetAgent(s, a, Done)
      case Heartbeat(w, current) => s.(workers := s.workers[w := current])
  }

  /** The state after a run. */
  function Run(s: State, steps: seq<Step>): (s': State)
    decreases |steps|
  {
    if steps == [] then s else Run(Next(s, steps[0]), steps[1..])
  }

  lemma {:induction false} RunAppend(s: State, first: seq<Step>, second: seq<Step>)
    ensures Run(s, first + second) == Run(Run(s, first), second)
    decreases |first|
  {
    if first == [] {
      assert first + second == second;
    } else {
      assert (first + second)[1..] == first[1..] + second;
      RunAppend(Next(s, first[0]), first[1..], second);
    }
  }

  lemma RunOneMore(s: State, steps: seq<Step>, step: Step)
    ensures Run(s, steps + [step]) == Next(Run(s, steps), step)
  {
    RunAppend(s, steps, [step]);
    var s' := Run(s, steps);
    assert Run(s', [step]) == Run(Next(s', step), [step][1..]);
  }

  /** The state of the system after the first n steps of a run from its beginning. */
  function At(steps: seq<Step>, n: nat): (s: State)
    requires n <= |steps|
  {
    if n == 0 then INITIAL else Next(At(steps, n - 1), steps[n - 1])
  }

  lemma {:induction false} AtIsRun(steps: seq<Step>, n: nat)
    requires n <= |steps|
    ensures At(steps, n) == Run(INITIAL, steps[..n])
  {
    if n > 0 {
      AtIsRun(steps, n - 1);
      assert steps[..n] == steps[..n - 1] + [steps[n - 1]];
      RunOneMore(INITIAL, steps[..n - 1], steps[n - 1]);
    }
  }

  lemma RunFour(s: State, first: Step, second: Step, third: Step, fourth: Step)
    ensures Run(s, [first] + [second] + [third] + [fourth]) == Next(Next(Next(Next(s, first), second), third), fourth)
  {
    RunOneMore(s, [], first);
    assert [] + [first] == [first];
    RunOneMore(s, [first], second);
    RunOneMore(s, [first] + [second], third);
    RunOneMore(s, [first] + [second] + [third], fourth);
  }

  /** Every entry an agent works on exists, and so does every event in an agent's memory. */
  ghost predicate AgentOk(s: State, agent: Agent) {
    match agent
    case Done => true
    case OwesIncoming(e) => e < |s.rows|
    case Claiming(i) => IsEntry(s, i)
    case Holding(i, e, _, _, _) => IsEntry(s, i) && e < |s.rows| && s.entries[i].payload == Id(e)
    case OwesSchedule(i, e, _) => IsEntry(s, i) && e < |s.rows| && s.entries[i].payload == Id(e)
    case OwesAck(i) => IsEntry(s, i)
    case Flushing(bound, ids) => bound <= Score(s.now)
    case Republishing(bound, e, ids) => bound <= Score(s.now)
  }

  ghost predicate WellFormed(s: State) {
    && (forall a :: 0 <= a < |s.agents| ==> AgentOk(s, s.agents[a]))
    && (forall w <- s.workers.Keys :: s.workers[w].Some? ==> s.workers[w].value < |s.rows|)
  }

  /** Rows, entries and the clock only grow; an entry keeps its payload. */
  ghost predicate Grows(s: State, s': State) {
    && |s.rows| <= |s'.rows|
    && |s.entries| <= |s'.entries|
    && (forall i :: 0 <= i < |s.entries| ==> s'.entries[i].payload == s.entries[i].payload)
    && s.now <= s'.now
  }

  lemma StepGrows(s: State, step: Step)
    ensures Grows(s, Next(s, step))
  {
  }

  predicate NamesAgent(step: Step) {
    || step.PublishIncoming? || step.Claim? || step.Succeed? || step.Fail? || step.Schedule?
    || step.ScheduleFailed? || step.Ack? || step.Remove? || step.Republish? || step.Crash?
  }

  /** A step rewrites the agent it names, or starts a new one that has nothing in hand. */
  lemma OneAgentChanges(s: State, step: Step)
    ensures NamesAgent(step) && Enabled(s, step) ==>
              Next(s, step).agents == s.agents[step.agent := Next(s, step).agents[step.agent]]
    ensures NamesAgent(step) || Next(s, step).agents == s.agents ||
            (|Next(s, step).agents| == |s.agents| + 1 && !Next(s, step).agents[|s.agents|].Republishing? &&
             Next(s, step).agents == s.agents + [Next(s, step).agents[|s.agents|]])
  {
  }

  lemma AgentOkMonotone(s: State, s': State, agent: Agent)
    requires AgentOk(s, agent) && Grows(s, s')
    ensures AgentOk(s', agent)
  {
  }

  lemma NewAgentOk(s: State, step: Step, a: nat)
    requires WellFormed(s) && a < |Next(s, step).agents|
    requires a < |s.agents| ==> Next(s, step).agents[a] != s.agents[a]
    ensures AgentOk(Next(s, step), Next(s, step).agents[a])
  {
    OneAgentChanges(s, step);
    if NamesAgent(step) {
      assert a == step.agent && AgentOk(s, s.agents[a]);
      NamedAgentOk(s, step);
    }
  }

  lemma NamedAgentOk(s: State, step: Step)
    requires NamesAgent(step) && Enabled(s, step) && AgentOk(s, s.agents[step.agent])
    ensures AgentOk(Next(s, step), Next(s, step).agents[step.agent])
  {
  }

  lemma StepKeepsWellFormed(s: State, step: Step)
    requires WellFormed(s)
    ensures WellFormed(Next(s, step))
    ensures Grows(s, Next(s, step))
  {
    var s' := Next(s, step);
    StepGrows(s, step);
    forall a | 0 <= a < |s'.agents| ensures AgentOk(s', s'.agents[a]) {
      if a < |s.agents| && s'.agents[a] == s.agents[a] {
        AgentOkMonotone(s, s', s.agents[a]);
      } else {
        NewAgentOk(s, step, a);
      }
    }
  }

  lemma {:induction false} RunKeepsWellFormed(s: State, steps: seq<Step>)
    requires WellFormed(s)
    ensures WellFormed(Run(s, steps))
    decreases |steps|
  {
    if steps != [] {
      StepKeepsWellFormed(s, steps[0]);
      RunKeepsWellFormed(Next(s, steps[0]), steps[1..]);
    }
  }
}
