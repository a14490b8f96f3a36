/** The convergence report. */
module Convergence {
  import opened Basics
  import opened Tables
  import opened Protocol
  import opened Safety
  import opened Sums

  datatype Issue =
    | PendingEntries(count: int)
    | WaitingOnRetry(count: int)
    | InFlightRows(count: int)
    | OrphanedClaims(count: int)
    | DuplicateSideEffects(count: int)

  datatype Verdict = Converged | Degraded | Recovering

  /** What Redis was asked, in this order; a query that fails leaves its count and the later ones at 0. */
  datatype Queues = Queues(retryDepth: nat, incomingDepth: nat, retryStreamDepth: nat, pending: nat)

  /** What the event and attempt tables are asked. */
  datatype Tallies = Tallies(
    received: int,
    queued: int,
    processing: int,
    retrying: int,
    deadLettered: int,
    processed: int,
    duplicateDeliveries: int,
    duplicateSideEffects: int)

  datatype Report = Report(
    total: int,
    tallies: Tallies,
    acknowledged: int,
    queues: Queues,
    streamBacklog: int,
    orphaned: int,
    issues: seq<Issue>,
    verdict: Verdict,
    converged: bool)

  function HasStatus(status: Status): (weight: Row -> nat) {
    (row: Row) => if row.status == status then 1 else 0
  }

  function IsPendingOne(): (weight: Entry -> nat) {
    (entry: Entry) => if entry.place.Pending? then 1 else 0
  }

  function IsIn(stream: Stream): (weight: Entry -> nat) {
    (entry: Entry) => if entry.stream == stream then 1 else 0
  }

  function HasAttempts(): (weight: Row -> nat) {
    (row: Row) => if row.attempts != [] then 1 else 0
  }

  function Repetitions(): (weight: Row -> nat) {
    (row: Row) => if row.attemptCount > 1 then row.attemptCount - 1 else 0
  }

  /** More than one success row. */
  predicate IsWonTwice(row: Row) {
    |Numbers(row.attempts, Won)| > 1
  }

  function WonTwice(): (weight: Row -> nat) {
    (row: Row) => if IsWonTwice(row) then 1 else 0
  }

  /** The workers whose current event does not exist. */
  function Orphans(s: State): (workers: set<nat>)
    ensures forall w :: w in workers <==> w in s.workers && s.workers[w].Some? && s.workers[w].value >= |s.rows|
  {
    set w <- s.workers.Keys | s.workers[w].Some? && s.workers[w].value >= |s.rows|
  }

  function CountStatus(s: State, status: Status): (count: nat) {
    Sum(s.rows, HasStatus(status))
  }

  /** The pending entries of both streams; 0 when Redis cannot be asked. */
  function CountPending(s: State, redisUp: bool): (count: nat) {
    if redisUp then Sum(s.entries, IsPendingOne()) else 0
  }

  function CountWonTwice(s: State): (count: nat) {
    Sum(s.rows, WonTwice())
  }

  function InFlight(s: State): (count: nat) {
    CountStatus(s, Received) + CountStatus(s, Queued) + CountStatus(s, Processing)
  }

  /** Every entry is in one of the two streams. */
  lemma {:induction false} StreamsPartition(entries: seq<Entry>)
    ensures |entries| == Sum(entries, IsIn(Incoming)) + Sum(entries, IsIn(Retry))
    decreases |entries|
  {
    if entries != [] {
      StreamsPartition(entries[..|entries| - 1]);
    }
  }

  /** What the queue counts mean; a count is 0 if its query or an earlier one failed. */
  ghost function QueuesOf(s: State, answered: nat): (queues: Queues) {
    Queues(
      if answered >= 1 then |s.retry| else 0,
      if answered >= 2 then |set i: nat | i < |s.entries| && s.entries[i].stream == Incoming| else 0,
      if answered >= 3 then |set i: nat | i < |s.entries| && s.entries[i].stream == Retry| else 0,
      if answered >= 4 then |set i: nat | i < |s.entries| && s.entries[i].place.Pending?| else 0)
  }

  /** The Redis queries, of which the first `answered` succeed. */
  method AskRedis(s: State, answered: nat) returns (queues: Queues)
    ensures queues == QueuesOf(s, answered) && queues.pending == CountPending(s, answered >= 4)
    ensures queues.retryDepth == if answered >= 1 then |s.retry| else 0
    ensures answered >= 3 ==> queues.incomingDepth + queues.retryStreamDepth == |s.entries|
  {
    queues := Queues(0, 0, 0, 0);
    StreamsPartition(s.entries);
    PendingCounted(s);
    SumCounts(s.entries, IsIn(Incoming), set i: nat | i < |s.entries| && s.entries[i].stream == Incoming);
    SumCounts(s.entries, IsIn(Retry), set i: nat | i < |s.entries| && s.entries[i].stream == Retry);
    if answered == 0 {
      return;
    }
    queues := queues.(retryDepth := |s.retry|);
    if answered == 1 {
      return;
    }
    queues := queues.(incomingDepth := Sum(s.entries, IsIn(Incoming)));
    if answered == 2 {
      return;
    }
    queues := queues.(retryStreamDepth := Sum(s.entries, IsIn(Retry)));
    if answered == 3 {
      return;
    }
    queues := queues.(pending := CountPending(s, true));
  }

  /** What the tallies mean: the number of rows each one stands for; the repeated deliveries are all failures
      but the first one of each event. */
  ghost function TalliesOf(s: State): (t: Tallies) {
    Tallies(
      |set e: nat | e < |s.rows| && s.rows[e].status == Received|,
      |set e: nat | e < |s.rows| && s.rows[e].status == Queued|,
      |set e: nat | e < |s.rows| && s.rows[e].status == Processing|,
      |set e: nat | e < |s.rows| && s.rows[e].status == Retrying|,
      |set e: nat | e < |s.rows| && s.rows[e].status == DeadLettered|,
      |set e: nat | e < |s.rows| && s.rows[e].attempts != []|,
      Sum(s.rows, Failures()) - |set e: nat | e < |s.rows| && s.rows[e].attemptCount > 0|,
      |set e: nat | e < |s.rows| && IsWonTwice(s.rows[e])|)
  }

  method AskTables(s: State) returns (t: Tallies)
    ensures t == TalliesOf(s)
    ensures t.received + t.queued + t.processing == InFlight(s) && t.retrying == CountStatus(s, Retrying)
    ensures t.received >= 0 && t.queued >= 0 && t.processing >= 0
    ensures t.duplicateSideEffects == CountWonTwice(s)
  {
    StatusesCounted(s);
    AttemptsCounted(s);
    FailuresCounted(s);
    SuccessesCounted(s);
    t := Tallies(CountStatus(s, Received), CountStatus(s, Queued), CountStatus(s, Processing), CountStatus(s, Retrying),
                 CountStatus(s, DeadLettered), Sum(s.rows, HasAttempts()), Sum(s.rows, Repetitions()), CountWonTwice(s));
  }

  /** Builds the report in the order of the source: counts, clamp, Redis, issues, verdict. */
  method BuildReport(s: State, answered: nat) returns (report: Report)
    ensures report.converged <==> IsConverged(s, answered >= 4)
    ensures report.converged == (report.verdict == Converged) == (report.issues == [])
    ensures report.verdict == Degraded <==> Orphans(s) != {} || CountWonTwice(s) > 0
    ensures report.total == |s.rows| && report.tallies == TalliesOf(s) && report.queues == QueuesOf(s, answered)
    ensures report.acknowledged + report.tallies.received + report.tallies.queued + report.tallies.processing == report.total
    ensures report.acknowledged >= 0 && report.orphaned == |Orphans(s)|
    ensures report.streamBacklog == report.queues.incomingDepth + report.queues.retryStreamDepth
                                    + report.queues.retryDepth + report.queues.pending
    ensures answered >= 4 ==> report.streamBacklog == |s.entries| + |s.retry| + report.queues.pending
    ensures report.issues == Listed(report.queues.pending, report.tallies.retrying, InFlight(s), report.orphaned,
                                    report.tallies.duplicateSideEffects)
  {
    var total := |s.rows|;
    var t := AskTables(s);
    StatusesPartition(s);
    var acknowledged := total - (t.received + t.queued + t.processing);
    if acknowledged < 0 {
      acknowledged := 0;
    }
    var queues := AskRedis(s, answered);
    var backlog := queues.incomingDepth + queues.retryStreamDepth + queues.retryDepth + queues.pending;
    var orphaned := |Orphans(s)|;

    var issues := CollectIssues(queues.pending, t.retrying, t.received + t.queued + t.processing, orphaned,
                                t.duplicateSideEffects);
    var converged := issues == [];
    var verdict := if converged then Converged
                   else if orphaned > 0 || t.duplicateSideEffects > 0 then Degraded else Recovering;
    NoIssuesMeansConverged(s, answered >= 4);
    report := Report(total, t, acknowledged, queues, backlog, orphaned, issues, verdict, converged);
  }

  lemma StatusCounted(s: State, status: Status)
    ensures CountStatus(s, status) == |set e: nat | e < |s.rows| && s.rows[e].status == status|
  {
    SumCounts(s.rows, HasStatus(status), set e: nat | e < |s.rows| && s.rows[e].status == status);
  }

  lemma StatusesCounted(s: State)
    ensures CountStatus(s, Received) == |set e: nat | e < |s.rows| && s.rows[e].status == Received|
    ensures CountStatus(s, Queued) == |set e: nat | e < |s.rows| && s.rows[e].status == Queued|
    ensures CountStatus(s, Processing) == |set e: nat | e < |s.rows| && s.rows[e].status == Processing|
    ensures CountStatus(s, Retrying) == |set e: nat | e < |s.rows| && s.rows[e].status == Retrying|
    ensures CountStatus(s, DeadLettered) == |set e: nat | e < |s.rows| && s.rows[e].status == DeadLettered|
  {
    StatusCounted(s, Received);
    StatusCounted(s, Queued);
    StatusCounted(s, Processing);
    StatusCounted(s, Retrying);
    StatusCounted(s, DeadLettered);
  }

  lemma AttemptsCounted(s: State)
    ensures Sum(s.rows, HasAttempts()) == |set e: nat | e < |s.rows| && s.rows[e].attempts != []|
  {
    SumCounts(s.rows, HasAttempts(), set e: nat | e < |s.rows| && s.rows[e].attempts != []);
  }

  lemma FailuresCounted(s: State)
    ensures Sum(s.rows, Repetitions()) + |set e: nat | e < |s.rows| && s.rows[e].attemptCount > 0| ==
            Sum(s.rows, Failures())
  {
    SumCounts(s.rows, HasFailed(), set e: nat | e < |s.rows| && s.rows[e].attemptCount > 0);
    RepetitionsAccount(s.rows);
  }

  lemma SuccessesCounted(s: State)
    ensures CountWonTwice(s) == |set e: nat | e < |s.rows| && IsWonTwice(s.rows[e])|
  {
    var members := set e: nat | e < |s.rows| && IsWonTwice(s.rows[e]);
    forall i | 0 <= i < |s.rows| ensures WonTwice()(s.rows[i]) == if i in members then 1 else 0 {
    }
    SumCounts(s.rows, WonTwice(), members);
  }

  lemma PendingCounted(s: State)
    ensures CountPending(s, true) == |set i: nat | i < |s.entries| && s.entries[i].place.Pending?|
  {
    SumCounts(s.entries, IsPendingOne(), set i: nat | i < |s.entries| && s.entries[i].place.Pending?);
  }

  function HasFailed(): (weight: Row -> nat) {
    (row: Row) => if row.attemptCount > 0 then 1 else 0
  }

  function Failures(): (weight: Row -> nat) {
    (row: Row) => if row.attemptCount > 0 then row.attemptCount else 0
  }

  /** The repeated deliveries are all failures but the first one of each event. */
  lemma {:induction false} RepetitionsAccount(rows: seq<Row>)
    ensures Sum(rows, Repetitions()) + Sum(rows, HasFailed()) == Sum(rows, Failures())
    decreases |rows|
  {
    if rows != [] {
      RepetitionsAccount(rows[..|rows| - 1]);
    }
  }

  lemma NoIssuesMeansConverged(s: State, redisUp: bool)
    ensures IsConverged(s, redisUp) <==>
            && CountPending(s, redisUp) == 0 && CountStatus(s, Retrying) == 0 && InFlight(s) == 0
            && |Orphans(s)| == 0 && CountWonTwice(s) == 0
  {
    CountsMean(s, redisUp);
  }

  function OnlyIf(holds: bool, issue: Issue): (issues: seq<Issue>) {
    if holds then [issue] else []
  }

  /** Each problem whose count is positive, in this order. */
  function Listed(pending: nat, retrying: nat, inFlight: nat, orphaned: nat, duplicates: nat): (issues: seq<Issue>)
    ensures issues == [] <==> pending == retrying == inFlight == orphaned == duplicates == 0
    ensures PendingEntries(pending) in issues <==> pending > 0
    ensures WaitingOnRetry(retrying) in issues <==> retrying > 0
    ensures InFlightRows(inFlight) in issues <==> inFlight > 0
    ensures OrphanedClaims(orphaned) in issues <==> orphaned > 0
    ensures DuplicateSideEffects(duplicates) in issues <==> duplicates > 0
    ensures |issues| == (if pending > 0 then 1 else 0) + (if retrying > 0 then 1 else 0) + (if inFlight > 0 then 1 else 0)
                        + (if orphaned > 0 then 1 else 0) + (if duplicates > 0 then 1 else 0)
  {
    OnlyIf(pending > 0, PendingEntries(pending)) + OnlyIf(retrying > 0, WaitingOnRetry(retrying))
    + OnlyIf(inFlight > 0, InFlightRows(inFlight)) + OnlyIf(orphaned > 0, OrphanedClaims(orphaned))
    + OnlyIf(duplicates > 0, DuplicateSideEffects(duplicates))
  }

  /** The issues in the order they are reported, each with its count. */
  method CollectIssues(pending: nat, retrying: nat, inFlight: nat, orphaned: nat, duplicates: nat)
    returns (issues: seq<Issue>)
    ensures issues == Listed(pending, retrying, inFlight, orphaned, duplicates)
    ensures issues == OnlyIf(pending > 0, PendingEntries(pending)) + OnlyIf(retrying > 0, WaitingOnRetry(retrying))
                      + OnlyIf(inFlight > 0, InFlightRows(inFlight)) + OnlyIf(orphaned > 0, OrphanedClaims(orphaned))
                      + OnlyIf(duplicates > 0, DuplicateSideEffects(duplicates))
  {
    issues := [];
    if pending > 0 {
      issues := issues + [PendingEntries(pending)];
    }
    assert issues == OnlyIf(pending > 0, PendingEntries(pending));
    if retrying > 0 {
      issues := issues + [WaitingOnRetry(retrying)];
    }
    assert issues == OnlyIf(pending > 0, PendingEntries(pending)) + OnlyIf(retrying > 0, WaitingOnRetry(retrying));
    if inFlight > 0 {
      issues := issues + [InFlightRows(inFlight)];
    }
    assert issues == OnlyIf(pending > 0, PendingEntries(pending)) + OnlyIf(retrying > 0, WaitingOnRetry(retrying))
                     + OnlyIf(inFlight > 0, InFlightRows(inFlight));
    if orphaned > 0 {
      issues := issues + [OrphanedClaims(orphaned)];
    }
    assert issues == OnlyIf(pending > 0, PendingEntries(pending)) + OnlyIf(retrying > 0, WaitingOnRetry(retrying))
                     + OnlyIf(inFlight > 0, InFlightRows(inFlight)) + OnlyIf(orphaned > 0, OrphanedClaims(orphaned));
    if duplicates > 0 {
      issues := issues + [DuplicateSideEffects(duplicates)];
    }
  }

  /** What the report claims about the tables and streams. */
  ghost predicate IsConverged(s: State, redisUp: bool) {
    && (forall e :: 0 <= e < |s.rows| ==> IsTerminal(s.rows[e].status) && |Numbers(s.rows[e].attempts, Won)| <= 1)
    && (forall w <- s.workers.Keys :: s.workers[w].Some? ==> s.workers[w].value < |s.rows|)
    && (redisUp ==> forall i :: 0 <= i < |s.entries| ==> !s.entries[i].place.Pending?)
  }

  lemma CountsMean(s: State, redisUp: bool)
    ensures InFlight(s) == 0 && CountStatus(s, Retrying) == 0 <==>
            forall e :: 0 <= e < |s.rows| ==> IsTerminal(s.rows[e].status)
    ensures CountWonTwice(s) == 0 <==> forall e :: 0 <= e < |s.rows| ==> |Numbers(s.rows[e].attempts, Won)| <= 1
    ensures CountPending(s, true) == 0 <==> forall i :: 0 <= i < |s.entries| ==> !s.entries[i].place.Pending?
    ensures Orphans(s) == {} <==> forall w <- s.workers.Keys :: s.workers[w].Some? ==> s.workers[w].value < |s.rows|
  {
    SumZero(s.rows, HasStatus(Received));
    SumZero(s.rows, HasStatus(Queued));
    SumZero(s.rows, HasStatus(Processing));
    SumZero(s.rows, HasStatus(Retrying));
    SumZero(s.rows, WonTwice());
    SumZero(s.entries, IsPendingOne());
    if InFlight(s) == 0 && CountStatus(s, Retrying) == 0 {
      forall e | 0 <= e < |s.rows| ensures IsTerminal(s.rows[e].status) {
        assert HasStatus(s.rows[e].status)(s.rows[e]) == 1;
      }
    }
    forall w <- s.workers.Keys ensures w in Orphans(s) <==> s.workers[w].Some? && s.workers[w].value >= |s.rows| {
    }
  }

  /** Every row has exactly one status, so the subtraction behind `acknowledged` never goes below 0. */
  lemma {:induction false} StatusesPartition(s: State)
    ensures |s.rows| == InFlight(s) + CountStatus(s, Retrying) + CountStatus(s, Succeeded)
                        + CountStatus(s, DeadLettered) + CountStatus(s, Cancelled)
    decreases |s.rows|
  {
    if s.rows != [] {
      StatusesPartition(s.(rows := s.rows[..|s.rows| - 1]));
    }
  }

  /** In every reachable state the two "degraded" conditions are absent, and a converged report means that
      every event is succeeded or dead-lettered. */
  lemma ConvergedIsSound(steps: seq<Step>, redisUp: bool)
    requires TimelyRun(INITIAL, steps)
    ensures var s := Run(INITIAL, steps);
            && CountWonTwice(s) == 0 && Orphans(s) == {}
            && (IsConverged(s, redisUp) ==>
                  forall e :: 0 <= e < |s.rows| ==> s.rows[e].status == Succeeded || s.rows[e].status == DeadLettered)
  {
    var s := Run(INITIAL, steps);
    ReachableInv(steps);
    forall e | 0 <= e < |s.rows| ensures |Numbers(s.rows[e].attempts, Won)| <= 1 && s.rows[e].status != Cancelled {
      assert RowOk(s.rows[e]);
    }
    CountsMean(s, redisUp);
  }

  /** A heartbeat records the event its worker is busy with, so a claim is orphaned only until the next one. */
  lemma HeartbeatIsRecorded(s: State, w: nat, e: nat)
    requires e < |s.rows|
    ensures Next(s, Heartbeat(w, Some(e))).workers == s.workers[w := Some(e)]
    ensures Orphans(Next(s, Heartbeat(w, Some(e)))) == Orphans(s) - {w}
  {
  }

  /** Everything but new requests: workers, janitors, schedulers, publishers, crashes and time. */
  predicate IsBackground(step: Step) {
    !step.Ingest? && !step.IngestAborted? && !step.Replay?
  }

  ghost predicate IsSettled(s: State) {
    && (forall e :: 0 <= e < |s.rows| ==> IsTerminal(s.rows[e].status))
    && (forall a :: 0 <= a < |s.agents| ==> !s.agents[a].Holding?)
  }

  lemma StepKeepsSettled(s: State, step: Step)
    requires IsSettled(s) && IsBackground(step)
    ensures IsSettled(Next(s, step)) && Next(s, step).rows == s.rows
  {
  }

  lemma {:induction false} SettledRunKeepsRows(s: State, steps: seq<Step>)
    requires IsSettled(s) && forall k :: 0 <= k < |steps| ==> IsBackground(steps[k])
    ensures Run(s, steps).rows == s.rows
    decreases |steps|
  {
    if steps != [] {
      StepKeepsSettled(s, steps[0]);
      SettledRunKeepsRows(Next(s, steps[0]), steps[1..]);
    }
  }

  /** Once converged, no background step changes any event row, however long it runs. */
  lemma ConvergedIsStable(s: State, redisUp: bool, steps: seq<Step>)
    requires Inv(s) && IsConverged(s, redisUp)
    requires forall k :: 0 <= k < |steps| ==> IsBackground(steps[k])
    ensures Run(s, steps).rows == s.rows
  {
    assert forall a :: 0 <= a < |s.agents| && s.agents[a].Holding? ==> HolderOk(s, s.agents[a]);
    SettledRunKeepsRows(s, steps);
  }
}
