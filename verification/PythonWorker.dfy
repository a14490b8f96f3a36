/** The Python worker's handling of one event, and its agreement with the Go worker when messages are
    handled one after the other. */
module PythonWorker {
  import opened Basics
  import opened Backoff
  import opened Tables
  import P = Protocol
  import W = Worker

  /** One delivered message: whether processing succeeds, when it happens, and the jitter drawn. */
  datatype Delivery = Delivery(ok: bool, now: int, jitter: real)

  /** The Go handler on one row, uninterrupted. */
  function GoDeliver(row: Row, d: Delivery): (row': Row) {
    if !IsClaimable(row, d.now) then row
    else
      var held := ClaimRow(row, d.now);
      if d.ok then SucceedRow(held, row.attemptCount + 1, d.now)
      else FailRow(held, row.attemptCount, row.maxAttempts, d.now)
  }

  predicate ShouldDeadLetter(attemptCount: int, maxAttempts: int) {
    attemptCount >= maxAttempts
  }

  /** A dead letter keeps the row's old retry time in the Python worker. */
  function PythonFail(row: Row, number: int, d: Delivery): (row': Row) {
    var count := row.attemptCount + 1;
    var logged := row.(attemptCount := count, updatedAt := d.now, attempts := row.attempts + [Attempt(number, Lost)]);
    if ShouldDeadLetter(count, row.maxAttempts) then
      logged.(deadLetters := row.deadLetters + [DeadLetter(None)], status := DeadLettered)
    else
      logged.(status := Retrying, nextRetryAt := Some(d.now + PythonDelay(count, d.jitter) * SECOND))
  }

  function PythonDeliver(row: Row, d: Delivery): (row': Row) {
    if IsTerminal(row.status) then row
    else
      var held := row.(status := Processing, updatedAt := d.now);
      if d.ok then SucceedRow(held, row.attemptCount + 1, d.now) else PythonFail(held, row.attemptCount + 1, d)
  }

  /** A message of the batch: its "event_id" field, and what happens if it is processed. */
  datatype Message = Message(payload: P.Payload, delivery: Delivery)

  /** The stores the loop works on, how many messages it acknowledged, and whether the process still runs. */
  datatype Stores = Stores(rows: seq<Row>, retry: map<nat, int>, acked: nat, alive: bool)

  predicate SchedulesRetry(row: Row, d: Delivery) {
    !IsTerminal(row.status) && !d.ok && !ShouldDeadLetter(row.attemptCount + 1, row.maxAttempts)
  }

  /** One message. An id that is no UUID makes the query raise outside the handler, which ends the process. */
  function PythonHandle(st: Stores, m: Message): (st': Stores) {
    match m.payload
    case Blank => st.(acked := st.acked + 1)
    case NotUuid => st.(alive := false)
    case Id(e) =>
      if e >= |st.rows| then st.(acked := st.acked + 1)
      else
        var row, d := st.rows[e], m.delivery;
        st.(rows := st.rows[e := PythonDeliver(row, d)],
            retry := if SchedulesRetry(row, d)
                     then st.retry[e := d.now + PythonDelay(row.attemptCount + 1, d.jitter) * SECOND] else st.retry,
            acked := st.acked + 1)
  }

  function PythonBatch(st: Stores, ms: seq<Message>): (st': Stores) {
    if ms == [] then st
    else
      var before := PythonBatch(st, ms[..|ms| - 1]);
      if before.alive then PythonHandle(before, ms[|ms| - 1]) else before
  }

  /** The message loop: blank ids, unknown and finished events are acknowledged, the others processed. */
  class Session {
    var rows: seq<Row>
    var retry: map<nat, int>
    var acked: nat

    ghost function View(alive: bool): (st: Stores)
      reads this
    {
      Stores(rows, retry, acked, alive)
    }

    method HandleSuccess(e: nat, attemptNumber: int, now: int)
      requires e < |rows|
      modifies this`rows
      ensures var row := old(rows)[e];
              rows == old(rows)[e := row.(attempts := row.attempts + [Attempt(attemptNumber, Won)],
                                          status := Succeeded, updatedAt := now)]
    {
      rows := rows[e := rows[e].(attempts := rows[e].attempts + [Attempt(attemptNumber, Won)])];
      rows := rows[e := rows[e].(status := Succeeded, updatedAt := now)];
    }

    method HandleFailure(e: nat, attemptNumber: int, d: Delivery)
      requires e < |rows|
      modifies this`rows, this`retry
      ensures var row, count := old(rows)[e], old(rows)[e].attemptCount + 1;
              var retryAt := d.now + PythonDelay(count, d.jitter) * SECOND;
              var failed := row.(attempts := row.attempts + [Attempt(attemptNumber, Lost)], attemptCount := count,
                                 updatedAt := d.now);
              if count >= row.maxAttempts then
                && retry == old(retry)
                && rows == old(rows)[e := failed.(deadLetters := row.deadLetters + [DeadLetter(None)], status := DeadLettered)]
              else
                && retry == old(retry)[e := retryAt]
                && rows == old(rows)[e := failed.(status := Retrying, nextRetryAt := Some(retryAt))]
    {
      rows := rows[e := rows[e].(attemptCount := rows[e].attemptCount + 1, updatedAt := d.now)];
      rows := rows[e := rows[e].(attempts := rows[e].attempts + [Attempt(attemptNumber, Lost)])];
      if ShouldDeadLetter(rows[e].attemptCount, rows[e].maxAttempts) {
        rows := rows[e := rows[e].(deadLetters := rows[e].deadLetters + [DeadLetter(None)])];
        rows := rows[e := rows[e].(status := DeadLettered)];
      } else {
        var retryAt := d.now + PythonDelay(rows[e].attemptCount, d.jitter) * SECOND;
        rows := rows[e := rows[e].(status := Retrying, nextRetryAt := Some(retryAt))];
        retry := retry[e := retryAt];
      }
    }

    /** A message for a known event that is not finished. */
    method Process(e: nat, d: Delivery)
      requires e < |rows| && !IsTerminal(rows[e].status)
      modifies this`rows, this`retry
      ensures rows == old(rows)[e := PythonDeliver(old(rows)[e], d)]
      ensures retry == if SchedulesRetry(old(rows)[e], d)
                       then old(retry)[e := d.now + PythonDelay(old(rows)[e].attemptCount + 1, d.jitter) * SECOND]
                       else old(retry)
    {
      var attemptNumber := rows[e].attemptCount + 1;
      rows := rows[e := rows[e].(status := Processing, updatedAt := d.now)];
      if d.ok {
        HandleSuccess(e, attemptNumber, d.now);
      } else {
        HandleFailure(e, attemptNumber, d);
      }
    }

    /** Handles one batch of messages, in order. */
    method HandleMessages(ms: seq<Message>) returns (alive: bool)
      modifies this
      ensures View(alive) == PythonBatch(old(View(true)), ms)
    {
      alive := true;
      for k := 0 to |ms|
        invariant View(alive) == PythonBatch(old(View(true)), ms[..k])
      {
        assert ms[..k + 1][..k] == ms[..k];
        if !alive {
          continue;  // the process has ended; nothing more is read
        }
        match ms[k].payload {
          case Blank =>
          case NotUuid =>
            alive := false;
            continue;
          case Id(e) =>
            if e < |rows| && !IsTerminal(rows[e].status) {
              Process(e, ms[k].delivery);
            }
        }
        acked := acked + 1;
      }
      assert ms[..|ms|] == ms;
    }
  }

  /** The messages before the first one whose id is no UUID. */
  function Handled(ms: seq<Message>): (handled: seq<Message>)
    ensures handled <= ms
  {
    if ms == [] then []
    else
      var front := ms[..|ms| - 1];
      var before := Handled(front);
      if before == front && ms[|ms| - 1].payload != P.NotUuid then ms else before
  }

  /** The deliveries among the messages that are for event e. */
  function DeliveriesFor(ms: seq<Message>, e: nat): (ds: seq<Delivery>) {
    if ms == [] then []
    else
      var front, last := DeliveriesFor(ms[..|ms| - 1], e), ms[|ms| - 1];
      if last.payload == P.Id(e) then front + [last.delivery] else front
  }

  lemma PythonRunAppend(row: Row, ds: seq<Delivery>, d: Delivery)
    ensures PythonRun(row, ds + [d]) == PythonDeliver(PythonRun(row, ds), d)
  {
    assert (ds + [d])[..|ds|] == ds;
  }

  lemma HandleOne(st: Stores, m: Message, e: nat)
    requires e < |st.rows|
    ensures var end := PythonHandle(st, m);
            && |end.rows| == |st.rows|
            && end.rows[e] == (if m.payload == P.Id(e) then PythonDeliver(st.rows[e], m.delivery) else st.rows[e])
            && end.acked == st.acked + (if m.payload == P.NotUuid then 0 else 1)
            && end.alive == (st.alive && m.payload != P.NotUuid)
  {
  }

  /** A batch treats each event as if its messages came alone, acknowledges exactly what it handles, and ends
      the process at the first id that is no UUID, leaving the rest unacknowledged. */
  lemma {:induction false} BatchPerEvent(st: Stores, ms: seq<Message>, e: nat)
    requires st.alive && e < |st.rows|
    ensures var end := PythonBatch(st, ms);
            && |end.rows| == |st.rows| && end.rows[e] == PythonRun(st.rows[e], DeliveriesFor(Handled(ms), e))
            && end.acked == st.acked + |Handled(ms)|
            && (end.alive <==> Handled(ms) == ms)
    decreases |ms|
  {
    if ms != [] {
      var front, last := ms[..|ms| - 1], ms[|ms| - 1];
      BatchPerEvent(st, front, e);
      if Handled(front) == front {
        HandleOne(PythonBatch(st, front), last, e);
        PythonRunAppend(st.rows[e], DeliveriesFor(front, e), last.delivery);
      }
    }
  }

  /** Both workers leave the same history of every event after any batch of messages for any events. */
  lemma BatchAgreesWithGo(st: Stores, ms: seq<Message>, e: nat)
    requires st.alive && e < |st.rows|
    requires var ds := DeliveriesFor(Handled(ms), e);
             ds != [] ==> !IsFresh(st.rows[e], ds[0].now)
    ensures e < |PythonBatch(st, ms).rows|
    ensures SameHistory(GoRun(st.rows[e], DeliveriesFor(Handled(ms), e)), PythonBatch(st, ms).rows[e])
  {
    BatchPerEvent(st, ms, e);
    WorkersAgree(st.rows[e], DeliveriesFor(Handled(ms), e));
  }

  function GoRun(row: Row, ds: seq<Delivery>): (row': Row) {
    if ds == [] then row else GoDeliver(GoRun(row, ds[..|ds| - 1]), ds[|ds| - 1])
  }

  function PythonRun(row: Row, ds: seq<Delivery>): (row': Row) {
    if ds == [] then row else PythonDeliver(PythonRun(row, ds[..|ds| - 1]), ds[|ds| - 1])
  }

  /** Equal but for the two timestamps, which depend on the clock and the jitter. */
  predicate SameHistory(left: Row, right: Row) {
    left.(updatedAt := 0, nextRetryAt := None) == right.(updatedAt := 0, nextRetryAt := None)
  }

  /** Agreement: for every sequence of outcomes, times and jitters, both workers leave the same status,
      attempt count, attempt rows and dead letters. */
  lemma {:induction false} WorkersAgree(row: Row, ds: seq<Delivery>)
    requires ds != [] ==> !IsFresh(row, ds[0].now)
    ensures SameHistory(GoRun(row, ds), PythonRun(row, ds))
    ensures ds != [] ==> GoRun(row, ds).status != Processing
    decreases |ds|
  {
    if ds != [] {
      WorkersAgree(row, ds[..|ds| - 1]);
    }
  }

  /** On one delivery the workers disagree exactly when the row is freshly claimed: the Python worker does not
      look at the age of a claim and processes the event a second time. */
  lemma DisagreeIffFresh(row: Row, d: Delivery)
    ensures SameHistory(GoDeliver(row, d), PythonDeliver(row, d)) <==> !IsFresh(row, d.now)
    ensures IsFresh(row, d.now) ==>
              GoDeliver(row, d) == row && PythonDeliver(row, d).attempts ==
              row.attempts + [Attempt(row.attemptCount + 1, if d.ok then Won else Lost)]
  {
  }

  /** The Go side is the worker's handler: what an uninterrupted run of the protocol does to the row. */
  lemma HandlerDelivers(s: P.State, i: nat, e: nat, d: Delivery)
    requires P.IsEntry(s, i) && s.agents == [P.Claiming(i)] && s.entries[i].payload == P.Id(e) && e < |s.rows|
    requires d.now == s.now
    ensures P.Run(s, W.HandlerSteps(d.ok)).rows == s.rows[e := GoDeliver(s.rows[e], d)]
  {
    W.HandlerRun(s, i, d.ok);
    HandledDelivers(s, i, e, d);
  }

  lemma HandledDelivers(s: P.State, i: nat, e: nat, d: Delivery)
    requires P.IsEntry(s, i) && s.entries[i].payload == P.Id(e) && e < |s.rows| && d.now == s.now
    ensures W.Handled(s, i, d.ok).rows == s.rows[e := GoDeliver(s.rows[e], d)]
  {
  }

  /** An event that was requested with m attempts and keeps failing is dead-lettered exactly with failure
      max(1, m), by both workers. */
  lemma DeadLetteredAtBudget(m: int, at: int, ds: seq<Delivery>)
    requires AllFail(ds)
    ensures var budget := if m < 1 then 1 else m;
            var row := NewRow(Queued, m, at);
            && (GoRun(row, ds).status == DeadLettered <==> |ds| >= budget)
            && (PythonRun(row, ds).status == DeadLettered <==> |ds| >= budget)
            && GoRun(row, ds).attemptCount == (if |ds| < budget then |ds| else budget)
  {
    FailingRun(NewRow(Queued, m, at), ds);
    WorkersAgree(NewRow(Queued, m, at), ds);
  }

  /** The wait a delivery leaves behind. */
  function Wait(before: Row, after: Row, now: int): (wait: int) {
    if before != after && after.status == Retrying && after.nextRetryAt.Some? then after.nextRetryAt.value - now else 0
  }

  function GoWaits(row: Row, ds: seq<Delivery>): (total: int) {
    if ds == [] then 0
    else
      var front, last := ds[..|ds| - 1], ds[|ds| - 1];
      GoWaits(row, front) + Wait(GoRun(row, front), GoRun(row, ds), last.now)
  }

  function PythonWaits(row: Row, ds: seq<Delivery>): (total: int) {
    if ds == [] then 0
    else
      var front, last := ds[..|ds| - 1], ds[|ds| - 1];
      PythonWaits(row, front) + Wait(PythonRun(row, front), PythonRun(row, ds), last.now)
  }

  /** The number of failures that lead to a retry rather than to a dead letter. */
  function Retries(maxAttempts: int, failures: nat): (count: nat) {
    if maxAttempts < 1 then 0 else if failures < maxAttempts then failures else maxAttempts - 1
  }

  function Jitters(ds: seq<Delivery>): (jitters: seq<real>) {
    seq(|ds|, i requires 0 <= i < |ds| => ds[i].jitter)
  }

  predicate IsFreshEvent(row: Row) {
    row.status == Queued && row.attemptCount == 0 && row.deadLetters == []
  }

  predicate AllFail(ds: seq<Delivery>) {
    forall i :: 0 <= i < |ds| ==> !ds[i].ok
  }

  /** A fresh event that keeps failing: retries until the budget is spent, then one dead letter for good. */
  lemma {:induction false} FailingRun(row: Row, ds: seq<Delivery>)
    requires IsFreshEvent(row) && AllFail(ds)
    ensures var count, end := Retries(row.maxAttempts, |ds|), GoRun(row, ds);
            && end.maxAttempts == row.maxAttempts
            && (count == |ds| ==>
                  && end.attemptCount == count && end.deadLetters == []
                  && end.status == if ds == [] then Queued else Retrying)
            && (count < |ds| ==> end.status == DeadLettered && end.attemptCount == count + 1 && |end.deadLetters| == 1)
    decreases |ds|
  {
    if ds != [] {
      FailingRun(row, ds[..|ds| - 1]);
    }
  }

  lemma {:induction false} GoWaitsTotal(row: Row, ds: seq<Delivery>)
    requires IsFreshEvent(row) && AllFail(ds)
    ensures GoWaits(row, ds) == GoTotal(Retries(row.maxAttempts, |ds|)) * SECOND
    decreases |ds|
  {
    if ds != [] {
      FailingRun(row, ds[..|ds| - 1]);
      GoWaitsTotal(row, ds[..|ds| - 1]);
    }
  }

  lemma PythonLastWait(row: Row, ds: seq<Delivery>)
    requires IsFreshEvent(row) && AllFail(ds) && ds != []
    ensures var front, last := ds[..|ds| - 1], ds[|ds| - 1];
            Wait(PythonRun(row, front), PythonRun(row, ds), last.now) ==
            if Retries(row.maxAttempts, |ds|) == |ds| then PythonDelay(|ds|, last.jitter) * SECOND else 0
  {
    FailingRun(row, ds[..|ds| - 1]);
    WorkersAgree(row, ds[..|ds| - 1]);
  }

  lemma PythonTotalLast(ds: seq<Delivery>)
    requires ds != []
    ensures var front, last := ds[..|ds| - 1], ds[|ds| - 1];
            PythonTotal(Jitters(ds)) == PythonTotal(Jitters(front)) + PythonDelay(|ds|, last.jitter)
  {
    assert Jitters(ds)[..|ds| - 1] == Jitters(ds[..|ds| - 1]);
  }

  lemma {:induction false} PythonWaitsTotal(row: Row, ds: seq<Delivery>)
    requires IsFreshEvent(row) && AllFail(ds)
    ensures PythonWaits(row, ds) == PythonTotal(Jitters(ds[..Retries(row.maxAttempts, |ds|)])) * SECOND
    decreases |ds|
  {
    if ds != [] {
      var front, count := ds[..|ds| - 1], Retries(row.maxAttempts, |ds|);
      PythonLastWait(row, ds);
      PythonWaitsTotal(row, front);
      if count == |ds| {
        assert ds[..count] == ds && front[..count - 1] == front;
        PythonTotalLast(ds);
      } else {
        assert ds[..count] == front[..count];
      }
    }
  }

  /** From fresh to dead letter the Go worker waits a prefix sum of the table, never more than 100 s for any
      max_attempts, and the Python worker stays within 0.8 and 1.2 of it. */
  lemma {:induction false} BackoffIsBounded(row: Row, ds: seq<Delivery>)
    requires IsFreshEvent(row) && AllFail(ds)
    requires forall i :: 0 <= i < |ds| ==> 0.8 <= ds[i].jitter <= 1.2
    ensures 0 <= GoWaits(row, ds) <= 100 * SECOND
    ensures 0.8 * GoWaits(row, ds) as real <= PythonWaits(row, ds) as real <= 1.2 * GoWaits(row, ds) as real
  {
    var count := Retries(row.maxAttempts, |ds|);
    GoWaitsTotal(row, ds);
    PythonWaitsTotal(row, ds);
    GoTotalIsPrefixSum(count);
    PythonTotalWithinJitter(Jitters(ds[..count]));
    var go, python := GoTotal(count), PythonTotal(Jitters(ds[..count]));
    assert (go * SECOND) as real == go as real * SECOND as real;
    assert (python * SECOND) as real == python as real * SECOND as real;
  }
}
