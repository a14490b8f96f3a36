/** The code that runs between two interruptions: the worker's handler and scheduler, and the API's ingest
    and replay, statement by statement on the shared stores, proved to be runs of the protocol's steps. */
module Worker {
  import opened Basics
  import opened Tables
  import opened Backoff
  import opened Protocol

  datatype ReplayResult = NotFound | AlreadyReplayed | Requeued | PublishFailed

  function HandlerSteps(ok: bool): (steps: seq<Step>) {
    [Claim(0)] + [if ok then Succeed(0) else Fail(0)] + [Schedule(0)] + [Ack(0)]
  }

  function RetryEntry(e: nat): (entry: Entry) {
    Entry(Retry, Id(e), Undelivered)
  }

  function RetryEntriesFor(ids: seq<nat>): (entries: seq<Entry>) {
    seq(|ids|, k requires 0 <= k < |ids| => RetryEntry(ids[k]))
  }

  function Elements(ids: seq<nat>): (elements: set<nat>) {
    set e | e in ids
  }

  /** One loop over a listing of length n. */
  function FlushSteps(n: nat): (steps: seq<Step>) {
    if n == 0 then [] else FlushSteps(n - 1) + [Remove(0)] + [Republish(0)]
  }

  /** Event e was processed with the given outcome, and no other row was touched. */
  predicate IsWorkedOff(before: seq<Row>, after: seq<Row>, e: nat, ok: bool) {
    && e < |before| && |after| == |before| && after == before[e := after[e]]
    && var row, number := before[e], before[e].attemptCount + 1;
       if ok then
         && after[e].status == Succeeded && after[e].attemptCount == row.attemptCount
         && after[e].attempts == row.attempts + [Attempt(number, Won)] && after[e].deadLetters == row.deadLetters
       else
         && after[e].attemptCount == number && after[e].attempts == row.attempts + [Attempt(number, Lost)]
         && (number >= row.maxAttempts ==>
               after[e].status == DeadLettered && after[e].deadLetters == row.deadLetters + [DeadLetter(None)])
         && (number < row.maxAttempts ==> after[e].status == Retrying && after[e].deadLetters == row.deadLetters)
  }

  class Stores {
    var now: int
    var rows: seq<Row>
    var entries: seq<Entry>
    var retry: map<nat, int>

    /** The protocol state of these stores together with the agents that use them. */
    ghost function View(agents: seq<Agent>): (s: State)
      reads this
    {
      State(now, rows, entries, retry, agents, map[])
    }

    /** The stores are those of protocol state s. */
    ghost predicate Shows(s: State)
      reads this
    {
      now == s.now && rows == s.rows && entries == s.entries && retry == s.retry
    }

    method ClaimEvent(e: nat) returns (record: Option<Row>, claimed: bool)
      modifies this`rows
      ensures claimed <==>
                && e < |old(rows)| && old(rows)[e].status !in {Succeeded, DeadLettered, Cancelled}
                && (old(rows)[e].status == Processing ==> now - old(rows)[e].updatedAt >= 60 * SECOND)
      ensures rows == if claimed then old(rows)[e := old(rows)[e].(status := Processing, updatedAt := now)] else old(rows)
      ensures record.Some? <==> e < |old(rows)|
      ensures claimed ==> record.value == old(rows)[e].(status := Processing)
    {
      if e >= |rows| {
        return None, false;
      }
      var row := rows[e];
      match row.status {
        case Succeeded | DeadLettered | Cancelled =>
          return Some(row), false;
        case Processing =>
          if now - row.updatedAt < STALE {
            return Some(row), false;
          }
        case _ =>
      }
      rows := rows[e := row.(status := Processing, updatedAt := now)];
      return Some(row.(status := Processing)), true;
    }

    method FinalizeSuccess(e: nat, attemptNumber: int)
      requires e < |rows|
      modifies this`rows
      ensures var row := old(rows)[e];
              rows == old(rows)[e := row.(attempts := row.attempts + [Attempt(attemptNumber, Won)],
                                          status := Succeeded, updatedAt := now)]
    {
      rows := rows[e := rows[e].(attempts := rows[e].attempts + [Attempt(attemptNumber, Won)])];
      rows := rows[e := rows[e].(status := Succeeded, updatedAt := now)];
    }

    method FinalizeFailure(e: nat, record: Row)
      requires e < |rows|
      modifies this`rows, this`retry
      ensures var row, next := old(rows)[e], record.attemptCount + 1;
              var wait := if next == 2 then 10 else if next == 3 then 30 else if next == 4 then 60 else 0;
              var failed := row.(attempts := row.attempts + [Attempt(next, Lost)], attemptCount := next, updatedAt := now);
              if next >= record.maxAttempts then
                && retry == old(retry)
                && rows == old(rows)[e := failed.(deadLetters := row.deadLetters + [DeadLetter(None)],
                                                  status := DeadLettered, nextRetryAt := None)]
              else
                && retry == old(retry)[e := now + wait * SECOND]
                && rows == old(rows)[e := failed.(status := Retrying, nextRetryAt := Some(now + wait * SECOND))]
    {
      var next := record.attemptCount + 1;
      rows := rows[e := rows[e].(attempts := rows[e].attempts + [Attempt(next, Lost)])];
      if next >= record.maxAttempts {
        rows := rows[e := rows[e].(deadLetters := rows[e].deadLetters + [DeadLetter(None)])];
        rows := rows[e := rows[e].(status := DeadLettered, attemptCount := next, nextRetryAt := None, updatedAt := now)];
        return;
      }
      var delay := NextRetryDelay(next);
      if delay < 0 {
        delay := 0;
      }
      var retryAt := now + delay * SECOND;
      rows := rows[e := rows[e].(status := Retrying, attemptCount := next, nextRetryAt := Some(retryAt), updatedAt := now)];
      ScheduleRetry(e, retryAt);
    }

    method ScheduleRetry(e: nat, runAt: int)
      modifies this`retry
      ensures retry == old(retry)[e := runAt]
    {
      retry := retry[e := runAt];
    }

    method Acknowledge(i: nat)
      requires i < |entries|
      modifies this`entries
      ensures entries == if old(entries)[i].place.Pending? then old(entries)[i := old(entries)[i].(place := Acked)]
                         else old(entries)
    {
      if entries[i].place.Pending? {
        entries := entries[i := entries[i].(place := Acked)];
      }
    }

    /** The handler of one message, with the outcome of the processing as an input. Run without
        interruption it is exactly the protocol's claim, finalise, schedule and acknowledge steps. */
    method HandleWorkItem(i: nat, ok: bool)
      requires i < |entries|
      modifies this`rows, this`entries, this`retry
      ensures Shows(Run(old(View([Claiming(i)])), HandlerSteps(ok)))
    {
      HandlerRun(View([Claiming(i)]), i, ok);
      match entries[i].payload {
        case Blank =>
          Acknowledge(i);
        case NotUuid =>
        case Id(e) =>
          var record, claimed := ClaimEvent(e);
          if !claimed {
            Acknowledge(i);
            return;
          }
          Finalize(e, record.value, ok);
          Acknowledge(i);
      }
    }

    /** Both outcomes, as the transactions of the protocol. */
    method Finalize(e: nat, record: Row, ok: bool)
      requires e < |rows|
      modifies this`rows, this`retry
      ensures rows == old(rows)[e := if ok then SucceedRow(old(rows)[e], record.attemptCount + 1, now)
                                     else FailRow(old(rows)[e], record.attemptCount, record.maxAttempts, now)]
      ensures retry == if ok || record.attemptCount + 1 >= record.maxAttempts then old(retry)
                       else old(retry)[e := RetryAt(record.attemptCount + 1, now)]
    {
      if ok {
        FinalizeSuccess(e, record.attemptCount + 1);
      } else {
        FinalizeFailure(e, record);
      }
    }

    /** A ZRANGEBYSCORE query. */
    method DueRetries(bound: int) returns (ids: seq<nat>)
      ensures IsDueListing(retry, bound, ids)
    {
      ids := [];
      var left := retry.Keys;
      while left != {}
        invariant left <= retry.Keys
        invariant NoDuplicates(ids)
        invariant forall k :: 0 <= k < |ids| ==> IsDue(retry, bound, ids[k]) && ids[k] !in left
        invariant forall e <- retry.Keys :: IsDue(retry, bound, e) ==> e in ids || e in left
        decreases |left|
      {
        var e :| e in left;
        left := left - {e};
        if Score(retry[e]) <= bound {
          ids := ids + [e];
        }
      }
    }

    /** Moves every due member to the retry stream, each once and nothing else. */
    method FlushDueRetries() returns (flushed: seq<nat>)
      modifies this`entries, this`retry
      ensures IsDueListing(old(retry), Score(now), flushed)
      ensures forall e :: e in flushed <==> e in old(retry) && old(retry)[e] / SECOND <= now / SECOND
      ensures |entries| == |old(entries)| + |flushed| && old(entries) <= entries
      ensures forall k :: 0 <= k < |flushed| ==> entries[|old(entries)| + k] == Entry(Retry, Id(flushed[k]), Undelivered)
      ensures forall e :: e in retry <==> e in old(retry) && old(retry)[e] / SECOND > now / SECOND
      ensures forall e <- retry.Keys :: retry[e] == old(retry)[e]
      ensures Shows(Run(old(View([])), [ListDue(flushed)] + FlushSteps(|flushed|)))
    {
      flushed := DueRetries(Score(now));
      FlushRun(View([]), flushed, |flushed|);
      assert flushed[..|flushed|] == flushed;
      MoveToStream(flushed);
      ListingMeans(old(retry), now, flushed);
    }

    /** The loop over a listing of members that are all still there. */
    method MoveToStream(ids: seq<nat>)
      requires NoDuplicates(ids) && forall k :: 0 <= k < |ids| ==> ids[k] in retry
      modifies this`entries, this`retry
      ensures retry == old(retry) - Elements(ids) && entries == old(entries) + RetryEntriesFor(ids)
    {
      for k := 0 to |ids|
        invariant retry == old(retry) - Elements(ids[..k])
        invariant entries == old(entries) + RetryEntriesFor(ids[..k])
      {
        assert ids[..k + 1] == ids[..k] + [ids[k]];
        if ids[k] in retry {
          retry := retry - {ids[k]};
          entries := entries + [RetryEntry(ids[k])];
        }
      }
      assert ids[..|ids|] == ids;
    }

    /** Ingest, given what the idempotency lookup returned: the existing row, or none for a new event. */
    method IngestEvent(existing: Option<nat>, maxAttempts: int, redisUp: bool) returns (e: nat, duplicate: bool)
      requires existing.Some? ==> existing.value < |rows|
      modifies this`rows, this`entries
      ensures duplicate == existing.Some? && e == if duplicate then existing.value else |old(rows)|
      ensures !duplicate ==> rows == old(rows) + [Row(Queued, 0, maxAttempts, now, None, [], [])]
      ensures duplicate && old(rows)[e].status in {Received, Retrying} ==>
                rows == old(rows)[e := old(rows)[e].(status := Queued, updatedAt := now)]
      ensures duplicate && old(rows)[e].status !in {Received, Retrying} ==> rows == old(rows)
      ensures entries == old(entries) +
                if redisUp && (!duplicate || old(rows)[e].status in {Received, Queued, Retrying})
                then [Entry(Incoming, Id(e), Undelivered)] else []
      ensures Shows(Run(old(View([])), [Ingest(e, maxAttempts)] + if redisUp then [PublishIncoming(0)] else []))
    {
      match existing {
        case Some(id) =>
          e, duplicate := id, true;
        case None =>
          e, duplicate := |rows|, false;
          rows := rows + [NewRow(Received, maxAttempts, now)];
      }
      IngestRun(old(View([])), e, maxAttempts, redisUp);
      var shouldPublish := !duplicate;
      if duplicate && (rows[e].status == Received || rows[e].status == Queued || rows[e].status == Retrying) {
        shouldPublish := true;
      }
      if shouldPublish {
        if rows[e].status != Queued {
          rows := rows[e := rows[e].(status := Queued, updatedAt := now)];
        }
        if redisUp {
          entries := entries + [Entry(Incoming, Id(e), Undelivered)];
        }
      } else if rows[e].status == Received {
        assert false;  // a received row is always published
      }
    }

    method ReplayDeadLetter(e: nat, letter: nat, redisUp: bool) returns (result: ReplayResult)
      modifies this`rows, this`entries
      ensures result == if e >= |old(rows)| || letter >= |old(rows)[e].deadLetters| then NotFound
                        else if old(rows)[e].deadLetters[letter].replayedAt.Some? then AlreadyReplayed
                        else if redisUp then Requeued else PublishFailed
      ensures result in {NotFound, AlreadyReplayed} ==> rows == old(rows) && entries == old(entries)
      ensures result in {Requeued, PublishFailed} ==>
                var row := old(rows)[e];
                rows == old(rows)[e := row.(attempts := row.attempts + [Attempt(row.attemptCount + 1, Requested)],
                                            status := Queued, nextRetryAt := None, updatedAt := now,
                                            deadLetters := row.deadLetters[letter := DeadLetter(Some(now))])]
      ensures result in {Requeued, PublishFailed} ==>
                entries == old(entries) + if redisUp then [Entry(Incoming, Id(e), Undelivered)] else []
      ensures Shows(Run(old(View([])), [Replay(e, letter)] + if redisUp then [PublishIncoming(0)] else []))
    {
      ReplayRun(View([]), e, letter, redisUp);
      if e >= |rows| || letter >= |rows[e].deadLetters| {
        return NotFound;
      }
      var letters := rows[e].deadLetters;
      if letters[letter].replayedAt.Some? {
        return AlreadyReplayed;
      }
      rows := rows[e := rows[e].(attempts := rows[e].attempts + [Attempt(rows[e].attemptCount + 1, Requested)])];
      rows := rows[e := rows[e].(status := Queued, nextRetryAt := None, updatedAt := now)];
      rows := rows[e := rows[e].(deadLetters := letters[letter := DeadLetter(Some(now))])];
      if !redisUp {
        return PublishFailed;
      }
      entries := entries + [Entry(Incoming, Id(e), Undelivered)];
      return Requeued;
    }
  }

  // ---------------------------------------------------------------------------------------------
  // What the protocol's runs of these steps amount to

  function AckEntry(s: State, i: nat): (entries: seq<Entry>)
    requires IsEntry(s, i)
  {
    if s.entries[i].place.Pending? then s.entries[i := s.entries[i].(place := Acked)] else s.entries
  }

  predicate IsWorkable(s: State, i: nat)
    requires IsEntry(s, i)
  {
    var payload := s.entries[i].payload;
    payload.Id? && payload.event < |s.rows| && IsClaimable(s.rows[payload.event], s.now)
  }

  /** The stores after an uninterrupted handler: skip or process, then acknowledge. */
  function Handled(s: State, i: nat, ok: bool): (s': State)
    requires IsEntry(s, i)
  {
    var payload := s.entries[i].payload;
    var acked := s.(agents := [], entries := if payload == NotUuid then s.entries else AckEntry(s, i));
    if IsWorkable(s, i) then
      var e := payload.event;
      var row, held := s.rows[e], ClaimRow(s.rows[e], s.now);
      acked.(rows := s.rows[e := if ok then SucceedRow(held, row.attemptCount + 1, s.now)
                                 else FailRow(held, row.attemptCount, row.maxAttempts, s.now)],
             retry := if ok || row.attemptCount + 1 >= row.maxAttempts then s.retry
                      else s.retry[e := RetryAt(row.attemptCount + 1, s.now)])
    else acked
  }

  lemma HandledMeans(s: State, i: nat, ok: bool)
    requires IsEntry(s, i)
    ensures var end, payload := Handled(s, i, ok), s.entries[i].payload;
            && end.entries == (if payload == NotUuid || !s.entries[i].place.Pending? then s.entries
                               else s.entries[i := s.entries[i].(place := Acked)])
            && (if payload.Id? && payload.event < |s.rows| && IsClaimable(s.rows[payload.event], s.now)
                then IsWorkedOff(s.rows, end.rows, payload.event, ok)
                else end.rows == s.rows && end.retry == s.retry)
  {
  }

  /** What a handler that is not interrupted does: it acknowledges every message but one whose id is no UUID,
      processes the event exactly if its row is claimable, and touches no other row. */
  lemma HandlerOutcome(s: State, i: nat, ok: bool)
    requires IsEntry(s, i) && s.agents == [Claiming(i)]
    ensures var end, payload := Run(s, HandlerSteps(ok)), s.entries[i].payload;
            && end.entries == (if payload == NotUuid || !s.entries[i].place.Pending? then s.entries
                               else s.entries[i := s.entries[i].(place := Acked)])
            && (if payload.Id? && payload.event < |s.rows| && IsClaimable(s.rows[payload.event], s.now)
                then IsWorkedOff(s.rows, end.rows, payload.event, ok)
                else end.rows == s.rows && end.retry == s.retry)
  {
    HandlerRun(s, i, ok);
    HandledMeans(s, i, ok);
  }

  lemma HandlerRun(s: State, i: nat, ok: bool)
    requires IsEntry(s, i) && s.agents == [Claiming(i)]
    ensures Run(s, HandlerSteps(ok)).(agents := []) == Handled(s, i, ok)
  {
    var finish := if ok then Succeed(0) else Fail(0);
    if IsWorkable(s, i) {
      WorkedRun(s, i, ok);
    } else {
      SkippedRun(s, i, finish);
    }
    RunFour(s, Claim(0), finish, Schedule(0), Ack(0));
  }

  lemma WorkedRun(s: State, i: nat, ok: bool)
    requires IsEntry(s, i) && s.agents == [Claiming(i)] && IsWorkable(s, i)
    ensures Next(Next(Next(Next(s, Claim(0)), if ok then Succeed(0) else Fail(0)), Schedule(0)), Ack(0)).(agents := []) ==
            Handled(s, i, ok)
  {
    ClaimedRun(s, i, s.entries[i].payload.event, ok);
  }

  lemma SkippedRun(s: State, i: nat, finish: Step)
    requires IsEntry(s, i) && s.agents == [Claiming(i)] && !IsWorkable(s, i)
    requires finish == Succeed(0) || finish == Fail(0)
    ensures Next(Next(Next(Next(s, Claim(0)), finish), Schedule(0)), Ack(0)).(agents := []) ==
            s.(agents := [], entries := if s.entries[i].payload == NotUuid then s.entries else AckEntry(s, i))
  {
    var s1 := Next(s, Claim(0));
    assert s1 == s.(agents := [if s.entries[i].payload == NotUuid then Done else OwesAck(i)]);
    assert Next(Next(s1, finish), Schedule(0)) == s1;
  }

  lemma ClaimedRun(s: State, i: nat, e: nat, ok: bool)
    requires IsEntry(s, i) && s.agents == [Claiming(i)]
    requires s.entries[i].payload == Id(e) && e < |s.rows| && IsClaimable(s.rows[e], s.now)
    ensures var s' := Next(Next(Next(Next(s, Claim(0)), if ok then Succeed(0) else Fail(0)), Schedule(0)), Ack(0));
            var row, held := s.rows[e], ClaimRow(s.rows[e], s.now);
            && s'.now == s.now && s'.workers == s.workers && s'.entries == AckEntry(s, i)
            && s'.rows == s.rows[e := if ok then SucceedRow(held, row.attemptCount + 1, s.now)
                                      else FailRow(held, row.attemptCount, row.maxAttempts, s.now)]
            && s'.retry == if ok || row.attemptCount + 1 >= row.maxAttempts then s.retry
                           else s.retry[e := RetryAt(row.attemptCount + 1, s.now)]
  {
    var row := s.rows[e];
    var s1 := Next(s, Claim(0));
    assert s1 == s.(rows := s.rows[e := ClaimRow(row, s.now)],
                    agents := [Holding(i, e, row.attemptCount, row.maxAttempts, s.now)]);
    HeldRun(s1, ok);
  }

  lemma HeldRun(s: State, ok: bool)
    requires |s.agents| == 1 && s.agents[0].Holding? && AgentOk(s, s.agents[0])
    ensures var h := s.agents[0];
            var s' := Next(Next(Next(s, if ok then Succeed(0) else Fail(0)), Schedule(0)), Ack(0));
            && s'.now == s.now && s'.workers == s.workers && s'.entries == AckEntry(s, h.entry)
            && s'.rows == s.rows[h.event := if ok then SucceedRow(s.rows[h.event], h.readCount + 1, s.now)
                                            else FailRow(s.rows[h.event], h.readCount, h.readMax, s.now)]
            && s'.retry == if ok || h.readCount + 1 >= h.readMax then s.retry
                           else s.retry[h.event := RetryAt(h.readCount + 1, s.now)]
  {
    var s1 := Next(s, if ok then Succeed(0) else Fail(0));
    var s2 := Next(s1, Schedule(0));
    assert s2.rows == s1.rows && s2.entries == s.entries && s2.agents == [OwesAck(s.agents[0].entry)];
  }

  lemma FlushOnce(s: State, bound: int, ids: seq<nat>)
    requires ids != [] && s.agents == [Flushing(bound, ids)] && ids[0] in s.retry
    ensures Next(Next(s, Remove(0)), Republish(0)) ==
            s.(retry := s.retry - {ids[0]}, entries := s.entries + [RetryEntry(ids[0])],
               agents := [Flushing(bound, ids[1..])])
  {
    assert Next(s, Remove(0)).agents == [Republishing(bound, ids[0], ids[1..])];
  }

  lemma {:induction false} FlushRun(s: State, ids: seq<nat>, n: nat)
    requires s.agents == [] && IsDueListing(s.retry, Score(s.now), ids) && n <= |ids|
    ensures Run(s, [ListDue(ids)] + FlushSteps(n)) ==
            s.(retry := s.retry - Elements(ids[..n]),
               entries := s.entries + RetryEntriesFor(ids[..n]),
               agents := [Flushing(Score(s.now), ids[n..])])
  {
    if n == 0 {
      RunOneMore(s, [], ListDue(ids));
      assert [] + [ListDue(ids)] == [ListDue(ids)] + FlushSteps(0);
      assert ids[0..] == ids;
    } else {
      FlushRun(s, ids, n - 1);
      var done := [ListDue(ids)] + FlushSteps(n - 1);
      RunOneMore(s, done, Remove(0));
      RunOneMore(s, done + [Remove(0)], Republish(0));
      assert done + [Remove(0)] + [Republish(0)] == [ListDue(ids)] + FlushSteps(n);
      assert ids[n - 1..][0] == ids[n - 1] && ids[n - 1..][1..] == ids[n..];
      FlushOnce(Run(s, done), Score(s.now), ids[n - 1..]);
      PrefixGrows(s.retry, ids, n);
    }
  }

  lemma ListingMeans(retry: map<nat, int>, now: int, ids: seq<nat>)
    requires IsDueListing(retry, Score(now), ids)
    ensures forall e :: e in ids <==> e in retry && retry[e] / SECOND <= now / SECOND
    ensures forall e :: e in retry - Elements(ids) <==> e in retry && retry[e] / SECOND > now / SECOND
  {
    forall e ensures e in ids <==> e in retry && retry[e] / SECOND <= now / SECOND {
      if e in ids {
        var k :| 0 <= k < |ids| && ids[k] == e;
        assert IsDue(retry, Score(now), ids[k]);
      } else if e in retry {
        assert !IsDue(retry, Score(now), e);
      }
    }
  }

  lemma PrefixGrows(retry: map<nat, int>, ids: seq<nat>, n: nat)
    requires 0 < n <= |ids|
    ensures retry - Elements(ids[..n - 1]) - {ids[n - 1]} == retry - Elements(ids[..n])
    ensures RetryEntriesFor(ids[..n]) == RetryEntriesFor(ids[..n - 1]) + [RetryEntry(ids[n - 1])]
  {
    assert ids[..n] == ids[..n - 1] + [ids[n - 1]];
  }

  lemma IngestRun(s: State, e: nat, maxAttempts: int, redisUp: bool)
    requires s.agents == [] && e <= |s.rows|
    ensures var s' := Run(s, [Ingest(e, maxAttempts)] + if redisUp then [PublishIncoming(0)] else []);
            var publishes := e == |s.rows| || IsRepublishable(s.rows[e].status);
            && s'.now == s.now && s'.retry == s.retry
            && s'.rows == (if e == |s.rows| then s.rows + [NewRow(Queued, maxAttempts, s.now)]
                           else if publishes then s.rows[e := RequeueRow(s.rows[e], s.now)] else s.rows)
            && s'.entries == s.entries + (if publishes && redisUp then [Entry(Incoming, Id(e), Undelivered)] else [])
  {
    RunOneMore(s, [], Ingest(e, maxAttempts));
    assert [] + [Ingest(e, maxAttempts)] == [Ingest(e, maxAttempts)] == [Ingest(e, maxAttempts)] + [];
    RunOneMore(s, [Ingest(e, maxAttempts)], PublishIncoming(0));
  }

  lemma ReplayRun(s: State, e: nat, letter: nat, redisUp: bool)
    requires s.agents == []
    ensures var s' := Run(s, [Replay(e, letter)] + if redisUp then [PublishIncoming(0)] else []);
            var valid := e < |s.rows| && IsReplayable(s.rows[e], letter);
            && s'.now == s.now && s'.retry == s.retry
            && s'.rows == (if valid then s.rows[e := ReplayRow(s.rows[e], letter, s.now)] else s.rows)
            && s'.entries == s.entries + (if valid && redisUp then [Entry(Incoming, Id(e), Undelivered)] else [])
  {
    RunOneMore(s, [], Replay(e, letter));
    assert [] + [Replay(e, letter)] == [Replay(e, letter)] == [Replay(e, letter)] + [];
    RunOneMore(s, [Replay(e, letter)], PublishIncoming(0));
  }
}
