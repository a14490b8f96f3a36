/** The PostgreSQL rows of one event and the effect of each transaction on them. An event row is kept
    together with the attempt rows and dead-letter rows that reference it. */
module Tables {
  import opened Basics
  import opened Backoff

  /** Age from which a "processing" row may be claimed again. */
  const STALE: int := 60 * SECOND

  datatype Status = Received | Queued | Processing | Retrying | Succeeded | DeadLettered | Cancelled

  datatype Outcome = Won | Lost | Requested

  /** An attempt row: "succeeded" (Won), "failed" (Lost) or the "pending" row a replay adds (Requested). */
  datatype Attempt = Attempt(number: int, outcome: Outcome)

  datatype DeadLetter = DeadLetter(replayedAt: Option<int>)

  datatype Row = Row(
    status: Status,
    attemptCount: int,
    maxAttempts: int,
    updatedAt: int,
    nextRetryAt: Option<int>,
    attempts: seq<Attempt>,
    deadLetters: seq<DeadLetter>)

  predicate IsTerminal(status: Status) {
    status == Succeeded || status == DeadLettered || status == Cancelled
  }

  /** The statuses from which a duplicate ingest publishes the event again. */
  predicate IsRepublishable(status: Status) {
    status == Received || status == Queued || status == Retrying
  }

  predicate IsFresh(row: Row, now: int) {
    row.status == Processing && now - row.updatedAt < STALE
  }

  predicate IsClaimable(row: Row, now: int) {
    !IsTerminal(row.status) && !IsFresh(row, now)
  }

  function NewRow(status: Status, maxAttempts: int, now: int): (row: Row) {
    Row(status, 0, maxAttempts, now, None, [], [])
  }

  /** Duplicate ingest; an unchanged status writes nothing, so the timestamp moves only on a change. */
  function RequeueRow(row: Row, now: int): (row': Row) {
    if row.status == Queued then row else row.(status := Queued, updatedAt := now)
  }

  function ClaimRow(row: Row, now: int): (row': Row) {
    row.(status := Processing, updatedAt := now)
  }

  function SucceedRow(row: Row, number: int, now: int): (row': Row) {
    row.(attempts := row.attempts + [Attempt(number, Won)], status := Succeeded, updatedAt := now)
  }

  function RetryAt(nextAttempt: int, now: int): (at: int) {
    now + GoDelay(nextAttempt) * SECOND
  }

  /** The failure transaction writes what the holder read when it claimed the row. */
  function FailRow(row: Row, readCount: int, readMax: int, now: int): (row': Row) {
    var next := readCount + 1;
    var logged := row.(attempts := row.attempts + [Attempt(next, Lost)], attemptCount := next, updatedAt := now);
    if next >= readMax then
      logged.(deadLetters := row.deadLetters + [DeadLetter(None)], status := DeadLettered, nextRetryAt := None)
    else
      logged.(status := Retrying, nextRetryAt := Some(RetryAt(next, now)))
  }

  predicate IsReplayable(row: Row, letter: nat) {
    letter < |row.deadLetters| && row.deadLetters[letter].replayedAt == None
  }

  /** Replaying a dead letter never looks at the status of the event. */
  function ReplayRow(row: Row, letter: nat, now: int): (row': Row)
    requires IsReplayable(row, letter)
  {
    row.(attempts := row.attempts + [Attempt(row.attemptCount + 1, Requested)],
         status := Queued,
         nextRetryAt := None,
         updatedAt := now,
         deadLetters := row.deadLetters[letter := DeadLetter(Some(now))])
  }

  // ---------------------------------------------------------------------------------------------
  // What the rows of one event always look like

  /** The attempt numbers of the rows with a given outcome, in insertion order. */
  function Numbers(attempts: seq<Attempt>, outcome: Outcome): (numbers: seq<int>)
  {
    if attempts == [] then []
    else
      var front := Numbers(attempts[..|attempts| - 1], outcome);
      var last := attempts[|attempts| - 1];
      if last.outcome == outcome then front + [last.number] else front
  }

  function Unreplayed(letters: seq<DeadLetter>): (count: nat)
  {
    if letters == [] then 0
    else
      Unreplayed(letters[..|letters| - 1]) + (if letters[|letters| - 1].replayedAt == None then 1 else 0)
  }

  /** n consecutive numbers. */
  function Upward(first: int, n: nat): (numbers: seq<int>) {
    seq(n, i => first + i)
  }

  /** The number of failures an event may have before its first dead letter. */
  function Budget(maxAttempts: int): (budget: int)
    ensures budget >= 1
  {
    if maxAttempts < 1 then 1 else maxAttempts
  }

  /** The history of an event: failures numbered 1..attempt_count once each, one success row exactly when
      succeeded, one open dead letter exactly when dead-lettered, one more attempt per replay, announced with
      its number; a retry time that follows from the failure exactly while the event waits for it. */
  ghost predicate RowOk(row: Row) {
    && row.attemptCount >= 0
    && row.status != Cancelled
    && Numbers(row.attempts, Lost) == Upward(1, row.attemptCount)
    && Numbers(row.attempts, Won) == (if row.status == Succeeded then [row.attemptCount + 1] else [])
    && Unreplayed(row.deadLetters) == (if row.status == DeadLettered then 1 else 0)
    && Unreplayed(row.deadLetters) <= |row.deadLetters|
    && Numbers(row.attempts, Requested) ==
       Upward(Budget(row.maxAttempts) + 1, |row.deadLetters| - Unreplayed(row.deadLetters))
    && (row.status == DeadLettered ==> row.nextRetryAt == None)
    && (row.status == Retrying ==> row.nextRetryAt == Some(RetryAt(row.attemptCount, row.updatedAt)))
    && (row.deadLetters == [] ==> row.attemptCount < Budget(row.maxAttempts))
    && (row.deadLetters != [] ==> row.attemptCount == Budget(row.maxAttempts) + |row.deadLetters| - 1)
  }

  lemma NumbersAppend(attempts: seq<Attempt>, last: Attempt, outcome: Outcome)
    ensures Numbers(attempts + [last], outcome) ==
            Numbers(attempts, outcome) + (if last.outcome == outcome then [last.number] else [])
  {
    assert (attempts + [last])[..|attempts|] == attempts;
  }

  lemma UnreplayedAppend(letters: seq<DeadLetter>, last: DeadLetter)
    ensures Unreplayed(letters + [last]) == Unreplayed(letters) + (if last.replayedAt == None then 1 else 0)
  {
    assert (letters + [last])[..|letters|] == letters;
  }

  lemma {:induction false} UnreplayedUpdate(letters: seq<DeadLetter>, i: nat, at: int)
    requires i < |letters| && letters[i].replayedAt == None
    ensures Unreplayed(letters[i := DeadLetter(Some(at))]) == Unreplayed(letters) - 1
    decreases |letters|
  {
    var last := |letters| - 1;
    var updated := letters[i := DeadLetter(Some(at))];
    if i < last {
      assert updated[..last] == letters[..last][i := DeadLetter(Some(at))];
      UnreplayedUpdate(letters[..last], i, at);
    } else {
      assert updated[..last] == letters[..last];
    }
  }

  lemma UpwardExtends(first: int, n: nat)
    ensures Upward(first, n) + [first + n] == Upward(first, n + 1)
  {
  }

  lemma SucceedKeepsRowOk(row: Row, now: int)
    requires RowOk(row) && row.status == Processing
    ensures RowOk(SucceedRow(row, row.attemptCount + 1, now))
  {
    forall outcome {
      NumbersAppend(row.attempts, Attempt(row.attemptCount + 1, Won), outcome);
    }
  }

  lemma FailKeepsRowOk(row: Row, now: int)
    requires RowOk(row) && row.status == Processing
    ensures RowOk(FailRow(row, row.attemptCount, row.maxAttempts, now))
  {
    FailNumbers(row);
    UnreplayedAppend(row.deadLetters, DeadLetter(None));
  }

  lemma FailNumbers(row: Row)
    requires row.attemptCount >= 0 && Numbers(row.attempts, Lost) == Upward(1, row.attemptCount)
    ensures var attempts := row.attempts + [Attempt(row.attemptCount + 1, Lost)];
            && Numbers(attempts, Lost) == Upward(1, row.attemptCount + 1)
            && Numbers(attempts, Won) == Numbers(row.attempts, Won)
            && Numbers(attempts, Requested) == Numbers(row.attempts, Requested)
  {
    var last := Attempt(row.attemptCount + 1, Lost);
    NumbersAppend(row.attempts, last, Lost);
    NumbersAppend(row.attempts, last, Won);
    NumbersAppend(row.attempts, last, Requested);
    UpwardExtends(1, row.attemptCount);
  }

  /** Only a dead-lettered event has a dead letter left to replay. */
  lemma ReplayableIsDeadLettered(row: Row, letter: nat)
    requires RowOk(row) && IsReplayable(row, letter)
    ensures row.status == DeadLettered
  {
    UnreplayedUpdate(row.deadLetters, letter, 0);
  }

  lemma ReplayKeepsRowOk(row: Row, letter: nat, now: int)
    requires RowOk(row) && IsReplayable(row, letter)
    ensures RowOk(ReplayRow(row, letter, now))
  {
    ReplayableIsDeadLettered(row, letter);
    UnreplayedUpdate(row.deadLetters, letter, now);
    var last := Attempt(row.attemptCount + 1, Requested);
    NumbersAppend(row.attempts, last, Lost);
    NumbersAppend(row.attempts, last, Won);
    NumbersAppend(row.attempts, last, Requested);
    UpwardExtends(Budget(row.maxAttempts) + 1, |row.deadLetters| - 1);
  }
}
