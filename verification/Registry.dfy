/** The idempotency registry: concurrent claims of the same event, one row lock at a time. */
module Registry {

  datatype Status = Processing | Completed | Failed | Terminal

  datatype Row = Row(status: Status, retryCount: int, maxRetries: int)

  /** Where a call stands: before its SELECT FOR UPDATE, after it found no row (which locks nothing), holding
      the lock of the row it read, returned, or ended with an error. */
  datatype Phase = Begin | Absent | Locked(read: Row) | Returned(claimed: bool, status: Status) | Errored

  datatype Call = Call(event: nat, phase: Phase)

  datatype Db = Db(rows: map<nat, Row>, calls: seq<Call>)

  datatype Step = Arrive(event: nat) | Select(c: nat) | Write(c: nat) | Abort(c: nat)

  predicate IsFinal(status: Status) {
    status == Completed || status == Terminal
  }

  predicate HoldsLock(call: Call, event: nat) {
    call.phase.Locked? && call.event == event
  }

  predicate Enabled(db: Db, step: Step) {
    match step
    case Arrive(_) => true
    case Select(c) =>
      && c < |db.calls| && db.calls[c].phase.Begin?
      && forall d :: 0 <= d < |db.calls| ==> !HoldsLock(db.calls[d], db.calls[c].event)
    case Write(c) => c < |db.calls| && (db.calls[c].phase.Absent? || db.calls[c].phase.Locked?)
    case Abort(c) => c < |db.calls| && !db.calls[c].phase.Returned?
  }

  function SetPhase(db: Db, c: nat, phase: Phase): (db': Db)
    requires c < |db.calls|
  {
    db.(calls := db.calls[c := db.calls[c].(phase := phase)])
  }

  /** The row after the call that holds its lock commits. */
  function Updated(row: Row): (row': Row) {
    if IsFinal(row.status) then row
    else if row.retryCount + 1 >= row.maxRetries then Row(Terminal, row.retryCount + 1, row.maxRetries)
    else Row(Completed, row.retryCount + 1, row.maxRetries)
  }

  function Next(db: Db, step: Step): (db': Db) {
    if !Enabled(db, step) then db else
      match step
      case Arrive(event) => db.(calls := db.calls + [Call(event, Begin)])
      case Select(c) =>
        var event := db.calls[c].event;
        SetPhase(db, c, if event in db.rows then Locked(db.rows[event]) else Absent)
      case Write(c) =>
        var event := db.calls[c].event;
        (match db.calls[c].phase
         case Locked(row) =>
           SetPhase(db.(rows := db.rows[event := Updated(row)]), c,
                    Returned(!IsFinal(row.status) && Updated(row).status == Completed, Updated(row).status))
         case _ =>
           if event in db.rows then SetPhase(db, c, Errored)
           else SetPhase(db.(rows := db.rows[event := Row(Completed, 0, 3)]), c, Returned(true, Completed)))
      case Abort(c) => SetPhase(db, c, Errored)
  }

  function Run(db: Db, steps: seq<Step>): (db': Db)
    decreases |steps|
  {
    if steps == [] then db else Run(Next(db, steps[0]), steps[1..])
  }

  predicate Claims(call: Call) {
    call.phase.Returned? && call.phase.claimed
  }

  ghost predicate CallOk(db: Db, call: Call) {
    && (call.phase.Locked? ==> call.event in db.rows && db.rows[call.event] == call.phase.read)
    && (call.phase.Returned? ==>
          && call.event in db.rows && db.rows[call.event].status == call.phase.status && IsFinal(call.phase.status)
          && (call.phase.claimed ==> call.phase.status == Completed))
  }

  ghost predicate CallsOk(db: Db) {
    forall c :: 0 <= c < |db.calls| ==> CallOk(db, db.calls[c])
  }

  ghost predicate OneLock(db: Db) {
    forall c, d :: 0 <= c < d < |db.calls| && db.calls[c].phase.Locked? && db.calls[d].phase.Locked? ==>
      db.calls[c].event != db.calls[d].event
  }

  ghost predicate OneClaim(db: Db) {
    forall c, d :: 0 <= c < d < |db.calls| && Claims(db.calls[c]) && Claims(db.calls[d]) ==>
      db.calls[c].event != db.calls[d].event
  }

  ghost predicate Inv(db: Db) {
    CallsOk(db) && OneLock(db) && OneClaim(db)
  }

  /** A row that starts below its limit never gets past it. */
  predicate WithinLimit(row: Row) {
    row.retryCount < row.maxRetries || (row.status == Terminal && row.retryCount == row.maxRetries)
  }

  lemma StepKeepsInv(db: Db, step: Step)
    requires Inv(db)
    ensures Inv(Next(db, step))
  {
    var db' := Next(db, step);
    forall c | 0 <= c < |db'.calls| ensures CallOk(db', db'.calls[c]) {
      StepKeepsCall(db, step, c);
    }
    StepKeepsOneLock(db, step);
    StepKeepsOneClaim(db, step);
  }

  lemma StepKeepsCall(db: Db, step: Step, c: nat)
    requires Inv(db) && c < |Next(db, step).calls|
    ensures CallOk(Next(db, step), Next(db, step).calls[c])
  {
    assert c < |db.calls| ==> CallOk(db, db.calls[c]);
  }

  lemma StepKeepsOneLock(db: Db, step: Step)
    requires OneLock(db)
    ensures OneLock(Next(db, step))
  {
  }

  /** A new claim finds a row that is absent or not final, so nobody claimed it before. */
  lemma StepKeepsOneClaim(db: Db, step: Step)
    requires CallsOk(db) && OneClaim(db)
    ensures OneClaim(Next(db, step))
  {
    var db' := Next(db, step);
    forall c, d | 0 <= c < d < |db'.calls| && Claims(db'.calls[c]) && Claims(db'.calls[d])
      ensures db'.calls[c].event != db'.calls[d].event
    {
      assert CallOk(db, db.calls[c]) && CallOk(db, db.calls[d]);
    }
  }

  lemma StepKeepsRows(db: Db, step: Step, event: nat)
    requires Inv(db) && event in db.rows
    ensures event in Next(db, step).rows
    ensures IsFinal(db.rows[event].status) ==> Next(db, step).rows[event] == db.rows[event]
    ensures WithinLimit(db.rows[event]) ==> WithinLimit(Next(db, step).rows[event])
  {
    if step.Write? && Enabled(db, step) {
      assert CallOk(db, db.calls[step.c]);
    }
  }

  /** Final statuses absorb, and the retry count stays within the limit, over every interleaving. */
  lemma {:induction false} FinalIsAbsorbing(db: Db, steps: seq<Step>, event: nat)
    requires Inv(db) && event in db.rows
    ensures event in Run(db, steps).rows
    ensures IsFinal(db.rows[event].status) ==> Run(db, steps).rows[event] == db.rows[event]
    ensures WithinLimit(db.rows[event]) ==> Run(db, steps).rows[event].retryCount <= Run(db, steps).rows[event].maxRetries
    ensures WithinLimit(db.rows[event]) ==> WithinLimit(Run(db, steps).rows[event])
    decreases |steps|
  {
    if steps != [] {
      StepKeepsInv(db, steps[0]);
      StepKeepsRows(db, steps[0], event);
      FinalIsAbsorbing(Next(db, steps[0]), steps[1..], event);
    }
  }

  lemma {:induction false} RunKeepsInv(db: Db, steps: seq<Step>)
    requires Inv(db)
    ensures Inv(Run(db, steps))
    decreases |steps|
  {
    if steps != [] {
      StepKeepsInv(db, steps[0]);
      RunKeepsInv(Next(db, steps[0]), steps[1..]);
    }
  }

  /** Whatever rows exist at the start, at most one call per event is told that it claimed the event. */
  lemma AtMostOneClaim(rows: map<nat, Row>, steps: seq<Step>, c: nat, d: nat)
    requires var db := Run(Db(rows, []), steps);
             c < |db.calls| && d < |db.calls| && Claims(db.calls[c]) && Claims(db.calls[d])
    requires var db := Run(Db(rows, []), steps);
             db.calls[c].event == db.calls[d].event
    ensures c == d
    ensures var db := Run(Db(rows, []), steps);
            db.calls[c].event in db.rows && db.rows[db.calls[c].event].status == Completed
  {
    var db := Run(Db(rows, []), steps);
    RunKeepsInv(Db(rows, []), steps);
    assert CallOk(db, db.calls[c]);
  }

  predicate ClaimsEvent(db: Db, c: nat, event: nat) {
    c < |db.calls| && db.calls[c].event == event && Claims(db.calls[c])
  }

  ghost predicate IsClaimed(db: Db, event: nat) {
    exists c :: ClaimsEvent(db, c, event)
  }

  /** Everything that can have become of an event since the table looked like `rows`: nothing yet; a new row,
      completed by the caller that claimed it; a row that was final and stays as it is, claimed by nobody; or
      one more attempt, which is claimed and completed, or spends the last retry and is claimed by nobody. */
  ghost predicate Story(rows: map<nat, Row>, db: Db, event: nat) {
    if event !in rows then
      || (event !in db.rows && !IsClaimed(db, event))
      || (event in db.rows && db.rows[event] == Row(Completed, 0, 3) && IsClaimed(db, event))
    else
      var row := rows[event];
      && event in db.rows
      && (|| (db.rows[event] == row && !IsClaimed(db, event))
          || (&& row.status != Completed && row.status != Terminal
              && (if row.retryCount + 1 >= row.maxRetries
                  then db.rows[event] == Row(Terminal, row.retryCount + 1, row.maxRetries) && !IsClaimed(db, event)
                  else db.rows[event] == Row(Completed, row.retryCount + 1, row.maxRetries) && IsClaimed(db, event))))
  }

  lemma ClaimStays(db: Db, step: Step, event: nat)
    requires IsClaimed(db, event)
    ensures IsClaimed(Next(db, step), event)
  {
    var c :| ClaimsEvent(db, c, event);
    assert ClaimsEvent(Next(db, step), c, event);
  }

  /** A step that is no write for the event leaves its row and its claim alone. */
  lemma OtherStep(db: Db, step: Step, event: nat)
    requires !(step.Write? && Enabled(db, step) && db.calls[step.c].event == event)
    ensures event in Next(db, step).rows <==> event in db.rows
    ensures event in db.rows ==> Next(db, step).rows[event] == db.rows[event]
    ensures IsClaimed(Next(db, step), event) <==> IsClaimed(db, event)
  {
    if IsClaimed(db, event) {
      ClaimStays(db, step, event);
    } else if c :| ClaimsEvent(Next(db, step), c, event) {
      assert ClaimsEvent(db, c, event);
    }
  }

  /** What a write does to the row, and that it claims exactly when it completes the row anew. */
  lemma WriteStep(db: Db, c: nat)
    requires Inv(db) && Enabled(db, Write(c))
    ensures var event, db' := db.calls[c].event, Next(db, Write(c));
            if event in db.rows && (db.calls[c].phase.Absent? || IsFinal(db.rows[event].status)) then
              db'.rows == db.rows && (IsClaimed(db', event) <==> IsClaimed(db, event))
            else if event !in db.rows then
              db'.rows == db.rows[event := Row(Completed, 0, 3)] && IsClaimed(db', event)
            else
              var row := db.rows[event];
              if row.retryCount + 1 >= row.maxRetries then
                && db'.rows == db.rows[event := Row(Terminal, row.retryCount + 1, row.maxRetries)]
                && (IsClaimed(db', event) <==> IsClaimed(db, event))
              else
                db'.rows == db.rows[event := Row(Completed, row.retryCount + 1, row.maxRetries)] && IsClaimed(db', event)
  {
    var event, db' := db.calls[c].event, Next(db, Write(c));
    assert CallOk(db, db.calls[c]);
    if IsClaimed(db, event) {
      ClaimStays(db, Write(c), event);
    } else if Claims(db'.calls[c]) {
      assert ClaimsEvent(db', c, event);
    } else if d :| ClaimsEvent(db', d, event) {
      assert ClaimsEvent(db, d, event);
    }
    if event in db.rows {
      assert db.rows[event := db.rows[event]] == db.rows;
    }
  }

  lemma StepKeepsStory(rows: map<nat, Row>, db: Db, step: Step, event: nat)
    requires Inv(db) && Story(rows, db, event)
    ensures Story(rows, Next(db, step), event)
  {
    if step.Write? && Enabled(db, step) && db.calls[step.c].event == event {
      WriteStep(db, step.c);
    } else {
      OtherStep(db, step, event);
    }
  }

  lemma {:induction false} RunKeepsStory(rows: map<nat, Row>, db: Db, steps: seq<Step>, event: nat)
    requires Inv(db) && Story(rows, db, event)
    ensures Story(rows, Run(db, steps), event)
    decreases |steps|
  {
    if steps != [] {
      StepKeepsStory(rows, db, steps[0], event);
      StepKeepsInv(db, steps[0]);
      RunKeepsStory(rows, Next(db, steps[0]), steps[1..], event);
    }
  }

  /** The exact outcome: whatever the table held at the start, after any interleaving an event has a claim if
      and only if its row is completed and was absent or not final at the start; its row is new with count 0
      and limit 3, or unchanged, or counts exactly one retry more; and every call that returned for it was
      told the status the row now has. */
  lemma ClaimedIffCompletedAnew(rows: map<nat, Row>, steps: seq<Step>, event: nat)
    ensures var db := Run(Db(rows, []), steps);
            && Story(rows, db, event)
            && (IsClaimed(db, event) <==>
                  && event in db.rows && db.rows[event].status == Completed
                  && (event in rows ==> rows[event].status != Completed && rows[event].status != Terminal))
            && (forall c :: 0 <= c < |db.calls| && db.calls[c].event == event && db.calls[c].phase.Returned? ==>
                  event in db.rows && db.calls[c].phase.status == db.rows[event].status)
  {
    var start := Db(rows, []);
    RunKeepsStory(rows, start, steps, event);
    RunKeepsInv(start, steps);
    var db := Run(start, steps);
    forall c | 0 <= c < |db.calls| && db.calls[c].event == event && db.calls[c].phase.Returned?
      ensures event in db.rows && db.calls[c].phase.status == db.rows[event].status
    {
      assert CallOk(db, db.calls[c]);
    }
  }

  /** A call that meets no lock returns, and is told what the row it found implies. */
  lemma UnhinderedCallReturns(db: Db, event: nat)
    requires forall d :: 0 <= d < |db.calls| ==> !HoldsLock(db.calls[d], event)
    ensures var n := |db.calls|;
            var end := Next(Next(Next(db, Arrive(event)), Select(n)), Write(n));
            && n < |end.calls|
            && end.calls[n].phase ==
               if event !in db.rows then Returned(true, Completed)
               else if db.rows[event].status == Completed then Returned(false, Completed)
               else if db.rows[event].status == Terminal then Returned(false, Terminal)
               else if db.rows[event].retryCount + 1 >= db.rows[event].maxRetries then Returned(false, Terminal)
               else Returned(true, Completed)
  {
    var n := |db.calls|;
    var arrived := Next(db, Arrive(event));
    assert forall d :: 0 <= d < n ==> arrived.calls[d] == db.calls[d];
    assert Enabled(arrived, Select(n));
  }
}
