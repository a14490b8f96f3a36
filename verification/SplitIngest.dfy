/** Ingest takes no row lock, so its read of the status and its commit of "queued" are two steps. This module
    splits them, and says exactly which late commits the rest of the system survives. */
module SplitIngest {
  import opened Tables
  import opened Protocol
  import opened Safety
  import opened Coverage

  /** A request that decided to publish on the strength of the status it read. */
  datatype Read = Read(event: nat, status: Status, open: bool)

  datatype World = World(state: State, requests: seq<Read>)

  /** `Look` reads a row, `Commit` is the second half of that request; everything else is a plain step. The
      first commit of a new event is the plain step `IngestAborted`. */
  datatype Move = Plain(step: Step) | Look(event: nat) | Commit(read: nat)

  /** The late UPDATE sets the status blindly; a request that read "queued" has nothing to write. */
  function LateRow(row: Row, read: Status, now: int): (row': Row) {
    if read == Queued then row else row.(status := Queued, updatedAt := now)
  }

  predicate IsOpen(w: World, r: nat) {
    r < |w.requests| && w.requests[r].open && w.requests[r].event < |w.state.rows|
  }

  function DoCommit(w: World, r: nat): (w': World)
    requires IsOpen(w, r)
  {
    var s, e := w.state, w.requests[r].event;
    World(Spawn(SetRow(s, e, LateRow(s.rows[e], w.requests[r].status, s.now)), OwesIncoming(e)),
          w.requests[r := w.requests[r].(open := false)])
  }

  function NextWorld(w: World, move: Move): (w': World) {
    match move
    case Plain(step) => w.(state := Next(w.state, step))
    case Look(e) =>
      if e < |w.state.rows| && IsRepublishable(w.state.rows[e].status) then
        w.(requests := w.requests + [Read(e, w.state.rows[e].status, true)])
      else w
    case Commit(r) => if IsOpen(w, r) then DoCommit(w, r) else w
  }

  function RunWorld(w: World, moves: seq<Move>): (w': World)
    decreases |moves|
  {
    if moves == [] then w else RunWorld(NextWorld(w, moves[0]), moves[1..])
  }

  /** Committed at once, the two halves are the protocol's ingest step, for known and for new events. */
  lemma PromptCommitIsIngest(w: World, e: nat, maxAttempts: int)
    requires e <= |w.state.rows| && Enabled(w.state, Ingest(e, maxAttempts))
    ensures var first := if e == |w.state.rows| then NextWorld(w, Plain(IngestAborted(maxAttempts))) else w;
            NextWorld(NextWorld(first, Look(e)), Commit(|w.requests|)).state == Next(w.state, Ingest(e, maxAttempts))
  {
    var s := w.state;
    if e == |s.rows| {
      assert (s.rows + [NewRow(Received, maxAttempts, s.now)])[e := NewRow(Queued, maxAttempts, s.now)] ==
             s.rows + [NewRow(Queued, maxAttempts, s.now)];
    } else {
      assert s.rows[e].status == Queued ==> s.rows[e := s.rows[e]] == s.rows;
    }
  }

  /** A late commit does no harm when it writes nothing, or finds the event waiting, or orphaned. */
  predicate IsHarmless(s: State, read: Status, e: nat)
    requires e < |s.rows|
  {
    || read == Queued
    || IsRepublishable(s.rows[e].status)
    || (s.rows[e].status == Processing && !HasHolder(s, e))
  }

  lemma LateRowOkIff(row: Row, now: int)
    requires RowOk(row)
    ensures RowOk(LateRow(row, Received, now)) <==> IsRepublishable(row.status) || row.status == Processing
  {
  }

  /** Exactly which late commits keep the claims exclusive, success final and dead letters matched: a commit on
      a held row lets a second holder in, one on a succeeded or dead-lettered row reopens a finished event. */
  lemma CommitKeepsCoreIff(s: State, read: Status, e: nat)
    requires Core(s) && e < |s.rows|
    ensures Core(SetRow(s, e, LateRow(s.rows[e], read, s.now))) <==> IsHarmless(s, read, e)
  {
    var s' := SetRow(s, e, LateRow(s.rows[e], read, s.now));
    if read == Queued {
      assert s' == s;
    } else {
      assert RowOk(s.rows[e]);
      LateRowOkIff(s.rows[e], s.now);
      if HasHolder(s, e) {
        var a :| 0 <= a < |s.agents| && Holds(s.agents[a], e);
        assert HolderOk(s, s.agents[a]) && !HolderOk(s', s'.agents[a]);
      }
      assert RowsOk(s') ==> RowOk(s'.rows[e]);
    }
  }

  /** Spawning a request changes nothing about the holders. */
  lemma CommitKeepsInvIff(w: World, r: nat)
    requires Inv(w.state) && IsOpen(w, r)
    ensures Inv(DoCommit(w, r).state) <==> IsHarmless(w.state, w.requests[r].status, w.requests[r].event)
  {
    var s, e := w.state, w.requests[r].event;
    var written := SetRow(s, e, LateRow(s.rows[e], w.requests[r].status, s.now));
    CommitKeepsCoreIff(s, w.requests[r].status, e);
    SpawnKeepsCoreIff(written, OwesIncoming(e));
    CommitKeepsWellFormed(w, r);
  }

  lemma SpawnKeepsCoreIff(s: State, agent: Agent)
    requires !agent.Holding?
    ensures Core(Spawn(s, agent)) <==> Core(s)
  {
    var s' := Spawn(s, agent);
    assert forall a :: 0 <= a < |s.agents| ==> s'.agents[a] == s.agents[a];
    if Core(s') {
      forall a | 0 <= a < |s.agents| && s.agents[a].Holding? ensures HolderOk(s, s.agents[a]) {
        assert HolderOk(s', s'.agents[a]);
      }
      assert forall e :: 0 <= e < |s.rows| ==> s'.rows[e] == s.rows[e];
    }
  }

  lemma CommitKeepsWellFormed(w: World, r: nat)
    requires WellFormed(w.state) && IsOpen(w, r)
    ensures WellFormed(DoCommit(w, r).state)
  {
    var s' := DoCommit(w, r).state;
    forall a | 0 <= a < |s'.agents| ensures AgentOk(s', s'.agents[a]) {
      if a < |w.state.agents| {
        assert AgentOk(w.state, w.state.agents[a]);
      }
    }
  }

  ghost predicate TimelyMoves(w: World, moves: seq<Move>)
    decreases |moves|
  {
    moves != [] ==> Timely(w.state) && TimelyMoves(NextWorld(w, moves[0]), moves[1..])
  }

  predicate HarmlessMoves(w: World, moves: seq<Move>)
    decreases |moves|
  {
    moves != [] ==>
      && (moves[0].Commit? && IsOpen(w, moves[0].read) ==>
            IsHarmless(w.state, w.requests[moves[0].read].status, w.requests[moves[0].read].event))
      && HarmlessMoves(NextWorld(w, moves[0]), moves[1..])
  }

  /** The safety invariant holds at every moment of the run. */
  ghost predicate InvThroughout(w: World, moves: seq<Move>)
    decreases |moves|
  {
    Inv(w.state) && (moves != [] ==> InvThroughout(NextWorld(w, moves[0]), moves[1..]))
  }

  /** With unlocked requests, a timely run is safe from beginning to end if and only if every late commit in it
      is harmless. */
  lemma {:induction false} SplitRunIsSafeIff(w: World, moves: seq<Move>)
    requires Inv(w.state) && TimelyMoves(w, moves)
    ensures InvThroughout(w, moves) <==> HarmlessMoves(w, moves)
    decreases |moves|
  {
    if moves != [] {
      match moves[0] {
        case Plain(step) => StepKeepsInv(w.state, step);
        case Look(_) =>
        case Commit(r) =>
          if IsOpen(w, r) {
            CommitKeepsInvIff(w, r);
          }
      }
      if Inv(NextWorld(w, moves[0]).state) {
        SplitRunIsSafeIff(NextWorld(w, moves[0]), moves[1..]);
      }
    }
  }

  // ---------------------------------------------------------------------------------------------
  // A harmful commit happens: two requests with the same key and two workers

  lemma {:induction false} RunWorldAppend(w: World, first: seq<Move>, second: seq<Move>)
    ensures RunWorld(w, first + second) == RunWorld(RunWorld(w, first), second)
    decreases |first|
  {
    if first == [] {
      assert first + second == second;
    } else {
      assert (first + second)[1..] == first[1..] + second;
      RunWorldAppend(NextWorld(w, first[0]), first[1..], second);
    }
  }

  lemma RunWorldThree(w: World, a: Move, b: Move, c: Move)
    ensures RunWorld(w, [a, b, c]) == NextWorld(NextWorld(NextWorld(w, a), b), c)
  {
    var w1 := NextWorld(w, a);
    var w2 := NextWorld(w1, b);
    assert [a, b, c][1..] == [b, c] && [b, c][1..] == [c] && [c][1..] == [];
    assert RunWorld(w2, [c]) == RunWorld(NextWorld(w2, c), []);
    assert RunWorld(w1, [b, c]) == RunWorld(w2, [c]);
  }

  lemma RunWorldFour(w: World, a: Move, b: Move, c: Move, d: Move)
    ensures RunWorld(w, [a, b, c, d]) == NextWorld(NextWorld(NextWorld(NextWorld(w, a), b), c), d)
  {
    assert [a, b, c, d][1..] == [b, c, d];
    RunWorldThree(NextWorld(w, a), b, c, d);
  }

  const START := World(INITIAL, [])

  /** The first request creates the event; both requests read "received"; the second one commits. */
  const BOTH_READ: seq<Move> := [Plain(IngestAborted(4)), Look(0), Look(0), Commit(1)]

  const SECOND_COMMITTED := World(
    INITIAL.(rows := [NewRow(Queued, 4, 0)], agents := [OwesIncoming(0)]),
    [Read(0, Received, true), Read(0, Received, false)])

  lemma BothRead()
    ensures RunWorld(START, BOTH_READ) == SECOND_COMMITTED
  {
    RunWorldFour(START, Plain(IngestAborted(4)), Look(0), Look(0), Commit(1));
    var w1 := NextWorld(START, Plain(IngestAborted(4)));
    assert w1 == World(INITIAL.(rows := [NewRow(Received, 4, 0)]), []);
    var w2 := NextWorld(w1, Look(0));
    assert w2 == w1.(requests := [Read(0, Received, true)]);
    var w3 := NextWorld(w2, Look(0));
    assert w3 == w1.(requests := [Read(0, Received, true), Read(0, Received, true)]);
  }

  /** A worker claims the event, and only then the first request commits. */
  const LATE_COMMIT: seq<Move> := [Plain(PublishIncoming(0)), Plain(Deliver(0, 0)), Plain(Claim(1)), Commit(0)]

  const REQUEUED := World(
    INITIAL.(rows := [NewRow(Queued, 4, 0)], entries := [Entry(Incoming, Id(0), Pending(0, 0))],
             agents := [Done, Holding(0, 0, 0, 4, 0), OwesIncoming(0)]),
    [Read(0, Received, false), Read(0, Received, false)])

  lemma LateCommit()
    ensures RunWorld(SECOND_COMMITTED, LATE_COMMIT) == REQUEUED
  {
    RunWorldFour(SECOND_COMMITTED, Plain(PublishIncoming(0)), Plain(Deliver(0, 0)), Plain(Claim(1)), Commit(0));
    var w1 := NextWorld(SECOND_COMMITTED, Plain(PublishIncoming(0)));
    assert w1 == SECOND_COMMITTED.(state := SECOND_COMMITTED.state.(
      entries := [Entry(Incoming, Id(0), Undelivered)], agents := [Done]));
    var w2 := NextWorld(w1, Plain(Deliver(0, 0)));
    assert w2 == w1.(state := w1.state.(
      entries := [Entry(Incoming, Id(0), Pending(0, 0))], agents := [Done, Claiming(0)]));
    var w3 := NextWorld(w2, Plain(Claim(1)));
    assert w3 == w2.(state := w2.state.(
      rows := [ClaimRow(NewRow(Queued, 4, 0), 0)], agents := [Done, Holding(0, 0, 0, 4, 0)]));
  }

  /** The first request's message reaches a second worker. */
  const SECOND_CLAIM: seq<Move> := [Plain(PublishIncoming(2)), Plain(Deliver(1, 1)), Plain(Claim(3))]

  const TWO_HOLDERS := World(
    INITIAL.(rows := [ClaimRow(NewRow(Queued, 4, 0), 0)],
             entries := [Entry(Incoming, Id(0), Pending(0, 0)), Entry(Incoming, Id(0), Pending(1, 0))],
             agents := [Done, Holding(0, 0, 0, 4, 0), Done, Holding(1, 0, 0, 4, 0)]),
    REQUEUED.requests)

  lemma SecondClaim()
    ensures RunWorld(REQUEUED, SECOND_CLAIM) == TWO_HOLDERS
  {
    RunWorldThree(REQUEUED, Plain(PublishIncoming(2)), Plain(Deliver(1, 1)), Plain(Claim(3)));
    var w1 := NextWorld(REQUEUED, Plain(PublishIncoming(2)));
    assert w1 == REQUEUED.(state := REQUEUED.state.(
      entries := [Entry(Incoming, Id(0), Pending(0, 0)), Entry(Incoming, Id(0), Undelivered)],
      agents := [Done, Holding(0, 0, 0, 4, 0), Done]));
    var w2 := NextWorld(w1, Plain(Deliver(1, 1)));
    assert w2 == w1.(state := w1.state.(
      entries := TWO_HOLDERS.state.entries, agents := [Done, Holding(0, 0, 0, 4, 0), Done, Claiming(1)]));
    assert NextWorld(w2, Plain(Claim(3))) == TWO_HOLDERS;
  }

  /** Two requests with the same key, no delay and no fault: two workers hold the event at once, and if both
      succeed the event has two success rows. */
  lemma LateCommitMakesTwoHolders()
    ensures RunWorld(START, BOTH_READ + LATE_COMMIT + SECOND_CLAIM) == TWO_HOLDERS
    ensures !Exclusive(TWO_HOLDERS.state)
    ensures var end := Run(TWO_HOLDERS.state, [Succeed(1)] + [Succeed(3)]);
            |end.rows| == 1 && |Numbers(end.rows[0].attempts, Won)| == 2
  {
    BothRead();
    LateCommit();
    SecondClaim();
    RunWorldAppend(START, BOTH_READ, LATE_COMMIT);
    RunWorldAppend(START, BOTH_READ + LATE_COMMIT, SECOND_CLAIM);
    assert TWO_HOLDERS.state.agents[1].event == TWO_HOLDERS.state.agents[3].event;
    TwoSuccesses();
  }

  lemma TwoSuccesses()
    ensures var end := Run(TWO_HOLDERS.state, [Succeed(1)] + [Succeed(3)]);
            |end.rows| == 1 && |Numbers(end.rows[0].attempts, Won)| == 2
  {
    var s := TWO_HOLDERS.state;
    RunOneMore(s, [], Succeed(1));
    assert [] + [Succeed(1)] == [Succeed(1)];
    RunOneMore(s, [Succeed(1)], Succeed(3));
    var first := Next(s, Succeed(1));
    assert first.agents[3] == Holding(1, 0, 0, 4, 0);
    NumbersAppend([], Attempt(1, Won), Won);
    NumbersAppend([] + [Attempt(1, Won)], Attempt(1, Won), Won);
    assert first.rows[0].attempts == [] + [Attempt(1, Won)];
  }
}
