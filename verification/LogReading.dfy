/** Cursor reads: pages of the log, and a reader that follows the returned offsets. */
module LogReading {
  import opened Basics
  import opened Wal
  import opened WalDurability
  import opened LogRuns

  /** The first `limit` records after offset `start`, in log order. */
  function Page(records: seq<Record>, start: int, limit: nat): (page: seq<Record>) {
    if records == [] || limit == 0 then []
    else if records[0].offset <= start then Page(records[1..], start, limit)
    else [records[0]] + Page(records[1..], start, limit - 1)
  }

  function NextOffset(page: seq<Record>, start: int): (next: int) {
    if page == [] then start else page[|page| - 1].offset
  }

  function PageSize(limit: int): (size: nat)
    ensures size > 0
  {
    if limit <= 0 then 100 else limit
  }

  /** A page has only records behind the offset, at most as many as asked for, and all of them if fewer. */
  lemma {:induction false} PageMeans(records: seq<Record>, start: int, limit: nat)
    ensures var page := Page(records, start, limit);
            && |page| <= limit
            && (forall k :: 0 <= k < |page| ==> page[k] in records && page[k].offset > start)
            && (|page| < limit ==> forall k :: 0 <= k < |records| && records[k].offset > start ==> records[k] in page)
    decreases |records|
  {
    if records != [] && limit > 0 {
      PageMeans(records[1..], start, if records[0].offset <= start then limit else limit - 1);
      assert forall k :: 0 < k < |records| ==> records[k] == records[1..][k - 1];
    }
  }

  /** How many records lie at or before an offset. */
  function Position(records: seq<Record>, start: int): (position: nat)
    ensures position <= |records|
  {
    if records == [] || records[0].offset > start then 0 else 1 + Position(records[1..], start)
  }

  lemma {:induction false} PositionSplits(records: seq<Record>, start: int)
    requires Increasing(records)
    ensures forall i :: 0 <= i < |records| ==> (i < Position(records, start) <==> records[i].offset <= start)
    decreases |records|
  {
    if records != [] && records[0].offset <= start {
      var rest := records[1..];
      PositionSplits(rest, start);
      forall i | 0 <= i < |records| ensures i < Position(records, start) <==> records[i].offset <= start {
        if i > 0 {
          assert records[i] == rest[i - 1];
        }
      }
    }
  }

  lemma PositionIs(records: seq<Record>, start: int, i: nat)
    requires Increasing(records) && i <= |records|
    requires i > 0 ==> records[i - 1].offset <= start
    requires i < |records| ==> records[i].offset > start
    ensures Position(records, start) == i
  {
    PositionSplits(records, start);
  }

  lemma {:induction false} PageFromHere(records: seq<Record>, start: int, limit: nat)
    requires Increasing(records) && (records != [] ==> records[0].offset > start)
    ensures Page(records, start, limit) == records[..Least(limit, |records|)]
    decreases |records|
  {
    if records != [] && limit > 0 {
      PageFromHere(records[1..], start, limit - 1);
      var n := Least(limit, |records|);
      assert records[..n] == [records[0]] + records[1..][..n - 1];
    }
  }

  /** A page is a contiguous piece of the log, whatever gaps the offsets have. */
  lemma {:induction false} PageIsSlice(records: seq<Record>, start: int, limit: nat)
    requires Increasing(records)
    ensures var i := Position(records, start);
            Page(records, start, limit) == records[i..Least(i + limit, |records|)]
    decreases |records|
  {
    if records == [] || records[0].offset > start {
      PageFromHere(records, start, limit);
    } else {
      PageIsSlice(records[1..], start, limit);
    }
  }

  /** The returned offset is the position behind the page. */
  lemma NextIsBehindPage(records: seq<Record>, start: int, limit: nat)
    requires Increasing(records)
    ensures var i := Position(records, start);
            var next := NextOffset(Page(records, start, limit), start);
            next >= start && Position(records, next) == Least(i + limit, |records|)
  {
    var i := Position(records, start);
    var j := Least(i + limit, |records|);
    PageIsSlice(records, start, limit);
    PositionSplits(records, start);
    if i < j {
      PositionIs(records, records[j - 1].offset, j);
    }
  }

  lemma SlicesJoin(records: seq<Record>, i: nat, j: nat, k: nat)
    requires i <= j <= k <= |records|
    ensures records[i..j] + records[j..k] == records[i..k]
  {
  }

  lemma PrefixIncreasing(before: seq<Record>, after: seq<Record>)
    requires Increasing(after) && before <= after
    ensures Increasing(before)
  {
  }

  /** A cursor that points into the log, or at the offset of its last record. */
  predicate IsAnchored(records: seq<Record>, cursor: int) {
    Position(records, cursor) < |records| || (records != [] && records[|records| - 1].offset == cursor)
  }

  lemma AnchoredGrows(before: seq<Record>, after: seq<Record>, cursor: int)
    requires Increasing(after) && before <= after && IsAnchored(before, cursor)
    ensures Position(after, cursor) == Position(before, cursor) && IsAnchored(after, cursor)
  {
    PrefixIncreasing(before, after);
    PositionSplits(before, cursor);
    var i := Position(before, cursor);
    assert i > 0 ==> after[i - 1] == before[i - 1];
    assert i < |before| ==> after[i] == before[i];
    PositionIs(after, cursor, i);
  }

  /** The reader has seen nothing yet, or exactly the records between its start and its cursor. */
  predicate ReaderOk(records: seq<Record>, start: int, cursor: int, seen: seq<Record>) {
    || (cursor == start && seen == [])
    || (&& Position(records, start) < |records| && IsAnchored(records, cursor)
        && Position(records, start) <= Position(records, cursor)
        && seen == records[Position(records, start)..Position(records, cursor)])
  }

  lemma ReaderOkGrows(before: seq<Record>, after: seq<Record>, start: int, cursor: int, seen: seq<Record>)
    requires Increasing(after) && before <= after && ReaderOk(before, start, cursor, seen)
    ensures ReaderOk(after, start, cursor, seen)
  {
    if !(cursor == start && seen == []) {
      AnchoredGrows(before, after, start);
      AnchoredGrows(before, after, cursor);
      var i, j := Position(after, start), Position(after, cursor);
      assert before[i..j] == after[i..j];
    }
  }

  lemma ReaderOkPage(records: seq<Record>, start: int, cursor: int, seen: seq<Record>, limit: nat)
    requires Increasing(records) && limit > 0 && ReaderOk(records, start, cursor, seen)
    ensures var page := Page(records, cursor, limit);
            ReaderOk(records, start, NextOffset(page, cursor), seen + page)
  {
    var page := Page(records, cursor, limit);
    var next := NextOffset(page, cursor);
    PageIsSlice(records, cursor, limit);
    NextIsBehindPage(records, cursor, limit);
    var i, j, k := Position(records, start), Position(records, cursor), Position(records, next);
    if page == [] {
      assert seen + page == seen;
    } else {
      PageAnchors(records, cursor, limit);
      if cursor == start && seen == [] {
        assert seen + page == records[i..k];
      } else {
        SlicesJoin(records, i, j, k);
      }
    }
  }

  /** The offset returned with a page is that of a record. */
  lemma PageAnchors(records: seq<Record>, cursor: int, limit: nat)
    requires Increasing(records) && limit > 0 && Page(records, cursor, limit) != []
    ensures Position(records, cursor) < |records|
    ensures IsAnchored(records, NextOffset(Page(records, cursor, limit), cursor))
  {
    PageIsSlice(records, cursor, limit);
    NextIsBehindPage(records, cursor, limit);
  }

  // ---------------------------------------------------------------------------------------------
  // A reader beside a running store

  /** The store, and a reader that passes each returned offset to its next call. */
  datatype Session = Session(log: Log, cursor: int, seen: seq<Record>)

  datatype Action = Write(op: Op) | Read(limit: int)

  function NextSession(c: Codec, s: Session, action: Action): (s': Session) {
    match action
    case Write(op) => s.(log := NextLog(c, s.log, op))
    case Read(limit) =>
      var page := Page(s.log.records, s.cursor, PageSize(limit));
      s.(cursor := NextOffset(page, s.cursor), seen := s.seen + page)
  }

  function RunSession(c: Codec, s: Session, actions: seq<Action>): (s': Session)
    decreases |actions|
  {
    if actions == [] then s else RunSession(c, NextSession(c, s, actions[0]), actions[1..])
  }

  /** What the reader was promised: everything between its start and its cursor, once and in order. */
  predicate HasSeenAll(records: seq<Record>, start: int, cursor: int, seen: seq<Record>) {
    && Position(records, start) <= Position(records, cursor)
    && seen == records[Position(records, start)..Position(records, cursor)]
  }

  lemma OkHasSeenAll(records: seq<Record>, start: int, cursor: int, seen: seq<Record>)
    requires ReaderOk(records, start, cursor, seen)
    ensures HasSeenAll(records, start, cursor, seen)
  {
  }

  predicate IsAppendOrRead(action: Action) {
    action.Read? || action.op.Append?
  }

  lemma AppendKeepsReaderOk(c: Codec, s: Session, start: int, op: Op)
    requires Good(c) && LogInv(c, s.log) && ReaderOk(s.log.records, start, s.cursor, s.seen) && op.Append?
    ensures LogInv(c, NextLog(c, s.log, op)) && ReaderOk(NextLog(c, s.log, op).records, start, s.cursor, s.seen)
  {
    StepKeepsLogInv(c, s.log, op);
    ReaderOkGrows(s.log.records, NextLog(c, s.log, op).records, start, s.cursor, s.seen);
  }

  lemma {:induction false} ReaderStaysOk(c: Codec, s: Session, start: int, actions: seq<Action>)
    requires Good(c) && LogInv(c, s.log) && ReaderOk(s.log.records, start, s.cursor, s.seen)
    requires forall k :: 0 <= k < |actions| ==> IsAppendOrRead(actions[k])
    ensures var end := RunSession(c, s, actions);
            ReaderOk(end.log.records, start, end.cursor, end.seen)
    decreases |actions|
  {
    if actions != [] {
      match actions[0]
      case Write(op) =>
        AppendKeepsReaderOk(c, s, start, op);
        ReaderStaysOk(c, NextSession(c, s, actions[0]), start, actions[1..]);
      case Read(limit) =>
        ReaderOkPage(s.log.records, start, s.cursor, s.seen, PageSize(limit));
        ReaderStaysOk(c, NextSession(c, s, actions[0]), start, actions[1..]);
    }
  }

  /** Paged reading: whatever the limits, and whatever is appended in between, with or without success, the
      reader has seen exactly the records after its start and up to its cursor, each once and in order. */
  lemma {:induction false} ReaderSeesAll(c: Codec, log: Log, start: int, actions: seq<Action>)
    requires Good(c) && LogInv(c, log)
    requires forall k :: 0 <= k < |actions| ==> IsAppendOrRead(actions[k])
    ensures var end := RunSession(c, Session(log, start, []), actions);
            HasSeenAll(end.log.records, start, end.cursor, end.seen)
  {
    ReaderStaysOk(c, Session(log, start, []), start, actions);
    var end := RunSession(c, Session(log, start, []), actions);
    OkHasSeenAll(end.log.records, start, end.cursor, end.seen);
  }

  lemma {:induction false} PageCompacted(c: Codec, records: seq<Record>, start: int, limit: nat)
    requires AllStable(c, records)
    ensures Page(Compacted(c, records), start, limit) == Compacted(c, Page(records, start, limit))
    ensures NextOffset(Page(Compacted(c, records), start, limit), start) == NextOffset(Page(records, start, limit), start)
    ensures AllStable(c, Page(records, start, limit))
    decreases |records|
  {
    if records != [] && limit > 0 {
      assert IsStable(c, records[0]);
      assert Compacted(c, records)[1..] == Compacted(c, records[1..]);
      PageCompacted(c, records[1..], start, if records[0].offset <= start then limit else limit - 1);
    }
  }

  lemma CompactedJoin(c: Codec, left: seq<Record>, right: seq<Record>)
    ensures Compacted(c, left + right) == Compacted(c, left) + Compacted(c, right)
  {
  }

  lemma IncreasingCompacted(c: Codec, records: seq<Record>)
    requires AllStable(c, records) && Increasing(records)
    ensures Increasing(Compacted(c, records))
  {
    assert forall k :: 0 <= k < |records| ==> IsStable(c, records[k]);
  }

  /** A step without failed writes extends the log as the reader sees it, or leaves it alone. */
  lemma WriteExtendsCompacted(c: Codec, log: Log, op: Op)
    requires Good(c) && LogInv(c, log) && InStep(c, log) && (op.Append? ==> op.fate == Durable)
    ensures Compacted(c, log.records) <= Compacted(c, NextLog(c, log, op).records)
    ensures Increasing(Compacted(c, NextLog(c, log, op).records))
  {
    StepKeepsLogInv(c, log, op);
    StepKeepsInStep(c, log, op);
    IncreasingCompacted(c, NextLog(c, log, op).records);
    if Reopens(log, op) {
      assert log.wal[..op.keep] == log.wal;
      CompactedTwice(c, log.records);
    }
  }

  lemma ReadCompacted(c: Codec, s: Session, start: int, limit: int)
    requires LogInv(c, s.log) && InStep(c, s.log)
    requires ReaderOk(Compacted(c, s.log.records), start, s.cursor, Compacted(c, s.seen))
    ensures var s' := NextSession(c, s, Read(limit));
            ReaderOk(Compacted(c, s.log.records), start, s'.cursor, Compacted(c, s'.seen))
  {
    IncreasingCompacted(c, s.log.records);
    PageCompacted(c, s.log.records, s.cursor, PageSize(limit));
    CompactedJoin(c, s.seen, Page(s.log.records, s.cursor, PageSize(limit)));
    ReaderOkPage(Compacted(c, s.log.records), start, s.cursor, Compacted(c, s.seen), PageSize(limit));
  }

  lemma {:induction false} ReaderStaysOkAcross(c: Codec, s: Session, start: int, actions: seq<Action>)
    requires Good(c) && LogInv(c, s.log) && InStep(c, s.log)
    requires ReaderOk(Compacted(c, s.log.records), start, s.cursor, Compacted(c, s.seen))
    requires forall k :: 0 <= k < |actions| && actions[k].Write? && actions[k].op.Append? ==> actions[k].op.fate == Durable
    ensures var end := RunSession(c, s, actions);
            ReaderOk(Compacted(c, end.log.records), start, end.cursor, Compacted(c, end.seen))
    decreases |actions|
  {
    if actions != [] {
      match actions[0]
      case Write(op) =>
        StepKeepsLogInv(c, s.log, op);
        StepKeepsInStep(c, s.log, op);
        WriteExtendsCompacted(c, s.log, op);
        ReaderOkGrows(Compacted(c, s.log.records), Compacted(c, NextLog(c, s.log, op).records), start, s.cursor,
                      Compacted(c, s.seen));
        ReaderStaysOkAcross(c, NextSession(c, s, actions[0]), start, actions[1..]);
      case Read(limit) =>
        ReadCompacted(c, s, start, limit);
        ReaderStaysOkAcross(c, NextSession(c, s, actions[0]), start, actions[1..]);
    }
  }

  /** As long as writes succeed, the promise holds across crashes and reopenings, up to compaction. */
  lemma {:induction false} ReaderSeesAllAcrossReopenings(c: Codec, log: Log, start: int, actions: seq<Action>)
    requires Good(c) && LogInv(c, log) && InStep(c, log)
    requires forall k :: 0 <= k < |actions| && actions[k].Write? && actions[k].op.Append? ==> actions[k].op.fate == Durable
    ensures var end := RunSession(c, Session(log, start, []), actions);
            HasSeenAll(Compacted(c, end.log.records), start, end.cursor, Compacted(c, end.seen))
  {
    assert Compacted(c, []) == [];
    ReaderStaysOkAcross(c, Session(log, start, []), start, actions);
    var end := RunSession(c, Session(log, start, []), actions);
    OkHasSeenAll(Compacted(c, end.log.records), start, end.cursor, Compacted(c, end.seen));
  }

  /** Each call on an unchanged log moves the cursor on, unless it is at the end. */
  lemma {:induction false} CursorMoves(c: Codec, s: Session, actions: seq<Action>)
    requires Increasing(s.log.records) && forall k :: 0 <= k < |actions| ==> actions[k].Read?
    ensures var records := s.log.records;
            && RunSession(c, s, actions).log == s.log
            && Position(records, RunSession(c, s, actions).cursor) >= Least(Position(records, s.cursor) + |actions|, |records|)
    decreases |actions|
  {
    if actions != [] {
      NextIsBehindPage(s.log.records, s.cursor, PageSize(actions[0].limit));
      CursorMoves(c, NextSession(c, s, actions[0]), actions[1..]);
    }
  }

  /** Without new appends the reader has seen everything after at most as many calls as records are left. */
  lemma {:induction false} ReaderReachesEnd(c: Codec, log: Log, start: int, actions: seq<Action>)
    requires Good(c) && LogInv(c, log) && forall k :: 0 <= k < |actions| ==> actions[k].Read?
    requires Position(log.records, start) + |actions| >= |log.records|
    ensures RunSession(c, Session(log, start, []), actions).seen == log.records[Position(log.records, start)..]
  {
    ReaderSeesAll(c, log, start, actions);
    CursorMoves(c, Session(log, start, []), actions);
  }

  // ---------------------------------------------------------------------------------------------
  // What a reader can miss

  lemma {:induction false} PageIsAhead(records: seq<Record>, start: int, limit: nat)
    ensures forall k :: 0 <= k < |Page(records, start, limit)| ==> Page(records, start, limit)[k].offset > start
    decreases |records|
  {
    if records != [] && limit > 0 {
      PageIsAhead(records[1..], start, if records[0].offset <= start then limit else limit - 1);
    }
  }

  lemma {:induction false} SeenIsAhead(c: Codec, s: Session, actions: seq<Action>)
    ensures var end := RunSession(c, s, actions);
            && s.seen <= end.seen && s.cursor <= end.cursor
            && forall k :: |s.seen| <= k < |end.seen| ==> end.seen[k].offset > s.cursor
    decreases |actions|
  {
    if actions != [] {
      var next := NextSession(c, s, actions[0]);
      if actions[0].Read? {
        PageIsAhead(s.log.records, s.cursor, PageSize(actions[0].limit));
      }
      SeenIsAhead(c, next, actions[1..]);
    }
  }

  /** The reader gets the record at some later moment. */
  ghost predicate WillSee(c: Codec, s: Session, r: Record) {
    exists actions, k :: IsSeenAt(c, s, r, actions, k)
  }

  predicate IsSeenAt(c: Codec, s: Session, r: Record, actions: seq<Action>, k: nat) {
    |s.seen| <= k < |RunSession(c, s, actions).seen| && RunSession(c, s, actions).seen[k] == r
  }

  /** A record in the store still reaches the reader if and only if its offset is beyond the cursor. */
  lemma StillSeenIff(c: Codec, s: Session, i: nat)
    requires Increasing(s.log.records) && i < |s.log.records|
    ensures WillSee(c, s, s.log.records[i]) <==> s.log.records[i].offset > s.cursor
  {
    var records, r := s.log.records, s.log.records[i];
    if actions, k :| IsSeenAt(c, s, r, actions, k) {
      SeenIsAhead(c, s, actions);
    }
    if r.offset > s.cursor {
      var position := Position(records, s.cursor);
      PositionSplits(records, s.cursor);
      PageIsSlice(records, s.cursor, PageSize(|records|));
      var actions := [Read(|records|)];
      assert actions[1..] == [];
      assert RunSession(c, s, actions) == NextSession(c, s, actions[0]);
      assert IsSeenAt(c, s, r, actions, |s.seen| + i - position);
    }
  }

  /** Two events; the sync of the first one fails, the second one is read, and the store is opened again. */
  function SyncFailure(c: Codec, event: Bytes, at: int): (actions: seq<Action>)
  {
    var file := RunLog(c, EMPTY_LOG, [Append(event, at, SyncFails), Append(event, at, Durable)]).wal;
    [Write(Append(event, at, SyncFails)), Write(Append(event, at, Durable)), Read(1), Write(Restart(|file|))]
  }

  lemma TwoAppendsLog(c: Codec, event: Bytes, at: int)
    requires Encodes(c, Record(1, at, event)) && Encodes(c, Record(2, at, event))
    ensures var file := [] + Written(c, Record(1, at, event)) + Written(c, Record(2, at, event));
            NextLog(c, NextLog(c, EMPTY_LOG, Append(event, at, SyncFails)), Append(event, at, Durable)) ==
            Log(file, |file|, [Record(2, at, event)], 2)
  {
    assert NextLog(c, EMPTY_LOG, Append(event, at, SyncFails)) == Log([] + Written(c, Record(1, at, event)), 0, [], 1);
  }

  lemma TwoAppends(c: Codec, event: Bytes, at: int)
    requires Good(c) && Encodes(c, Record(1, at, event)) && Encodes(c, Record(2, at, event))
    ensures var log := NextLog(c, NextLog(c, EMPTY_LOG, Append(event, at, SyncFails)), Append(event, at, Durable));
            && log.records == [Record(2, at, event)] && log.synced == |log.wal|
            && Recover(c, log.wal) == [c.compact(Record(1, at, event)), c.compact(Record(2, at, event))]
  {
    TwoAppendsLog(c, event, at);
    TwoLines(c, Record(1, at, event), Record(2, at, event));
  }

  lemma TwoLines(c: Codec, first: Record, second: Record)
    requires Good(c) && Encodes(c, first) && Encodes(c, second)
    ensures Recover(c, [] + Written(c, first) + Written(c, second)) == [c.compact(first), c.compact(second)]
  {
    AppendDurableIffClean(c, [], first);
    AppendDurableIffClean(c, [] + Written(c, first), second);
  }

  /** A record whose sync failed comes back with a reopening, behind the cursor: this reader never sees it. */
  lemma SyncFailureIsMissed(c: Codec, event: Bytes, at: int)
    requires Good(c) && Encodes(c, Record(1, at, event)) && Encodes(c, Record(2, at, event))
    ensures var s := RunSession(c, Session(EMPTY_LOG, 0, []), SyncFailure(c, event, at));
            && s.log.records == [c.compact(Record(1, at, event)), c.compact(Record(2, at, event))]
            && s.seen == [Record(2, at, event)] && !WillSee(c, s, s.log.records[0])
  {
    TwoAppends(c, event, at);
    var first, second := Record(1, at, event), Record(2, at, event);
    assert RoundTrips(c, first) && RoundTrips(c, second);
    var log1 := NextLog(c, EMPTY_LOG, Append(event, at, SyncFails));
    var log2 := NextLog(c, log1, Append(event, at, Durable));
    SyncFailureRun(c, event, at, log1, log2);
    StillSeenIff(c, RunSession(c, Session(EMPTY_LOG, 0, []), SyncFailure(c, event, at)), 0);
  }

  lemma SyncFailureRun(c: Codec, event: Bytes, at: int, log1: Log, log2: Log)
    requires log1 == NextLog(c, EMPTY_LOG, Append(event, at, SyncFails))
    requires log2 == NextLog(c, log1, Append(event, at, Durable))
    requires log2.records == [Record(2, at, event)] && log2.synced == |log2.wal|
    ensures RunSession(c, Session(EMPTY_LOG, 0, []), SyncFailure(c, event, at)) ==
            Session(Opened(c, log2.wal, log2.synced), 2, [Record(2, at, event)])
  {
    var actions := SyncFailure(c, event, at);
    var ops := [Append(event, at, SyncFails), Append(event, at, Durable)];
    assert ops[1..] == [ops[1]] && ops[1..][1..] == [];
    assert RunLog(c, EMPTY_LOG, ops) == RunLog(c, log1, ops[1..]) == log2;
    var s0 := Session(EMPTY_LOG, 0, []);
    var s2 := Session(log2, 0, []);
    assert Page(log2.records, 0, 1) == [Record(2, at, event)];
    var s3 := NextSession(c, s2, Read(1));
    assert s3 == Session(log2, 2, [Record(2, at, event)]);
    assert log2.wal[..|log2.wal|] == log2.wal;
    var s4 := NextSession(c, s3, Write(Restart(|log2.wal|)));
    assert actions[1..][1..][1..][1..] == [];
    assert RunSession(c, s3, actions[1..][1..][1..]) == s4;
    assert RunSession(c, s2, actions[1..][1..]) == s4;
    assert RunSession(c, s0, actions) == s4;
  }
}
