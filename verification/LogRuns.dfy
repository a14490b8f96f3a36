/** Runs of the log store: appends that succeed or fail, crashes that cut the file, and reopenings. */
module LogRuns {
  import opened Basics
  import opened Wal
  import opened WalDurability

  /** The file, how much of it is synced, and what the process keeps in memory. */
  datatype Log = Log(wal: Bytes, synced: nat, records: seq<Record>, lastOffset: int)

  datatype Fate = Durable | WriteFails(written: nat) | SyncFails

  /** `Restart` keeps the first bytes of the file, at least the synced ones, and opens the log again. */
  datatype Op = Append(event: Bytes, at: int, fate: Fate) | Restart(keep: nat)

  /** The largest offset, 0 if there is none. */
  function LastOffset(records: seq<Record>): (last: int)
    ensures last >= 0
  {
    if records == [] then 0
    else
      var front := LastOffset(records[..|records| - 1]);
      if records[|records| - 1].offset > front then records[|records| - 1].offset else front
  }

  function Opened(c: Codec, wal: Bytes, synced: nat): (log: Log) {
    Log(wal, synced, Recover(c, wal), LastOffset(Recover(c, wal)))
  }

  /** The offset is spent first, so a failed append leaves a gap. */
  function DoAppend(c: Codec, log: Log, event: Bytes, at: int, fate: Fate): (log': Log) {
    var r := Record(log.lastOffset + 1, at, event);
    var spent := log.(lastOffset := log.lastOffset + 1);
    if !Encodes(c, r) then spent
    else
      var bytes := Written(c, r);
      match fate
      case WriteFails(n) => spent.(wal := log.wal + bytes[..Least(n, |bytes|)])
      case SyncFails => spent.(wal := log.wal + bytes)
      case Durable => spent.(wal := log.wal + bytes, synced := |log.wal + bytes|, records := log.records + [r])
  }

  function NextLog(c: Codec, log: Log, op: Op): (log': Log) {
    match op
    case Append(event, at, fate) => DoAppend(c, log, event, at, fate)
    case Restart(keep) =>
      if log.synced <= keep <= |log.wal| then Opened(c, log.wal[..keep], log.synced) else log
  }

  function RunLog(c: Codec, log: Log, ops: seq<Op>): (log': Log)
    decreases |ops|
  {
    if ops == [] then log else RunLog(c, NextLog(c, log, ops[0]), ops[1..])
  }

  ghost predicate Increasing(records: seq<Record>) {
    forall i, j :: 0 <= i < j < |records| ==> records[i].offset < records[j].offset
  }

  ghost predicate Bounded(records: seq<Record>, last: int) {
    forall i :: 0 <= i < |records| ==> records[i].offset <= last
  }

  /** Whatever the scan could find, now or after a cut, has increasing offsets. */
  ghost predicate LogInv(c: Codec, log: Log) {
    && log.synced <= |log.wal|
    && Increasing(log.records) && Bounded(log.records, log.lastOffset)
    && (forall k :: 0 <= k <= |log.wal| ==> Increasing(Recover(c, log.wal[..k])))
    && Bounded(Recover(c, log.wal), log.lastOffset)
    && log.lastOffset >= 0
  }

  lemma {:induction false} LastOffsetBounds(records: seq<Record>)
    ensures Bounded(records, LastOffset(records))
    ensures Increasing(records) && records != [] && records[0].offset > 0 ==>
              LastOffset(records) == records[|records| - 1].offset
  {
    if records != [] {
      LastOffsetBounds(records[..|records| - 1]);
    }
  }

  /** Appending n bytes of a record's line keeps every cut of the file in order. */
  lemma PieceKeepsCuts(c: Codec, wal: Bytes, r: Record, n: nat, k: nat)
    requires Good(c) && Encodes(c, r) && n <= |Written(c, r)| && k <= |wal + Written(c, r)[..n]|
    requires forall j :: 0 <= j <= |wal| ==> Increasing(Recover(c, wal[..j]))
    requires Bounded(Recover(c, wal), r.offset - 1)
    ensures Increasing(Recover(c, (wal + Written(c, r)[..n])[..k]))
    ensures k >= |wal| ==> Bounded(Recover(c, (wal + Written(c, r)[..n])[..k]), r.offset)
  {
    var line, bytes := Line(c, r), wal + Written(c, r)[..n];
    assert RoundTrips(c, r);
    assert wal[..|wal|] == wal;
    if k <= |wal| {
      assert bytes[..k] == wal[..k];
    } else {
      var m := k - |wal|;
      var whole := m > |line|;
      assert bytes[..k] == wal + Piece(c, r, if whole then |line| else m, whole);
      ExtendByPiece(c, wal, r, if whole then |line| else m, whole);
    }
  }

  lemma WrittenKeepsLogInv(c: Codec, log: Log, r: Record, n: nat, log': Log)
    requires Good(c) && LogInv(c, log) && Encodes(c, r) && r.offset == log.lastOffset + 1 && n <= |Written(c, r)|
    requires log'.wal == log.wal + Written(c, r)[..n] && log'.lastOffset == r.offset
    requires log'.synced == log.synced || log'.synced == |log'.wal|
    requires log'.records == log.records || log'.records == log.records + [r]
    ensures LogInv(c, log')
  {
    forall k | 0 <= k <= |log'.wal| ensures Increasing(Recover(c, log'.wal[..k])) {
      PieceKeepsCuts(c, log.wal, r, n, k);
    }
    PieceKeepsCuts(c, log.wal, r, n, |log'.wal|);
    assert log'.wal[..|log'.wal|] == log'.wal;
  }

  lemma RestartKeepsLogInv(c: Codec, log: Log, keep: nat)
    requires LogInv(c, log) && log.synced <= keep <= |log.wal|
    ensures LogInv(c, Opened(c, log.wal[..keep], log.synced))
  {
    var wal := log.wal[..keep];
    LastOffsetBounds(Recover(c, wal));
    forall k | 0 <= k <= |wal| ensures Increasing(Recover(c, wal[..k])) {
      assert wal[..k] == log.wal[..k];
    }
  }

  lemma AppendKeepsLogInv(c: Codec, log: Log, event: Bytes, at: int, fate: Fate)
    requires Good(c) && LogInv(c, log)
    ensures LogInv(c, DoAppend(c, log, event, at, fate))
  {
    if Encodes(c, Record(log.lastOffset + 1, at, event)) {
      EncodedKeepsLogInv(c, log, event, at, fate);
    } else {
      SpentKeepsLogInv(c, log);
      assert DoAppend(c, log, event, at, fate) == log.(lastOffset := log.lastOffset + 1);
    }
  }

  lemma EncodedKeepsLogInv(c: Codec, log: Log, event: Bytes, at: int, fate: Fate)
    requires Good(c) && LogInv(c, log) && Encodes(c, Record(log.lastOffset + 1, at, event))
    ensures LogInv(c, DoAppend(c, log, event, at, fate))
  {
    var r := Record(log.lastOffset + 1, at, event);
    var size := |Written(c, r)|;
    assert Written(c, r)[..size] == Written(c, r);
    WrittenKeepsLogInv(c, log, r, if fate.WriteFails? then Least(fate.written, size) else size,
                       DoAppend(c, log, event, at, fate));
  }

  lemma SpentKeepsLogInv(c: Codec, log: Log)
    requires LogInv(c, log)
    ensures LogInv(c, log.(lastOffset := log.lastOffset + 1))
  {
  }

  /** Over every run of appends, failed appends, crashes and reopenings, the visible records have strictly
      increasing offsets that do not exceed the last offset. */
  lemma {:induction false} LogRunIsOrdered(c: Codec, log: Log, ops: seq<Op>)
    requires Good(c) && LogInv(c, log)
    ensures LogInv(c, RunLog(c, log, ops))
    decreases |ops|
  {
    if ops != [] {
      StepKeepsLogInv(c, log, ops[0]);
      LogRunIsOrdered(c, NextLog(c, log, ops[0]), ops[1..]);
    }
  }

  /** No write fails: an append either is durable or is rejected before anything is written. */
  predicate WritesSucceed(ops: seq<Op>) {
    forall i :: 0 <= i < |ops| ==> ops[i].Append? ==> ops[i].fate == Durable
  }

  /** Compacting again changes nothing, and compacting keeps the offset. */
  ghost predicate IsStable(c: Codec, r: Record) {
    c.compact(c.compact(r)) == c.compact(r) && c.compact(r).offset == r.offset
  }

  ghost predicate AllStable(c: Codec, records: seq<Record>) {
    forall i :: 0 <= i < |records| ==> IsStable(c, records[i])
  }

  lemma CompactedTwice(c: Codec, records: seq<Record>)
    requires AllStable(c, records)
    ensures Compacted(c, Compacted(c, records)) == Compacted(c, records) && AllStable(c, Compacted(c, records))
  {
    forall i | 0 <= i < |records| ensures c.compact(Compacted(c, records)[i]) == Compacted(c, records)[i] {
      assert IsStable(c, records[i]);
    }
  }

  /** The memory is the file, up to compaction. */
  ghost predicate InStep(c: Codec, log: Log) {
    && IsClean(c, log.wal) && log.synced == |log.wal|
    && Recover(c, log.wal) == Compacted(c, log.records)
    && AllStable(c, log.records)
  }

  lemma AppendKeepsInStep(c: Codec, log: Log, r: Record)
    requires Good(c) && InStep(c, log) && Encodes(c, r)
    ensures IsClean(c, log.wal + Written(c, r))
    ensures Recover(c, log.wal + Written(c, r)) == Compacted(c, log.records + [r])
  {
    AppendDurableIffClean(c, log.wal, r);
    CompactedLast(c, [], log.records + [r]);
    assert (log.records + [r])[..|log.records|] == log.records;
    assert [] + Compacted(c, log.records + [r]) == Compacted(c, log.records + [r]);
    assert [] + Compacted(c, log.records) == Compacted(c, log.records);
  }

  lemma AllStableAppend(c: Codec, records: seq<Record>, r: Record)
    requires Good(c) && AllStable(c, records) && Encodes(c, r)
    ensures AllStable(c, records + [r])
  {
    assert RoundTrips(c, r);
    assert IsStable(c, r);
  }

  lemma DurableKeepsInStep(c: Codec, log: Log, event: Bytes, at: int)
    requires Good(c) && InStep(c, log)
    ensures InStep(c, DoAppend(c, log, event, at, Durable))
  {
    var r := Record(log.lastOffset + 1, at, event);
    if Encodes(c, r) {
      AppendKeepsInStep(c, log, r);
      AllStableAppend(c, log.records, r);
    }
  }

  lemma ReopenKeepsInStep(c: Codec, log: Log)
    requires InStep(c, log)
    ensures InStep(c, Opened(c, log.wal, log.synced))
  {
    CompactedTwice(c, log.records);
  }

  lemma StepKeepsInStep(c: Codec, log: Log, op: Op)
    requires Good(c) && InStep(c, log) && (op.Append? ==> op.fate == Durable)
    ensures InStep(c, NextLog(c, log, op))
  {
    if op.Append? {
      DurableKeepsInStep(c, log, op.event, op.at);
    } else if log.synced <= op.keep <= |log.wal| {
      assert log.wal[..op.keep] == log.wal;
      ReopenKeepsInStep(c, log);
    }
  }

  /** Refinement: as long as writes succeed, every reopening gives back the records of the process before
      it, compacted, and the memory never runs ahead of the file. */
  lemma {:induction false} LogRunStaysInStep(c: Codec, log: Log, ops: seq<Op>)
    requires Good(c) && InStep(c, log) && WritesSucceed(ops)
    ensures InStep(c, RunLog(c, log, ops))
    ensures var end := RunLog(c, log, ops);
            Opened(c, end.wal, end.synced).records == Compacted(c, end.records)
    decreases |ops|
  {
    if ops != [] {
      StepKeepsInStep(c, log, ops[0]);
      LogRunStaysInStep(c, NextLog(c, log, ops[0]), ops[1..]);
    }
  }

  lemma {:induction false} LastOffsetCompacted(c: Codec, records: seq<Record>)
    requires AllStable(c, records)
    ensures LastOffset(Compacted(c, records)) == LastOffset(records)
    decreases |records|
  {
    if records != [] {
      var front := records[..|records| - 1];
      assert Compacted(c, records)[..|records| - 1] == Compacted(c, front);
      LastOffsetCompacted(c, front);
      assert IsStable(c, records[|records| - 1]);
    }
  }

  lemma LastOffsetIsBounded(records: seq<Record>, last: int)
    requires Bounded(records, last) && last >= 0
    ensures LastOffset(records) <= last
  {
  }

  lemma LastOffsetAppend(records: seq<Record>, r: Record)
    requires Bounded(records, r.offset - 1) && r.offset > 0
    ensures LastOffset(records + [r]) == r.offset
  {
    assert (records + [r])[..|records|] == records;
    LastOffsetIsBounded(records, r.offset - 1);
  }

  lemma {:induction false} RunLogLast(c: Codec, log: Log, ops: seq<Op>)
    requires ops != []
    ensures RunLog(c, log, ops) == NextLog(c, RunLog(c, log, ops[..|ops| - 1]), ops[|ops| - 1])
    decreases |ops|
  {
    if |ops| > 1 {
      assert ops[1..][..|ops| - 2] == ops[..|ops| - 1][1..];
      RunLogLast(c, NextLog(c, log, ops[0]), ops[1..]);
    } else {
      assert ops[1..] == [] && ops[..0] == [];
    }
  }

  predicate Reopens(log: Log, op: Op) {
    op.Restart? && log.synced <= op.keep <= |log.wal|
  }

  predicate IsRejected(c: Codec, log: Log, op: Op) {
    op.Append? && !Encodes(c, Record(log.lastOffset + 1, op.at, op.event))
  }

  /** The latest append since the log was opened was rejected because its event is not JSON. */
  predicate EndsRejected(c: Codec, log: Log, ops: seq<Op>) {
    if ops == [] then false
    else
      var before, last := RunLog(c, log, ops[..|ops| - 1]), ops[|ops| - 1];
      if last.Append? then IsRejected(c, before, last)
      else !Reopens(before, last) && EndsRejected(c, log, ops[..|ops| - 1])
  }

  lemma {:induction false} SpentOffsets(c: Codec, log: Log, ops: seq<Op>)
    requires Good(c) && LogInv(c, log) && log.lastOffset == LastOffset(log.records) && WritesSucceed(ops)
    ensures var end := RunLog(c, log, ops);
            end.lastOffset == LastOffset(end.records) <==> !EndsRejected(c, log, ops)
    decreases |ops|
  {
    if ops != [] {
      var front, last := ops[..|ops| - 1], ops[|ops| - 1];
      RunLogLast(c, log, ops);
      SpentOffsets(c, log, front);
      LogRunIsOrdered(c, log, front);
      var before := RunLog(c, log, front);
      LastOffsetIsBounded(before.records, before.lastOffset);
      if last.Append? && !IsRejected(c, before, last) {
        LastOffsetAppend(before.records, Record(before.lastOffset + 1, last.at, last.event));
      }
    }
  }

  /** After any run without failed writes, reopening continues the numbering where the process left it if and
      only if the latest append was not rejected; otherwise it continues behind the last record. */
  lemma ReopenKeepsNumberingIff(c: Codec, log: Log, ops: seq<Op>)
    requires Good(c) && LogInv(c, log) && InStep(c, log) && log.lastOffset == LastOffset(log.records)
    requires WritesSucceed(ops)
    ensures var end := RunLog(c, log, ops);
            && Opened(c, end.wal, end.synced).lastOffset == LastOffset(end.records)
            && (Opened(c, end.wal, end.synced).lastOffset == end.lastOffset <==> !EndsRejected(c, log, ops))
  {
    LogRunStaysInStep(c, log, ops);
    LastOffsetCompacted(c, RunLog(c, log, ops).records);
    SpentOffsets(c, log, ops);
  }

  // ---------------------------------------------------------------------------------------------
  // What becomes of an acknowledged append, whatever fails later

  predicate Acknowledges(c: Codec, log: Log, op: Op) {
    op.Append? && op.fate == Durable && Encodes(c, Record(log.lastOffset + 1, op.at, op.event))
  }

  /** The offsets a run acknowledges, in order. */
  function Acked(c: Codec, log: Log, ops: seq<Op>): (offsets: seq<int>)
    decreases |ops|
  {
    if ops == [] then []
    else
      (if Acknowledges(c, log, ops[0]) then [log.lastOffset + 1] else []) + Acked(c, NextLog(c, log, ops[0]), ops[1..])
  }

  /** The file still starts with `base`, and no crash can take it away. */
  ghost predicate Keeps(log: Log, base: Bytes) {
    |base| <= log.synced <= |log.wal| && base <= log.wal
  }

  lemma StepKeeps(c: Codec, log: Log, op: Op, base: Bytes)
    requires Keeps(log, base)
    ensures Keeps(NextLog(c, log, op), base)
  {
  }

  lemma {:induction false} RunKeeps(c: Codec, log: Log, ops: seq<Op>, base: Bytes)
    requires Keeps(log, base)
    ensures Keeps(RunLog(c, log, ops), base)
    decreases |ops|
  {
    if ops != [] {
      StepKeeps(c, log, ops[0], base);
      RunKeeps(c, NextLog(c, log, ops[0]), ops[1..], base);
    }
  }

  /** Behind a terminated line, recovery of a longer file extends that of the shorter one, or is stuck in it. */
  lemma TerminatedExtends(c: Codec, base: Bytes, file: Bytes)
    requires base <= file && Tail(base) == []
    ensures IsClean(c, base) ==> Recover(c, base) <= Recover(c, file)
    ensures !IsClean(c, base) ==> Recover(c, file) == Recover(c, base)
  {
    var more := file[|base|..];
    assert file == base + more;
    if IsClean(c, base) {
      SoundExtends(c, base, more);
      RecoverSplits(c, base);
    } else {
      UnsoundExtends(c, base, more);
    }
  }

  lemma WrittenIsTerminated(c: Codec, w: Bytes, r: Record)
    requires Good(c) && Encodes(c, r)
    ensures Tail(w + Written(c, r)) == []
  {
    SoundAndTailExtend(c, w, Written(c, r));
    WrittenAfterTail(c, Tail(w), r);
  }

  ghost predicate HasOffset(records: seq<Record>, offset: int) {
    exists k :: 0 <= k < |records| && records[k].offset == offset
  }

  /** What any file that starts with the log after an acknowledged append gives back. */
  lemma AcknowledgedInFile(c: Codec, log: Log, r: Record, file: Bytes)
    requires Good(c) && LogInv(c, log) && Encodes(c, r) && r.offset == log.lastOffset + 1
    requires log.wal + Written(c, r) <= file
    ensures HasOffset(Recover(c, file), r.offset) <==> IsClean(c, log.wal)
    ensures IsClean(c, log.wal) ==> Recover(c, log.wal) + [c.compact(r)] <= Recover(c, file)
  {
    var base := log.wal + Written(c, r);
    assert RoundTrips(c, r);
    WrittenIsTerminated(c, log.wal, r);
    AppendDurableIffClean(c, log.wal, r);
    TerminatedExtends(c, base, file);
    if IsClean(c, log.wal) {
      assert Recover(c, file)[|Recover(c, log.wal)|] == c.compact(r);
    } else {
      assert forall k :: 0 <= k < |Recover(c, file)| ==> Recover(c, file)[k] == Recover(c, log.wal)[k];
    }
  }

  function AckedRecord(log: Log, op: Op): (r: Record)
    requires op.Append?
  {
    Record(log.lastOffset + 1, op.at, op.event)
  }

  lemma AckIsKept(c: Codec, log: Log, op: Op, later: seq<Op>)
    requires log.synced <= |log.wal| && Acknowledges(c, log, op)
    ensures Keeps(RunLog(c, NextLog(c, log, op), later), log.wal + Written(c, AckedRecord(log, op)))
  {
    RunKeeps(c, NextLog(c, log, op), later, log.wal + Written(c, AckedRecord(log, op)));
  }

  lemma KeptInPrefix(log: Log, base: Bytes, keep: nat)
    requires Keeps(log, base) && log.synced <= keep <= |log.wal|
    ensures base <= log.wal[..keep]
  {
  }

  /** Whatever appends, failures, crashes and reopenings follow, an acknowledged record is in what a reopening
      recovers if and only if the log was clean when it was appended. */
  lemma AcknowledgedSurvivesIff(c: Codec, log: Log, op: Op, later: seq<Op>, keep: nat)
    requires Good(c) && LogInv(c, log) && Acknowledges(c, log, op)
    requires var end := RunLog(c, NextLog(c, log, op), later);
             end.synced <= keep <= |end.wal|
    ensures var file := RunLog(c, NextLog(c, log, op), later).wal[..keep];
            && (HasOffset(Recover(c, file), log.lastOffset + 1) <==> IsClean(c, log.wal))
            && (IsClean(c, log.wal) ==> Recover(c, log.wal) + [c.compact(AckedRecord(log, op))] <= Recover(c, file))
  {
    var end := RunLog(c, NextLog(c, log, op), later);
    AckIsKept(c, log, op, later);
    KeptInPrefix(end, log.wal + Written(c, AckedRecord(log, op)), keep);
    AcknowledgedInFile(c, log, AckedRecord(log, op), end.wal[..keep]);
  }

  lemma {:induction false} LastOffsetReaches(records: seq<Record>, offset: int)
    requires HasOffset(records, offset)
    ensures LastOffset(records) >= offset
  {
    LastOffsetBounds(records);
  }

  /** Once a record was appended to a clean log, every later acknowledgement has a larger offset. */
  lemma {:induction false} LaterAcksAreLarger(c: Codec, before: Log, r: Record, log: Log, ops: seq<Op>)
    requires Good(c) && LogInv(c, before) && Encodes(c, r) && r.offset == before.lastOffset + 1 && IsClean(c, before.wal)
    requires Keeps(log, before.wal + Written(c, r)) && log.lastOffset >= r.offset
    ensures forall x <- Acked(c, log, ops) :: x > r.offset
    decreases |ops|
  {
    if ops != [] {
      var next := NextLog(c, log, ops[0]);
      StepKeeps(c, log, ops[0], before.wal + Written(c, r));
      if Reopens(log, ops[0]) {
        AcknowledgedInFile(c, before, r, next.wal);
        LastOffsetReaches(Recover(c, next.wal), r.offset);
      }
      LaterAcksAreLarger(c, before, r, next, ops[1..]);
    }
  }

  /** The same event, sent n times. */
  function Again(event: Bytes, at: int, n: nat): (ops: seq<Op>) {
    seq(n, _ => Append(event, at, Durable))
  }

  lemma {:induction false} AgainReaches(c: Codec, log: Log, event: Bytes, at: int, n: nat)
    requires n > 0 && Encodes(c, Record(log.lastOffset + n, at, event))
    ensures log.lastOffset + n in Acked(c, log, Again(event, at, n))
    decreases n
  {
    var ops := Again(event, at, n);
    assert ops[1..] == Again(event, at, n - 1);
    if n > 1 {
      AgainReaches(c, NextLog(c, log, ops[0]), event, at, n - 1);
    }
  }

  lemma AcksAfterAreLarger(c: Codec, log: Log, op: Op, ops: seq<Op>)
    requires Good(c) && LogInv(c, log) && Acknowledges(c, log, op) && IsClean(c, log.wal)
    ensures forall x <- Acked(c, NextLog(c, log, op), ops) :: x > log.lastOffset + 1
  {
    LaterAcksAreLarger(c, log, AckedRecord(log, op), NextLog(c, log, op), ops);
  }

  /** A reopening forgets the append and numbers on from an earlier record. */
  lemma UncleanReopening(c: Codec, log: Log, event: Bytes, at: int)
    requires Good(c) && LogInv(c, log) && Encodes(c, Record(log.lastOffset + 1, at, event)) && !IsClean(c, log.wal)
    ensures var first := DoAppend(c, log, event, at, Durable);
            NextLog(c, first, Restart(|first.wal|)).lastOffset <= log.lastOffset
  {
    var first := DoAppend(c, log, event, at, Durable);
    UncleanBounds(c, log, Record(log.lastOffset + 1, at, event));
    assert first.wal[..|first.wal|] == first.wal;
  }

  lemma UncleanBounds(c: Codec, log: Log, r: Record)
    requires Good(c) && LogInv(c, log) && Encodes(c, r) && !IsClean(c, log.wal)
    ensures LastOffset(Recover(c, log.wal + Written(c, r))) <= log.lastOffset
  {
    AppendDurableIffClean(c, log.wal, r);
    BoundedPrefix(Recover(c, log.wal + Written(c, r)), Recover(c, log.wal), log.lastOffset);
  }

  lemma BoundedPrefix(before: seq<Record>, after: seq<Record>, last: int)
    requires before <= after && Bounded(after, last) && last >= 0
    ensures LastOffset(before) <= last
  {
    LastOffsetIsBounded(before, last);
  }

  lemma UncleanReuses(c: Codec, log: Log, event: Bytes, at: int) returns (ops: seq<Op>)
    requires Good(c) && LogInv(c, log) && Encodes(c, Record(log.lastOffset + 1, at, event)) && !IsClean(c, log.wal)
    ensures log.lastOffset + 1 in Acked(c, DoAppend(c, log, event, at, Durable), ops)
  {
    var first := DoAppend(c, log, event, at, Durable);
    var reopened := NextLog(c, first, Restart(|first.wal|));
    UncleanReopening(c, log, event, at);
    var n := log.lastOffset + 1 - reopened.lastOffset;
    AgainReaches(c, reopened, event, at, n);
    ops := [Restart(|first.wal|)] + Again(event, at, n);
    assert ops[1..] == Again(event, at, n);
  }

  /** An acknowledged offset can be given out a second time if and only if the log was not clean when it was
      first acknowledged. */
  lemma OffsetReusedIff(c: Codec, log: Log, event: Bytes, at: int)
    requires Good(c) && LogInv(c, log) && Encodes(c, Record(log.lastOffset + 1, at, event))
    ensures (exists ops :: log.lastOffset + 1 in Acked(c, DoAppend(c, log, event, at, Durable), ops)) <==>
            !IsClean(c, log.wal)
  {
    var first := DoAppend(c, log, event, at, Durable);
    if IsClean(c, log.wal) {
      forall ops ensures log.lastOffset + 1 !in Acked(c, first, ops) {
        AcksAfterAreLarger(c, log, Append(event, at, Durable), ops);
      }
    } else {
      var ops := UncleanReuses(c, log, event, at);
    }
  }

  /** Every acknowledged append of the run finds the log clean. */
  predicate CleanAcks(c: Codec, log: Log, ops: seq<Op>)
    decreases |ops|
  {
    ops != [] ==>
      (Acknowledges(c, log, ops[0]) ==> IsClean(c, log.wal)) && CleanAcks(c, NextLog(c, log, ops[0]), ops[1..])
  }

  ghost predicate Ascending(offsets: seq<int>) {
    forall i, j :: 0 <= i < j < |offsets| ==> offsets[i] < offsets[j]
  }

  lemma AscendingCons(first: int, rest: seq<int>)
    requires Ascending(rest) && forall x <- rest :: x > first
    ensures Ascending([first] + rest)
  {
    assert forall k :: 0 <= k < |rest| ==> rest[k] in rest;
  }

  lemma AckedUnfolds(c: Codec, log: Log, ops: seq<Op>)
    requires ops != []
    ensures var rest := Acked(c, NextLog(c, log, ops[0]), ops[1..]);
            Acked(c, log, ops) == if Acknowledges(c, log, ops[0]) then [log.lastOffset + 1] + rest else rest
  {
  }

  lemma StepKeepsLogInv(c: Codec, log: Log, op: Op)
    requires Good(c) && LogInv(c, log)
    ensures LogInv(c, NextLog(c, log, op))
  {
    if op.Append? {
      AppendKeepsLogInv(c, log, op.event, op.at, op.fate);
    } else if Reopens(log, op) {
      RestartKeepsLogInv(c, log, op.keep);
    }
  }

  /** Numbering without reuse: as long as acknowledged appends find the log clean, the acknowledged offsets
      strictly increase over the whole run, across every crash and reopening. */
  lemma {:induction false} CleanAcksAscend(c: Codec, log: Log, ops: seq<Op>)
    requires Good(c) && LogInv(c, log) && CleanAcks(c, log, ops)
    ensures Ascending(Acked(c, log, ops))
    decreases |ops|
  {
    if ops != [] {
      var next := NextLog(c, log, ops[0]);
      AckedUnfolds(c, log, ops);
      StepKeepsLogInv(c, log, ops[0]);
      CleanAcksAscend(c, next, ops[1..]);
      if Acknowledges(c, log, ops[0]) {
        AcksAfterAreLarger(c, log, ops[0], ops[1..]);
        AscendingCons(log.lastOffset + 1, Acked(c, next, ops[1..]));
      }
    }
  }

  lemma {:induction false} WritesSucceedAcksClean(c: Codec, log: Log, ops: seq<Op>)
    requires Good(c) && InStep(c, log) && WritesSucceed(ops)
    ensures CleanAcks(c, log, ops)
    decreases |ops|
  {
    if ops != [] {
      StepKeepsInStep(c, log, ops[0]);
      WritesSucceedAcksClean(c, NextLog(c, log, ops[0]), ops[1..]);
    }
  }

  /** When no write fails, acknowledged offsets strictly increase over every run of appends and reopenings. */
  lemma NumberingNeverRepeats(c: Codec, log: Log, ops: seq<Op>)
    requires Good(c) && LogInv(c, log) && InStep(c, log) && WritesSucceed(ops)
    ensures Ascending(Acked(c, log, ops))
  {
    WritesSucceedAcksClean(c, log, ops);
    CleanAcksAscend(c, log, ops);
  }

  const EMPTY_LOG := Log([], 0, [], 0)

  /** One failed write is enough: the next offset is acknowledged, and can be acknowledged again. */
  lemma FailedWriteReusesOffset(c: Codec, event: Bytes, at: int)
    requires Good(c) && Encodes(c, Record(1, at, event)) && Encodes(c, Record(2, at, event))
    ensures var torn := NextLog(c, EMPTY_LOG, Append(event, at, WriteFails(1)));
            && Acknowledges(c, torn, Append(event, at, Durable)) && torn.lastOffset + 1 == 2
            && exists ops :: 2 in Acked(c, DoAppend(c, torn, event, at, Durable), ops)
  {
    var r := Record(1, at, event);
    assert RoundTrips(c, r);
    AppendKeepsLogInv(c, EMPTY_LOG, event, at, WriteFails(1));
    var torn := NextLog(c, EMPTY_LOG, Append(event, at, WriteFails(1)));
    assert torn.wal == [Line(c, r)[0]];
    assert NEWLINE !in torn.wal && !IsSpace(torn.wal[0]);
    OffsetReusedIff(c, torn, event, at);
  }
}
