/** Per-consumer checkpoints: in memory, on disk, and replaced by write-then-rename. */
module Checkpoints {
  import opened Basics
  import opened Wal

  type Offsets = map<string, int>

  function Consumer(name: string): (consumer: string) {
    if name == "" then "default" else name
  }

  /** A commit never moves a consumer backwards. */
  function Committed(offsets: Offsets, name: string, offset: int): (offsets': Offsets) {
    var consumer := Consumer(name);
    var clamped := if offset < 0 then 0 else offset;
    if consumer !in offsets || clamped > offsets[consumer] then offsets[consumer := clamped] else offsets
  }

  /** The cached value: the largest offset of any consumer, 0 if there is none. */
  ghost predicate IsMaximum(offsets: Offsets, maximum: int) {
    && maximum >= 0
    && (forall consumer <- offsets.Keys :: offsets[consumer] <= maximum)
    && (maximum > 0 ==> exists consumer :: consumer in offsets && offsets[consumer] == maximum)
  }

  /** How far writing the checkpoint gets: nothing written, the temporary file cut short, the temporary file
      complete, or the rename done. Only the last one is not an error. */
  datatype Progress = NotStarted | TempTorn | TempWritten | Renamed

  /** A file that was cut short cannot be decoded. */
  datatype File = Torn | Whole(offsets: Offsets)

  datatype Disk = Disk(checkpoint: Option<File>, temp: Option<File>)

  /** The disk after persisting `offsets` stopped at some point. */
  function Persist(disk: Disk, offsets: Offsets, progress: Progress): (disk': Disk) {
    match progress
    case NotStarted => disk
    case TempTorn => disk.(temp := Some(Torn))
    case TempWritten => disk.(temp := Some(Whole(offsets)))
    case Renamed => Disk(Some(Whole(offsets)), None)
  }

  /** An undecodable checkpoint makes opening the store fail. */
  predicate IsReadable(disk: Disk) {
    disk.checkpoint != Some(Torn)
  }

  /** A missing checkpoint is an empty one. */
  function Loaded(disk: Disk): (offsets: Offsets)
    requires IsReadable(disk)
  {
    match disk.checkpoint case None => map[] case Some(file) => file.offsets
  }

  datatype Ledger = Ledger(offsets: Offsets, disk: Disk)

  datatype Event = Commit(name: string, offset: int, progress: Progress) | Restart

  function NextLedger(ledger: Ledger, event: Event): (ledger': Ledger) {
    match event
    case Commit(name, offset, progress) =>
      var offsets := Committed(ledger.offsets, name, offset);
      Ledger(offsets, Persist(ledger.disk, offsets, progress))
    case Restart => if IsReadable(ledger.disk) then ledger.(offsets := Loaded(ledger.disk)) else ledger
  }

  function RunLedger(ledger: Ledger, events: seq<Event>): (ledger': Ledger) {
    if events == [] then ledger
    else NextLedger(RunLedger(ledger, events[..|events| - 1]), events[|events| - 1])
  }

  /** The commit returned no error. */
  predicate Saves(event: Event) {
    event.Commit? && event.progress == Renamed
  }

  predicate Raises(offsets: Offsets, event: Event) {
    event.Commit? && Committed(offsets, event.name, event.offset) != offsets
  }

  /** The memory at the latest commit that returned no error; what was loaded at the start if there is none. */
  function LastSaved(ledger: Ledger, events: seq<Event>): (offsets: Offsets)
    requires IsReadable(ledger.disk)
  {
    if events == [] then Loaded(ledger.disk)
    else if Saves(events[|events| - 1]) then RunLedger(ledger, events).offsets
    else LastSaved(ledger, events[..|events| - 1])
  }

  /** The run ends in commits that returned an error, and one of those raised an offset. */
  predicate EndsUnsaved(ledger: Ledger, events: seq<Event>) {
    events != [] &&
    var front, last := events[..|events| - 1], events[|events| - 1];
    last.Commit? && !Saves(last) && (Raises(RunLedger(ledger, front).offsets, last) || EndsUnsaved(ledger, front))
  }

  /** No consumer is missing or behind. */
  ghost predicate AtLeast(after: Offsets, before: Offsets) {
    forall consumer <- before.Keys :: consumer in after && after[consumer] >= before[consumer]
  }

  /** Crash at any point: whatever commits fail halfway and whenever the process restarts, the checkpoint on
      disk is the memory at the latest commit that returned no error. */
  lemma {:induction false} DiskIsLastSaved(ledger: Ledger, events: seq<Event>)
    requires IsReadable(ledger.disk)
    ensures IsReadable(RunLedger(ledger, events).disk)
    ensures Loaded(RunLedger(ledger, events).disk) == LastSaved(ledger, events)
    decreases |events|
  {
    if events != [] {
      DiskIsLastSaved(ledger, events[..|events| - 1]);
    }
  }

  /** An undecodable checkpoint is never the store's own doing, and the next successful commit replaces it. */
  lemma {:induction false} ReadableIff(ledger: Ledger, events: seq<Event>)
    ensures IsReadable(RunLedger(ledger, events).disk) <==>
            IsReadable(ledger.disk) || exists n :: 0 <= n < |events| && Saves(events[n])
    decreases |events|
  {
    if events != [] {
      var front := events[..|events| - 1];
      ReadableIff(ledger, front);
      if n :| 0 <= n < |events| && Saves(events[n]) && n < |front| {
        assert Saves(front[n]);
      }
    }
  }

  /** The memory is ahead of the disk or level with it. */
  ghost predicate DiskBehind(ledger: Ledger) {
    IsReadable(ledger.disk) && AtLeast(ledger.offsets, Loaded(ledger.disk))
  }

  /** What is on disk never goes back, whatever fails. */
  lemma {:induction false} DiskNeverGoesBack(ledger: Ledger, events: seq<Event>)
    requires DiskBehind(ledger)
    ensures DiskBehind(RunLedger(ledger, events))
    ensures AtLeast(Loaded(RunLedger(ledger, events).disk), Loaded(ledger.disk))
    decreases |events|
  {
    if events != [] {
      DiskNeverGoesBack(ledger, events[..|events| - 1]);
    }
  }

  /** While persisting succeeds, no consumer's committed offset decreases over any run of commits and
      restarts, because memory and disk agree after every commit. */
  lemma {:induction false} CommittedNeverDecreases(ledger: Ledger, events: seq<Event>)
    requires IsReadable(ledger.disk) && ledger.offsets == Loaded(ledger.disk)
    requires forall i :: 0 <= i < |events| && events[i].Commit? ==> Saves(events[i])
    ensures AtLeast(RunLedger(ledger, events).offsets, ledger.offsets)
    ensures RunLedger(ledger, events).offsets == LastSaved(ledger, events)
    decreases |events|
  {
    if events != [] {
      CommittedNeverDecreases(ledger, events[..|events| - 1]);
      DiskIsLastSaved(ledger, events[..|events| - 1]);
    }
  }

  lemma AtLeastBothWays(left: Offsets, right: Offsets)
    requires AtLeast(left, right) && AtLeast(right, left)
    ensures left == right
  {
    assert left.Keys == right.Keys;
    assert forall consumer <- left.Keys :: left[consumer] == right[consumer];
  }

  lemma RaiseIsAhead(offsets: Offsets, event: Event)
    requires Raises(offsets, event)
    ensures !AtLeast(offsets, Committed(offsets, event.name, event.offset))
  {
    var consumer := Consumer(event.name);
    assert consumer in Committed(offsets, event.name, event.offset);
  }

  /** After any run of an opened store, a restart takes some consumer back if and only if the run ends in
      commits that returned an error and one of those raised an offset. */
  lemma {:induction false} RestartGoesBackIff(ledger: Ledger, events: seq<Event>)
    requires IsReadable(ledger.disk) && ledger.offsets == Loaded(ledger.disk)
    ensures var end := RunLedger(ledger, events);
            AtLeast(NextLedger(end, Restart).offsets, end.offsets) <==> !EndsUnsaved(ledger, events)
    decreases |events|
  {
    DiskIsLastSaved(ledger, events);
    if events != [] {
      var front, last := events[..|events| - 1], events[|events| - 1];
      var before, end := RunLedger(ledger, front), RunLedger(ledger, events);
      RestartGoesBackIff(ledger, front);
      DiskNeverGoesBack(ledger, front);
      if last.Commit? && !Saves(last) {
        assert Loaded(end.disk) == Loaded(before.disk);
        if !EndsUnsaved(ledger, front) {
          AtLeastBothWays(Loaded(before.disk), before.offsets);
          if Raises(before.offsets, last) {
            RaiseIsAhead(before.offsets, last);
          }
        } else {
          FurtherAhead(Loaded(before.disk), before.offsets, end.offsets);
        }
      }
    }
  }

  lemma FurtherAhead(disk: Offsets, before: Offsets, after: Offsets)
    requires !AtLeast(disk, before) && AtLeast(after, before)
    ensures !AtLeast(disk, after)
  {
    var consumer :| consumer in before && (consumer !in disk || disk[consumer] < before[consumer]);
    assert consumer in after;
  }

  /** Commit i of the run is for this consumer. */
  predicate IsCommitTo(events: seq<Event>, i: nat, consumer: string) {
    i < |events| && events[i].Commit? && (if events[i].name == "" then "default" else events[i].name) == consumer
  }

  /** What a commit asks for. */
  function Asked(event: Event): (offset: int)
    requires event.Commit?
    ensures offset >= 0 && offset >= event.offset && (offset == 0 || offset == event.offset)
  {
    if event.offset < 0 then 0 else event.offset
  }

  lemma CommitSets(offsets: Offsets, event: Event, consumer: string)
    requires event.Commit?
    ensures var after := Committed(offsets, event.name, event.offset);
            if (if event.name == "" then "default" else event.name) == consumer then
              && consumer in after && after[consumer] >= Asked(event)
              && (consumer in offsets ==> after[consumer] >= offsets[consumer])
              && (after[consumer] == Asked(event) || (consumer in offsets && after[consumer] == offsets[consumer]))
            else
              (consumer in after <==> consumer in offsets) && (consumer in offsets ==> after[consumer] == offsets[consumer])
  {
  }

  /** The offset is what some commit to the consumer asked for, or what it had before the run. */
  ghost predicate Comes(before: Offsets, events: seq<Event>, consumer: string, offset: int) {
    || (consumer in before && before[consumer] == offset)
    || (exists i: nat :: IsCommitTo(events, i, consumer) && Asked(events[i]) == offset)
  }

  lemma ComesLater(before: Offsets, events: seq<Event>, consumer: string, offset: int)
    requires events != [] && Comes(before, events[..|events| - 1], consumer, offset)
    ensures Comes(before, events, consumer, offset)
  {
    var front := events[..|events| - 1];
    if i: nat :| IsCommitTo(front, i, consumer) && Asked(front[i]) == offset {
      assert IsCommitTo(events, i, consumer) && Asked(events[i]) == offset;
    }
  }

  /** While persisting succeeds, a consumer has a checkpoint exactly when it had one or something was committed
      to it, and its offset is the largest of the offset it had and those committed to it. */
  lemma {:induction false} CommittedIsLargest(ledger: Ledger, events: seq<Event>, consumer: string)
    requires IsReadable(ledger.disk) && ledger.offsets == Loaded(ledger.disk)
    requires forall i :: 0 <= i < |events| && events[i].Commit? ==> Saves(events[i])
    ensures var end := RunLedger(ledger, events).offsets;
            && (consumer in end <==> consumer in ledger.offsets || exists i: nat :: IsCommitTo(events, i, consumer))
            && (consumer in ledger.offsets ==> consumer in end && end[consumer] >= ledger.offsets[consumer])
            && (forall i: nat :: IsCommitTo(events, i, consumer) ==> consumer in end && end[consumer] >= Asked(events[i]))
            && (consumer in end ==> Comes(ledger.offsets, events, consumer, end[consumer]))
    decreases |events|
  {
    if events != [] {
      var front, last := events[..|events| - 1], events[|events| - 1];
      var before, end := RunLedger(ledger, front).offsets, RunLedger(ledger, events).offsets;
      CommittedIsLargest(ledger, front, consumer);
      CommittedNeverDecreases(ledger, front);
      DiskIsLastSaved(ledger, front);
      forall i: nat ensures IsCommitTo(events, i, consumer) <==>
                       IsCommitTo(front, i, consumer) || (i == |front| && IsCommitTo(events, |front|, consumer)) {
      }
      if last.Commit? {
        CommitSets(before, last, consumer);
        assert IsCommitTo(events, |front|, consumer) ==> Asked(events[|front|]) == Asked(last);
      } else {
        assert end == before;
      }
      if consumer in before {
        ComesLater(ledger.offsets, events, consumer, before[consumer]);
      }
    }
  }
}
