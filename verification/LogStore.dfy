/** The ForgeLog store as an object: opening, appending, reading and committing. */
module LogStore {
  import opened Basics
  import opened Wal
  import opened WalDurability
  import opened LogRuns
  import opened LogReading
  import opened Checkpoints

  /** One line of the recovery scan. */
  lemma ScanStep(c: Codec, before: seq<Record>, line: Bytes, rest: seq<Record>)
    ensures line == [] ==> before + After(c, line, rest) == before + rest
    ensures line != [] && c.decode(line).None? ==> before + After(c, line, rest) == before
    ensures line != [] && c.decode(line).Some? ==>
              var r := c.decode(line).value;
              && before + After(c, line, rest) == before + [r] + rest
              && LastOffset(before + [r]) == if r.offset > LastOffset(before) then r.offset else LastOffset(before)
  {
    if line != [] && c.decode(line).Some? {
      var r := c.decode(line).value;
      assert (before + [r])[..|before|] == before;
    }
  }

  /** One record of a cursor read. */
  lemma PageStep(records: seq<Record>, k: nat, start: int, limit: nat, before: seq<Record>)
    requires k < |records| && limit > 0
    ensures before + Page(records[k..], start, limit) ==
            if records[k].offset <= start then before + Page(records[k + 1..], start, limit)
            else before + [records[k]] + Page(records[k + 1..], start, limit - 1)
  {
    assert records[k..][1..] == records[k + 1..];
  }

  class Store {
    const codec: Codec
    var open: bool
    var wal: Bytes
    var synced: nat
    var records: seq<Record>
    var lastOffset: int
    var committed: Offsets
    var committedOffset: int
    var disk: Disk

    ghost function View(): (log: Log)
      reads this
    {
      Log(wal, synced, records, lastOffset)
    }

    ghost predicate Valid()
      reads this
    {
      IsMaximum(committed, committedOffset)
    }

    /** The store before its files are read. */
    constructor (codec: Codec, wal: Bytes, synced: nat, disk: Disk)
      ensures Valid() && this.codec == codec && open && this.disk == disk
      ensures View() == Log(wal, synced, [], 0) && committed == map[] && committedOffset == 0
    {
      this.codec := codec;
      this.open := true;
      this.wal := wal;
      this.synced := synced;
      this.records := [];
      this.lastOffset := 0;
      this.committed := map[];
      this.committedOffset := 0;
      this.disk := disk;
    }

    method LoadWal()
      requires records == [] && lastOffset == 0
      modifies this`records, this`lastOffset
      ensures records == Recover(codec, wal) && lastOffset == LastOffset(records)
      ensures forall k :: 0 <= k < |records| ==> records[k].offset <= lastOffset
      ensures lastOffset == 0 || exists k :: 0 <= k < |records| && records[k].offset == lastOffset
    {
      var rest := wal;
      while rest != []
        invariant records + Recover(codec, rest) == Recover(codec, wal)
        invariant lastOffset == LastOffset(records)
        invariant forall k :: 0 <= k < |records| ==> records[k].offset <= lastOffset
        invariant lastOffset == 0 || exists k :: 0 <= k < |records| && records[k].offset == lastOffset
        decreases |rest|
      {
        var end := LineEnd(rest);
        var line := Trim(rest[..end]);
        ScanStep(codec, records, line, Recover(codec, rest[end..]));
        if line != [] {
          var decoded := codec.decode(line);
          if decoded.None? {
            break;
          }
          if decoded.value.offset > lastOffset {
            lastOffset := decoded.value.offset;
          }
          records := records + [decoded.value];
        }
        rest := rest[end..];
      }
    }

    /** A missing checkpoint is no error, an undecodable one is. */
    method LoadCheckpoint() returns (ok: bool)
      requires committed == map[] && committedOffset == 0
      modifies this`committed, this`committedOffset
      ensures Valid() && (ok <==> IsReadable(disk))
      ensures disk.checkpoint.None? ==> committed == map[]
      ensures ok && disk.checkpoint.Some? ==> disk.checkpoint == Some(Whole(committed))
      ensures ok ==> committed == Loaded(disk)
    {
      match disk.checkpoint {
        case None =>
          return true;
        case Some(file) =>
          match file {
            case Torn =>
              return false;
            case Whole(offsets) =>
              committed := offsets;
              RefreshCommittedOffset();
              return true;
          }
      }
    }

    /** The loop over the map that finds the largest committed offset. */
    method RefreshCommittedOffset()
      modifies this`committedOffset
      ensures Valid()
    {
      committedOffset := 0;
      var left := committed.Keys;
      while left != {}
        invariant left <= committed.Keys && committedOffset >= 0
        invariant forall consumer <- committed.Keys :: consumer in left || committed[consumer] <= committedOffset
        invariant committedOffset > 0 ==> exists consumer :: consumer in committed && committed[consumer] == committedOffset
        decreases |left|
      {
        var consumer :| consumer in left;
        left := left - {consumer};
        if committed[consumer] > committedOffset {
          committedOffset := committed[consumer];
        }
      }
    }

    /** An append on a closed store fails without effect; otherwise it is the step of the run model. */
    method Append(event: Bytes, at: int, fate: Fate) returns (result: Option<Record>)
      requires Valid()
      modifies this`wal, this`synced, this`records, this`lastOffset
      ensures Valid()
      ensures View() == if open then DoAppend(codec, old(View()), event, at, fate) else old(View())
      ensures result.Some? <==> open && fate == Durable && Encodes(codec, Record(old(lastOffset) + 1, at, event))
      ensures result.Some? ==> result.value == Record(old(lastOffset) + 1, at, event) && records == old(records) + [result.value]
    {
      if !open {
        return None;
      }
      lastOffset := lastOffset + 1;
      var rec := Record(lastOffset, at, event);
      match codec.encode(rec) {
        case None =>
          return None;
        case Some(text) =>
          var line := text + [NEWLINE];
          assert text[..|text|] == text;
          assert line == Written(codec, rec);
          match fate {
            case WriteFails(n) =>
              wal := wal + line[..Least(n, |line|)];
              return None;
            case SyncFails =>
              wal := wal + line;
              return None;
            case Durable =>
              wal := wal + line;
              synced := |wal|;
              records := records + [rec];
              return Some(rec);
          }
      }
    }

    method Close()
      modifies this`open
      ensures !open
    {
      open := false;
    }

    method ReadFrom(offset: int, limit: int) returns (result: seq<Record>, nextOffset: int)
      ensures result == Page(records, if offset < 0 then 0 else offset, if limit <= 0 then 100 else limit)
      ensures nextOffset == if result != [] then result[|result| - 1].offset else if offset < 0 then 0 else offset
    {
      var size := if limit <= 0 then 100 else limit;
      var start := if offset < 0 then 0 else offset;
      result, nextOffset := [], start;
      var k := 0;
      while k < |records|
        invariant k <= |records|
        invariant |result| < size
        invariant Page(records, start, size) == result + Page(records[k..], start, size - |result|)
        invariant nextOffset == NextOffset(result, start)
      {
        var rec := records[k];
        PageStep(records, k, start, size - |result|, result);
        k := k + 1;
        if rec.offset <= start {
          continue;
        }
        result := result + [rec];
        nextOffset := rec.offset;
        if |result| >= size {
          break;
        }
      }
    }

    /** Raises the consumer's offset, refreshes the cache and persists; the error is that of persisting. */
    method Commit(name: string, offset: int, progress: Progress) returns (ok: bool)
      requires Valid()
      modifies this`committed, this`committedOffset, this`disk
      ensures Valid()
      ensures Ledger(committed, disk) == NextLedger(old(Ledger(committed, disk)), Checkpoints.Commit(name, offset, progress))
      ensures ok <==> progress == Renamed
      ensures var consumer, clamped := if name == "" then "default" else name, if offset < 0 then 0 else offset;
              && committed.Keys == old(committed).Keys + {consumer}
              && committed[consumer] == (if consumer in old(committed) && old(committed)[consumer] > clamped
                                         then old(committed)[consumer] else clamped)
              && (forall other <- old(committed).Keys :: other != consumer ==> committed[other] == old(committed)[other])
      ensures disk.checkpoint == if ok then Some(Whole(committed)) else old(disk).checkpoint
    {
      var consumer := if name == "" then "default" else name;
      var clamped := if offset < 0 then 0 else offset;
      if consumer !in committed || clamped > committed[consumer] {
        committed := committed[consumer := clamped];
      }
      RefreshCommittedOffset();
      ok := PersistCheckpoint(progress);
    }

    method PersistCheckpoint(progress: Progress) returns (ok: bool)
      modifies this`disk
      ensures disk == Persist(old(disk), committed, progress) && (ok <==> progress == Renamed)
    {
      match progress {
        case NotStarted =>
          return false;
        case TempTorn =>
          disk := disk.(temp := Some(Torn));
          return false;
        case TempWritten =>
          disk := disk.(temp := Some(Whole(committed)));
          return false;
        case Renamed =>
          disk := disk.(temp := Some(Whole(committed)));
          disk := Disk(disk.temp, None);
          return true;
      }
    }
  }

  /** Opens the files: the recovery scan, then the checkpoint. An undecodable checkpoint is an error. */
  method New(codec: Codec, wal: Bytes, synced: nat, disk: Disk) returns (store: Store?)
    ensures store == null <==> !IsReadable(disk)
    ensures store != null ==>
              && fresh(store) && store.Valid() && store.codec == codec && store.open && store.disk == disk
              && store.View() == Opened(codec, wal, synced) && store.committed == Loaded(disk)
  {
    store := new Store(codec, wal, synced, disk);
    store.LoadWal();
    var ok := store.LoadCheckpoint();
    if !ok {
      return null;
    }
  }
}
