/** The janitor's passes over a pending list: XAUTOCLAIM pages driven by a cursor. */
module Janitor {

  import opened Basics
  import P = Protocol

  /** A pending entry: its id, the consumer that has it, and when it was last delivered. */
  datatype Pending = Pending(id: nat, consumer: nat, since: int)

  /** A line of XINFO CONSUMERS. */
  datatype ConsumerInfo = ConsumerInfo(name: nat, pending: int, idle: int)

  /** Ids are positive and increase along the list; id 0 is the "start over" cursor. */
  ghost predicate Sorted(entries: seq<Pending>) {
    && (forall k :: 0 <= k < |entries| ==> entries[k].id > 0)
    && (forall i, j :: 0 <= i < j < |entries| ==> entries[i].id < entries[j].id)
  }

  predicate IsIdle(entry: Pending, now: int, minIdle: int) {
    now - entry.since >= minIdle
  }

  /** The index of the first entry with at least the given id. */
  function Seek(entries: seq<Pending>, start: nat): (index: nat)
    ensures index <= |entries|
  {
    if entries == [] || entries[0].id >= start then 0 else 1 + Seek(entries[1..], start)
  }

  lemma {:induction false} SeekFinds(entries: seq<Pending>, k: nat)
    requires Sorted(entries) && k < |entries|
    ensures Seek(entries, entries[k].id) == k
    decreases |entries|
  {
    if k > 0 {
      SeekFinds(entries[1..], k - 1);
    }
  }

  /** The ids of the idle entries among entries[i..j], in order. */
  function IdleIds(entries: seq<Pending>, i: nat, j: nat, now: int, minIdle: int): (ids: seq<nat>)
    requires i <= j <= |entries|
    decreases j
  {
    if i == j then []
    else
      IdleIds(entries, i, j - 1, now, minIdle)
        + if IsIdle(entries[j - 1], now, minIdle) then [entries[j - 1].id] else []
  }

  ghost predicate StrictlyIncreasing(ids: seq<nat>) {
    forall i, j :: 0 <= i < j < |ids| ==> ids[i] < ids[j]
  }

  lemma JoinIncreasing(low: seq<nat>, high: seq<nat>)
    requires StrictlyIncreasing(low) && StrictlyIncreasing(high)
    requires forall x <- low, y <- high :: x < y
    ensures StrictlyIncreasing(low + high)
  {
    forall i, j | 0 <= i < j < |low + high| ensures (low + high)[i] < (low + high)[j] {
      if i < |low| <= j {
        assert low[i] in low && high[j - |low|] in high;
      }
    }
  }

  lemma {:induction false} IdleIdsAre(entries: seq<Pending>, i: nat, j: nat, now: int, minIdle: int)
    requires Sorted(entries) && i <= j <= |entries|
    ensures StrictlyIncreasing(IdleIds(entries, i, j, now, minIdle))
    ensures forall k :: 0 <= k < |entries| ==>
              (entries[k].id in IdleIds(entries, i, j, now, minIdle) <==> i <= k < j && IsIdle(entries[k], now, minIdle))
    ensures forall x :: x in IdleIds(entries, i, j, now, minIdle) ==> exists k :: i <= k < j && entries[k].id == x
    decreases j
  {
    if i < j {
      var last := if IsIdle(entries[j - 1], now, minIdle) then [entries[j - 1].id] else [];
      IdleIdsAre(entries, i, j - 1, now, minIdle);
      JoinIncreasing(IdleIds(entries, i, j - 1, now, minIdle), last);
    }
  }

  /** What one page does to entry k: the idle entries it scans change hands and start anew. */
  function Reassigned(entry: Pending, scanned: bool, consumer: nat, now: int, minIdle: int): (entry': Pending) {
    if scanned && IsIdle(entry, now, minIdle) then Pending(entry.id, consumer, now) else entry
  }

  /** The pass looked at entries[..upto]: what it took was idle and is now the consumer's, what it left was
      not idle when the pass began; nothing else changed. */
  ghost predicate PassOk(before: seq<Pending>, began: int, entries: seq<Pending>, now: int, consumer: nat,
                         minIdle: int, claimed: seq<nat>, upto: nat)
  {
    && |entries| == |before| && upto <= |before| && began <= now
    && (forall k :: 0 <= k < |before| ==> EntryOk(before[k], began, entries[k], now, consumer, minIdle, claimed, k < upto))
    && (forall x <- claimed :: exists k :: 0 <= k < upto && before[k].id == x)
  }

  ghost predicate EntryOk(before: Pending, began: int, entry: Pending, now: int, consumer: nat, minIdle: int,
                          claimed: seq<nat>, scanned: bool)
  {
    && entry.id == before.id
    && (entry.id in claimed ==>
          scanned && entry.consumer == consumer && began <= entry.since <= now && IsIdle(before, now, minIdle))
    && (entry.id !in claimed ==> entry == before && (scanned ==> !IsIdle(before, began, minIdle)))
  }

  /** Some stretch of `length` consecutive entries has no idle entry. */
  predicate HasGap(entries: seq<Pending>, now: int, minIdle: int, length: nat) {
    exists c :: 0 <= c <= |entries| - length && IsGap(entries, c, now, minIdle, length)
  }

  predicate IsGap(entries: seq<Pending>, c: int, now: int, minIdle: int, length: nat)
    requires 0 <= c <= |entries| - length
  {
    forall k :: c <= k < c + length ==> !IsIdle(entries[k], now, minIdle)
  }

  lemma PageKeepsPassOk(before: seq<Pending>, began: int, entries: seq<Pending>, at: int, entries': seq<Pending>,
                        now: int, consumer: nat, minIdle: int, claimed: seq<nat>, from: nat, to: nat)
    requires Sorted(before) && Sorted(entries) && at <= now
    requires PassOk(before, began, entries, at, consumer, minIdle, claimed, from)
    requires from <= to <= |entries| == |entries'|
    requires forall k :: 0 <= k < |entries| ==>
               entries'[k] == Reassigned(entries[k], from <= k < to, consumer, now, minIdle)
    ensures PassOk(before, began, entries', now, consumer, minIdle,
                   claimed + IdleIds(entries, from, to, now, minIdle), to)
    ensures Sorted(entries')
  {
    var ids := IdleIds(entries, from, to, now, minIdle);
    IdleIdsAre(entries, from, to, now, minIdle);
    forall k | 0 <= k < |before|
      ensures EntryOk(before[k], began, entries'[k], now, consumer, minIdle, claimed + ids, k < to)
    {
      assert EntryOk(before[k], began, entries[k], at, consumer, minIdle, claimed, k < from);
      assert entries[k].id in claimed + ids <==> entries[k].id in claimed || entries[k].id in ids;
    }
    forall x | x in claimed + ids ensures exists k :: 0 <= k < to && before[k].id == x {
      if x in claimed {
        var k :| 0 <= k < from && before[k].id == x;
      } else {
        var k :| from <= k < to && entries[k].id == x;
        assert EntryOk(before[k], began, entries[k], at, consumer, minIdle, claimed, k < from);
        assert before[k].id == x;
      }
    }
  }

  /** The ids of a page come after everything claimed before it. */
  lemma PageJoins(before: seq<Pending>, began: int, entries: seq<Pending>, now: int, consumer: nat, minIdle: int,
                  claimed: seq<nat>, from: nat, to: nat)
    requires Sorted(before) && Sorted(entries) && from <= to <= |entries| && StrictlyIncreasing(claimed)
    requires PassOk(before, began, entries, now, consumer, minIdle, claimed, from)
    ensures StrictlyIncreasing(claimed + IdleIds(entries, from, to, now, minIdle))
  {
    var ids := IdleIds(entries, from, to, now, minIdle);
    IdleIdsAre(entries, from, to, now, minIdle);
    forall x <- claimed, y <- ids ensures x < y {
      var i :| 0 <= i < from && before[i].id == x;
      var j :| from <= j < to && entries[j].id == y;
      assert EntryOk(before[i], began, entries[i], now, consumer, minIdle, claimed, i < from);
    }
    JoinIncreasing(claimed, ids);
  }

  lemma EmptyPageIsGap(before: seq<Pending>, began: int, entries: seq<Pending>, now: int, consumer: nat, minIdle: int,
                       claimed: seq<nat>, from: nat, to: nat)
    requires Sorted(entries) && from <= to <= |entries|
    requires PassOk(before, began, entries, now, consumer, minIdle, claimed, from)
    requires IdleIds(entries, from, to, now, minIdle) == []
    ensures forall k :: from <= k < to ==> !IsIdle(before[k], began, minIdle)
  {
    IdleIdsAre(entries, from, to, now, minIdle);
    forall k | from <= k < to ensures !IsIdle(before[k], began, minIdle) {
      assert entries[k].id !in IdleIds(entries, from, to, now, minIdle);
      assert EntryOk(before[k], began, entries[k], now, consumer, minIdle, claimed, k < from);
    }
  }

  // ---------------------------------------------------------------------------------------------
  // The list as a part of the whole system

  /** Message id k stands for entry k - 1 of the protocol state. */
  predicate IsShown(entry: Pending, s: P.State, stream: P.Stream) {
    && 0 < entry.id <= |s.entries| && s.entries[entry.id - 1].stream == stream
    && s.entries[entry.id - 1].place == P.Pending(entry.consumer, entry.since)
  }

  ghost predicate Mirrors(entries: seq<Pending>, s: P.State, stream: P.Stream) {
    forall k :: 0 <= k < |entries| ==> IsShown(entries[k], s, stream)
  }

  /** The claimed entries change hands, and each gets a handler of its new consumer. */
  function HandOver(s: P.State, ids: seq<nat>, consumer: nat): (s': P.State) {
    if ids == [] then s
    else
      var handed, id := HandOver(s, ids[..|ids| - 1], consumer), ids[|ids| - 1];
      if 0 < id <= |handed.entries| then P.Assign(handed, id - 1, consumer) else handed
  }

  function Reclaims(ids: seq<nat>, consumer: nat): (steps: seq<P.Step>) {
    seq(|ids|, k requires 0 <= k < |ids| => P.Reclaim(if ids[k] > 0 then ids[k] - 1 else 0, consumer))
  }

  function Handlers(ids: seq<nat>): (agents: seq<P.Agent>) {
    seq(|ids|, k requires 0 <= k < |ids| => P.Claiming(if ids[k] > 0 then ids[k] - 1 else 0))
  }

  /** After the idle ones among entries[i..j] are handed over, the list still shows the stream. */
  ghost predicate ShowsPage(entries: seq<Pending>, s: P.State, s': P.State, stream: P.Stream, i: nat, j: nat,
                            consumer: nat, minIdle: int)
  {
    && s'.now == s.now && s'.rows == s.rows && s'.retry == s.retry && |s'.entries| == |s.entries|
    && (forall k :: 0 <= k < |entries| ==>
          IsShown(Reassigned(entries[k], i <= k < j, consumer, s.now, minIdle), s', stream))
  }

  lemma {:induction false} HandOverShows(entries: seq<Pending>, s: P.State, stream: P.Stream, i: nat, j: nat,
                                         consumer: nat, minIdle: int)
    requires Sorted(entries) && Mirrors(entries, s, stream) && i <= j <= |entries|
    ensures ShowsPage(entries, s, HandOver(s, IdleIds(entries, i, j, s.now, minIdle), consumer), stream, i, j,
                      consumer, minIdle)
    decreases j
  {
    if i == j {
      assert forall k :: 0 <= k < |entries| ==> IsShown(entries[k], s, stream);
    } else {
      HandOverShows(entries, s, stream, i, j - 1, consumer, minIdle);
      if IsIdle(entries[j - 1], s.now, minIdle) {
        var front := IdleIds(entries, i, j - 1, s.now, minIdle);
        assert (front + [entries[j - 1].id])[..|front|] == front;
        AssignShows(entries, s, HandOver(s, front, consumer), stream, i, j, consumer, minIdle);
      } else {
        SkipOne(entries, i, j, consumer, s.now, minIdle);
      }
    }
  }

  lemma SkipOne(entries: seq<Pending>, i: nat, j: nat, consumer: nat, now: int, minIdle: int)
    requires i < j <= |entries| && !IsIdle(entries[j - 1], now, minIdle)
    ensures IdleIds(entries, i, j, now, minIdle) == IdleIds(entries, i, j - 1, now, minIdle)
    ensures forall k :: 0 <= k < |entries| ==>
              Reassigned(entries[k], i <= k < j, consumer, now, minIdle) ==
              Reassigned(entries[k], i <= k < j - 1, consumer, now, minIdle)
  {
  }

  lemma AssignShows(entries: seq<Pending>, s: P.State, t: P.State, stream: P.Stream, i: nat, j: nat, consumer: nat,
                    minIdle: int)
    requires Sorted(entries) && i < j <= |entries| && IsIdle(entries[j - 1], s.now, minIdle)
    requires ShowsPage(entries, s, t, stream, i, j - 1, consumer, minIdle)
    ensures IsShown(entries[j - 1], t, stream)
    ensures ShowsPage(entries, s, P.Assign(t, entries[j - 1].id - 1, consumer), stream, i, j, consumer, minIdle)
  {
    assert IsShown(Reassigned(entries[j - 1], i <= j - 1 < j - 1, consumer, s.now, minIdle), t, stream);
    var s' := P.Assign(t, entries[j - 1].id - 1, consumer);
    forall k | 0 <= k < |entries|
      ensures IsShown(Reassigned(entries[k], i <= k < j, consumer, s.now, minIdle), s', stream)
    {
      assert IsShown(Reassigned(entries[k], i <= k < j - 1, consumer, s.now, minIdle), t, stream);
    }
  }

  /** Handing over idle entries is a run of reclaims. */
  lemma {:induction false} HandOverIsRun(entries: seq<Pending>, s: P.State, stream: P.Stream, i: nat, j: nat,
                                         consumer: nat, minIdle: int)
    requires Sorted(entries) && Mirrors(entries, s, stream) && i <= j <= |entries|
    ensures var ids := IdleIds(entries, i, j, s.now, minIdle);
            && HandOver(s, ids, consumer).agents == s.agents + Handlers(ids)
            && (minIdle >= P.RECLAIM_IDLE ==> P.Run(s, Reclaims(ids, consumer)) == HandOver(s, ids, consumer))
    decreases j
  {
    if i < j {
      HandOverIsRun(entries, s, stream, i, j - 1, consumer, minIdle);
      if IsIdle(entries[j - 1], s.now, minIdle) {
        var front := IdleIds(entries, i, j - 1, s.now, minIdle);
        HandOverShows(entries, s, stream, i, j - 1, consumer, minIdle);
        AssignShows(entries, s, HandOver(s, front, consumer), stream, i, j, consumer, minIdle);
        OneMoreReclaim(s, front, entries[j - 1], stream, consumer, minIdle);
      } else {
        SkipOne(entries, i, j, consumer, s.now, minIdle);
      }
    }
  }

  lemma OneMoreReclaim(s: P.State, front: seq<nat>, entry: Pending, stream: P.Stream, consumer: nat, minIdle: int)
    requires var t := HandOver(s, front, consumer);
             && t.agents == s.agents + Handlers(front) && (minIdle >= P.RECLAIM_IDLE ==> P.Run(s, Reclaims(front, consumer)) == t)
             && IsShown(entry, t, stream) && IsIdle(entry, t.now, minIdle)
    ensures var s' := HandOver(s, front + [entry.id], consumer);
            && s'.agents == s.agents + Handlers(front + [entry.id])
            && (minIdle >= P.RECLAIM_IDLE ==> P.Run(s, Reclaims(front + [entry.id], consumer)) == s')
  {
    var t := HandOver(s, front, consumer);
    HandOverAppend(s, front, entry.id, consumer);
    ReclaimsAppend(front, entry.id, consumer);
    if minIdle >= P.RECLAIM_IDLE {
      IdleIsReclaimed(t, entry, stream, consumer);
      P.RunOneMore(s, Reclaims(front, consumer), P.Reclaim(entry.id - 1, consumer));
    }
  }

  lemma IdleIsReclaimed(s: P.State, entry: Pending, stream: P.Stream, consumer: nat)
    requires IsShown(entry, s, stream) && IsIdle(entry, s.now, P.RECLAIM_IDLE)
    ensures P.Next(s, P.Reclaim(entry.id - 1, consumer)) == P.Assign(s, entry.id - 1, consumer)
  {
  }

  lemma HandOverAppend(s: P.State, front: seq<nat>, id: nat, consumer: nat)
    requires 0 < id <= |HandOver(s, front, consumer).entries|
    ensures HandOver(s, front + [id], consumer) == P.Assign(HandOver(s, front, consumer), id - 1, consumer)
  {
    assert (front + [id])[..|front|] == front;
  }

  lemma ReclaimsAppend(front: seq<nat>, id: nat, consumer: nat)
    requires id > 0
    ensures Handlers(front + [id]) == Handlers(front) + [P.Claiming(id - 1)]
    ensures Reclaims(front + [id], consumer) == Reclaims(front, consumer) + [P.Reclaim(id - 1, consumer)]
  {
  }

  predicate IsJanitorStep(step: P.Step) {
    step.Tick? || step.Reclaim?
  }

  /** The system got from s to s' by the passing of time and by reclaims. */
  ghost predicate IsJanitorRun(s: P.State, s': P.State) {
    exists steps :: JanitorSteps(steps) && P.Run(s, steps) == s'
  }

  predicate JanitorSteps(steps: seq<P.Step>) {
    forall k :: 0 <= k < |steps| ==> IsJanitorStep(steps[k])
  }

  /** A pass is a run of the protocol, and starts one handler for each message it returns. */
  ghost predicate IsPass(s: P.State, s': P.State, claimed: seq<nat>, minIdle: int) {
    && s'.agents == s.agents + Handlers(claimed) && s'.rows == s.rows && s'.retry == s.retry
    && (minIdle >= P.RECLAIM_IDLE ==> IsJanitorRun(s, s'))
  }

  lemma EmptyPass(s: P.State, minIdle: int)
    ensures IsPass(s, s, [], minIdle)
  {
    assert JanitorSteps([]) && P.Run(s, []) == s;
  }

  lemma PassesJoin(s: P.State, t: P.State, u: P.State, first: seq<nat>, second: seq<nat>, minIdle: int)
    requires IsPass(s, t, first, minIdle) && IsPass(t, u, second, minIdle)
    ensures IsPass(s, u, first + second, minIdle)
  {
    assert Handlers(first + second) == Handlers(first) + Handlers(second);
    if minIdle >= P.RECLAIM_IDLE {
      var before :| JanitorSteps(before) && P.Run(s, before) == t;
      var after :| JanitorSteps(after) && P.Run(t, after) == u;
      P.RunAppend(s, before, after);
      assert JanitorSteps(before + after);
    }
  }

  lemma WaitIsPass(s: P.State, elapsed: nat, minIdle: int)
    ensures IsPass(s, s.(now := s.now + elapsed), [], minIdle)
  {
    var steps := [P.Tick(elapsed)];
    assert steps[1..] == [];
    assert JanitorSteps(steps) && P.Run(s, steps) == P.Run(P.Next(s, steps[0]), []);
  }

  lemma PageIsPass(entries: seq<Pending>, s: P.State, stream: P.Stream, i: nat, j: nat, consumer: nat, minIdle: int)
    requires Sorted(entries) && Mirrors(entries, s, stream) && i <= j <= |entries|
    ensures var ids := IdleIds(entries, i, j, s.now, minIdle);
            IsPass(s, HandOver(s, ids, consumer), ids, minIdle)
  {
    HandOverShows(entries, s, stream, i, j, consumer, minIdle);
    HandOverIsRun(entries, s, stream, i, j, consumer, minIdle);
    assert JanitorSteps(Reclaims(IdleIds(entries, i, j, s.now, minIdle), consumer));
  }

  /** The pending list of one stream, the clock, and the protocol state they belong to. */
  class PendingList {
    var now: int
    var entries: seq<Pending>
    ghost var system: P.State
    ghost const stream: P.Stream

    ghost predicate Valid()
      reads this
    {
      Sorted(entries) && Mirrors(entries, system, stream) && system.now == now
    }

    /** Time passes between two commands. */
    method Elapse(ghost minIdle: int)
      requires Valid()
      modifies this`now, this`system
      ensures now >= old(now) && Valid() && IsPass(old(system), system, [], minIdle)
    {
      var elapsed :| elapsed >= 0;
      now := now + elapsed;
      WaitIsPass(system, elapsed, minIdle);
      system := system.(now := system.now + elapsed);
      assert forall k :: 0 <= k < |entries| ==> IsShown(entries[k], old(system), stream);
    }

    /** The scan of the XAUTOCLAIM command: from the cursor, at most ten entries per requested message. */
    method Scan(consumer: nat, minIdle: int, start: nat, count: nat) returns (ids: seq<nat>, ghost from: nat, to: nat)
      requires Sorted(entries) && count > 0
      modifies this`entries
      ensures from == Seek(old(entries), start) && from <= to <= |entries| == |old(entries)|
      ensures forall k :: 0 <= k < |entries| ==>
                entries[k] == Reassigned(old(entries)[k], from <= k < to, consumer, now, minIdle)
      ensures ids == IdleIds(old(entries), from, to, now, minIdle)
      ensures to == |entries| || |ids| == count || to == from + 10 * count
      ensures to <= from + 10 * count && |ids| <= count
      ensures Sorted(entries)
    {
      from := Seek(entries, start);
      var i, attempts, left := Seek(entries, start), 10 * count, count;
      ids := [];
      while attempts > 0 && left > 0 && i < |entries|
        invariant from <= i <= |entries| == |old(entries)|
        invariant attempts == 10 * count - (i - from) >= 0 && left == count - |ids| >= 0
        invariant ids == IdleIds(old(entries), from, i, now, minIdle)
        invariant forall k :: 0 <= k < |entries| ==>
                    entries[k] == Reassigned(old(entries)[k], from <= k < i, consumer, now, minIdle)
      {
        attempts := attempts - 1;
        if now - entries[i].since >= minIdle {
          ids := ids + [entries[i].id];
          entries := entries[i := Pending(entries[i].id, consumer, now)];
          left := left - 1;
        }
        i := i + 1;
      }
      to := i;
      assert forall k :: 0 <= k < |entries| ==> entries[k].id == old(entries)[k].id;
    }

    /** The XAUTOCLAIM command: the scan, and the cursor for the next call. */
    method XAutoClaim(consumer: nat, minIdle: int, start: nat, count: nat)
      returns (ids: seq<nat>, next: nat, ghost from: nat, ghost to: nat)
      requires Valid() && count > 0
      modifies this`entries, this`system
      ensures from == Seek(old(entries), start) && from <= to <= |entries| == |old(entries)|
      ensures forall k :: 0 <= k < |entries| ==>
                entries[k] == Reassigned(old(entries)[k], from <= k < to, consumer, now, minIdle)
      ensures ids == IdleIds(old(entries), from, to, now, minIdle)
      ensures next == if to < |entries| then entries[to].id else 0
      ensures to == |entries| || |ids| == count || to == from + 10 * count
      ensures to <= from + 10 * count && |ids| <= count
      ensures Valid() && IsPass(old(system), system, ids, minIdle)
    {
      var end;
      ids, from, end := Scan(consumer, minIdle, start, count);
      to := end;
      next := if end < |entries| then entries[end].id else 0;
      PageIsPass(old(entries), system, stream, from, to, consumer, minIdle);
      HandOverShows(old(entries), system, stream, from, to, consumer, minIdle);
      system := HandOver(system, ids, consumer);
    }

    /** One round of the cursor loop, in a pass that began with list `before` at time `began`. */
    method ClaimPage(consumer: nat, minIdle: int, start: nat, count: nat, claimed: seq<nat>,
                     ghost origin: P.State, ghost before: seq<Pending>, ghost began: int, ghost from: nat)
      returns (claimed': seq<nat>, empty: bool, next: nat, ghost to: nat)
      requires Valid() && Sorted(before) && count > 0 && StrictlyIncreasing(claimed)
      requires PassOk(before, began, entries, now, consumer, minIdle, claimed, from) && from == Seek(entries, start)
      requires IsPass(origin, system, claimed, minIdle)
      modifies this`now, this`entries, this`system
      ensures Valid() && StrictlyIncreasing(claimed') && now >= old(now)
      ensures IsPass(origin, system, claimed', minIdle) && claimed <= claimed'
      ensures PassOk(before, began, entries, now, consumer, minIdle, claimed', to) && from <= to
      ensures empty <==> claimed' == claimed
      ensures empty ==> forall k :: from <= k < to ==> !IsIdle(before[k], began, minIdle)
      ensures !empty ==> exists k :: from <= k < to && IsIdle(before[k], now, minIdle)
      ensures !empty ==> from < to
      ensures to <= from + 10 * count
      ensures next == if to < |entries| then entries[to].id else 0
      ensures empty && to < |entries| ==> to == from + 10 * count
    {
      Elapse(minIdle);
      PassesJoin(origin, old(system), system, claimed, [], minIdle);
      assert claimed + [] == claimed;
      ghost var seen, waited := entries, system;
      var ids, n, f, t := XAutoClaim(consumer, minIdle, start, count);
      PassesJoin(origin, waited, system, claimed, ids, minIdle);
      next, to := n, t;
      empty := |ids| == 0;
      claimed' := claimed + ids;
      PageEffects(before, began, seen, old(now), entries, now, consumer, minIdle, claimed, from, to);
    }

    /** The cursor loop both passes share. It ends because the cursor moves on; it returns each message once;
        it misses an idle entry only when a page of 10 * count entries in a row held nothing idle, and it
        returns nothing at all unless one of the first 10 * count entries is idle. */
    method ClaimAll(consumer: nat, minIdle: int, count: nat) returns (claimed: seq<nat>, ghost upto: nat)
      requires Valid() && count > 0
      modifies this`now, this`entries, this`system
      ensures Valid() && StrictlyIncreasing(claimed) && IsPass(old(system), system, claimed, minIdle)
      ensures PassOk(old(entries), old(now), entries, now, consumer, minIdle, claimed, upto)
      ensures upto < |entries| ==>
                upto >= 10 * count && IsGap(old(entries), upto - 10 * count, old(now), minIdle, 10 * count)
      ensures claimed != [] ==> exists k :: 0 <= k < |entries| && k < 10 * count && IsIdle(old(entries)[k], now, minIdle)
    {
      claimed, upto := [], 0;
      var start: nat := 0;
      EmptyPass(system, minIdle);
      while true
        invariant Valid() && StrictlyIncreasing(claimed) && IsPass(old(system), system, claimed, minIdle)
        invariant PassOk(old(entries), old(now), entries, now, consumer, minIdle, claimed, upto)
        invariant upto == Seek(entries, start)
        invariant upto > 0 ==> upto < |entries|
        invariant claimed != [] <==> upto > 0
        invariant upto > 0 ==> exists k :: 0 <= k < |entries| && k < 10 * count && IsIdle(old(entries)[k], now, minIdle)
        decreases |entries| - upto
      {
        var more, empty, next, to :=
          ClaimPage(consumer, minIdle, start, count, claimed, old(system), old(entries), old(now), upto);
        claimed, upto := more, to;
        if empty || next == 0 {
          break;
        }
        SeekFinds(entries, to);
        start := next;
      }
    }

    /** Claims the entries idle for minIdle, 50 at a time; a non-positive window means five seconds. Every
        entry idle at the start is claimed unless 500 entries in a row are not idle. */
    method AutoClaimPending(consumer: nat, minIdle: int) returns (claimed: seq<nat>)
      requires Valid()
      modifies this`now, this`entries, this`system
      ensures Valid() && now >= old(now) && NoDuplicates(claimed) && Untouched(old(entries), entries, claimed)
      ensures system.agents == old(system).agents + Handlers(claimed)
      ensures minIdle <= 0 || minIdle >= 5 * SECOND ==> IsJanitorRun(old(system), system)
      ensures var window := if minIdle <= 0 then 5 * SECOND else minIdle;
              && (forall k :: 0 <= k < |entries| && entries[k].id in claimed ==>
                    now - old(entries)[k].since >= window && entries[k].consumer == consumer && entries[k].since >= old(now))
              && (!HasGap(old(entries), old(now), window, 500) ==>
                    forall k :: 0 <= k < |entries| && old(now) - old(entries)[k].since >= window ==> entries[k].id in claimed)
    {
      var window := if minIdle <= 0 then 5 * SECOND else minIdle;
      ghost var upto;
      claimed, upto := ClaimAll(consumer, window, 50);
      PassMeans(old(entries), old(now), entries, now, consumer, window, claimed, upto);
    }

    /** One scan, 100 at a time, for every other consumer that is idle and has pending messages. Each scan
        takes from all consumers. In a pass shorter than the idle window no message is returned twice. */
    method ScanForStale(consumers: seq<ConsumerInfo>, active: nat, crashWindow: int, minIdle: int)
      returns (claimed: seq<nat>)
      requires Valid() && minIdle > 0
      modifies this`now, this`entries, this`system
      ensures Valid() && now >= old(now) && IsPass(old(system), system, claimed, minIdle)
      ensures ReclaimOk(old(entries), old(now), entries, now, minIdle, claimed)
      ensures now - old(now) < minIdle ==> NoDuplicates(claimed)
      ensures !HasStale(consumers, active, crashWindow) ==> claimed == [] && entries == old(entries)
      ensures HasStale(consumers, active, crashWindow) && !HasGap(old(entries), old(now), minIdle, 1000) ==>
                AllIdleIn(old(entries), old(now), minIdle, claimed)
    {
      claimed := [];
      EmptyPass(system, minIdle);
      for c := 0 to |consumers|
        invariant Valid() && now >= old(now) && IsPass(old(system), system, claimed, minIdle)
        invariant ReclaimOk(old(entries), old(now), entries, now, minIdle, claimed)
        invariant now - old(now) < minIdle ==> NoDuplicates(claimed)
        invariant !HasStale(consumers[..c], active, crashWindow) ==>
                    claimed == [] && entries == old(entries) && now == old(now)
        invariant HasStale(consumers[..c], active, crashWindow) && !HasGap(old(entries), old(now), minIdle, 1000) ==>
                    AllIdleIn(old(entries), old(now), minIdle, claimed)
      {
        assert consumers[..c + 1] == consumers[..c] + [consumers[c]];
        if consumers[c].pending <= 0 || consumers[c].name == active || consumers[c].idle < crashWindow {
          continue;
        }
        claimed := ScanOnce(active, minIdle, claimed, old(system), old(entries), old(now));
      }
      assert consumers[..|consumers|] == consumers;
    }

    /** The scan for one stale consumer, in a pass that began with list `before` at time `began`. */
    method ScanOnce(active: nat, minIdle: int, claimed: seq<nat>, ghost origin: P.State, ghost before: seq<Pending>,
                    ghost began: int) returns (claimed': seq<nat>)
      requires Valid() && minIdle > 0 && Sorted(before) && began <= now && IsPass(origin, system, claimed, minIdle)
      requires ReclaimOk(before, began, entries, now, minIdle, claimed)
      requires now - began < minIdle ==> NoDuplicates(claimed)
      modifies this`now, this`entries, this`system
      ensures Valid() && now >= old(now) && IsPass(origin, system, claimed', minIdle) && claimed <= claimed'
      ensures ReclaimOk(before, began, entries, now, minIdle, claimed')
      ensures now - began < minIdle ==> NoDuplicates(claimed')
      ensures claimed == [] && old(entries) == before && old(now) == began && !HasGap(before, began, minIdle, 1000) ==>
                AllIdleIn(before, began, minIdle, claimed')
    {
      var ids, upto := ClaimAll(active, minIdle, 100);
      PassesJoin(origin, old(system), system, claimed, ids, minIdle);
      ScanKeepsReclaimOk(before, began, old(entries), old(now), entries, now, active, minIdle, claimed, ids, upto);
      if !HasGap(old(entries), old(now), minIdle, 1000) {
        WholeScanClaimsIdle(old(entries), old(now), entries, now, active, minIdle, ids, upto);
      }
      claimed' := claimed + ids;
    }

    /** Takes every entry, whichever consumer has it, that is idle for five seconds and for the crash window, as
        soon as one other consumer with pending messages has been silent for that window. */
    method ForceReclaimDeadConsumers(consumers: seq<ConsumerInfo>, active: nat, crashWindow: int)
      returns (claimed: seq<nat>)
      requires Valid()
      modifies this`now, this`entries, this`system
      ensures Valid() && now >= old(now) && Untouched(old(entries), entries, claimed)
      ensures IsJanitorRun(old(system), system) && system.agents == old(system).agents + Handlers(claimed)
      ensures forall k :: 0 <= k < |entries| && entries[k].id in claimed ==>
                now - old(entries)[k].since >= 5 * SECOND && now - old(entries)[k].since >= crashWindow
      ensures now - old(now) < 5 * SECOND || now - old(now) < crashWindow ==> NoDuplicates(claimed)
      ensures (forall c :: 0 <= c < |consumers| ==>
                 consumers[c].pending <= 0 || consumers[c].name == active || consumers[c].idle < crashWindow) ==>
                claimed == [] && entries == old(entries)
      ensures (exists c :: 0 <= c < |consumers| &&
                 consumers[c].pending > 0 && consumers[c].name != active && consumers[c].idle >= crashWindow) &&
              !HasGap(old(entries), old(now), if crashWindow > 5 * SECOND then crashWindow else 5 * SECOND, 1000) ==>
                forall k ::
                  (&& 0 <= k < |entries| && old(now) - old(entries)[k].since >= 5 * SECOND
                   && old(now) - old(entries)[k].since >= crashWindow) ==> entries[k].id in claimed
    {
      var minIdle := 5 * SECOND;
      if crashWindow > minIdle {
        minIdle := crashWindow;
      }
      claimed := ScanForStale(consumers, active, crashWindow, minIdle);
      ReclaimMeans(old(entries), old(now), entries, now, minIdle, claimed);
      StaleMeans(consumers, active, crashWindow);
    }

    /** The two passes of a worker over one stream, with its windows of 30 s and 5 s. On a list shorter than a
        page's reach, whatever was idle for 30 s is taken by the first pass, and whatever was idle for 5 s by one
        of the two if some other consumer is stale. */
    method ReclaimPasses(consumers: seq<ConsumerInfo>, consumer: nat) returns (claimed: seq<nat>, forced: seq<nat>)
      requires Valid()
      modifies this`now, this`entries, this`system
      ensures Valid() && IsJanitorRun(old(system), system)
      ensures system.agents == old(system).agents + Handlers(claimed + forced)
      ensures |entries| == |old(entries)| && forall k :: 0 <= k < |entries| ==> entries[k].id == old(entries)[k].id
      ensures forall k :: 0 <= k < |entries| && entries[k].id in claimed ==> now - old(entries)[k].since >= 30 * SECOND
      ensures forall k :: 0 <= k < |entries| && entries[k].id in forced ==> now - old(entries)[k].since >= 5 * SECOND
      ensures |entries| < 500 ==>
                forall k :: 0 <= k < |entries| && old(now) - old(entries)[k].since >= 30 * SECOND ==> entries[k].id in claimed
      ensures |entries| < 500 && HasStale(consumers, consumer, 5 * SECOND) ==>
                forall k :: 0 <= k < |entries| && old(now) - old(entries)[k].since >= 5 * SECOND ==>
                  entries[k].id in claimed || entries[k].id in forced
    {
      claimed := AutoClaimPending(consumer, 30 * SECOND);
      ghost var middle := system;
      forced := ForceReclaimDeadConsumers(consumers, consumer, 5 * SECOND);
      RunsJoin(old(system), middle, system);
      assert Handlers(claimed + forced) == Handlers(claimed) + Handlers(forced);
    }
  }

  /** What was not claimed is as it was, and nothing changes its place in the list. */
  ghost predicate Untouched(before: seq<Pending>, entries: seq<Pending>, claimed: seq<nat>) {
    && |entries| == |before|
    && (forall k :: 0 <= k < |entries| ==> entries[k].id == before[k].id)
    && (forall k :: 0 <= k < |entries| && entries[k].id !in claimed ==> entries[k] == before[k])
    && (forall x <- claimed :: exists k :: 0 <= k < |entries| && entries[k].id == x)
  }

  lemma RunsJoin(s: P.State, t: P.State, u: P.State)
    requires IsJanitorRun(s, t) && IsJanitorRun(t, u)
    ensures IsJanitorRun(s, u)
  {
    var before :| JanitorSteps(before) && P.Run(s, before) == t;
    var after :| JanitorSteps(after) && P.Run(t, after) == u;
    P.RunAppend(s, before, after);
    assert JanitorSteps(before + after);
  }

  lemma StaleMeans(consumers: seq<ConsumerInfo>, active: nat, crashWindow: int)
    ensures HasStale(consumers, active, crashWindow) <==>
            exists c :: 0 <= c < |consumers| &&
              consumers[c].pending > 0 && consumers[c].name != active && consumers[c].idle >= crashWindow
  {
    if c :| 0 <= c < |consumers| && consumers[c].pending > 0 && consumers[c].name != active
            && consumers[c].idle >= crashWindow {
      assert IsStale(consumers[c], active, crashWindow);
    }
  }

  lemma PassMeans(before: seq<Pending>, began: int, entries: seq<Pending>, now: int, consumer: nat, window: int,
                  claimed: seq<nat>, upto: nat)
    requires PassOk(before, began, entries, now, consumer, window, claimed, upto) && StrictlyIncreasing(claimed)
    requires upto < |entries| ==> upto >= 500 && IsGap(before, upto - 500, began, window, 500)
    ensures NoDuplicates(claimed) && Untouched(before, entries, claimed)
    ensures forall k :: 0 <= k < |entries| && entries[k].id in claimed ==>
              now - before[k].since >= window && entries[k].consumer == consumer && entries[k].since >= began
    ensures !HasGap(before, began, window, 500) ==>
              forall k :: 0 <= k < |entries| && began - before[k].since >= window ==> entries[k].id in claimed
  {
    forall k | 0 <= k < |entries|
      ensures EntryOk(before[k], began, entries[k], now, consumer, window, claimed, k < upto)
    {
    }
    forall x <- claimed ensures exists k :: 0 <= k < |entries| && entries[k].id == x {
      var k :| 0 <= k < upto && before[k].id == x;
      assert entries[k].id == x;
    }
  }

  lemma ReclaimMeans(before: seq<Pending>, began: int, entries: seq<Pending>, now: int, minIdle: int, claimed: seq<nat>)
    requires ReclaimOk(before, began, entries, now, minIdle, claimed)
    ensures Untouched(before, entries, claimed)
    ensures forall k :: 0 <= k < |entries| && entries[k].id in claimed ==> now - before[k].since >= minIdle
    ensures AllIdleIn(before, began, minIdle, claimed) ==>
              forall k :: 0 <= k < |entries| && began - before[k].since >= minIdle ==> entries[k].id in claimed
  {
    forall k | 0 <= k < |entries| ensures ReclaimedOk(before[k], began, entries[k], now, minIdle, claimed) {
    }
    forall x <- claimed ensures exists k :: 0 <= k < |entries| && entries[k].id == x {
      var k :| 0 <= k < |before| && before[k].id == x;
      assert entries[k].id == x;
    }
  }

  /** The members the pass reacts to. */
  predicate IsStale(consumer: ConsumerInfo, active: nat, crashWindow: int) {
    consumer.pending > 0 && consumer.name != active && consumer.idle >= crashWindow
  }

  predicate HasStale(consumers: seq<ConsumerInfo>, active: nat, crashWindow: int) {
    exists c :: 0 <= c < |consumers| && IsStale(consumers[c], active, crashWindow)
  }

  /** Every idle entry is in the list, whichever consumer had it. */
  ghost predicate AllIdleIn(entries: seq<Pending>, now: int, minIdle: int, claimed: seq<nat>) {
    forall k :: 0 <= k < |entries| && IsIdle(entries[k], now, minIdle) ==> entries[k].id in claimed
  }

  lemma WholeScanClaimsIdle(before: seq<Pending>, began: int, entries: seq<Pending>, now: int, consumer: nat,
                            minIdle: int, claimed: seq<nat>, upto: nat)
    requires PassOk(before, began, entries, now, consumer, minIdle, claimed, upto) && upto == |before|
    ensures AllIdleIn(before, began, minIdle, claimed)
  {
    forall k | 0 <= k < |before| && IsIdle(before[k], began, minIdle) ensures before[k].id in claimed {
      assert EntryOk(before[k], began, entries[k], now, consumer, minIdle, claimed, k < upto);
    }
  }

  /** Everything returned was idle for the window, and everything claimed starts anew in this pass. */
  ghost predicate ReclaimOk(before: seq<Pending>, began: int, entries: seq<Pending>, now: int, minIdle: int,
                            claimed: seq<nat>)
  {
    && |entries| == |before|
    && (forall k :: 0 <= k < |before| ==> ReclaimedOk(before[k], began, entries[k], now, minIdle, claimed))
    && (forall x <- claimed :: exists k :: 0 <= k < |before| && before[k].id == x)
  }

  ghost predicate ReclaimedOk(before: Pending, began: int, entry: Pending, now: int, minIdle: int, claimed: seq<nat>) {
    && entry.id == before.id
    && (entry.id in claimed ==> IsIdle(before, now, minIdle) && began <= entry.since)
    && (entry.id !in claimed ==> entry == before)
  }

  lemma PageHasIdle(before: seq<Pending>, began: int, entries: seq<Pending>, now: int, consumer: nat, minIdle: int,
                    claimed: seq<nat>, from: nat, to: nat)
    requires Sorted(entries) && from <= to <= |entries|
    requires PassOk(before, began, entries, now, consumer, minIdle, claimed, from)
    requires IdleIds(entries, from, to, now, minIdle) != []
    ensures exists k :: from <= k < to && IsIdle(before[k], now, minIdle)
  {
    IdleIdsAre(entries, from, to, now, minIdle);
    var ids := IdleIds(entries, from, to, now, minIdle);
    assert ids[0] in ids;
    var k :| from <= k < to && entries[k].id == ids[0];
    assert EntryOk(before[k], began, entries[k], now, consumer, minIdle, claimed, k < from);
  }

  lemma PassOkLater(before: seq<Pending>, began: int, entries: seq<Pending>, at: int, now: int, consumer: nat,
                    minIdle: int, claimed: seq<nat>, upto: nat)
    requires at <= now && PassOk(before, began, entries, at, consumer, minIdle, claimed, upto)
    ensures PassOk(before, began, entries, now, consumer, minIdle, claimed, upto)
  {
    forall k | 0 <= k < |before|
      ensures EntryOk(before[k], began, entries[k], now, consumer, minIdle, claimed, k < upto)
    {
      assert EntryOk(before[k], began, entries[k], at, consumer, minIdle, claimed, k < upto);
    }
  }

  /** All that one page means for the pass. */
  lemma PageEffects(before: seq<Pending>, began: int, entries: seq<Pending>, at: int, entries': seq<Pending>,
                    now: int, consumer: nat, minIdle: int, claimed: seq<nat>, from: nat, to: nat)
    requires Sorted(before) && Sorted(entries) && at <= now && StrictlyIncreasing(claimed)
    requires PassOk(before, began, entries, at, consumer, minIdle, claimed, from)
    requires from <= to <= |entries| == |entries'|
    requires forall k :: 0 <= k < |entries| ==>
               entries'[k] == Reassigned(entries[k], from <= k < to, consumer, now, minIdle)
    ensures var ids := IdleIds(entries, from, to, now, minIdle);
            && StrictlyIncreasing(claimed + ids)
            && PassOk(before, began, entries', now, consumer, minIdle, claimed + ids, to)
            && (ids == [] ==> forall k :: from <= k < to ==> !IsIdle(before[k], began, minIdle))
            && (ids != [] ==> exists k :: from <= k < to && IsIdle(before[k], now, minIdle))
  {
    PageKeepsPassOk(before, began, entries, at, entries', now, consumer, minIdle, claimed, from, to);
    PassOkLater(before, began, entries, at, now, consumer, minIdle, claimed, from);
    PageJoins(before, began, entries, now, consumer, minIdle, claimed, from, to);
    if IdleIds(entries, from, to, now, minIdle) == [] {
      EmptyPageIsGap(before, began, entries, now, consumer, minIdle, claimed, from, to);
    } else {
      PageHasIdle(before, began, entries, now, consumer, minIdle, claimed, from, to);
    }
  }

  lemma ScanKeepsReclaimOk(before: seq<Pending>, began: int, seen: seq<Pending>, at: int, entries: seq<Pending>, now: int,
                           consumer: nat, minIdle: int, claimed: seq<nat>, ids: seq<nat>, upto: nat)
    requires Sorted(before) && began <= at && minIdle > 0
    requires ReclaimOk(before, began, seen, at, minIdle, claimed)
    requires PassOk(seen, at, entries, now, consumer, minIdle, ids, upto) && StrictlyIncreasing(ids)
    ensures ReclaimOk(before, began, entries, now, minIdle, claimed + ids)
    ensures now - began < minIdle && NoDuplicates(claimed) ==> NoDuplicates(claimed + ids)
  {
    forall k | 0 <= k < |before|
      ensures ReclaimedOk(before[k], began, entries[k], now, minIdle, claimed + ids)
      ensures now - began < minIdle && before[k].id in claimed ==> before[k].id !in ids
    {
      assert ReclaimedOk(before[k], began, seen[k], at, minIdle, claimed);
      assert EntryOk(seen[k], at, entries[k], now, consumer, minIdle, ids, k < upto);
      assert before[k].id in claimed + ids <==> before[k].id in claimed || before[k].id in ids;
    }
    forall x <- claimed + ids ensures exists k :: 0 <= k < |before| && before[k].id == x {
      if x in ids {
        var k :| 0 <= k < upto && seen[k].id == x;
        assert ReclaimedOk(before[k], began, seen[k], at, minIdle, claimed);
        assert before[k].id == x;
      } else {
        assert x in claimed;
      }
    }
    if now - began < minIdle && NoDuplicates(claimed) {
      forall i, j | 0 <= i < j < |claimed + ids| ensures (claimed + ids)[i] != (claimed + ids)[j] {
        if i < |claimed| <= j {
          assert claimed[i] in claimed && ids[j - |claimed|] in ids;
          var k :| 0 <= k < |before| && before[k].id == claimed[i];
        }
      }
    }
  }
}
