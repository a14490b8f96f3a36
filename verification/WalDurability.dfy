/** What survives a crash at any byte of the log, and exactly when an append is durable. */
module WalDurability {
  import opened Wal

  /** What `Append` writes for a record. */
  function Written(c: Codec, r: Record): (bytes: Bytes)
    requires Encodes(c, r)
  {
    Piece(c, r, |Line(c, r)|, true)
  }

  predicate AllEncode(c: Codec, rs: seq<Record>) {
    forall i :: 0 <= i < |rs| ==> Encodes(c, rs[i])
  }

  function Lines(c: Codec, rs: seq<Record>): (bytes: Bytes)
    requires AllEncode(c, rs)
  {
    if rs == [] then [] else Lines(c, rs[..|rs| - 1]) + Written(c, rs[|rs| - 1])
  }

  function Compacted(c: Codec, rs: seq<Record>): (compacted: seq<Record>) {
    seq(|rs|, i requires 0 <= i < |rs| => c.compact(rs[i]))
  }

  lemma {:induction false} SoundAndTailExtend(c: Codec, bytes: Bytes, more: Bytes)
    ensures IsSound(c, bytes + more) <==> IsSound(c, bytes) && IsSound(c, Tail(bytes) + more)
    ensures Tail(bytes + more) == Tail(Tail(bytes) + more)
    decreases |bytes|
  {
    if NEWLINE in bytes {
      var end := LineEnd(bytes);
      LineEndExtends(bytes, more);
      assert bytes[end - 1] == (bytes + more)[end - 1] == NEWLINE;
      SoundAndTailExtend(c, bytes[end..], more);
    }
  }

  /** A terminated line decides by itself whether the log stays clean. */
  lemma WrittenAfterTail(c: Codec, tail: Bytes, r: Record)
    requires Good(c) && Encodes(c, r) && NEWLINE !in tail
    ensures Tail(tail + Written(c, r)) == []
    ensures IsSound(c, tail + Written(c, r)) <==> IsBlank(tail)
  {
    var line := Line(c, r);
    assert RoundTrips(c, r) && RejectsJoin(c, tail, r, |line|);
    var bytes := tail + line + [NEWLINE];
    assert line[..|line|] == line;
    assert tail + Written(c, r) == bytes;
    assert NEWLINE !in tail + line;
    LineEndOfLine(tail + line);
    assert bytes[|tail + line|] == NEWLINE;
    assert bytes[..|bytes|] == bytes && bytes[|bytes|..] == [];
    TrimSpace(tail + line);
    if IsBlank(tail) {
      TrimBefore(tail, line);
      assert Trim(bytes) == line;
    } else {
      TrimLeftAppend(tail, line);
      assert TrimRight(TrimLeft(tail + line)) == TrimLeft(tail + line);
    }
  }

  /** An append is found by recovery, behind everything found before, if and only if the log it was
      appended to ends at a newline that the scan reaches; and only then does it leave such a log. */
  lemma AppendDurableIffClean(c: Codec, w: Bytes, r: Record)
    requires Good(c) && Encodes(c, r)
    ensures Recover(c, w + Written(c, r)) == Recover(c, w) + [c.compact(r)] <==> IsClean(c, w)
    ensures IsClean(c, w + Written(c, r)) <==> IsClean(c, w)
    ensures !IsClean(c, w) ==> Recover(c, w + Written(c, r)) <= Recover(c, w)
  {
    assert RoundTrips(c, r);
    SoundAndTailExtend(c, w, Written(c, r));
    WrittenAfterTail(c, Tail(w), r);
    if IsSound(c, w) {
      SoundByPiece(c, w, r, |Line(c, r)|, true);
    } else {
      UnsoundExtends(c, w, Written(c, r));
    }
  }

  lemma LinesLast(c: Codec, w: Bytes, rs: seq<Record>)
    requires AllEncode(c, rs) && rs != []
    ensures w + Lines(c, rs) == (w + Lines(c, rs[..|rs| - 1])) + Written(c, rs[|rs| - 1])
  {
  }

  lemma CompactedLast(c: Codec, base: seq<Record>, rs: seq<Record>)
    requires rs != []
    ensures base + Compacted(c, rs) == base + Compacted(c, rs[..|rs| - 1]) + [c.compact(rs[|rs| - 1])]
  {
  }

  /** Without a crash: a clean log recovers everything that was appended to it. */
  lemma {:induction false} CleanKeepsAll(c: Codec, w: Bytes, rs: seq<Record>)
    requires Good(c) && IsClean(c, w) && AllEncode(c, rs)
    ensures Recover(c, w + Lines(c, rs)) == Recover(c, w) + Compacted(c, rs)
    ensures IsClean(c, w + Lines(c, rs))
    decreases |rs|
  {
    if rs == [] {
      assert w + [] == w;
    } else {
      var front := rs[..|rs| - 1];
      LinesLast(c, w, rs);
      CleanKeepsAll(c, w, front);
      AppendDurableIffClean(c, w + Lines(c, front), rs[|rs| - 1]);
      CompactedLast(c, Recover(c, w), rs);
    }
  }

  /** A log with a torn tail loses every later append, acknowledged or not. */
  lemma {:induction false} TornLosesAll(c: Codec, w: Bytes, rs: seq<Record>)
    requires Good(c) && !IsClean(c, w) && AllEncode(c, rs)
    ensures Recover(c, w + Lines(c, rs)) <= Recover(c, w)
    ensures !IsClean(c, w + Lines(c, rs))
    decreases |rs|
  {
    if rs == [] {
      assert w + [] == w;
    } else {
      LinesLast(c, w, rs);
      TornLosesAll(c, w, rs[..|rs| - 1]);
      AppendDurableIffClean(c, w + Lines(c, rs[..|rs| - 1]), rs[|rs| - 1]);
    }
  }

  /** Cutting the last line: the record is there once its whole text is, with or without the newline. */
  lemma CutLastLine(c: Codec, w: Bytes, r: Record, k: nat)
    requires Good(c) && Encodes(c, r) && IsClean(c, w) && |w| <= k <= |w + Written(c, r)|
    ensures Recover(c, (w + Written(c, r))[..k]) ==
            Recover(c, w) + if k >= |w| + |Line(c, r)| then [c.compact(r)] else []
  {
    var line := Line(c, r);
    var n := k - |w|;
    if n == 0 {
      assert RoundTrips(c, r);
      assert (w + Written(c, r))[..k] == w;
    } else if n <= |line| {
      assert (w + Written(c, r))[..k] == w + Piece(c, r, n, false);
      SoundByPiece(c, w, r, n, false);
    } else {
      assert (w + Written(c, r))[..k] == w + Written(c, r);
      AppendDurableIffClean(c, w, r);
    }
  }

  /** Recovery of the first k bytes finds the old records and then the first `found` appended ones. */
  ghost predicate Finds(c: Codec, w: Bytes, rs: seq<Record>, k: nat, found: nat)
    requires AllEncode(c, rs)
  {
    && found <= |rs| && k <= |w + Lines(c, rs)|
    && Recover(c, (w + Lines(c, rs))[..k]) == Recover(c, w) + Compacted(c, rs[..found])
  }

  lemma FindsAll(c: Codec, w: Bytes, rs: seq<Record>)
    requires Good(c) && IsClean(c, w) && AllEncode(c, rs)
    ensures Finds(c, w, rs, |w + Lines(c, rs)|, |rs|)
  {
    CleanKeepsAll(c, w, rs);
    var bytes := w + Lines(c, rs);
    assert bytes[..|bytes|] == bytes && rs[..|rs|] == rs;
  }

  lemma FindsInLastLine(c: Codec, w: Bytes, rs: seq<Record>, k: nat)
    requires Good(c) && IsClean(c, w) && AllEncode(c, rs) && rs != []
    requires |w + Lines(c, rs[..|rs| - 1])| <= k <= |w + Lines(c, rs)|
    ensures Finds(c, w, rs, k, |rs| - 1) || Finds(c, w, rs, k, |rs|)
  {
    var front, last := rs[..|rs| - 1], rs[|rs| - 1];
    LinesLast(c, w, rs);
    CleanKeepsAll(c, w, front);
    CutLastLine(c, w + Lines(c, front), last, k);
    CompactedLast(c, Recover(c, w), rs);
    assert rs[..|front|] == front && rs[..|rs|] == rs;
  }

  lemma FindsInFront(c: Codec, w: Bytes, rs: seq<Record>, k: nat, found: nat)
    requires AllEncode(c, rs) && rs != [] && Finds(c, w, rs[..|rs| - 1], k, found)
    ensures Finds(c, w, rs, k, found)
  {
    var front := rs[..|rs| - 1];
    LinesLast(c, w, rs);
    assert (w + Lines(c, rs))[..k] == (w + Lines(c, front))[..k];
    assert front[..found] == rs[..found];
  }

  /** Crash at any byte: start from a log that ends at a newline, append any records, and cut the file
      anywhere behind the first `synced` of them. Recovery returns the old records and then a prefix of the
      new ones, in order, that contains every synced one. */
  lemma {:induction false} CrashAtAnyByte(c: Codec, w: Bytes, rs: seq<Record>, synced: nat, k: nat)
    requires Good(c) && IsClean(c, w) && AllEncode(c, rs) && synced <= |rs|
    requires |w + Lines(c, rs[..synced])| <= k <= |w + Lines(c, rs)|
    ensures exists found :: synced <= found <= |rs| && Finds(c, w, rs, k, found)
    decreases |rs|
  {
    if synced == |rs| {
      assert rs[..synced] == rs;
      FindsAll(c, w, rs);
    } else {
      var front := rs[..|rs| - 1];
      if k >= |w + Lines(c, front)| {
        FindsInLastLine(c, w, rs, k);
      } else {
        assert front[..synced] == rs[..synced];
        CrashAtAnyByte(c, w, front, synced, k);
        var found :| synced <= found <= |front| && Finds(c, w, front, k, found);
        FindsInFront(c, w, rs, k, found);
      }
    }
  }

  /** The consequence for the next process: a crash inside the first line, a reopening, and then an append
      that is acknowledged but never recovered. */
  lemma TornTailLosesAcknowledged(c: Codec, first: Record, second: Record, cut: nat)
    requires Good(c) && Encodes(c, first) && Encodes(c, second) && 0 < cut < |Line(c, first)|
    ensures var torn := Written(c, first)[..cut];
            Recover(c, torn) == [] && Recover(c, torn + Written(c, second)) == []
  {
    var line := Line(c, first);
    var torn := Written(c, first)[..cut];
    assert RoundTrips(c, first);
    assert torn == line[..cut];
    assert NEWLINE !in torn;
    assert !IsSpace(torn[0]);
    assert torn == [] + Piece(c, first, cut, false);
    RecoverTail(c, [], first, cut, false);
    AppendDurableIffClean(c, torn, second);
  }
}
