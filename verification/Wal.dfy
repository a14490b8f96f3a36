/** The ForgeLog write-ahead log as bytes: newline framing, and a recovery scan that stops at the first line
    it cannot decode. */
module Wal {

  import opened Basics

  newtype Byte = x: int | 0 <= x < 256

  type Bytes = seq<Byte>

  const NEWLINE: Byte := 10

  datatype Record = Record(offset: int, appendedAt: int, event: Bytes)

  /** How a record becomes a line. `encode` fails on an event that is not JSON; `compact` is what the
      round trip makes of a record, since encoding removes insignificant white space. */
  datatype Codec = Codec(
    encode: Record -> Option<Bytes>,
    decode: Bytes -> Option<Record>,
    compact: Record -> Record)

  predicate IsSpace(b: Byte) {
    b == 32 || 9 <= b <= 13
  }

  function TrimLeft(line: Bytes): (trimmed: Bytes) {
    if line != [] && IsSpace(line[0]) then TrimLeft(line[1..]) else line
  }

  function TrimRight(line: Bytes): (trimmed: Bytes)
    ensures trimmed <= line
  {
    if line != [] && IsSpace(line[|line| - 1]) then TrimRight(line[..|line| - 1]) else line
  }

  function Trim(line: Bytes): (trimmed: Bytes) {
    TrimRight(TrimLeft(line))
  }

  predicate IsBlank(line: Bytes) {
    forall i :: 0 <= i < |line| ==> IsSpace(line[i])
  }

  predicate Encodes(c: Codec, r: Record) {
    c.encode(r).Some?
  }

  function Line(c: Codec, r: Record): (line: Bytes)
    requires Encodes(c, r)
  {
    c.encode(r).value
  }

  /** A line decodes to the compacted record, has no newline, and neither starts nor ends with a space. */
  ghost predicate RoundTrips(c: Codec, r: Record) {
    Encodes(c, r) ==>
      var line := Line(c, r);
      && line != [] && NEWLINE !in line && !IsSpace(line[0]) && !IsSpace(line[|line| - 1])
      && c.decode(line) == Some(c.compact(r)) && c.compact(r).offset == r.offset
      && c.compact(c.compact(r)) == c.compact(r)
  }

  /** A line that was cut short does not decode. */
  ghost predicate RejectsPrefix(c: Codec, r: Record, n: nat) {
    Encodes(c, r) && n < |Line(c, r)| ==> c.decode(Line(c, r)[..n]) == None
  }

  /** A line, or the start of one, does not decode when something other than space precedes it. */
  ghost predicate RejectsJoin(c: Codec, tail: Bytes, r: Record, n: nat) {
    Encodes(c, r) && 0 < n <= |Line(c, r)| && !IsBlank(tail) ==> c.decode(Trim(tail + Line(c, r)[..n])) == None
  }

  /** What the log relies on; JSON objects written in compact form have these properties. */
  ghost predicate Good(c: Codec) {
    && (forall r :: RoundTrips(c, r))
    && (forall r, n :: RejectsPrefix(c, r, n))
    && (forall tail, r, n :: RejectsJoin(c, tail, r, n))
  }

  // ---------------------------------------------------------------------------------------------
  // Reading

  /** The position after the first newline, or the end. */
  function LineEnd(bytes: Bytes): (end: nat)
    ensures end <= |bytes| && (bytes != [] ==> end > 0)
    ensures NEWLINE !in bytes ==> end == |bytes|
    ensures NEWLINE in bytes ==> end > 0 && bytes[end - 1] == NEWLINE && NEWLINE !in bytes[..end - 1]
  {
    if bytes == [] then 0
    else if bytes[0] == NEWLINE then 1
    else 1 + LineEnd(bytes[1..])
  }

  /** What a trimmed line contributes in front of the records that follow it: a blank line nothing, an
      undecodable line the end of the scan. */
  function After(c: Codec, line: Bytes, rest: seq<Record>): (records: seq<Record>) {
    if line == [] then rest
    else match c.decode(line)
      case None => []
      case Some(r) => [r] + rest
  }

  /** The records the recovery scan finds. */
  function Recover(c: Codec, bytes: Bytes): (records: seq<Record>)
    decreases |bytes|
  {
    if bytes == [] then []
    else After(c, Trim(bytes[..LineEnd(bytes)]), Recover(c, bytes[LineEnd(bytes)..]))
  }

  /** Everything up to the last newline. */
  function Head(bytes: Bytes): (head: Bytes)
    decreases |bytes|
  {
    if NEWLINE !in bytes then []
    else bytes[..LineEnd(bytes)] + Head(bytes[LineEnd(bytes)..])
  }

  /** Everything after the last newline. */
  function Tail(bytes: Bytes): (tail: Bytes)
    ensures NEWLINE !in tail
    decreases |bytes|
  {
    if NEWLINE !in bytes then bytes else Tail(bytes[LineEnd(bytes)..])
  }

  /** Every terminated line is blank or decodes, so the scan reaches the tail. */
  predicate IsSound(c: Codec, bytes: Bytes)
    decreases |bytes|
  {
    NEWLINE in bytes ==>
      var line := Trim(bytes[..LineEnd(bytes)]);
      (line == [] || c.decode(line).Some?) && IsSound(c, bytes[LineEnd(bytes)..])
  }

  /** The log ends at a newline (up to trailing space) and the scan reaches that point. */
  predicate IsClean(c: Codec, bytes: Bytes) {
    IsSound(c, bytes) && IsBlank(Tail(bytes))
  }

  // ---------------------------------------------------------------------------------------------
  // Trimming

  lemma {:induction false} TrimLeftBlank(blank: Bytes, line: Bytes)
    requires IsBlank(blank)
    ensures TrimLeft(blank + line) == TrimLeft(line)
    decreases |blank|
  {
    if blank == [] {
      assert blank + line == line;
    } else {
      assert (blank + line)[1..] == blank[1..] + line;
      TrimLeftBlank(blank[1..], line);
    }
  }

  lemma {:induction false} TrimRightSpace(line: Bytes, space: Byte)
    requires IsSpace(space)
    ensures TrimRight(line + [space]) == TrimRight(line)
  {
    assert (line + [space])[..|line|] == line;
  }

  lemma {:induction false} TrimLeftAppend(line: Bytes, more: Bytes)
    requires !IsBlank(line)
    ensures TrimLeft(line) != [] && TrimLeft(line + more) == TrimLeft(line) + more
    decreases |line|
  {
    if IsSpace(line[0]) {
      assert (line + more)[1..] == line[1..] + more;
      assert !IsBlank(line[1..]);
      TrimLeftAppend(line[1..], more);
    }
  }

  /** The bytes trimming removes: blank, tab, newline, vertical tab, form feed and carriage return. */
  ghost predicate AllTrimmed(bytes: Bytes) {
    forall k :: 0 <= k < |bytes| ==> bytes[k] in {9, 10, 11, 12, 13, 32}
  }

  lemma {:induction false} TrimLeftSplits(line: Bytes) returns (left: Bytes)
    ensures line == left + TrimLeft(line) && AllTrimmed(left)
    ensures TrimLeft(line) != [] ==> TrimLeft(line)[0] !in {9, 10, 11, 12, 13, 32}
    decreases |line|
  {
    left := [];
    if line != [] && IsSpace(line[0]) {
      var rest := TrimLeftSplits(line[1..]);
      left := [line[0]] + rest;
    }
  }

  lemma {:induction false} TrimRightSplits(line: Bytes) returns (right: Bytes)
    ensures line == TrimRight(line) + right && AllTrimmed(right)
    ensures TrimRight(line) != [] ==> TrimRight(line)[|TrimRight(line)| - 1] !in {9, 10, 11, 12, 13, 32}
    decreases |line|
  {
    right := [];
    if line != [] && IsSpace(line[|line| - 1]) {
      var rest := TrimRightSplits(line[..|line| - 1]);
      right := rest + [line[|line| - 1]];
    }
  }

  /** Trimming takes exactly the white space off both ends. */
  lemma TrimSplits(line: Bytes) returns (left: Bytes, right: Bytes)
    ensures line == left + Trim(line) + right && AllTrimmed(left) && AllTrimmed(right)
    ensures Trim(line) != [] ==> Trim(line)[0] !in {9, 10, 11, 12, 13, 32}
    ensures Trim(line) != [] ==> Trim(line)[|Trim(line)| - 1] !in {9, 10, 11, 12, 13, 32}
  {
    left := TrimLeftSplits(line);
    right := TrimRightSplits(TrimLeft(line));
  }

  lemma TrimSpace(line: Bytes)
    ensures Trim(line + [NEWLINE]) == Trim(line)
  {
    if IsBlank(line) {
      TrimLeftBlank(line, []);
      TrimLeftBlank(line, [NEWLINE]);
      assert line + [] == line;
      assert TrimLeft([NEWLINE]) == TrimLeft([NEWLINE][1..]) == [];
    } else {
      TrimLeftAppend(line, [NEWLINE]);
      TrimRightSpace(TrimLeft(line), NEWLINE);
    }
  }

  lemma TrimBlank(blank: Bytes)
    requires IsBlank(blank)
    ensures Trim(blank) == []
  {
    TrimLeftBlank(blank, []);
    assert blank + [] == blank;
  }

  /** Blank space before a text that starts with a visible byte goes away. */
  lemma TrimBefore(blank: Bytes, text: Bytes)
    requires IsBlank(blank) && text != [] && !IsSpace(text[0])
    ensures Trim(blank + text) == TrimRight(text)
  {
    TrimLeftBlank(blank, text);
  }

  // ---------------------------------------------------------------------------------------------
  // How recovery reads a log that was extended

  lemma LineEndExtends(bytes: Bytes, more: Bytes)
    requires NEWLINE in bytes
    ensures LineEnd(bytes + more) == LineEnd(bytes)
    ensures (bytes + more)[..LineEnd(bytes)] == bytes[..LineEnd(bytes)]
    ensures (bytes + more)[LineEnd(bytes)..] == bytes[LineEnd(bytes)..] + more
  {
    if bytes[0] != NEWLINE {
      assert (bytes + more)[1..] == bytes[1..] + more;
      LineEndExtends(bytes[1..], more);
    }
  }

  /** The scan takes the first line off, whatever was appended behind it. */
  lemma RecoverUnfolds(c: Codec, bytes: Bytes, more: Bytes)
    requires NEWLINE in bytes
    ensures var end := LineEnd(bytes);
            && Recover(c, bytes + more) == After(c, Trim(bytes[..end]), Recover(c, bytes[end..] + more))
            && Recover(c, bytes) == After(c, Trim(bytes[..end]), Recover(c, bytes[end..]))
            && Recover(c, Head(bytes)) == After(c, Trim(bytes[..end]), Recover(c, Head(bytes[end..])))
  {
    LineEndExtends(bytes, more);
    assert bytes + more != [];
    LineOfHead(bytes);
  }

  lemma AfterAppends(c: Codec, line: Bytes, rest: seq<Record>, last: seq<Record>)
    requires line == [] || c.decode(line).Some?
    ensures After(c, line, rest + last) == After(c, line, rest) + last
  {
  }

  /** Appending to a sound log is appending to its tail. */
  lemma {:induction false} SoundExtends(c: Codec, bytes: Bytes, more: Bytes)
    requires IsSound(c, bytes)
    ensures Recover(c, bytes + more) == Recover(c, Head(bytes)) + Recover(c, Tail(bytes) + more)
    decreases |bytes|
  {
    if NEWLINE in bytes {
      var rest := bytes[LineEnd(bytes)..];
      RecoverUnfolds(c, bytes, more);
      SoundExtends(c, rest, more);
      AfterAppends(c, Trim(bytes[..LineEnd(bytes)]), Recover(c, Head(rest)), Recover(c, Tail(rest) + more));
    }
  }

  /** Appending to an unsound log is in vain. */
  lemma {:induction false} UnsoundExtends(c: Codec, bytes: Bytes, more: Bytes)
    requires !IsSound(c, bytes)
    ensures Recover(c, bytes + more) == Recover(c, bytes)
    decreases |bytes|
  {
    var end := LineEnd(bytes);
    var line := Trim(bytes[..end]);
    RecoverUnfolds(c, bytes, more);
    if line == [] || c.decode(line).Some? {
      UnsoundExtends(c, bytes[end..], more);
    }
  }

  lemma LineOfHead(bytes: Bytes)
    requires NEWLINE in bytes
    ensures var end := LineEnd(bytes);
            Head(bytes) != [] && LineEnd(Head(bytes)) == end && Head(bytes)[..end] == bytes[..end]
            && Head(bytes)[end..] == Head(bytes[end..])
  {
    var end := LineEnd(bytes);
    assert bytes[..end][end - 1] == NEWLINE;
    LineEndExtends(bytes[..end], bytes[end..]);
    assert bytes[..end] + bytes[end..] == bytes;
    LineEndExtends(bytes[..end], Head(bytes[end..]));
  }

  lemma RecoverSplits(c: Codec, bytes: Bytes)
    requires IsSound(c, bytes)
    ensures Recover(c, bytes) == Recover(c, Head(bytes)) + Recover(c, Tail(bytes))
  {
    SoundExtends(c, bytes, []);
    assert bytes + [] == bytes && Tail(bytes) + [] == Tail(bytes);
  }

  /** One line without a newline inside it, terminated or not. */
  lemma RecoverOneLine(c: Codec, line: Bytes, terminated: bool)
    requires NEWLINE !in line
    ensures Recover(c, line + if terminated then [NEWLINE] else []) ==
            After(c, Trim(line), [])
  {
    var bytes := line + if terminated then [NEWLINE] else [];
    if terminated {
      assert bytes[|line|] == NEWLINE;
      LineEndOfLine(line);
      TrimSpace(line);
    } else {
      assert bytes == line;
    }
    if bytes != [] {
      assert bytes[..|bytes|] == bytes && bytes[|bytes|..] == [];
    } else {
      assert Trim(line) == [];
    }
  }

  lemma LineEndOfLine(line: Bytes)
    requires NEWLINE !in line
    ensures LineEnd(line + [NEWLINE]) == |line| + 1
  {
    var bytes := line + [NEWLINE];
    assert bytes[|line|] == NEWLINE;
    assert forall i :: 0 <= i < |line| ==> bytes[i] == line[i];
  }

  /** The first n bytes of a line, with or without the newline. */
  function Piece(c: Codec, r: Record, n: nat, terminated: bool): (piece: Bytes)
    requires Encodes(c, r) && n <= |Line(c, r)|
  {
    Line(c, r)[..n] + if terminated then [NEWLINE] else []
  }

  /** What the scan makes of a tail followed by the first n bytes of a line. */
  lemma RecoverTail(c: Codec, tail: Bytes, r: Record, n: nat, terminated: bool)
    requires Good(c) && Encodes(c, r) && NEWLINE !in tail && 0 < n <= |Line(c, r)|
    ensures Recover(c, tail + Piece(c, r, n, terminated)) ==
            if IsBlank(tail) && n == |Line(c, r)| then [c.compact(r)] else []
  {
    var line := Line(c, r);
    var piece := line[..n];
    assert RoundTrips(c, r) && RejectsJoin(c, tail, r, n);
    assert NEWLINE !in tail + piece;
    RecoverOneLine(c, tail + piece, terminated);
    assert tail + Piece(c, r, n, terminated) == tail + piece + if terminated then [NEWLINE] else [];
    if IsBlank(tail) {
      TrimBefore(tail, piece);
      var kept := TrimRight(piece);
      assert kept == line[..|kept|];
      assert RejectsPrefix(c, r, |kept|);
      if n == |line| {
        assert piece == line && TrimRight(line) == line;
      }
    }
  }

  /** Any piece of a line appended to any log loses the tail's record, adds nothing, or adds the record. */
  lemma ExtendByPiece(c: Codec, bytes: Bytes, r: Record, n: nat, terminated: bool)
    requires Good(c) && Encodes(c, r) && 0 < n <= |Line(c, r)|
    ensures var after := Recover(c, bytes + Piece(c, r, n, terminated));
            after <= Recover(c, bytes) || after == Recover(c, bytes) + [c.compact(r)]
  {
    if IsSound(c, bytes) {
      SoundByPiece(c, bytes, r, n, terminated);
    } else {
      UnsoundExtends(c, bytes, Piece(c, r, n, terminated));
    }
  }

  lemma SoundByPiece(c: Codec, bytes: Bytes, r: Record, n: nat, terminated: bool)
    requires Good(c) && Encodes(c, r) && 0 < n <= |Line(c, r)| && IsSound(c, bytes)
    ensures Recover(c, bytes + Piece(c, r, n, terminated)) ==
            if IsBlank(Tail(bytes)) then Recover(c, bytes) + (if n == |Line(c, r)| then [c.compact(r)] else [])
            else Recover(c, Head(bytes))
    ensures Recover(c, Head(bytes)) <= Recover(c, bytes)
  {
    var tail := Tail(bytes);
    SoundExtends(c, bytes, Piece(c, r, n, terminated));
    RecoverSplits(c, bytes);
    RecoverTail(c, tail, r, n, terminated);
    if IsBlank(tail) {
      BlankRecoversNothing(c, tail);
    }
  }

  lemma BlankRecoversNothing(c: Codec, tail: Bytes)
    requires IsBlank(tail) && NEWLINE !in tail
    ensures Recover(c, tail) == []
  {
    TrimBlank(tail);
    RecoverOneLine(c, tail, false);
    assert tail + [] == tail;
  }
}
