/** A codec with the properties the log relies on: they can all be met at once. */
module WalCodec {
  import opened Basics
  import opened Wal

  const OPEN: Byte := 123
  const CLOSE: Byte := 125
  const ONE: Byte := 49
  const COLON: Byte := 58
  const LETTER: Byte := 97

  function Unary(n: nat): (bytes: Bytes) {
    seq(n, _ => ONE)
  }

  function Letters(event: Bytes): (bytes: Bytes) {
    if event == [] then [] else [LETTER + event[0] / 16, LETTER + event[0] % 16] + Letters(event[1..])
  }

  predicate IsLetter(b: Byte) {
    LETTER <= b < LETTER + 16
  }

  function ParseLetters(bytes: Bytes): (event: Option<Bytes>)
    decreases |bytes|
  {
    if bytes == [] then Some([])
    else if |bytes| == 1 || !IsLetter(bytes[0]) || !IsLetter(bytes[1]) then None
    else match ParseLetters(bytes[2..])
      case None => None
      case Some(rest) => Some([(bytes[0] - LETTER) * 16 + (bytes[1] - LETTER)] + rest)
  }

  function LeadingOnes(bytes: Bytes): (count: nat)
    ensures count <= |bytes|
  {
    if bytes == [] || bytes[0] != ONE then 0 else 1 + LeadingOnes(bytes[1..])
  }

  function Body(r: Record): (bytes: Bytes)
    requires r.offset >= 0 && r.appendedAt >= 0
  {
    Unary(r.offset) + [COLON] + (Unary(r.appendedAt) + [COLON] + Letters(r.event))
  }

  function Encode(r: Record): (line: Option<Bytes>) {
    if r.offset < 0 || r.appendedAt < 0 then None else Some([OPEN] + Body(r) + [CLOSE])
  }

  function ParseBody(body: Bytes): (r: Option<Record>) {
    var n := LeadingOnes(body);
    if n == |body| || body[n] != COLON then None
    else
      var rest := body[n + 1..];
      var m := LeadingOnes(rest);
      if m == |rest| || rest[m] != COLON then None
      else match ParseLetters(rest[m + 1..])
        case None => None
        case Some(event) => Some(Record(n, m, event))
  }

  function Decode(line: Bytes): (r: Option<Record>) {
    var last := |line| - 1;
    if |line| < 2 || line[0] != OPEN || line[last] != CLOSE then None
    else if OPEN in line[1..last] || CLOSE in line[1..last] then None
    else ParseBody(line[1..last])
  }

  const CODEC := Codec(Encode, Decode, (r: Record) => r)

  predicate IsPlain(bytes: Bytes) {
    forall i :: 0 <= i < |bytes| ==> bytes[i] == ONE || bytes[i] == COLON || IsLetter(bytes[i])
  }

  lemma {:induction false} LettersParse(event: Bytes)
    ensures IsPlain(Letters(event)) && ParseLetters(Letters(event)) == Some(event)
    decreases |event|
  {
    if event != [] {
      LettersParse(event[1..]);
      assert Letters(event)[2..] == Letters(event[1..]);
      assert [event[0]] + event[1..] == event;
    }
  }

  lemma {:induction false} OnesCounted(n: nat, rest: Bytes)
    ensures LeadingOnes(Unary(n) + [COLON] + rest) == n
    ensures (Unary(n) + [COLON] + rest)[n + 1..] == rest && (Unary(n) + [COLON] + rest)[n] == COLON
  {
    var bytes := Unary(n) + [COLON] + rest;
    if n > 0 {
      assert bytes[1..] == Unary(n - 1) + [COLON] + rest;
      OnesCounted(n - 1, rest);
    }
  }

  lemma PlainJoin(n: nat, rest: Bytes)
    requires IsPlain(rest)
    ensures IsPlain(Unary(n) + [COLON] + rest)
  {
  }

  lemma BodyParses(r: Record)
    requires r.offset >= 0 && r.appendedAt >= 0
    ensures IsPlain(Body(r)) && ParseBody(Body(r)) == Some(r)
  {
    var letters := Letters(r.event);
    var second := Unary(r.appendedAt) + [COLON] + letters;
    LettersParse(r.event);
    PlainJoin(r.appendedAt, letters);
    PlainJoin(r.offset, second);
    OnesCounted(r.appendedAt, letters);
    OnesCounted(r.offset, second);
    var body := Body(r);
    assert body == Unary(r.offset) + [COLON] + second;
    assert LeadingOnes(body) == r.offset && body[r.offset + 1..] == second;
    assert LeadingOnes(second) == r.appendedAt && second[r.appendedAt + 1..] == letters;
  }

  lemma LineShape(r: Record)
    requires Encodes(CODEC, r)
    ensures var line := Line(CODEC, r);
            && |line| == |Body(r)| + 2 && line[0] == OPEN && line[|line| - 1] == CLOSE
            && line[1..|line| - 1] == Body(r)
            && (forall i :: 0 < i < |line| - 1 ==> line[i] == ONE || line[i] == COLON || IsLetter(line[i]))
  {
    BodyParses(r);
    var line := Line(CODEC, r);
    assert line == [OPEN] + Body(r) + [CLOSE];
    assert forall i :: 0 < i < |line| - 1 ==> line[i] == Body(r)[i - 1];
  }

  lemma CodecRoundTrips(r: Record)
    ensures RoundTrips(CODEC, r)
  {
    if Encodes(CODEC, r) {
      LineShape(r);
      BodyParses(r);
    }
  }

  lemma CodecRejectsPrefix(r: Record, n: nat)
    ensures RejectsPrefix(CODEC, r, n)
  {
    if Encodes(CODEC, r) {
      LineShape(r);
    }
  }

  lemma CodecRejectsJoin(tail: Bytes, r: Record, n: nat)
    ensures RejectsJoin(CODEC, tail, r, n)
  {
    if Encodes(CODEC, r) && 0 < n <= |Line(CODEC, r)| && !IsBlank(tail) {
      LineShape(r);
      var piece := Line(CODEC, r)[..n];
      TrimLeftAppend(tail, piece);
      var joined := TrimLeft(tail) + piece;
      assert joined[|joined| - 1] == piece[n - 1];
      assert Trim(tail + piece) == joined;
      var at := |TrimLeft(tail)|;
      assert joined[at] == OPEN;
      if at < |joined| - 1 {
        assert joined[1..|joined| - 1][at - 1] == OPEN;
      }
    }
  }

  lemma CodecIsGood()
    ensures Good(CODEC)
  {
    forall r {
      CodecRoundTrips(r);
    }
    forall r, n {
      CodecRejectsPrefix(r, n);
    }
    forall tail, r, n {
      CodecRejectsJoin(tail, r, n);
    }
  }
}
