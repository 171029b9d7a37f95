/** What the receiver makes of any stream: an account of its frames that knows no states. */
module McuDecoding {
  import opened Checksums
  import opened Wire
  import opened McuReceiver

  predicate PairAt(p: Protocol, s: seq<byte>, i: nat)
    requires i + 1 < |s|
  {
    s[i] == p.header1 && s[i + 1] == p.header2
  }

  /** Where the two header bytes first stand side by side; the length of the stream if nowhere. */
  function HeaderAt(p: Protocol, s: seq<byte>): (j: nat)
    ensures j <= |s|
    ensures j < |s| ==> j + 1 < |s| && PairAt(p, s, j)
    ensures forall i: nat | i < j && i + 1 < |s| :: !PairAt(p, s, i)
  {
    if |s| < 2 then |s|
    else if PairAt(p, s, 0) then 0
    else
      PairsMove(p, s);
      HeaderAt(p, s[1..]) + 1
  }

  lemma PairsMove(p: Protocol, s: seq<byte>)
    ensures forall i: nat | 0 < i && i + 1 < |s| :: PairAt(p, s, i) == PairAt(p, s[1..], i - 1)
  {
  }

  /** What the first header of a stream leads to: nothing yet, or actions and where to read on. A
      length byte above the largest payload may itself be the beginning of the next header; otherwise
      payload and checksum are taken whole, and acted on if the checksum is right or there is none. */
  datatype Piece = Incomplete | Piece(events: seq<Event>, next: nat)

  function FirstPiece(fw: Firmware, s: seq<byte>): (r: Piece)
    ensures r.Piece? ==> 0 < r.next <= |s|
  {
    var p := fw.protocol;
    var j := HeaderAt(p, s);
    if |s| < j + 4 then Incomplete
    else if s[j + 3] > p.maxPayload then Piece([], j + 3)
    else if |s| < j + 5 + s[j + 3] then Incomplete
    else
      var end := j + 5 + s[j + 3];
      var payload := s[j + 4..end - 1];
      var right := p.algo == NoChecksum || s[end - 1] == Checksum(p.algo, [s[j + 2], s[j + 3]] + payload);
      Piece(if right then Dispatched(fw, s[j + 2], payload) else [], end)
  }

  /** The stream read from header to header. */
  function Decoded(fw: Firmware, s: seq<byte>): seq<Event>
    decreases |s|
  {
    match FirstPiece(fw, s)
    case Incomplete => []
    case Piece(events, next) => events + Decoded(fw, s[next..])
  }

  ghost predicate NoHeader(p: Protocol, s: seq<byte>)
  {
    forall i: nat | i + 1 < |s| :: !PairAt(p, s, i)
  }

  function Waiting(sawFirst: bool): RxState
  {
    if sawFirst then WaitHeader2 else WaitHeader1
  }

  lemma WaitsOn(fw: Firmware, m: Mcu, sawFirst: bool, b: byte)
    requires Inv(fw.protocol, m) && m.state == Waiting(sawFirst) && !(sawFirst && b == fw.protocol.header2)
    ensures Step(fw, m, b).events == []
    ensures Step(fw, m, b).mcu.state == Waiting(b == fw.protocol.header1)
  {
    hide Update, Checksum, Dispatched;
  }

  predicate EndsInFirst(p: Protocol, s: seq<byte>)
  {
    s != [] && s[|s| - 1] == p.header1
  }

  /** Without a header in the stream the receiver waits for one, having perhaps seen its first byte. */
  lemma {:induction false} WaitsForHeader(fw: Firmware, m: Mcu, s: seq<byte>)
    requires Idle(fw.protocol, m) && NoHeader(fw.protocol, s)
    ensures Run(fw, m, s).events == []
    ensures Run(fw, m, s).mcu.state == Waiting(EndsInFirst(fw.protocol, s))
  {
    hide Step, Inv, Run;
    if s == [] {
      RunNothing(fw, m);
    } else {
      var n := |s| - 1;
      var before := s[..n];
      assert forall i: nat | i + 1 < n :: PairAt(fw.protocol, before, i) == PairAt(fw.protocol, s, i);
      WaitsForHeader(fw, m, before);
      RunSnoc(fw, m, before, s[n]);
      assert before + [s[n]] == s;
      assert n > 0 ==> !PairAt(fw.protocol, s, n - 1);
      WaitsOn(fw, Run(fw, m, before).mcu, EndsInFirst(fw.protocol, before), s[n]);
    }
  }

  /** The first header of the stream is found. */
  lemma FindsHeader(fw: Firmware, m: Mcu, s: seq<byte>)
    requires Idle(fw.protocol, m)
    requires var j := HeaderAt(fw.protocol, s); j < |s|
    ensures var j := HeaderAt(fw.protocol, s);
            Run(fw, m, s[..j + 2]).events == [] && Run(fw, m, s[..j + 2]).mcu.state == WaitId
  {
    hide Run, Step, Inv, HeaderAt;
    var j := HeaderAt(fw.protocol, s);
    var before := s[..j + 1];
    NoneBefore(fw.protocol, s);
    WaitsForHeader(fw, m, before);
    SecondByte(fw, Run(fw, m, before).mcu);
    RunSnoc(fw, m, before, s[j + 1]);
    assert before + [s[j + 1]] == s[..j + 2];
  }

  lemma NoneBefore(p: Protocol, s: seq<byte>)
    requires HeaderAt(p, s) < |s|
    ensures NoHeader(p, s[..HeaderAt(p, s) + 1])
    ensures var j := HeaderAt(p, s); s[j] == p.header1 && s[j + 1] == p.header2
  {
    hide HeaderAt;
    var j := HeaderAt(p, s);
    var before := s[..j + 1];
    forall i: nat | i < j
      ensures !PairAt(p, before, i)
    {
      assert !PairAt(p, s, i);
    }
  }

  lemma SecondByte(fw: Firmware, m: Mcu)
    requires Inv(fw.protocol, m) && m.state == WaitHeader2
    ensures var r := Step(fw, m, fw.protocol.header2); r.events == [] && r.mcu.state == WaitId
  {
    hide Update, Checksum, Dispatched;
  }

  /** ID and length, from there. */
  lemma TakesIdAndLength(fw: Firmware, m: Mcu, id: byte, n: byte)
    requires Inv(fw.protocol, m) && m.state == WaitId && n <= fw.protocol.maxPayload
    ensures var r := Run(fw, m, [id, n]);
            && r.events == []
            && r.mcu.id == id && r.mcu.dataLen == n && r.mcu.count == 0
            && r.mcu.state == if n > 0 then WaitData else WaitCrc
  {
    hide Update, Checksum, Dispatched, Run;
    RunNothing(fw, m);
    RunSnoc(fw, m, [], id);
    assert [] + [id] == [id];
    RunSnoc(fw, m, [id], n);
    assert [id] + [n] == [id, n];
  }

  /** A length byte that is too large is taken as if the receiver had been idle. */
  lemma LengthStartsOver(fw: Firmware, m: Mcu, n: byte) returns (idle: Mcu)
    requires Inv(fw.protocol, m) && m.state == WaitLen && n > fw.protocol.maxPayload
    ensures Idle(fw.protocol, idle) && Step(fw, m, n) == Step(fw, idle, n)
  {
    hide Update, Checksum, Dispatched;
    idle := m.(state := WaitHeader1);
  }

  /** Two receivers that do the same with a byte do the same with what begins with it. */
  lemma SameFirstByte(fw: Firmware, m: Mcu, other: Mcu, s: seq<byte>)
    requires Inv(fw.protocol, m) && Inv(fw.protocol, other)
    requires s != [] && Step(fw, m, s[0]) == Step(fw, other, s[0])
    ensures Run(fw, m, s) == Run(fw, other, s)
  {
    hide Run, Step, Inv;
    RunNothing(fw, m);
    RunNothing(fw, other);
    RunSnoc(fw, m, [], s[0]);
    RunSnoc(fw, other, [], s[0]);
    assert [] + [s[0]] == [s[0]] && [s[0]] + s[1..] == s;
    RunAppend(fw, m, [s[0]], s[1..]);
    RunAppend(fw, other, [s[0]], s[1..]);
  }

  /** Payload bytes, none of them acted on. */
  lemma TakesPayload(fw: Firmware, m: Mcu, payload: seq<byte>)
    requires Inv(fw.protocol, m) && m.count == 0 && |payload| <= m.dataLen
    requires m.state == if m.dataLen > 0 then WaitData else WaitCrc
    ensures var r := Run(fw, m, payload);
            && r.events == []
            && (|payload| == m.dataLen ==>
                  r.mcu.state == WaitCrc && r.mcu.id == m.id && r.mcu.dataLen == m.dataLen
                  && r.mcu.buffer[..m.dataLen] == payload)
  {
    hide Run, Step;
    if m.dataLen > 0 {
      PayloadTaken(fw, m, payload);
    } else {
      RunNothing(fw, m);
      assert payload == [] && m.buffer[..0] == [];
    }
  }

  /** The checksum byte decides, and the receiver is idle again. */
  lemma TakesChecksum(fw: Firmware, m: Mcu, b: byte)
    requires Inv(fw.protocol, m) && m.state == WaitCrc
    ensures var payload := m.buffer[..m.dataLen];
            var right := fw.protocol.algo == NoChecksum || b == Checksum(fw.protocol.algo, [m.id, m.dataLen] + payload);
            && Step(fw, m, b).events == (if right then Dispatched(fw, m.id, payload) else [])
            && Step(fw, m, b).mcu.state == WaitHeader1
  {
    hide Dispatched, Checksum, Update;
  }

  /** The rest of a candidate, from its ID on. */
  lemma TakesRest(fw: Firmware, m: Mcu, id: byte, payload: seq<byte>, b: byte)
    requires Inv(fw.protocol, m) && m.state == WaitId && |payload| <= fw.protocol.maxPayload && |payload| <= 255
    ensures var p := fw.protocol;
            var right := p.algo == NoChecksum || b == Checksum(p.algo, [id, |payload|] + payload);
            var r := Run(fw, m, [id, |payload|] + payload + [b]);
            && r.events == (if right then Dispatched(fw, id, payload) else [])
            && r.mcu.state == WaitHeader1
  {
    hide Run, Step, Dispatched, Checksum, Inv;
    TakesIdAndLength(fw, m, id, |payload|);
    var m1 := Run(fw, m, [id, |payload|]).mcu;
    TakesPayload(fw, m1, payload);
    RunAppend(fw, m, [id, |payload|], payload);
    var m2 := Run(fw, m, [id, |payload|] + payload).mcu;
    TakesChecksum(fw, m2, b);
    RunSnoc(fw, m, [id, |payload|] + payload, b);
  }

  lemma TakesPartOfRest(fw: Firmware, m: Mcu, id: byte, n: byte, part: seq<byte>)
    requires Inv(fw.protocol, m) && m.state == WaitId && n <= fw.protocol.maxPayload && |part| <= n
    ensures Run(fw, m, [id, n] + part).events == []
  {
    hide Run, Step, Dispatched, Checksum, Inv;
    TakesIdAndLength(fw, m, id, n);
    TakesPayload(fw, Run(fw, m, [id, n]).mcu, part);
    RunAppend(fw, m, [id, n], part);
  }

  /** The stream from its first header on. */
  lemma AfterHeader(fw: Firmware, m: Mcu, s: seq<byte>) returns (m1: Mcu)
    requires Idle(fw.protocol, m) && HeaderAt(fw.protocol, s) < |s|
    ensures Inv(fw.protocol, m1) && m1.state == WaitId
    ensures Run(fw, m, s) == Run(fw, m1, s[HeaderAt(fw.protocol, s) + 2..])
  {
    hide Run, Step, Inv;
    var j := HeaderAt(fw.protocol, s);
    FindsHeader(fw, m, s);
    m1 := Run(fw, m, s[..j + 2]).mcu;
    RunAppend(fw, m, s[..j + 2], s[j + 2..]);
    assert s[..j + 2] + s[j + 2..] == s;
  }

  lemma Pieces(s: seq<byte>, j: nat, end: nat)
    requires j + 5 <= end <= |s|
    ensures s[j + 2..] == [s[j + 2], s[j + 3]] + s[j + 4..end - 1] + [s[end - 1]] + s[end..]
  {
  }

  /** Less than a whole candidate is only collected. */
  lemma TakesPart(fw: Firmware, m: Mcu, s: seq<byte>)
    requires Idle(fw.protocol, m)
    requires var j := HeaderAt(fw.protocol, s);
             j + 4 <= |s| && s[j + 3] <= fw.protocol.maxPayload && |s| < j + 5 + s[j + 3]
    ensures Run(fw, m, s).events == []
  {
    hide Run, Step, Dispatched, Checksum, HeaderAt, Inv;
    var j := HeaderAt(fw.protocol, s);
    var m1 := AfterHeader(fw, m, s);
    TakesPartOfRest(fw, m1, s[j + 2], s[j + 3], s[j + 4..]);
    assert s[j + 2..] == [s[j + 2], s[j + 3]] + s[j + 4..];
  }

  lemma TakesLittle(fw: Firmware, m: Mcu, s: seq<byte>)
    requires Idle(fw.protocol, m) && |s| < HeaderAt(fw.protocol, s) + 4
    ensures Run(fw, m, s).events == []
  {
    hide Run, Step, Dispatched, Checksum, Inv;
    var j := HeaderAt(fw.protocol, s);
    if j == |s| {
      WaitsForHeader(fw, m, s);
    } else {
      FindsHeader(fw, m, s);
      if |s| == j + 2 {
        assert s[..j + 2] == s;
      } else {
        IdIsSilent(fw, Run(fw, m, s[..j + 2]).mcu, s[j + 2]);
        RunSnoc(fw, m, s[..j + 2], s[j + 2]);
        assert s[..j + 2] + [s[j + 2]] == s;
      }
    }
  }

  lemma IdIsSilent(fw: Firmware, m: Mcu, id: byte)
    requires Inv(fw.protocol, m) && m.state == WaitId
    ensures Step(fw, m, id).events == [] && Step(fw, m, id).mcu.state == WaitLen
  {
    hide Update, Checksum;
  }

  /** After a length that is too large the receiver goes on as an idle one would with that byte. */
  lemma GoesOnFromLength(fw: Firmware, m: Mcu, s: seq<byte>) returns (idle: Mcu)
    requires Idle(fw.protocol, m)
    requires var j := HeaderAt(fw.protocol, s); j + 4 <= |s| && s[j + 3] > fw.protocol.maxPayload
    ensures Idle(fw.protocol, idle)
    ensures Run(fw, m, s).events == Run(fw, idle, s[HeaderAt(fw.protocol, s) + 3..]).events
  {
    hide Run, Step, HeaderAt, Inv;
    var j := HeaderAt(fw.protocol, s);
    var head, tail := s[..j + 3], s[j + 3..];
    FindsHeader(fw, m, s);
    IdIsSilent(fw, Run(fw, m, s[..j + 2]).mcu, s[j + 2]);
    RunSnoc(fw, m, s[..j + 2], s[j + 2]);
    assert s[..j + 2] + [s[j + 2]] == head;
    var m1 := Run(fw, m, head).mcu;
    idle := LengthStartsOver(fw, m1, s[j + 3]);
    SameFirstByte(fw, m1, idle, tail);
    RunAppend(fw, m, head, tail);
    assert head + tail == s;
  }

  /** After a candidate the receiver is idle. */
  lemma GoesOnFromCandidate(fw: Firmware, m: Mcu, s: seq<byte>) returns (idle: Mcu)
    requires Idle(fw.protocol, m)
    requires var j := HeaderAt(fw.protocol, s);
             j + 5 <= |s| && s[j + 3] <= fw.protocol.maxPayload && j + 5 + s[j + 3] <= |s|
    ensures Idle(fw.protocol, idle)
    ensures var j := HeaderAt(fw.protocol, s);
            var p := fw.protocol;
            var end := j + 5 + s[j + 3];
            var payload := s[j + 4..end - 1];
            var right := p.algo == NoChecksum || s[end - 1] == Checksum(p.algo, [s[j + 2], s[j + 3]] + payload);
            Run(fw, m, s).events
            == (if right then Dispatched(fw, s[j + 2], payload) else []) + Run(fw, idle, s[end..]).events
  {
    hide Run, Step, Dispatched, Checksum, HeaderAt, Inv;
    var j := HeaderAt(fw.protocol, s);
    var end := j + 5 + s[j + 3];
    var payload := s[j + 4..end - 1];
    var m1 := AfterHeader(fw, m, s);
    Pieces(s, j, end);
    idle := FinishesCandidate(fw, m1, s[j + 2], payload, s[end - 1], s[end..]);
  }

  lemma FinishesCandidate(fw: Firmware, m: Mcu, id: byte, payload: seq<byte>, b: byte, rest: seq<byte>)
      returns (idle: Mcu)
    requires Inv(fw.protocol, m) && m.state == WaitId && |payload| <= fw.protocol.maxPayload && |payload| <= 255
    ensures Idle(fw.protocol, idle)
    ensures var p := fw.protocol;
            var right := p.algo == NoChecksum || b == Checksum(p.algo, [id, |payload|] + payload);
            Run(fw, m, [id, |payload|] + payload + [b] + rest).events
            == (if right then Dispatched(fw, id, payload) else []) + Run(fw, idle, rest).events
  {
    hide Run, Step, Dispatched, Checksum, Inv;
    var candidate := [id, |payload|] + payload + [b];
    TakesRest(fw, m, id, payload, b);
    idle := Run(fw, m, candidate).mcu;
    RunAppend(fw, m, candidate, rest);
  }

  lemma TakesPiece(fw: Firmware, m: Mcu, s: seq<byte>) returns (idle: Mcu)
    requires Idle(fw.protocol, m)
    ensures Idle(fw.protocol, idle)
    ensures var piece := FirstPiece(fw, s);
            Run(fw, m, s).events
            == if piece.Incomplete? then [] else piece.events + Run(fw, idle, s[piece.next..]).events
  {
    hide Run, Step, Dispatched, Checksum, Idle, HeaderAt;
    idle := m;
    var j := HeaderAt(fw.protocol, s);
    if |s| < j + 4 {
      TakesLittle(fw, m, s);
    } else if s[j + 3] > fw.protocol.maxPayload {
      idle := GoesOnFromLength(fw, m, s);
    } else if |s| < j + 5 + s[j + 3] {
      TakesPart(fw, m, s);
    } else {
      idle := GoesOnFromCandidate(fw, m, s);
    }
  }

  /** From idle, what the receiver does over any stream is what that account says. */
  lemma {:induction false} RunDecodes(fw: Firmware, m: Mcu, s: seq<byte>)
    requires Idle(fw.protocol, m)
    ensures Run(fw, m, s).events == Decoded(fw, s)
    decreases |s|
  {
    hide Run, Idle, FirstPiece;
    var idle := TakesPiece(fw, m, s);
    if FirstPiece(fw, s).Piece? {
      RunDecodes(fw, idle, s[FirstPiece(fw, s).next..]);
    }
  }

  // ---------------------------------------------------------------------
  // Frames behind stray bytes
  // ---------------------------------------------------------------------

  lemma FirstIs(p: Protocol, s: seq<byte>, j: nat)
    requires j + 1 < |s| && PairAt(p, s, j)
    requires forall i: nat | i < j :: !PairAt(p, s, i)
    ensures HeaderAt(p, s) == j
  {
    var k := HeaderAt(p, s);
    assert k < |s|;
  }

  /** Where a frame stands behind bytes that hold no header and do not complete one. */
  lemma FrameParts(p: Protocol, stray: seq<byte>, id: byte, payload: seq<byte>, rest: seq<byte>)
    requires |payload| <= 255
    ensures var s := stray + FrameOf(p, id, payload) + rest;
            var j := |stray|;
            && j + 5 + |payload| <= |s|
            && s[j] == p.header1 && s[j + 1] == p.header2 && s[j + 2] == id && s[j + 3] == |payload|
            && s[j + 4..j + 4 + |payload|] == payload
            && s[j + 4 + |payload|] == Checksum(p.algo, [id, |payload|] + payload)
            && s[j + 5 + |payload|..] == rest
  {
    hide Checksum;
    var frame := FrameOf(p, id, payload);
    var head, sum := [p.header1, p.header2, id, |payload|], Checksum(p.algo, [id, |payload|] + payload);
    assert frame == head + payload + [sum];
    assert stray + frame + rest == stray + (head + (payload + ([sum] + rest)));
  }

  lemma FrameStands(p: Protocol, stray: seq<byte>, id: byte, payload: seq<byte>, rest: seq<byte>)
    requires |payload| <= 255 && NoHeader(p, stray + [p.header1])
    ensures var s := stray + FrameOf(p, id, payload) + rest;
            var j := |stray|;
            && j == HeaderAt(p, s) && j + 5 + |payload| <= |s|
            && s[j + 2] == id && s[j + 3] == |payload|
            && s[j + 4..j + 4 + |payload|] == payload
            && s[j + 4 + |payload|] == Checksum(p.algo, [id, |payload|] + payload)
            && s[j + 5 + |payload|..] == rest
  {
    hide Checksum, HeaderAt, FrameOf;
    var s := stray + FrameOf(p, id, payload) + rest;
    FrameParts(p, stray, id, payload, rest);
    var more := stray + [p.header1];
    forall i: nat | i < |stray|
      ensures !PairAt(p, s, i)
    {
      assert !PairAt(p, more, i);
      assert more[i] == s[i] && more[i + 1] == s[i + 1];
    }
    FirstIs(p, s, |stray|);
  }

  /** A frame that begins at the first header of the stream is decoded, and then the rest. */
  lemma DecodesFirstFrame(fw: Firmware, stray: seq<byte>, id: byte, payload: seq<byte>, rest: seq<byte>)
    requires |payload| <= fw.protocol.maxPayload && |payload| <= 255
    requires NoHeader(fw.protocol, stray + [fw.protocol.header1])
    ensures Decoded(fw, stray + FrameOf(fw.protocol, id, payload) + rest)
         == Dispatched(fw, id, payload) + Decoded(fw, rest)
  {
    hide Dispatched, Checksum, HeaderAt, FrameOf, NoHeader;
    FrameStands(fw.protocol, stray, id, payload, rest);
  }

  /** Any number of stray first header bytes before a frame does not lose it. */
  lemma StrayHeaderBytes(fw: Firmware, m: Mcu, n: nat, id: byte, payload: seq<byte>)
    requires Idle(fw.protocol, m) && fw.protocol.header1 != fw.protocol.header2
    requires |payload| <= fw.protocol.maxPayload && |payload| <= 255
    ensures var stray := seq(n, k => fw.protocol.header1);
            Run(fw, m, stray + FrameOf(fw.protocol, id, payload)).events == Dispatched(fw, id, payload)
  {
    hide Run, Dispatched, FrameOf, Inv, Decoded;
    var stray := seq(n, k => fw.protocol.header1);
    var s := stray + FrameOf(fw.protocol, id, payload);
    assert s + [] == s;
    DecodesFirstFrame(fw, stray, id, payload, []);
    NothingDecoded(fw);
    RunDecodes(fw, m, s);
  }

  lemma NothingDecoded(fw: Firmware)
    ensures Decoded(fw, []) == []
  {
  }

  lemma SkipsToLength(fw: Firmware, stray: byte, rest: seq<byte>)
    requires fw.protocol.maxPayload < fw.protocol.header1 && rest != [] && rest[0] == fw.protocol.header1
    ensures FirstPiece(fw, [fw.protocol.header1, fw.protocol.header2, stray] + rest) == Piece([], 3)
  {
    hide HeaderAt;
    var s := [fw.protocol.header1, fw.protocol.header2, stray] + rest;
    FirstIs(fw.protocol, s, 0);
  }

  /** A length byte that is too large and is the first header byte begins the next frame. */
  lemma LengthBeginsFrame(fw: Firmware, m: Mcu, stray: byte, id: byte, payload: seq<byte>)
    requires Idle(fw.protocol, m) && fw.protocol.maxPayload < fw.protocol.header1
    requires |payload| <= fw.protocol.maxPayload && |payload| <= 255
    ensures Run(fw, m, [fw.protocol.header1, fw.protocol.header2, stray] + FrameOf(fw.protocol, id, payload)).events
         == Dispatched(fw, id, payload)
  {
    hide Run, Dispatched, Inv, FirstPiece, Checksum;
    var p := fw.protocol;
    var frame := FrameOf(p, id, payload);
    var s := [p.header1, p.header2, stray] + frame;
    SkipsToLength(fw, stray, frame);
    assert s[3..] == frame && [] + frame + [] == frame;
    DecodesFirstFrame(fw, [], id, payload, []);
    NothingDecoded(fw);
    RunDecodes(fw, m, s);
  }
}
