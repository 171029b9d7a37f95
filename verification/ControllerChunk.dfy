/** A chunk of received bytes as the packets and buffer changes it amounts to. */
module ControllerChunk {
  import opened Checksums
  import opened StreamParser
  import opened SerialControl

  datatype Move = Takes(arrival: Arrival) | Holds(buffer: seq<byte>)

  function HandleMove(cfg: Config, s: Controller, m: Move, heardOn: nat): Controller
  {
    match m
    case Takes(a) => HandlePacket(cfg, s, a, heardOn)
    case Holds(buffer) => s.(buffer := buffer)
  }

  function HandleMoves(cfg: Config, s: Controller, moves: seq<Move>, heardOn: nat): Controller
  {
    if moves == [] then s
    else
      var n := |moves| - 1;
      HandleMove(cfg, HandleMoves(cfg, s, moves[..n], heardOn), moves[n], heardOn)
  }

  lemma MovesSnoc(cfg: Config, s: Controller, moves: seq<Move>, m: Move, heardOn: nat)
    ensures HandleMoves(cfg, s, moves + [m], heardOn)
        == HandleMove(cfg, HandleMoves(cfg, s, moves, heardOn), m, heardOn)
  {
    hide HandleMove;
    assert (moves + [m])[..|moves|] == moves;
  }

  lemma {:induction false} MovesAppend(cfg: Config, s: Controller, moves: seq<Move>, more: seq<Move>, heardOn: nat)
    ensures HandleMoves(cfg, s, moves + more, heardOn)
         == HandleMoves(cfg, HandleMoves(cfg, s, moves, heardOn), more, heardOn)
  {
    hide HandleMove;
    if more == [] {
      assert moves + more == moves;
    } else {
      var n := |more| - 1;
      MovesAppend(cfg, s, moves, more[..n], heardOn);
      MovesSnoc(cfg, s, moves + more[..n], more[n], heardOn);
      assert moves + more[..n] + [more[n]] == moves + more;
    }
  }

  /** No fault but those of the chunk. */
  ghost predicate FaultsFrom(moves: seq<Move>, faults: seq<Fault>)
  {
    forall m | m in moves && m.Takes? :: m.arrival.fault == NoFault || m.arrival.fault in faults
  }

  lemma {:induction false} DrainMoves(cfg: Config, at: Progress, faults: seq<Fault>, heardOn: nat)
      returns (moves: seq<Move>)
    ensures Drain(cfg, at, faults, heardOn).s == HandleMoves(cfg, at.s, moves, heardOn)
    ensures FaultsFrom(moves, faults)
    decreases |at.s.buffer|
  {
    hide HandlePacket, ParseOne;
    var one := ParseOne(cfg.protocol, cfg.capacity, at.s.buffer);
    var s1 := at.s.(buffer := one.rest);
    var first := Holds(one.rest);
    assert [first][..0] == [];
    assert HandleMoves(cfg, at.s, [first], heardOn) == s1;
    if one.packet.None? {
      moves := [first];
    } else {
      var a := Arrival(one.packet.value, FaultAt(faults, at.n));
      var s2 := HandlePacket(cfg, s1, a, heardOn);
      MovesSnoc(cfg, at.s, [first], Takes(a), heardOn);
      var rest := DrainMoves(cfg, Progress(s2, at.n + 1), faults, heardOn);
      MovesAppend(cfg, at.s, [first] + [Takes(a)], rest, heardOn);
      moves := [first] + [Takes(a)] + rest;
    }
  }

  lemma FeedByteIs(cfg: Config, at: Progress, b: byte, faults: seq<Fault>, heardOn: nat)
    ensures var r := FeedByte(cfg, at, b, faults, heardOn).s;
            var drained := if HasRoom(cfg, at.s) then at.s else Drain(cfg, at, faults, heardOn).s;
            r == drained.(buffer := r.buffer)
  {
    hide Drain;
  }

  lemma FeedByteMoves(cfg: Config, at: Progress, b: byte, faults: seq<Fault>, heardOn: nat) returns (moves: seq<Move>)
    ensures FeedByte(cfg, at, b, faults, heardOn).s == HandleMoves(cfg, at.s, moves, heardOn)
    ensures FaultsFrom(moves, faults)
  {
    hide Drain, HandlePacket, FeedByte, HasRoom;
    FeedByteIs(cfg, at, b, faults, heardOn);
    var last := Holds(FeedByte(cfg, at, b, faults, heardOn).s.buffer);
    if HasRoom(cfg, at.s) {
      moves := [];
    } else {
      moves := DrainMoves(cfg, at, faults, heardOn);
    }
    MovesSnoc(cfg, at.s, moves, last, heardOn);
    moves := moves + [last];
  }

  lemma {:induction false} FeedMoves(cfg: Config, s: Controller, data: seq<byte>, faults: seq<Fault>, heardOn: nat)
    returns (moves: seq<Move>)
    ensures Feed(cfg, s, data, faults, heardOn).s == HandleMoves(cfg, s, moves, heardOn)
    ensures FaultsFrom(moves, faults)
  {
    hide FeedByte;
    moves := [];
    if data != [] {
      var n := |data| - 1;
      moves := FeedMoves(cfg, s, data[..n], faults, heardOn);
      var more := FeedByteMoves(cfg, Feed(cfg, s, data[..n], faults, heardOn), data[n], faults, heardOn);
      MovesAppend(cfg, s, moves, more, heardOn);
      moves := moves + more;
    }
  }

  /** What every packet and every change of the buffer keeps, a chunk keeps. */
  lemma IngestMoves(cfg: Config, s: Controller, data: seq<byte>, faults: seq<Fault>, heardOn: nat)
      returns (moves: seq<Move>)
    ensures Ingest(cfg, s, data, faults, heardOn) == HandleMoves(cfg, s, moves, heardOn)
    ensures FaultsFrom(moves, faults)
  {
    hide Drain, Feed;
    moves := FeedMoves(cfg, s, data, faults, heardOn);
    var rest := DrainMoves(cfg, Feed(cfg, s, data, faults, heardOn), faults, heardOn);
    MovesAppend(cfg, s, moves, rest, heardOn);
    moves := moves + rest;
  }
}
