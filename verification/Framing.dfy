/** Length-prefixed frames: what `send_msg` puts on a stream and `receive_msg` takes off it. */
module Framing {
  import opened Bytes

  type Payload = seq<byte>

  /** `htonl(size)` followed by the payload. */
  function Frame(p: Payload): (f: seq<byte>)
    ensures |f| == 4 + |p|
  {
    U32Bytes(Truncate32(|p|)) + p
  }

  /** One `receive_msg`: the payload and what is left of the stream, or None while octets are missing. */
  function ReadFrame(stream: seq<byte>): (r: Option<(Payload, seq<byte>)>)
    ensures r.Some? ==> |r.value.1| < |stream|
  {
    if |stream| < 4 then None
    else
      var n := ReadU32(stream, 0);
      if |stream| < 4 + n then None else Some((stream[4..4 + n], stream[4 + n..]))
  }

  /** A frame at the head of a stream yields the first `size mod 2^32` octets of its payload. */
  lemma ReadFrameOf(p: Payload, rest: seq<byte>)
    ensures ReadFrame(Frame(p) + rest) == Some((p[..Truncate32(|p|)], p[Truncate32(|p|)..] + rest))
  {
    var s := Frame(p) + rest;
    assert s[0..4] == U32Bytes(Truncate32(|p|));
    ReadBack(Truncate32(|p|), s, 0);
    var n := Truncate32(|p|);
    assert s[4..] == p + rest;
    assert s[4..4 + n] == p[..n];
    assert s[4 + n..] == p[n..] + rest;
  }

  function FrameAll(ps: seq<Payload>): seq<byte>
  {
    if ps == [] then [] else Frame(ps[0]) + FrameAll(ps[1..])
  }

  /** The payloads a receiver gets out of the octets seen so far. */
  function ReceiveAll(stream: seq<byte>): seq<Payload>
    decreases |stream|
  {
    match ReadFrame(stream)
    case None => []
    case Some((p, rest)) => [p] + ReceiveAll(rest)
  }

  ghost predicate Frameable(ps: seq<Payload>) {
    forall p | p in ps :: |p| < TWO_32
  }

  lemma {:induction false} FrameAllAppend(ps: seq<Payload>, p: Payload)
    ensures FrameAll(ps + [p]) == FrameAll(ps) + Frame(p)
  {
    if ps == [] {
      assert [p][1..] == [];
      assert ps + [p] == [p];
      assert FrameAll([p]) == Frame(p) + FrameAll([]);
    } else {
      FrameAllAppend(ps[1..], p);
      assert (ps + [p])[1..] == ps[1..] + [p];
      Associate(Frame(ps[0]), FrameAll(ps[1..]), Frame(p));
    }
  }

  /** Receiving is the inverse of sending. */
  lemma {:induction false} ReceiveAllFrames(ps: seq<Payload>)
    requires Frameable(ps)
    ensures ReceiveAll(FrameAll(ps)) == ps
  {
    if ps != [] {
      var p, rest := ps[0], FrameAll(ps[1..]);
      assert p in ps;
      ReadFrameOf(p, rest);
      assert p[..|p|] == p && p[|p|..] + rest == rest;
      assert forall q | q in ps[1..] :: q in ps;
      ReceiveAllFrames(ps[1..]);
    }
  }

  /** A frame that is complete in what has arrived is the frame of the whole stream. */
  lemma ReadFrameMonotone(arrived: seq<byte>, all: seq<byte>)
    requires arrived <= all && ReadFrame(arrived).Some?
    ensures ReadFrame(all).Some? && ReadFrame(all).value.0 == ReadFrame(arrived).value.0
    ensures ReadFrame(arrived).value.1 <= ReadFrame(all).value.1
  {
    assert arrived[0..4] == all[0..4];
    var n := ReadU32(arrived, 0);
    assert arrived[4..4 + n] == all[4..4 + n];
    assert arrived[4 + n..] <= all[4 + n..];
  }

  /** The first frame of a stream of frames, if all of it has arrived. */
  lemma FirstFrame(ps: seq<Payload>, arrived: seq<byte>)
    requires ps != [] && |ps[0]| < TWO_32 && arrived <= FrameAll(ps) && ReadFrame(arrived).Some?
    ensures ReadFrame(arrived).value.0 == ps[0] && ReadFrame(arrived).value.1 <= FrameAll(ps[1..])
  {
    hide ReadFrame, Frame, Truncate32;
    var p, rest := ps[0], FrameAll(ps[1..]);
    ReadFrameOf(p, rest);
    assert p[..|p|] == p && p[|p|..] + rest == rest;
    ReadFrameMonotone(arrived, FrameAll(ps));
  }

  lemma ReceiveFirst(stream: seq<byte>)
    ensures ReceiveAll(stream)
         == if ReadFrame(stream).Some? then [ReadFrame(stream).value.0] + ReceiveAll(ReadFrame(stream).value.1) else []
  {
  }

  lemma ReceiveNothing()
    ensures FrameAll([]) == [] && ReceiveAll([]) == []
  {
  }

  /** Whatever part of the stream has arrived, the receiver holds a prefix of what was sent. */
  lemma {:induction false} ReceivePrefix(ps: seq<Payload>, arrived: seq<byte>)
    requires Frameable(ps)
    requires arrived <= FrameAll(ps)
    ensures ReceiveAll(arrived) <= ps
    decreases |ps|
  {
    hide FrameAll, ReadFrame, ReceiveAll;
    ReceiveFirst(arrived);
    if ps == [] {
      ReceiveNothing();
    } else if ReadFrame(arrived).Some? {
      assert ps[0] in ps;
      FirstFrame(ps, arrived);
      assert forall q | q in ps[1..] :: q in ps;
      ReceivePrefix(ps[1..], ReadFrame(arrived).value.1);
      assert ps == [ps[0]] + ps[1..];
    }
  }

  /** The 32-bit length field makes the single frame faithful exactly below 2^32. */
  lemma FrameExact(p: Payload)
    ensures ReadFrame(Frame(p)) == Some((p, [])) <==> |p| < TWO_32
  {
    ReadFrameOf(p, []);
    assert Frame(p) + [] == Frame(p);
    assert |p[..Truncate32(|p|)]| == Truncate32(|p|);
    if |p| < TWO_32 {
      assert p[..|p|] == p && p[|p|..] + [] == [];
    }
  }
}
