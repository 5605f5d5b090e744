/**
 The per-session write queue. `send_msg` and `_writer_loop` run on one strand, so a turn of either is
 atomic, but the writer is suspended during every socket write and other turns run meanwhile.
 The server pops a frame before writing it, the client after.
 */
module Writer {
  import opened Bytes
  import opened Framing

  datatype Variant = PopBeforeWrite | PopAfterWrite

  /** A writer coroutine: about to test its loop guard, or suspended with `rest` still to be written. */
  datatype Coroutine = Ready | Writing(rest: seq<byte>)

  datatype Strand = Strand(queue: seq<seq<byte>>, inProgress: bool, writers: seq<Coroutine>, written: seq<byte>)

  datatype Turn =
    | Send(payload: Payload)
    | Resume(i: nat)                // the writer tests its guard and starts the next write, or leaves
    | WriteSome(i: nat, n: nat)     // the socket takes n octets
    | Complete(i: nat)              // the write is over and the writer is rescheduled
    | Fail(i: nat)                  // the write throws

  const INITIAL := Strand([], false, [], [])

  predicate Enabled(s: Strand, t: Turn)
  {
    match t
    case Send(_) => true
    case Resume(i) => i < |s.writers| && s.writers[i].Ready?
    case WriteSome(i, n) => i < |s.writers| && s.writers[i].Writing? && 0 < n <= |s.writers[i].rest|
    case Complete(i) => i < |s.writers| && s.writers[i] == Writing([])
    case Fail(i) => i < |s.writers| && s.writers[i].Writing?
  }

  function Remove(ws: seq<Coroutine>, i: nat): seq<Coroutine>
    requires i < |ws|
  { ws[..i] + ws[i + 1..] }

  /** The code after the writer's loop: clear the flag, and start over if something was queued meanwhile. */
  function LeaveLoop(s: Strand, i: nat): Strand
    requires i < |s.writers|
  {
    var gone := s.(writers := Remove(s.writers, i), inProgress := false);
    if gone.queue == [] then gone else gone.(inProgress := true, writers := gone.writers + [Ready])
  }

  function Pop(q: seq<seq<byte>>): seq<seq<byte>> { if q == [] then [] else q[1..] }

  function Next(v: Variant, s: Strand, t: Turn): Strand
    requires Enabled(s, t)
  {
    match t
    case Send(p) =>
      var pushed := s.(queue := s.queue + [Frame(p)]);
      if s.inProgress then pushed else pushed.(inProgress := true, writers := s.writers + [Ready])
    case Resume(i) =>
      if s.queue == [] then LeaveLoop(s, i)
      else s.(writers := s.writers[i := Writing(s.queue[0])],
              queue := if v == PopBeforeWrite then s.queue[1..] else s.queue)
    case WriteSome(i, n) =>
      var rest := s.writers[i].rest;
      s.(written := s.written + rest[..n], writers := s.writers[i := Writing(rest[n..])])
    case Complete(i) =>
      s.(writers := s.writers[i := Ready], queue := if v == PopAfterWrite then Pop(s.queue) else s.queue)
    case Fail(i) => LeaveLoop(s, i)
  }

  // ---- Runs -------------------------------------------------------------------------------------

  /** Where a sequence of turns leads, or None if one of them was not enabled. */
  function Run(v: Variant, ts: seq<Turn>): Option<Strand>
  {
    if ts == [] then Some(INITIAL) else
    match Run(v, ts[..|ts| - 1])
    case None => None
    case Some(s) => if Enabled(s, ts[|ts| - 1]) then Some(Next(v, s, ts[|ts| - 1])) else None
  }

  /** The payloads handed to `send_msg`, in order. */
  function Sent(ts: seq<Turn>): seq<Payload>
  {
    if ts == [] then []
    else Sent(ts[..|ts| - 1]) + (match ts[|ts| - 1] case Send(p) => [p] case _ => [])
  }

  /**
   A failed write is harmless when the stream does not show it: the server had already written the whole
   frame it will never write again, the client had written nothing of the frame it will write again.
   */
  ghost predicate Harmless(v: Variant, s: Strand, t: Turn)
    requires Enabled(s, t)
  {
    t.Fail? ==> if v == PopBeforeWrite then s.writers[t.i].rest == []
                else s.queue != [] && s.writers[t.i].rest == s.queue[0]
  }

  ghost predicate HarmlessRun(v: Variant, ts: seq<Turn>)
    requires Run(v, ts).Some?
  {
    ts == [] || (HarmlessRun(v, ts[..|ts| - 1]) && Harmless(v, Run(v, ts[..|ts| - 1]).value, ts[|ts| - 1]))
  }

  /** One writer at most, the flag says whether there is one, and without one nothing waits in the queue. */
  ghost predicate Serialised(v: Variant, s: Strand)
  {
    && |s.writers| <= 1
    && (s.inProgress <==> |s.writers| == 1)
    && (s.writers == [] ==> s.queue == [])
    && (v == PopAfterWrite && |s.writers| == 1 && s.writers[0].Writing? ==>
          s.queue != [] && IsSuffix(s.writers[0].rest, s.queue[0]))
  }

  ghost predicate IsSuffix(a: seq<byte>, b: seq<byte>) { |a| <= |b| && a == b[|b| - |a|..] }

  function Flatten(fs: seq<seq<byte>>): seq<byte>
  {
    if fs == [] then [] else fs[0] + Flatten(fs[1..])
  }

  /** Octets on the wire, then the rest of the frame being written, then the frames waiting behind it. */
  ghost function Account(v: Variant, s: Strand): seq<byte>
  {
    if |s.writers| == 1 && s.writers[0].Writing?
    then s.written + s.writers[0].rest + Flatten(if v == PopAfterWrite then Pop(s.queue) else s.queue)
    else s.written + Flatten(s.queue)
  }

  lemma KeepsSerialised(v: Variant, s: Strand, t: Turn)
    requires Serialised(v, s) && Enabled(s, t)
    ensures Serialised(v, Next(v, s, t))
  {
    if t.WriteSome? && v == PopAfterWrite {
      var rest := s.writers[0].rest;
      assert IsSuffix(rest[t.n..], s.queue[0]);
    }
  }

  lemma {:induction false} FlattenAppend(fs: seq<seq<byte>>, f: seq<byte>)
    ensures Flatten(fs + [f]) == Flatten(fs) + f
  {
    if fs == [] {
      assert [f][1..] == [];
      assert fs + [f] == [f];
    } else {
      FlattenAppend(fs[1..], f);
      assert (fs + [f])[1..] == fs[1..] + [f];
      Associate(fs[0], Flatten(fs[1..]), f);
    }
  }

  lemma SendAccounts(v: Variant, s: Strand, p: Payload)
    requires Serialised(v, s)
    ensures Account(v, Next(v, s, Send(p))) == Account(v, s) + Frame(p)
  {
    var f := Frame(p);
    if s.inProgress && s.writers[0].Writing? {
      var behind := if v == PopAfterWrite then Pop(s.queue) else s.queue;
      FlattenAppend(behind, f);
      if v == PopAfterWrite { assert Pop(s.queue + [f]) == Pop(s.queue) + [f]; }
      Associate(s.written + s.writers[0].rest, Flatten(behind), f);
    } else {
      FlattenAppend(s.queue, f);
      Associate(s.written, Flatten(s.queue), f);
    }
  }

  lemma WriterAccounts(v: Variant, s: Strand, t: Turn)
    requires Serialised(v, s) && Enabled(s, t) && !t.Send? && !t.Fail?
    ensures Account(v, Next(v, s, t)) == Account(v, s)
  {
    var s' := Next(v, s, t);
    match t {
      case Resume(_) =>
        if s.queue != [] {
          Associate(s.written, s.queue[0], Flatten(s.queue[1..]));
        } else {
          assert s'.writers == [];
        }
      case WriteSome(i, n) =>
        assert i == 0;
        var rest := s.writers[0].rest;
        assert rest[..n] + rest[n..] == rest;
        Associate(s.written, rest[..n], rest[n..]);
        assert s'.written + s'.writers[0].rest == s.written + rest;
      case Complete(i) =>
        assert i == 0;
        assert s.written + [] == s.written;
    }
  }

  /** A failed write loses octets on the server, repeats octets on the client, unless it was harmless. */
  lemma FailAccounts(v: Variant, s: Strand, i: nat)
    requires Serialised(v, s) && Enabled(s, Fail(i))
    ensures Harmless(v, s, Fail(i)) ==> Account(v, Next(v, s, Fail(i))) == Account(v, s)
    ensures v == PopBeforeWrite ==> |Account(v, Next(v, s, Fail(i)))| <= |Account(v, s)|
    ensures v == PopAfterWrite ==> |Account(v, Next(v, s, Fail(i)))| >= |Account(v, s)|
    ensures !Harmless(v, s, Fail(i)) ==> |Account(v, Next(v, s, Fail(i)))| != |Account(v, s)|
  {
    var s' := Next(v, s, Fail(i));
    assert i == 0;
    var rest := s.writers[0].rest;
    assert Account(v, s') == s.written + Flatten(s.queue);
    if v == PopBeforeWrite {
      if rest == [] { assert s.written + [] == s.written; }
    } else if rest == s.queue[0] {
      Associate(s.written, rest, Flatten(s.queue[1..]));
    }
  }

  /** Every run, failures included: writers are serialised. */
  lemma {:induction false} AtMostOneWriter(v: Variant, ts: seq<Turn>)
    requires Run(v, ts).Some?
    ensures Serialised(v, Run(v, ts).value)
  {
    if ts != [] {
      AtMostOneWriter(v, ts[..|ts| - 1]);
      KeepsSerialised(v, Run(v, ts[..|ts| - 1]).value, ts[|ts| - 1]);
    }
  }

  /**
   What is on the wire, in flight and queued is all framed messages in the order they were sent,
   exactly when every failed write was harmless; in particular in every run whose writes succeed.
   */
  lemma {:induction false} NothingLostOrReordered(v: Variant, ts: seq<Turn>)
    requires Run(v, ts).Some?
    ensures Account(v, Run(v, ts).value) == FrameAll(Sent(ts)) <==> HarmlessRun(v, ts)
    ensures v == PopBeforeWrite ==> |Account(v, Run(v, ts).value)| <= |FrameAll(Sent(ts))|
    ensures v == PopAfterWrite ==> |Account(v, Run(v, ts).value)| >= |FrameAll(Sent(ts))|
    ensures !HarmlessRun(v, ts) ==> |Account(v, Run(v, ts).value)| != |FrameAll(Sent(ts))|
  {
    if ts != [] {
      var front, t := ts[..|ts| - 1], ts[|ts| - 1];
      NothingLostOrReordered(v, front);
      AtMostOneWriter(v, front);
      if t.Send? {
        SendAccounts(v, Run(v, front).value, t.payload);
        FrameAllAppend(Sent(front), t.payload);
      } else {
        assert Sent(front) + [] == Sent(front);
        if t.Fail? { FailAccounts(v, Run(v, front).value, t.i); } else { WriterAccounts(v, Run(v, front).value, t); }
      }
    }
  }

  lemma {:induction false} NoFailureIsHarmless(v: Variant, ts: seq<Turn>)
    requires Run(v, ts).Some? && forall t | t in ts :: !t.Fail?
    ensures HarmlessRun(v, ts)
  {
    if ts != [] {
      assert ts[|ts| - 1] in ts && forall u | u in ts[..|ts| - 1] :: u in ts;
      NoFailureIsHarmless(v, ts[..|ts| - 1]);
    }
  }

  /** The far end has received a prefix of what was sent, and all of it once no writer is left. */
  lemma {:induction false} ReceiverSeesPrefix(v: Variant, ts: seq<Turn>)
    requires Run(v, ts).Some? && HarmlessRun(v, ts) && Frameable(Sent(ts))
    ensures ReceiveAll(Run(v, ts).value.written) <= Sent(ts)
    ensures Run(v, ts).value.writers == [] ==> ReceiveAll(Run(v, ts).value.written) == Sent(ts)
  {
    var s := Run(v, ts).value;
    NothingLostOrReordered(v, ts);
    AtMostOneWriter(v, ts);
    assert s.written <= FrameAll(Sent(ts));
    ReceivePrefix(Sent(ts), s.written);
    if s.writers == [] {
      assert s.written + [] == s.written;
      ReceiveAllFrames(Sent(ts));
    }
  }

  /** A concrete harmful failure: the server loses the message whose write threw before any octet went out. */
  lemma FailureDropsServerMessage(p: Payload)
    ensures var ts := [Send(p), Resume(0), Fail(0)];
      && Run(PopBeforeWrite, ts) == Some(INITIAL)
      && Sent(ts) == [p]
  {
    var t1, t2, t3 := [Send(p)], [Send(p), Resume(0)], [Send(p), Resume(0), Fail(0)];
    assert t1[..0] == [] && t2[..1] == t1 && t3[..2] == t2;
    var s1 := Strand([Frame(p)], true, [Ready], []);
    var s2 := Strand([], true, [Writing(Frame(p))], []);
    assert [] + [Frame(p)] == [Frame(p)] && [] + [Ready] == [Ready];
    assert Next(PopBeforeWrite, INITIAL, Send(p)) == s1;
    assert [Frame(p)][1..] == [] && [Ready][0 := Writing(Frame(p))] == [Writing(Frame(p))];
    assert Next(PopBeforeWrite, s1, Resume(0)) == s2;
    assert Remove([Writing(Frame(p))], 0) == [];
    assert Next(PopBeforeWrite, s2, Fail(0)) == INITIAL;
    assert Run(PopBeforeWrite, t1) == Some(s1);
    assert Run(PopBeforeWrite, t2) == Some(s2);
    assert Sent(t1) == [p] && Sent(t2) == [p];
  }

  /** A concrete harmful failure of the other kind: the client sends the octets that went out before once more. */
  lemma {:induction false} FailureRepeatsClientMessage(p: Payload, n: nat)
    requires 0 < n < |Frame(p)|
    ensures var f := Frame(p);
      var ts := [Send(p), Resume(0), WriteSome(0, n), Fail(0), Resume(0), WriteSome(0, |f|), Complete(0), Resume(0)];
      Run(PopAfterWrite, ts) == Some(Strand([], false, [], f[..n] + f)) && Sent(ts) == [p]
  {
    var f := Frame(p);
    var fail := [Send(p), Resume(0), WriteSome(0, n), Fail(0)];
    var again := [Resume(0), WriteSome(0, |f|), Complete(0), Resume(0)];
    FailsHalfway(p, n);
    SendsAgain(p, fail, f[..n]);
    assert fail + again == [Send(p), Resume(0), WriteSome(0, n), Fail(0), Resume(0), WriteSome(0, |f|), Complete(0), Resume(0)];
  }

  lemma {:induction false} RunNext(v: Variant, ts: seq<Turn>, s: Strand, t: Turn)
    requires Run(v, ts) == Some(s) && Enabled(s, t)
    ensures Run(v, ts + [t]) == Some(Next(v, s, t)) && Sent(ts + [t]) == Sent(ts) + if t.Send? then [t.payload] else []
  {
    assert (ts + [t])[..|ts|] == ts;
  }

  lemma {:induction false} FailsHalfway(p: Payload, n: nat)
    requires 0 < n < |Frame(p)|
    ensures var ts := [Send(p), Resume(0), WriteSome(0, n), Fail(0)];
      Run(PopAfterWrite, ts) == Some(Strand([Frame(p)], true, [Ready], Frame(p)[..n])) && Sent(ts) == [p]
  {
    var f, v := Frame(p), PopAfterWrite;
    var t1 := [Send(p)];
    var t2 := t1 + [Resume(0)];
    var t3 := t2 + [WriteSome(0, n)];
    var s1, s2 := Strand([f], true, [Ready], []), Strand([f], true, [Writing(f)], []);
    var s3 := Strand([f], true, [Writing(f[n..])], f[..n]);
    hide Frame;
    assert [] + t1 == t1 && [] + [f] == [f] && [] + [Ready] == [Ready] && [] + [p] == [p];
    RunNext(v, [], INITIAL, Send(p));
    assert Next(v, INITIAL, Send(p)) == s1;
    RunNext(v, t1, s1, Resume(0));
    assert Next(v, s1, Resume(0)) == s2;
    RunNext(v, t2, s2, WriteSome(0, n));
    assert Next(v, s2, WriteSome(0, n)) == s3 by { assert [] + f[..n] == f[..n]; }
    RunNext(v, t3, s3, Fail(0));
    assert Next(v, s3, Fail(0)) == Strand([f], true, [Ready], f[..n]) by { assert Remove([Writing(f[n..])], 0) == []; }
    assert t3 + [Fail(0)] == [Send(p), Resume(0), WriteSome(0, n), Fail(0)];
  }

  lemma {:induction false} SendsAgain(p: Payload, ts: seq<Turn>, sent: seq<byte>)
    requires Run(PopAfterWrite, ts) == Some(Strand([Frame(p)], true, [Ready], sent)) && Sent(ts) == [p]
    ensures var more := ts + [Resume(0), WriteSome(0, |Frame(p)|), Complete(0), Resume(0)];
      Run(PopAfterWrite, more) == Some(Strand([], false, [], sent + Frame(p))) && Sent(more) == [p]
  {
    var f, v := Frame(p), PopAfterWrite;
    hide Frame, Run, Sent;
    var t1 := ts + [Resume(0)];
    var t2 := t1 + [WriteSome(0, |f|)];
    var t3 := t2 + [Complete(0)];
    var s0, s1 := Strand([f], true, [Ready], sent), Strand([f], true, [Writing(f)], sent);
    var s2, s3 := Strand([f], true, [Writing([])], sent + f), Strand([], true, [Ready], sent + f);
    RunNext(v, ts, s0, Resume(0));
    assert Next(v, s0, Resume(0)) == s1;
    RunNext(v, t1, s1, WriteSome(0, |f|));
    assert Next(v, s1, WriteSome(0, |f|)) == s2 by { assert f[..|f|] == f && f[|f|..] == []; }
    RunNext(v, t2, s2, Complete(0));
    assert Next(v, s2, Complete(0)) == s3;
    RunNext(v, t3, s3, Resume(0));
    assert Next(v, s3, Resume(0)) == Strand([], false, [], sent + f) by { assert Remove([Ready], 0) == []; }
    assert t3 + [Resume(0)] == ts + [Resume(0), WriteSome(0, |f|), Complete(0), Resume(0)];
  }

  // ---- The session object ------------------------------------------------------------------------

  class SessionWriter {
    const variant: Variant
    var writeQueue: seq<seq<byte>>
    var writeInProgress: bool
    var coroutines: seq<Coroutine>
    var socket: seq<byte>

    function State(): Strand
      reads this
    { Strand(writeQueue, writeInProgress, coroutines, socket) }

    ghost predicate Valid()
      reads this
    { Serialised(variant, State()) }

    constructor (v: Variant)
      ensures Valid() && variant == v && State() == INITIAL
    {
      variant := v;
      writeQueue, writeInProgress, coroutines, socket := [], false, [], [];
    }

    /** The lambda that `send_msg` dispatches to the strand. */
    method SendMsg(payload: Payload)
      requires Valid()
      modifies this
      ensures Valid() && State() == Next(variant, old(State()), Send(payload))
      ensures Account(variant, State()) == old(Account(variant, State())) + Frame(payload)
    {
      KeepsSerialised(variant, State(), Send(payload));
      SendAccounts(variant, State(), payload);
      var framed := U32Bytes(Truncate32(|payload|)) + payload;
      writeQueue := writeQueue + [framed];
      if !writeInProgress {
        writeInProgress := true;
        coroutines := coroutines + [Ready];
      }
    }

    /** From the loop guard of `_writer_loop` to its next suspension, or out of the coroutine. */
    method ResumeWriter(i: nat)
      requires Valid() && Enabled(State(), Resume(i))
      modifies this
      ensures Valid() && State() == Next(variant, old(State()), Resume(i))
      ensures Account(variant, State()) == old(Account(variant, State()))
    {
      KeepsSerialised(variant, State(), Resume(i));
      WriterAccounts(variant, State(), Resume(i));
      if writeQueue != [] {
        coroutines := coroutines[i := Writing(writeQueue[0])];
        if variant == PopBeforeWrite { writeQueue := writeQueue[1..]; }
      } else {
        LeaveWriterLoop(i);
      }
    }

    /** The write threw: the handler swallows the exception and the coroutine leaves its loop. */
    method WriteFailed(i: nat)
      requires Valid() && Enabled(State(), Fail(i))
      modifies this
      ensures Valid() && State() == Next(variant, old(State()), Fail(i))
    {
      KeepsSerialised(variant, State(), Fail(i));
      LeaveWriterLoop(i);
    }

    /** The code after the loop. */
    method LeaveWriterLoop(i: nat)
      requires i < |coroutines|
      modifies this
      ensures State() == LeaveLoop(old(State()), i)
    {
      coroutines := Remove(coroutines, i);
      writeInProgress := false;
      if writeQueue != [] {
        writeInProgress := true;
        coroutines := coroutines + [Ready];
      }
    }

    /** The write completed: the client pops only now. */
    method WriteCompleted(i: nat)
      requires Valid() && Enabled(State(), Complete(i))
      modifies this
      ensures Valid() && State() == Next(variant, old(State()), Complete(i))
      ensures Account(variant, State()) == old(Account(variant, State()))
    {
      KeepsSerialised(variant, State(), Complete(i));
      WriterAccounts(variant, State(), Complete(i));
      coroutines := coroutines[i := Ready];
      if variant == PopAfterWrite { writeQueue := writeQueue[1..]; }
    }
  }
}
