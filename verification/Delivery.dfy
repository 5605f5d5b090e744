/** A writer that is not disturbed finishes: after so many turns everything handed to it has been received. */
module Delivery {
  import opened Bytes
  import opened Framing
  import opened Writer

  predicate IsWriterTurn(t: Turn) { t.Resume? || t.WriteSome? || t.Complete? }

  /** For each frame its octets, the turn that takes it and the turn that ends its write. */
  function TurnsFor(frames: seq<seq<byte>>): nat
  {
    if frames == [] then 0 else |frames[0]| + 2 + TurnsFor(frames[1..])
  }

  function TurnsOf(w: Coroutine): nat { if w.Ready? then 1 else |w.rest| + 2 }

  /** A bound on the writer's turns if nothing more is sent: the queue, the write under way, and leaving the loop. */
  function Outstanding(v: Variant, s: Strand): nat
  {
    if s.writers == [] then 0
    else if v == PopAfterWrite && s.writers[0].Writing? then TurnsOf(s.writers[0]) + TurnsFor(Pop(s.queue))
    else TurnsOf(s.writers[0]) + TurnsFor(s.queue)
  }

  /** Every turn of the writer brings it closer to its end. */
  lemma TurnDescends(v: Variant, s: Strand, t: Turn)
    requires Serialised(v, s) && Enabled(s, t) && IsWriterTurn(t)
    ensures Outstanding(v, Next(v, s, t)) < Outstanding(v, s)
  {
    hide IsSuffix;
    assert t.i == 0;
  }

  lemma {:induction false} RunOfMore(v: Variant, ts: seq<Turn>, more: seq<Turn>)
    requires more != [] && Run(v, ts + more).Some?
    ensures var front := ts + more[..|more| - 1];
      Run(v, front).Some? && Enabled(Run(v, front).value, more[|more| - 1])
      && Run(v, ts + more).value == Next(v, Run(v, front).value, more[|more| - 1])
  {
    assert (ts + more)[..|ts + more| - 1] == ts + more[..|more| - 1];
  }

  /** As long as nothing is sent and no write fails the writer can take only so many turns. */
  lemma {:induction false} DeliveryEnds(v: Variant, ts: seq<Turn>, more: seq<Turn>)
    requires Run(v, ts + more).Some? && forall t | t in more :: IsWriterTurn(t)
    ensures Run(v, ts).Some? && |more| + Outstanding(v, Run(v, ts + more).value) <= Outstanding(v, Run(v, ts).value)
    decreases |more|
  {
    if more == [] {
      assert ts + more == ts;
    } else {
      var front, t := more[..|more| - 1], more[|more| - 1];
      RunOfMore(v, ts, more);
      assert t in more && forall u | u in front :: u in more;
      DeliveryEnds(v, ts, front);
      AtMostOneWriter(v, ts + front);
      hide Run, Outstanding, Serialised, Next, Enabled;
      TurnDescends(v, Run(v, ts + front).value, t);
    }
  }

  lemma WriterCanMove(s: Strand)
    requires s.writers != []
    ensures exists t :: IsWriterTurn(t) && Enabled(s, t)
  {
    match s.writers[0]
    case Ready => assert IsWriterTurn(Resume(0)) && Enabled(s, Resume(0));
    case Writing(rest) =>
      if rest == [] {
        assert IsWriterTurn(Complete(0)) && Enabled(s, Complete(0));
      } else {
        assert IsWriterTurn(WriteSome(0, 1)) && Enabled(s, WriteSome(0, 1));
      }
  }

  /** If the writer can take no turn, every message sent has been received, in order. */
  lemma {:induction false} EverythingArrives(v: Variant, ts: seq<Turn>)
    requires Run(v, ts).Some? && HarmlessRun(v, ts) && Frameable(Sent(ts))
    requires forall t | IsWriterTurn(t) :: !Enabled(Run(v, ts).value, t)
    ensures ReceiveAll(Run(v, ts).value.written) == Sent(ts)
  {
    var s := Run(v, ts).value;
    AtMostOneWriter(v, ts);
    if s.writers != [] { WriterCanMove(s); }
    hide Run, HarmlessRun;
    ReceiverSeesPrefix(v, ts);
  }
}
