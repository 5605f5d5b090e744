/** The way back: the server sends the object file, the client writes it and answers the compiler wrapper. */
module Objects {
  import opened Bytes
  import opened Chunks
  import opened Ipc

  datatype ObjChunk = ObjChunk(session: SessionId, exitCode: int, fileSize: nat, data: Data, isLast: bool,
                               stdout: Text, stderr: Text)

  /** A finished compilation; `objFile` holds the bytes of the object file, if it can be opened. */
  datatype Compilation = Compilation(exitCode: int, stdout: Text, stderr: Text, objFile: Option<Data>)

  /** The logs travel with the chunk flagged last. */
  function Tagged(id: SessionId, c: Compilation, size: nat, data: Data, isLast: bool): ObjChunk
  {
    ObjChunk(id, c.exitCode, size, data, isLast, if isLast then c.stdout else [], if isLast then c.stderr else [])
  }

  function TagAll(id: SessionId, c: Compilation, size: nat, chunks: seq<Chunk>): (r: seq<ObjChunk>)
    ensures |r| == |chunks|
  {
    if chunks == [] then []
    else
      var last := chunks[|chunks| - 1];
      TagAll(id, c, size, chunks[..|chunks| - 1]) + [Tagged(id, c, size, last.data, last.isLast)]
  }

  lemma TagOne(id: SessionId, c: Compilation, size: nat, chunks: seq<Chunk>, last: Chunk)
    ensures TagAll(id, c, size, chunks + [last])
         == TagAll(id, c, size, chunks) + [Tagged(id, c, size, last.data, last.isLast)]
  {
    assert (chunks + [last])[..|chunks|] == chunks;
  }

  lemma {:induction false} TagAllAt(id: SessionId, c: Compilation, size: nat, chunks: seq<Chunk>, i: nat)
    requires i < |chunks|
    ensures TagAll(id, c, size, chunks)[i] == Tagged(id, c, size, chunks[i].data, chunks[i].isLast)
  {
    if i < |chunks| - 1 { TagAllAt(id, c, size, chunks[..|chunks| - 1], i); }
  }

  function ResultMessages(id: SessionId, c: Compilation): seq<ObjChunk>
  {
    if c.exitCode != 0 then [Tagged(id, c, 0, [], true)]
    else if c.objFile.None? then []
    else TagAll(id, c, |c.objFile.value|, SplitObject(c.objFile.value))
  }

  /**
   Every message names the session and carries the exit code and the size of the object; only the final one may be
   flagged, and exactly the flagged one carries the logs.
   */
  lemma {:induction false} MessagesCarry(id: SessionId, c: Compilation, i: nat)
    requires i < |ResultMessages(id, c)|
    ensures var ms := ResultMessages(id, c); var m := ms[i];
      && m.session == id && m.exitCode == c.exitCode
      && m.fileSize == (if c.exitCode == 0 && c.objFile.Some? then |c.objFile.value| else 0)
      && (m.isLast <==> i == |ms| - 1 && (c.exitCode == 0 && c.objFile.Some? ==> |c.objFile.value| % CHUNK_SZ != 0))
      && m.stdout == (if m.isLast then c.stdout else []) && m.stderr == (if m.isLast then c.stderr else [])
  {
    hide SplitFrom, TagAll;
    if c.exitCode == 0 && c.objFile.Some? {
      var data := c.objFile.value;
      ObjectReassembles(data);
      TagAllAt(id, c, |data|, SplitObject(data), i);
    }
  }

  method SendCompilationResult(id: SessionId, c: Compilation) returns (sent: seq<ObjChunk>)
    ensures sent == ResultMessages(id, c)
  {
    sent := [];
    if c.exitCode != 0 {
      return [Tagged(id, c, 0, [], true)];
    }
    if c.objFile.None? { return; }
    sent := SendObject(id, c, c.objFile.value);
  }

  method SendObject(id: SessionId, c: Compilation, data: Data) returns (sent: seq<ObjChunk>)
    ensures sent == TagAll(id, c, |data|, SplitObject(data))
  {
    hide SplitFrom, TagAll;
    sent := [];
    var stream := new InStream(data);
    ghost var chunks: seq<Chunk> := [];
    while true
      invariant stream.Valid() && stream.contents == data && fresh(stream)
      invariant SplitObject(data) == chunks + SplitFrom(data, |chunks| + 1, stream.pos)
      invariant sent == TagAll(id, c, |data|, chunks)
      invariant stream.failed ==> stream.pos == |data|
      decreases |data| - stream.pos
    {
      ghost var from := stream.pos;
      var ok, block := stream.Read(CHUNK_SZ);
      if |block| == 0 { break; }
      sent := sent + [Tagged(id, c, |data|, block, |block| < CHUNK_SZ)];
      ghost var chunk := Chunk(|chunks| + 1, from, block, |block| < CHUNK_SZ);
      CutBlock(data, |chunks| + 1, from, block);
      Associate(chunks, [chunk], SplitFrom(data, |chunks| + 2, stream.pos));
      TagOne(id, c, |data|, chunks, chunk);
      chunks := chunks + [chunk];
    }
    CutEnd(data, |chunks| + 1);
    assert chunks + [] == chunks;
  }

  // ---- The client's side --------------------------------------------------------------------------------------

  datatype ObjTransfer = ObjTransfer(finished: bool, session: SessionId, written: Data)

  /** The transfer, whether every message was accepted, and the answers given to the wrapper. */
  datatype Received = Received(transfer: Option<ObjTransfer>, ok: bool, answers: seq<Response>)

  function ReceiveOne(id: SessionId, t: Option<ObjTransfer>, m: ObjChunk): Received
  {
    if m.session != id || t.None? then Received(t, false, [])
    else if t.value.finished then Received(t, true, [])
    else if t.value.session != id then Received(Some(t.value.(finished := true)), false, [])
    else
      Received(Some(ObjTransfer(m.isLast, id, t.value.written + m.data)), true,
               if m.isLast then [Response(m.exitCode, m.stderr, m.stdout)] else [])
  }

  function ReceiveAll(id: SessionId, t: Option<ObjTransfer>, ms: seq<ObjChunk>): Received
  {
    if ms == [] then Received(t, true, [])
    else
      var before := ReceiveAll(id, t, ms[..|ms| - 1]);
      var r := ReceiveOne(id, before.transfer, ms[|ms| - 1]);
      Received(r.transfer, before.ok && r.ok, before.answers + r.answers)
  }

  class ObjReceiver {
    const id: SessionId
    var transfer: Option<ObjTransfer>
    var published: seq<Response>
    var taken: bool
    var terminated: bool
    var left: bool

    function State(): SessionLoop
      reads this
    {
      SessionLoop(transfer, published, taken, terminated, left)
    }

    constructor (id: SessionId)
      ensures this.id == id && State() == Entering(id)
    {
      this.id, transfer := id, Some(ObjTransfer(false, id, []));
      published, taken, terminated, left := [], false, false, false;
    }

    /** One turn of the loop of `_handle_client_session`; `locally` is what a local compilation answers. */
    method HandleMessage(e: Event, locally: Response)
      requires !left && !e.Retrieve?
      modifies this
      ensures State() == Meets(id, locally, old(State()), e)
    {
      var givesUp := false;
      match e {
        case ObjMsg(m) =>
          var ok, answers := ProcessObjFileChunk(m);
          published := published + answers;
          givesUp := !ok;
        case AbortMsg => givesUp := true;
        case UpCompleteMsg(session, success) => givesUp := !(session == id && success);
        case _ =>
      }
      if givesUp {
        published := published + [locally];
        terminated, left := true, true;
      } else if terminated {
        left := true;
      }
    }

    /** The request handler receives the first answer and terminates the session. */
    method RetrieveResponse() returns (r: Option<Response>)
      modifies this
      ensures State() == Meets(id, Response(0, [], []), old(State()), Retrieve)
      ensures r == if old(taken) || old(published) == [] then None else Some(old(published)[0])
    {
      if taken || published == [] { return None; }
      taken, terminated := true, true;
      return Some(published[0]);
    }

    method ProcessObjFileChunk(m: ObjChunk) returns (ok: bool, answers: seq<Response>)
      modifies this`transfer
      ensures Received(transfer, ok, answers) == ReceiveOne(id, old(transfer), m)
    {
      answers := [];
      if m.session != id { return false, []; }
      if transfer.Some? {
        if transfer.value.finished { return true, []; }
      } else {
        return false, [];
      }
      if transfer.value.session != id {
        transfer := Some(transfer.value.(finished := true));
        return false, [];
      }
      transfer := Some(transfer.value.(written := transfer.value.written + m.data));
      if m.isLast {
        transfer := Some(transfer.value.(finished := true));
        answers := [Response(m.exitCode, m.stderr, m.stdout)];
      }
      ok := true;
    }
  }

  /**
   Whatever arrives, the handler answers at most once, exactly when the transfer finishes, and nothing is
   written later.
   */
  lemma {:induction false} AnsweredAtMostOnce(id: SessionId, ms: seq<ObjChunk>)
    ensures var r := ReceiveAll(id, Some(ObjTransfer(false, id, [])), ms);
      r.transfer.Some? && r.transfer.value.session == id && |r.answers| == if r.transfer.value.finished then 1 else 0
    ensures forall n | 0 <= n <= |ms| ::
      var r := ReceiveAll(id, Some(ObjTransfer(false, id, [])), ms[..n]).transfer;
      r.Some? && (r.value.finished ==> r == ReceiveAll(id, Some(ObjTransfer(false, id, [])), ms).transfer)
  {
    var start := Some(ObjTransfer(false, id, []));
    assert ms[..|ms|] == ms;
    if ms != [] {
      var front := ms[..|ms| - 1];
      AnsweredAtMostOnce(id, front);
      forall n | 0 <= n <= |ms|
        ensures var r := ReceiveAll(id, start, ms[..n]).transfer;
          r.Some? && (r.value.finished ==> r == ReceiveAll(id, start, ms).transfer)
      {
        if n < |ms| { assert front[..n] == ms[..n]; }
      }
    }
  }

  // ---- The session loop around it -------------------------------------------------------------------------------

  /** What the loop of the client session meets: messages of the server, and the wrapper's side taking an answer. */
  datatype Event =
    | ObjMsg(chunk: ObjChunk)
    | AbortMsg
    | UpCompleteMsg(session: SessionId, success: bool)
    | OtherMsg
    | Retrieve

  /**
   `published` are the answers put into the channel; `taken` says that the first was received, which marks the
   session terminated; `left` that the loop has been left.
   */
  datatype SessionLoop = SessionLoop(transfer: Option<ObjTransfer>, published: seq<Response>, taken: bool,
                                     terminated: bool, left: bool)

  function Entering(id: SessionId): SessionLoop
  {
    SessionLoop(Some(ObjTransfer(false, id, [])), [], false, false, false)
  }

  /** The session gives up: it compiles locally, publishes that answer and leaves the loop. */
  function GivesUp(s: SessionLoop, locally: Response): SessionLoop
  {
    s.(published := s.published + [locally], terminated := true, left := true)
  }

  /** The guard of the loop is tested again after each message. */
  function GuardAgain(s: SessionLoop): SessionLoop { s.(left := s.left || s.terminated) }

  /** `locally` is what a local compilation would answer. */
  function Meets(id: SessionId, locally: Response, s: SessionLoop, e: Event): SessionLoop
  {
    if e.Retrieve? then
      if s.taken || s.published == [] then s else s.(taken := true, terminated := true)
    else if s.left then s
    else
      match e
      case ObjMsg(m) =>
        var r := ReceiveOne(id, s.transfer, m);
        var after := s.(transfer := r.transfer, published := s.published + r.answers);
        if r.ok then GuardAgain(after) else GivesUp(after, locally)
      case AbortMsg => GivesUp(s, locally)
      case UpCompleteMsg(session, success) =>
        if session == id && success then GuardAgain(s) else GivesUp(s, locally)
      case _ => GuardAgain(s)
  }

  function MeetsAll(id: SessionId, locally: Response, es: seq<Event>): SessionLoop
  {
    if es == [] then Entering(id)
    else Meets(id, locally, MeetsAll(id, locally, es[..|es| - 1]), es[|es| - 1])
  }

  /** Events that make the session give up. */
  predicate Ends(id: SessionId, e: Event)
  {
    match e
    case ObjMsg(m) => m.session != id
    case AbortMsg => true
    case UpCompleteMsg(session, success) => session != id || !success
    case _ => false
  }

  predicate Flags(id: SessionId, e: Event) { e.ObjMsg? && e.chunk.session == id && e.chunk.isLast }

  /** What a run has met while the loop was running. */
  ghost predicate Met(id: SessionId, locally: Response, es: seq<Event>, i: nat)
  {
    i < |es| && !MeetsAll(id, locally, es[..i]).left
  }

  ghost predicate MetFlag(id: SessionId, locally: Response, es: seq<Event>)
  {
    exists i: nat :: Met(id, locally, es, i) && Flags(id, es[i])
  }

  ghost predicate MetEnd(id: SessionId, locally: Response, es: seq<Event>)
  {
    exists i: nat :: Met(id, locally, es, i) && Ends(id, es[i])
  }

  function One(b: bool): nat { if b then 1 else 0 }

  lemma {:induction false} MetFront(id: SessionId, locally: Response, es: seq<Event>, i: nat)
    requires es != [] && i < |es| - 1
    ensures Met(id, locally, es[..|es| - 1], i) <==> Met(id, locally, es, i)
    ensures es[..|es| - 1][i] == es[i]
  {
    assert es[..|es| - 1][..i] == es[..i];
  }

  lemma {:induction false} MetFlagMore(id: SessionId, locally: Response, es: seq<Event>)
    requires es != []
    ensures MetFlag(id, locally, es) <==>
      MetFlag(id, locally, es[..|es| - 1]) || (Met(id, locally, es, |es| - 1) && Flags(id, es[|es| - 1]))
  {
    hide Flags, Met;
    forall i: nat | i < |es| - 1
      ensures Met(id, locally, es[..|es| - 1], i) <==> Met(id, locally, es, i)
    {
      MetFront(id, locally, es, i);
    }
    MetBound(id, locally, es);
    MetBound(id, locally, es[..|es| - 1]);
  }

  lemma {:induction false} MetEndMore(id: SessionId, locally: Response, es: seq<Event>)
    requires es != []
    ensures MetEnd(id, locally, es) <==>
      MetEnd(id, locally, es[..|es| - 1]) || (Met(id, locally, es, |es| - 1) && Ends(id, es[|es| - 1]))
  {
    hide Ends, Met;
    forall i: nat | i < |es| - 1
      ensures Met(id, locally, es[..|es| - 1], i) <==> Met(id, locally, es, i)
    {
      MetFront(id, locally, es, i);
    }
    MetBound(id, locally, es);
    MetBound(id, locally, es[..|es| - 1]);
  }

  lemma MetBound(id: SessionId, locally: Response, es: seq<Event>)
    ensures forall i: nat :: Met(id, locally, es, i) ==> i < |es|
  {
  }

  /** The published answers are one for the first flagged chunk and one for giving up. */
  ghost predicate Accounted(id: SessionId, s: SessionLoop, flagged: bool, ended: bool)
  {
    && s.transfer.Some? && s.transfer.value.session == id && s.transfer.value.finished == flagged
    && |s.published| == One(flagged) + One(ended) && (ended ==> s.left) && (s.taken ==> s.published != [])
  }

  lemma {:induction false} MeetsAccounted(id: SessionId, locally: Response, s: SessionLoop, e: Event, flagged: bool, ended: bool)
    requires Accounted(id, s, flagged, ended)
    ensures Accounted(id, Meets(id, locally, s, e), flagged || (!s.left && Flags(id, e)), ended || (!s.left && Ends(id, e)))
  {
  }

  lemma {:induction false} AllAccounted(id: SessionId, locally: Response, es: seq<Event>)
    ensures Accounted(id, MeetsAll(id, locally, es), MetFlag(id, locally, es), MetEnd(id, locally, es))
  {
    if es != [] {
      var front, e := es[..|es| - 1], es[|es| - 1];
      AllAccounted(id, locally, front);
      MetFlagMore(id, locally, es);
      MetEndMore(id, locally, es);
      hide MetFlag, MetEnd, Meets, Flags, Ends;
      MeetsAccounted(id, locally, MeetsAll(id, locally, front), e, MetFlag(id, locally, front), MetEnd(id, locally, front));
    }
  }

  /**
   The session publishes at most two answers: two if and only if, while its loop ran, it met both a flagged chunk and
   a message that makes it give up; none if and only if it met neither.
   */
  lemma {:induction false} PublishedExactly(id: SessionId, locally: Response, es: seq<Event>)
    ensures var n, flag, end := |MeetsAll(id, locally, es).published|, MetFlag(id, locally, es), MetEnd(id, locally, es);
      n <= 2 && (n == 2 <==> flag && end) && (n == 0 <==> !flag && !end)
  {
    hide MeetsAll, MetFlag, MetEnd;
    AllAccounted(id, locally, es);
  }

  /** A chunk of another session after the flagged one: the local answer is published beside the server's. */
  lemma {:induction false} SecondAnswer(id: SessionId, locally: Response, m: ObjChunk, foreign: ObjChunk)
    requires m.session == id && m.isLast && foreign.session != id
    ensures MeetsAll(id, locally, [ObjMsg(m), ObjMsg(foreign)]).published == [Response(m.exitCode, m.stderr, m.stdout), locally]
  {
    var es := [ObjMsg(m), ObjMsg(foreign)];
    assert es[..1] == [ObjMsg(m)] && [ObjMsg(m)][..0] == [];
    var s := Meets(id, locally, Entering(id), ObjMsg(m));
    assert MeetsAll(id, locally, [ObjMsg(m)]) == s;
    assert s.published == [Response(m.exitCode, m.stderr, m.stdout)];
  }

  /** What has been published stays published, in order. */
  lemma {:induction false} PublishedGrows(id: SessionId, locally: Response, es: seq<Event>, n: nat)
    requires n <= |es|
    ensures MeetsAll(id, locally, es[..n]).published <= MeetsAll(id, locally, es).published
    ensures MeetsAll(id, locally, es[..n]).taken ==> MeetsAll(id, locally, es).taken
    decreases |es|
  {
    if n == |es| {
      assert es[..n] == es;
    } else {
      var front := es[..|es| - 1];
      PublishedGrows(id, locally, front, n);
      assert front[..n] == es[..n];
      PublishedStep(id, locally, MeetsAll(id, locally, front), es[|es| - 1]);
    }
  }

  lemma PublishedStep(id: SessionId, locally: Response, s: SessionLoop, e: Event)
    ensures s.published <= Meets(id, locally, s, e).published && (s.taken ==> Meets(id, locally, s, e).taken)
  {
  }

  /** The wrapper gets one answer, the first published, and it never changes. */
  function WrapperAnswer(s: SessionLoop): Option<Response>
  {
    if s.taken && s.published != [] then Some(s.published[0]) else None
  }

  lemma {:induction false} WrapperAnsweredOnce(id: SessionId, locally: Response, es: seq<Event>, n: nat)
    requires n <= |es| && WrapperAnswer(MeetsAll(id, locally, es[..n])).Some?
    ensures WrapperAnswer(MeetsAll(id, locally, es)) == WrapperAnswer(MeetsAll(id, locally, es[..n]))
  {
    hide MeetsAll;
    PublishedGrows(id, locally, es, n);
  }

  lemma {:induction false} TakenIsTerminated(id: SessionId, locally: Response, es: seq<Event>)
    ensures MeetsAll(id, locally, es).taken ==> MeetsAll(id, locally, es).terminated
  {
    if es != [] { TakenIsTerminated(id, locally, es[..|es| - 1]); }
  }

  /** Once the wrapper has its answer the session meets one more message at most: with it, it leaves its loop. */
  lemma {:induction false} LeavesOnceAnswered(id: SessionId, locally: Response, es: seq<Event>, n: nat, k: nat)
    requires n <= k < |es| && MeetsAll(id, locally, es[..n]).taken && !es[k].Retrieve?
    ensures MeetsAll(id, locally, es[..k + 1]).left
  {
    var before, after := es[..k], es[..k + 1];
    assert before[..n] == es[..n] && after[..k] == before;
    PublishedGrows(id, locally, before, n);
    TakenIsTerminated(id, locally, before);
    hide MeetsAll, ReceiveOne;
    assert MeetsAll(id, locally, after) == Meets(id, locally, MeetsAll(id, locally, before), es[k]) by { MeetsLast(id, locally, after); }
  }

  lemma MeetsLast(id: SessionId, locally: Response, es: seq<Event>)
    requires es != []
    ensures MeetsAll(id, locally, es) == Meets(id, locally, MeetsAll(id, locally, es[..|es| - 1]), es[|es| - 1])
  {
  }

  /** The wrapper is answered exactly when the compilation failed or the object's length is no multiple of the chunk size. */
  predicate Answered(c: Compilation)
  {
    c.exitCode != 0 || (c.objFile.Some? && |c.objFile.value| % CHUNK_SZ != 0)
  }

  /** Chunks before the flagged one are written in order. */
  lemma {:induction false} ReceivesPrefix(id: SessionId, c: Compilation, size: nat, chunks: seq<Chunk>)
    requires forall i | 0 <= i < |chunks| - 1 :: !chunks[i].isLast
    ensures var flagged := chunks != [] && chunks[|chunks| - 1].isLast;
      ReceiveAll(id, Some(ObjTransfer(false, id, [])), TagAll(id, c, size, chunks))
      == Received(Some(ObjTransfer(flagged, id, Concat(chunks))), true,
                  if flagged then [Response(c.exitCode, c.stderr, c.stdout)] else [])
  {
    if chunks != [] {
      var front, last := chunks[..|chunks| - 1], chunks[|chunks| - 1];
      ReceivesPrefix(id, c, size, front);
      var ms := TagAll(id, c, size, chunks);
      assert ms[..|ms| - 1] == TagAll(id, c, size, front);
    }
  }

  /**
   The object arrives byte for byte; the wrapper is answered, with the two logs exchanged, exactly when
   `Answered` holds.
   */
  lemma ObjectDelivered(id: SessionId, c: Compilation)
    ensures ReceiveAll(id, Some(ObjTransfer(false, id, [])), ResultMessages(id, c))
      == Received(Some(ObjTransfer(Answered(c), id, if c.exitCode == 0 && c.objFile.Some? then c.objFile.value else [])), true,
                  if Answered(c) then [Response(c.exitCode, c.stderr, c.stdout)] else [])
  {
    if c.exitCode != 0 {
      var one := [Chunk(1, 0, [], true)];
      ReceivesPrefix(id, c, 0, one);
      ConcatOne([], one[0]);
      assert [] + one == one && one[..0] == [];
      assert TagAll(id, c, 0, one) == [Tagged(id, c, 0, [], true)];
    } else if c.objFile.Some? {
      var data := c.objFile.value;
      ObjectReassembles(data);
      SplitFromCount(data, 1, 0);
      ReceivesPrefix(id, c, |data|, SplitObject(data));
    }
  }
}
