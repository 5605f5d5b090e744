/** What every run of the upload protocol keeps, whatever messages arrive. */
module UploadRuns {
  import opened Bytes
  import opened Paths
  import opened Chunks
  import opened Upload

  // ---- The invariant ----------------------------------------------------------------------------------------------

  /** Live sessions have been enqueued exactly when they are marked running; no session was enqueued twice. */
  ghost predicate IdsOk(v: View)
  {
    && v.sessions.Keys <= v.log.used
    && (forall id | id in v.log.enqueued :: id in v.log.used)
    && (forall id | id in v.sessions :: v.sessions[id].running <==> id in v.log.enqueued)
    && NoDuplicates(v.log.enqueued)
  }

  /** Only requests of live sessions are still to be compiled. */
  ghost predicate QueueOk(v: View)
  {
    forall r | r in v.queue :: r.session in v.log.enqueued && (r.session in v.sessions || r.invalidated)
  }

  ghost predicate RequiredOk(v: View)
  {
    forall id | id in v.sessions :: forall p | p in v.sessions[id].required :: p in v.files
  }

  /** The accepted chunks are numbered 1..k, their offsets never decrease, and only the one that finishes is last. */
  ghost predicate TransferOk(id: SessionId, t: Transfer)
  {
    && t.session == id && t.lastSeq == |t.chunks|
    && (forall i | 0 <= i < |t.chunks| :: t.chunks[i].seqNo == i + 1)
    && (forall i, j | 0 <= i < j < |t.chunks| :: t.chunks[i].offset <= t.chunks[j].offset)
    && t.lastOffset == (if t.chunks == [] then 0 else t.chunks[|t.chunks| - 1].offset)
    && (forall i | 0 <= i < |t.chunks| :: t.chunks[i].isLast ==> i == |t.chunks| - 1 && t.finished)
  }

  ghost predicate TransfersOk(v: View)
  {
    forall id | id in v.sessions :: forall sp | sp in v.sessions[id].transfers ::
      TransferOk(id, v.sessions[id].transfers[sp])
  }

  /** The file on disk is what this transfer wrote, unless another session opened the same file. */
  ghost predicate DiskOk(v: View, id: SessionId, sp: Path, t: Transfer)
  {
    && sp in v.disk && id in Openers(v.log, sp)
    && (Openers(v.log, sp) == {id} ==> v.disk[sp] == Concat(t.chunks))
  }

  ghost predicate DisksOk(v: View)
  {
    && (forall sp | sp in v.log.openers :: v.log.openers[sp] <= v.log.used)
    && (forall id | id in v.sessions :: forall sp | sp in v.sessions[id].transfers ::
         DiskOk(v, id, sp, v.sessions[id].transfers[sp]))
  }

  ghost predicate Core(v: View)
  {
    IdsOk(v) && QueueOk(v) && RequiredOk(v) && TransfersOk(v) && DisksOk(v)
  }

  /** A session whose files are all available has its request enqueued. */
  ghost predicate NoneForgotten(v: View)
  {
    forall id | id in v.sessions :: Ready(v.files, v.sessions[id]) ==> v.sessions[id].running
  }

  ghost predicate Inv(v: View) { Core(v) && NoneForgotten(v) }

  // ---- Sweeping ---------------------------------------------------------------------------------------------------

  lemma {:induction false} NewlyMembers(files: Files, sessions: Sessions, order: seq<SessionId>)
    ensures forall id :: id in Newly(files, sessions, order) <==>
      id in order && id in sessions && Ready(files, sessions[id]) && !sessions[id].running
  {
    if order != [] { NewlyMembers(files, sessions, order[..|order| - 1]); }
  }

  lemma {:induction false} NewlyDistinct(files: Files, sessions: Sessions, order: seq<SessionId>)
    requires NoDuplicates(order)
    ensures NoDuplicates(Newly(files, sessions, order))
  {
    if order != [] {
      var front := order[..|order| - 1];
      NewlyDistinct(files, sessions, front);
      NewlyMembers(files, sessions, front);
      assert order[|order| - 1] !in front;
    }
  }

  lemma AppendDistinct<T>(a: seq<T>, b: seq<T>)
    requires NoDuplicates(a) && NoDuplicates(b) && forall x | x in b :: x !in a
    ensures NoDuplicates(a + b)
  {
    forall i, j | 0 <= i < j < |a + b|
      ensures (a + b)[i] != (a + b)[j]
    {
      if i < |a| <= j { assert b[j - |a|] in b; }
    }
  }

  lemma SweepIds(v: View, order: seq<SessionId>)
    requires IdsOk(v) && Lists(order, v.sessions.Keys)
    ensures IdsOk(Sweep(v, order))
  {
    NewlyMembers(v.files, v.sessions, order);
    NewlyDistinct(v.files, v.sessions, order);
    AppendDistinct(v.log.enqueued, Newly(v.files, v.sessions, order));
  }

  lemma SweepQueue(v: View, order: seq<SessionId>)
    requires QueueOk(v)
    ensures QueueOk(Sweep(v, order))
  {
    var newly := Newly(v.files, v.sessions, order);
    NewlyMembers(v.files, v.sessions, order);
    forall r | r in v.queue + Requests(newly)
      ensures r.session in v.log.enqueued + newly && (r.session in v.sessions || r.invalidated)
    {
      if r !in v.queue {
        var i :| 0 <= i < |newly| && r == Requests(newly)[i];
        assert newly[i] in newly;
      }
    }
  }

  lemma SweepDisks(v: View, order: seq<SessionId>)
    requires DisksOk(v)
    ensures DisksOk(Sweep(v, order))
  {
    var w := Sweep(v, order);
    forall x | x in w.sessions
      ensures forall q | q in w.sessions[x].transfers :: DiskOk(w, x, q, w.sessions[x].transfers[q])
    {
      assert w.sessions[x].transfers == v.sessions[x].transfers;
    }
  }

  lemma SweepCore(v: View, order: seq<SessionId>)
    requires Core(v) && Lists(order, v.sessions.Keys)
    ensures Inv(Sweep(v, order))
  {
    SweepIds(v, order);
    SweepQueue(v, order);
    SweepDisks(v, order);
  }

  // ---- Connecting -------------------------------------------------------------------------------------------------

  lemma JoinedCore(v: View, id: SessionId, infos: seq<FileInfo>)
    requires Core(v) && id !in v.log.used
    ensures Core(Joined(v, id, infos))
  {
    AddFilesHasNamed(v.cwd, v.files, infos);
    var w := Joined(v, id, infos);
    assert id !in v.log.enqueued;
    forall x | x in w.sessions
      ensures forall sp | sp in w.sessions[x].transfers :: DiskOk(w, x, sp, w.sessions[x].transfers[sp])
    {
      if x != id { assert w.sessions[x] == v.sessions[x]; }
    }
  }

  // ---- Handling a chunk -------------------------------------------------------------------------------------------

  lemma SetStatusCore(v: View, p: Path, s: Status)
    requires Core(v) && p in v.files
    ensures Core(SetStatus(v, p, s))
  {
  }

  lemma SetStatusNoneForgotten(v: View, p: Path, s: Status)
    requires NoneForgotten(v) && p in v.files && s != Available
    ensures NoneForgotten(SetStatus(v, p, s))
  {
    var w := SetStatus(v, p, s);
    forall id | id in w.sessions && Ready(w.files, w.sessions[id])
      ensures w.sessions[id].running
    {
      assert AllAvailable(v.files, v.sessions[id].required);
    }
  }

  lemma PutTransferIds(v: View, id: SessionId, sp: Path, t: Transfer)
    requires Core(v) && id in v.sessions && TransferOk(id, t)
    ensures var w := PutTransfer(v, id, sp, t); IdsOk(w) && QueueOk(w) && RequiredOk(w) && TransfersOk(w)
    ensures NoneForgotten(v) ==> NoneForgotten(PutTransfer(v, id, sp, t))
  {
    var w := PutTransfer(v, id, sp, t);
    forall x | x in w.sessions
      ensures forall q | q in w.sessions[x].transfers :: TransferOk(x, w.sessions[x].transfers[q])
    {
    }
  }

  lemma OpenDisks(v: View, id: SessionId, sp: Path)
    requires DisksOk(v) && id in v.sessions && id in v.log.used && sp !in v.sessions[id].transfers
    ensures DisksOk(Open(v, id, sp))
  {
    var w := Open(v, id, sp);
    forall x | x in w.sessions
      ensures forall q | q in w.sessions[x].transfers :: DiskOk(w, x, q, w.sessions[x].transfers[q])
    {
      forall q | q in w.sessions[x].transfers
        ensures DiskOk(w, x, q, w.sessions[x].transfers[q])
      {
        if !(x == id && q == sp) {
          assert DiskOk(v, x, q, v.sessions[x].transfers[q]);
        }
      }
    }
  }

  lemma OpenInv(v: View, id: SessionId, sp: Path)
    requires Inv(v) && id in v.sessions
    ensures Inv(Open(v, id, sp))
  {
    if sp !in v.sessions[id].transfers {
      PutTransferIds(v, id, sp, Transfer(false, id, 0, 0, []));
      OpenDisks(v, id, sp);
    }
  }

  lemma AcceptTransfer(id: SessionId, t: Transfer, c: Chunk)
    requires TransferOk(id, t) && !t.finished && InSequence(t, id, c)
    ensures TransferOk(id, Transfer(c.isLast, t.session, c.seqNo, c.offset, t.chunks + [c]))
  {
  }

  lemma AcceptDisks(v: View, id: SessionId, sp: Path, c: Chunk)
    requires DisksOk(v) && id in v.sessions && sp in v.sessions[id].transfers
    ensures DisksOk(Accept(v, id, sp, c))
  {
    var w, t := Accept(v, id, sp, c), v.sessions[id].transfers[sp];
    forall x | x in w.sessions
      ensures forall q | q in w.sessions[x].transfers :: DiskOk(w, x, q, w.sessions[x].transfers[q])
    {
      forall q | q in w.sessions[x].transfers
        ensures DiskOk(w, x, q, w.sessions[x].transfers[q])
      {
        assert DiskOk(v, x, q, v.sessions[x].transfers[q]);
        assert DiskOk(v, id, sp, t);
        if x == id && q == sp { ConcatOne(t.chunks, c); }
      }
    }
  }

  lemma AcceptInv(v: View, id: SessionId, sp: Path, c: Chunk)
    requires Inv(v) && id in v.sessions && sp in v.sessions[id].transfers
    requires !v.sessions[id].transfers[sp].finished && InSequence(v.sessions[id].transfers[sp], id, c)
    ensures Inv(Accept(v, id, sp, c))
  {
    var t := v.sessions[id].transfers[sp];
    AcceptTransfer(id, t, c);
    PutTransferIds(v, id, sp, Transfer(c.isLast, t.session, c.seqNo, c.offset, t.chunks + [c]));
    AcceptDisks(v, id, sp, c);
  }

  lemma FinishDisks(v: View, id: SessionId, sp: Path)
    requires DisksOk(v) && id in v.sessions && sp in v.sessions[id].transfers
    ensures DisksOk(Finish(v, id, sp))
  {
    var w := Finish(v, id, sp);
    forall x | x in w.sessions
      ensures forall q | q in w.sessions[x].transfers :: DiskOk(w, x, q, w.sessions[x].transfers[q])
    {
      forall q | q in w.sessions[x].transfers
        ensures DiskOk(w, x, q, w.sessions[x].transfers[q])
      {
        assert DiskOk(v, x, q, v.sessions[x].transfers[q]);
      }
    }
  }

  lemma FinishInv(v: View, id: SessionId, sp: Path)
    requires Inv(v) && id in v.sessions && sp in v.sessions[id].transfers
    ensures Inv(Finish(v, id, sp))
  {
    PutTransferIds(v, id, sp, v.sessions[id].transfers[sp].(finished := true));
    FinishDisks(v, id, sp);
  }

  lemma HandleChunkInv(v: View, id: SessionId, m: FileChunk, sp: Path, order: seq<SessionId>)
    requires Inv(v) && id in v.sessions && sp in v.sessions[id].transfers && m.filename in v.files
    requires !v.sessions[id].transfers[sp].finished && Lists(order, v.sessions.Keys)
    ensures Inv(HandleChunk(v, id, m, sp, order).view)
  {
    if !InSequence(v.sessions[id].transfers[sp], id, m.chunk) {
      FinishInv(v, id, sp);
      SetStatusCore(Finish(v, id, sp), m.filename, Fault);
      SetStatusNoneForgotten(Finish(v, id, sp), m.filename, Fault);
    } else {
      AcceptInv(v, id, sp, m.chunk);
      var w := Accept(v, id, sp, m.chunk);
      assert w.sessions.Keys == v.sessions.Keys;
      if m.chunk.isLast {
        SetStatusCore(w, m.filename, Fault);
        SetStatusNoneForgotten(w, m.filename, Fault);
        SetStatusCore(w, m.filename, Available);
        SweepCore(SetStatus(w, m.filename, Available), order);
      }
    }
  }

  lemma ProcessChunkInv(v: View, id: SessionId, m: FileChunk, order: seq<SessionId>)
    requires Inv(v) && id in v.sessions && Lists(order, v.sessions.Keys)
    ensures Inv(ProcessChunk(v, id, m, order).view)
  {
    if m.filename in v.files {
      if m.session != id {
        SetStatusCore(v, m.filename, Fault);
        SetStatusNoneForgotten(v, m.filename, Fault);
      } else {
        var sp := v.files[m.filename].serverPath;
        OpenInv(v, id, sp);
        var o := Open(v, id, sp);
        assert o.sessions.Keys == v.sessions.Keys;
        if !o.sessions[id].transfers[sp].finished { HandleChunkInv(o, id, m, sp, order); }
      }
    }
  }

  // ---- Every step, every run --------------------------------------------------------------------------------------

  lemma TerminatedInv(v: View, id: SessionId)
    requires Inv(v)
    ensures Inv(Terminated(v, id))
  {
    var w := Terminated(v, id);
    forall r | r in w.queue
      ensures r.session in w.log.enqueued && (r.session in w.sessions || r.invalidated)
    {
      var i :| 0 <= i < |w.queue| && r == w.queue[i];
      assert v.queue[i] in v.queue;
    }
  }

  lemma PoppedInv(v: View)
    requires Inv(v) && v.queue != []
    ensures Inv(Popped(v))
  {
  }

  lemma StepInv(v: View, s: Step)
    requires Inv(v) && Next(v, s).Some?
    ensures Inv(Next(v, s).value)
  {
    match s
    case Connect(id, infos, order) =>
      JoinedCore(v, id, infos);
      assert Joined(v, id, infos).sessions.Keys == v.sessions.Keys + {id};
      SweepCore(Joined(v, id, infos), order);
    case Deliver(id, m, order) => ProcessChunkInv(v, id, m, order);
    case Terminate(id) => TerminatedInv(v, id);
    case Pop => PoppedInv(v);
  }

  lemma InitInv(cwd: Path)
    ensures Inv(Init(cwd))
  {
  }

  lemma {:induction false} RunInv(cwd: Path, vs: seq<View>, steps: seq<Step>, i: nat)
    requires Run(cwd, vs, steps) && i < |vs|
    ensures Inv(vs[i])
  {
    if i == 0 {
      InitInv(cwd);
    } else {
      RunInv(cwd, vs, steps, i - 1);
      assert Leads(vs[i - 1], steps[i - 1], vs[i]);
      StepInv(vs[i - 1], steps[i - 1]);
    }
  }

  /**
   In every run no session's request is enqueued twice, a live session is marked running exactly when its
   request was enqueued, and one whose files are all available is never left waiting.
   */
  lemma {:induction false} EnqueuedAtMostOnce(cwd: Path, vs: seq<View>, steps: seq<Step>, i: nat)
    requires Run(cwd, vs, steps) && i < |vs|
    ensures NoDuplicates(vs[i].log.enqueued)
    ensures forall id | id in vs[i].sessions ::
      && (vs[i].sessions[id].running <==> id in vs[i].log.enqueued)
      && (Ready(vs[i].files, vs[i].sessions[id]) ==> id in vs[i].log.enqueued)
  {
    RunInv(cwd, vs, steps, i);
  }

  // ---- What handling a chunk leaves alone -------------------------------------------------------------------------

  ghost predicate HasTransfer(v: View, id: SessionId, sp: Path)
  {
    id in v.sessions && sp in v.sessions[id].transfers
  }

  /** A transfer only ever gains chunks, and none once it is finished. */
  ghost predicate Extends(t: Transfer, u: Transfer)
  {
    t.chunks <= u.chunks && (t.finished ==> u == t)
  }

  /** Same sessions, nothing started, transfers extended. */
  ghost predicate Follows(v: View, w: View)
  {
    && w.sessions.Keys == v.sessions.Keys && w.log.used == v.log.used && w.log.started == v.log.started
    && forall x, q | HasTransfer(v, x, q) ::
         HasTransfer(w, x, q) && Extends(v.sessions[x].transfers[q], w.sessions[x].transfers[q])
  }

  lemma FollowsTransitive(u: View, v: View, w: View)
    requires Follows(u, v) && Follows(v, w)
    ensures Follows(u, w)
  {
    forall x, q | HasTransfer(u, x, q)
      ensures HasTransfer(w, x, q) && Extends(u.sessions[x].transfers[q], w.sessions[x].transfers[q])
    {
      assert HasTransfer(v, x, q);
    }
  }

  lemma PutTransferFollows(v: View, id: SessionId, sp: Path, t: Transfer)
    requires id in v.sessions
    requires sp in v.sessions[id].transfers ==> Extends(v.sessions[id].transfers[sp], t)
    ensures Follows(v, PutTransfer(v, id, sp, t))
  {
  }

  lemma HandleChunkFollows(v: View, id: SessionId, m: FileChunk, sp: Path, order: seq<SessionId>)
    requires id in v.sessions && sp in v.sessions[id].transfers && m.filename in v.files
    requires !v.sessions[id].transfers[sp].finished
    ensures Follows(v, HandleChunk(v, id, m, sp, order).view)
  {
    var t, c := v.sessions[id].transfers[sp], m.chunk;
    var accepted := Transfer(c.isLast, t.session, c.seqNo, c.offset, t.chunks + [c]);
    PutTransferFollows(v, id, sp, t.(finished := true));
    PutTransferFollows(v, id, sp, accepted);
    var w := Accept(v, id, sp, c);
    assert Follows(v, w);
    if HandleChunk(v, id, m, sp, order).complete {
      SweepFollows(SetStatus(w, m.filename, Available), order);
      FollowsTransitive(v, SetStatus(w, m.filename, Available), HandleChunk(v, id, m, sp, order).view);
    }
  }

  lemma SweepFollows(v: View, order: seq<SessionId>)
    ensures Follows(v, Sweep(v, order))
  {
  }

  lemma OpenFollows(v: View, id: SessionId, sp: Path)
    requires id in v.sessions
    ensures Follows(v, Open(v, id, sp))
  {
    if sp !in v.sessions[id].transfers { PutTransferFollows(v, id, sp, Transfer(false, id, 0, 0, [])); }
  }

  lemma ProcessChunkFollows(v: View, id: SessionId, m: FileChunk, order: seq<SessionId>)
    requires id in v.sessions
    ensures Follows(v, ProcessChunk(v, id, m, order).view)
  {
    if m.filename in v.files && m.session == id {
      var sp := v.files[m.filename].serverPath;
      var o := Open(v, id, sp);
      OpenFollows(v, id, sp);
      if !o.sessions[id].transfers[sp].finished {
        HandleChunkFollows(o, id, m, sp, order);
        FollowsTransitive(v, o, HandleChunk(o, id, m, sp, order).view);
      }
    }
  }

  // ---- Terminated sessions ----------------------------------------------------------------------------------------

  ghost predicate Silenced(v: View, id: SessionId)
  {
    Inv(v) && id in v.log.used && id !in v.sessions && id !in v.log.started
  }

  lemma StepKeepsSilenced(v: View, s: Step, id: SessionId)
    requires Silenced(v, id) && Next(v, s).Some?
    ensures Silenced(Next(v, s).value, id)
  {
    StepInv(v, s);
    match s
    case Connect(x, infos, order) =>
    case Deliver(x, m, order) => ProcessChunkFollows(v, x, m, order);
    case Terminate(x) =>
    case Pop => assert v.queue[0] in v.queue;
  }

  lemma {:induction false} SilencedLater(cwd: Path, vs: seq<View>, steps: seq<Step>, i: nat, j: nat, id: SessionId)
    requires Run(cwd, vs, steps) && i <= j < |vs| && Silenced(vs[i], id)
    ensures Silenced(vs[j], id)
  {
    if i < j {
      SilencedLater(cwd, vs, steps, i, j - 1, id);
      assert Leads(vs[j - 1], steps[j - 1], vs[j]);
      StepKeepsSilenced(vs[j - 1], steps[j - 1], id);
    }
  }

  /** A session terminated before a worker took its request is never compiled, whatever happens later. */
  lemma {:induction false} TerminatedNeverStarted(cwd: Path, vs: seq<View>, steps: seq<Step>, i: nat, j: nat, id: SessionId)
    requires Run(cwd, vs, steps) && i < j < |vs| && steps[i] == Terminate(id) && id !in vs[i].log.started
    ensures id !in vs[j].log.started
  {
    assert Leads(vs[i], steps[i], vs[i + 1]);
    RunInv(cwd, vs, steps, i);
    RunInv(cwd, vs, steps, i + 1);
    SilencedLater(cwd, vs, steps, i + 1, j, id);
  }

  // ---- Transfers --------------------------------------------------------------------------------------------------

  lemma StepTransfer(v: View, s: Step, id: SessionId, sp: Path)
    requires Inv(v) && HasTransfer(v, id, sp) && Next(v, s).Some? && id in Next(v, s).value.sessions
    ensures var w := Next(v, s).value;
      HasTransfer(w, id, sp) && Extends(v.sessions[id].transfers[sp], w.sessions[id].transfers[sp])
  {
    if s.Deliver? { ProcessChunkFollows(v, s.id, s.msg, s.order); }
  }

  lemma StepBack(v: View, s: Step, id: SessionId)
    requires id in v.log.used && Next(v, s).Some?
    ensures var w := Next(v, s).value; id in w.log.used && (id in w.sessions ==> id in v.sessions)
  {
    if s.Deliver? { ProcessChunkFollows(v, s.id, s.msg, s.order); }
  }

  lemma LiveIsUsed(v: View, id: SessionId)
    requires Inv(v) && id in v.sessions
    ensures id in v.log.used
  {
  }

  lemma {:induction false} TransferLater(cwd: Path, vs: seq<View>, steps: seq<Step>, i: nat, j: nat, id: SessionId, sp: Path)
    requires Run(cwd, vs, steps) && i <= j < |vs| && HasTransfer(vs[i], id, sp)
    ensures id in vs[j].log.used
    ensures id in vs[j].sessions ==>
      HasTransfer(vs[j], id, sp) && Extends(vs[i].sessions[id].transfers[sp], vs[j].sessions[id].transfers[sp])
  {
    hide Inv, Next;
    RunInv(cwd, vs, steps, i);
    LiveIsUsed(vs[i], id);
    if i < j {
      TransferLater(cwd, vs, steps, i, j - 1, id, sp);
      RunInv(cwd, vs, steps, j - 1);
      assert Leads(vs[j - 1], steps[j - 1], vs[j]);
      StepBack(vs[j - 1], steps[j - 1], id);
      if id in vs[j].sessions { StepTransfer(vs[j - 1], steps[j - 1], id, sp); }
    }
  }

  /**
   In every run, whatever is sent: the chunks a transfer accepted are numbered 1..k with non-decreasing
   offsets, and the file on disk is their concatenation unless another session opened the same file.
   */
  lemma {:induction false} AcceptedInOrder(cwd: Path, vs: seq<View>, steps: seq<Step>, i: nat, id: SessionId, sp: Path)
    requires Run(cwd, vs, steps) && i < |vs| && HasTransfer(vs[i], id, sp)
    ensures TransferOk(id, vs[i].sessions[id].transfers[sp])
    ensures DiskOk(vs[i], id, sp, vs[i].sessions[id].transfers[sp])
  {
    RunInv(cwd, vs, steps, i);
  }

  /**
   Once finished, by completion or by rejection, a transfer never changes again, and no later chunk for its
   file has any effect: in particular none makes the file available.
   */
  lemma {:induction false} FinishedStaysFinished(cwd: Path, vs: seq<View>, steps: seq<Step>, i: nat, j: nat,
                                                 id: SessionId, sp: Path, m: FileChunk, order: seq<SessionId>)
    requires Run(cwd, vs, steps) && i <= j < |vs| && id in vs[j].sessions
    requires HasTransfer(vs[i], id, sp) && vs[i].sessions[id].transfers[sp].finished
    ensures HasTransfer(vs[j], id, sp) && vs[j].sessions[id].transfers[sp] == vs[i].sessions[id].transfers[sp]
    ensures m.session == id && m.filename in vs[j].files && vs[j].files[m.filename].serverPath == sp ==>
      ProcessChunk(vs[j], id, m, order) == Outcome(vs[j], true, false)
  {
    TransferLater(cwd, vs, steps, i, j, id, sp);
  }

  // ---- Becoming available -----------------------------------------------------------------------------------------

  /** The transfer a chunk would go to, and the bytes of its file. */
  function TransferFor(v: View, id: SessionId, sp: Path): (Transfer, Data)
    requires id in v.sessions
  {
    if sp in v.sessions[id].transfers then (v.sessions[id].transfers[sp], FileOn(v.disk, sp))
    else (Transfer(false, id, 0, 0, []), [])
  }

  /** The chunk is the expected one, is flagged last, and brings the file to the size announced. */
  predicate Completes(v: View, id: SessionId, m: FileChunk)
  {
    && id in v.sessions && m.filename in v.files && m.session == id && m.chunk.isLast
    && var (t, file) := TransferFor(v, id, v.files[m.filename].serverPath);
      && !t.finished && t.session == id && m.chunk.seqNo == t.lastSeq + 1 && m.chunk.offset >= t.lastOffset
      && |Overlay(file, |Concat(t.chunks)|, m.chunk.data)| == v.files[m.filename].size
  }

  predicate IsAvailable(files: Files, p: Path) { p in files && files[p].status == Available }

  lemma {:induction false} AddFilesAvailable(cwd: Path, files: Files, infos: seq<FileInfo>, p: Path)
    ensures IsAvailable(AddFiles(cwd, files, infos), p) <==> IsAvailable(files, p)
  {
    if infos != [] { AddFilesAvailable(cwd, files, infos[..|infos| - 1], p); }
    AddFilesHasNamed(cwd, files, infos);
  }

  lemma {:induction false} AskAvailable(cwd: Path, files: Files, required: seq<Path>, p: Path)
    requires forall q | q in required :: q in files
    ensures IsAvailable(Ask(cwd, files, required).0, p) ==> IsAvailable(files, p)
  {
    if required != [] { AskAvailable(cwd, files, required[..|required| - 1], p); }
  }

  lemma JoinedAvailable(v: View, id: SessionId, infos: seq<FileInfo>, p: Path)
    ensures IsAvailable(Joined(v, id, infos).files, p) ==> IsAvailable(v.files, p)
  {
    AddFilesHasNamed(v.cwd, v.files, infos);
    AddFilesAvailable(v.cwd, v.files, infos, p);
    AskAvailable(v.cwd, AddFiles(v.cwd, v.files, infos), Named(infos), p);
  }

  lemma HandleChunkAvailable(v: View, id: SessionId, m: FileChunk, sp: Path, order: seq<SessionId>, p: Path)
    requires id in v.sessions && sp in v.sessions[id].transfers && m.filename in v.files && !IsAvailable(v.files, p)
    ensures IsAvailable(HandleChunk(v, id, m, sp, order).view.files, p) <==>
      m.filename == p && HandleChunk(v, id, m, sp, order).complete
    ensures HandleChunk(v, id, m, sp, order).complete <==>
      var t := v.sessions[id].transfers[sp];
      && InSequence(t, id, m.chunk) && m.chunk.isLast
      && |Overlay(FileOn(v.disk, sp), |Concat(t.chunks)|, m.chunk.data)| == v.files[m.filename].size
  {
  }

  lemma ProcessChunkAvailable(v: View, id: SessionId, m: FileChunk, order: seq<SessionId>, p: Path)
    requires id in v.sessions && !IsAvailable(v.files, p)
    ensures IsAvailable(ProcessChunk(v, id, m, order).view.files, p) <==> m.filename == p && Completes(v, id, m)
  {
    if m.filename in v.files && m.session == id {
      var sp := v.files[m.filename].serverPath;
      var o := Open(v, id, sp);
      assert TransferFor(v, id, sp) == (o.sessions[id].transfers[sp], FileOn(o.disk, sp));
      HandleChunkAvailable(o, id, m, sp, order, p);
    }
  }

  /** A file becomes available in exactly one way: a session's chunk completes it. The hash plays no part. */
  lemma AvailableByCompletion(v: View, s: Step, p: Path)
    requires Next(v, s).Some? && !IsAvailable(v.files, p)
    ensures IsAvailable(Next(v, s).value.files, p) <==> s.Deliver? && s.msg.filename == p && Completes(v, s.id, s.msg)
  {
    match s
    case Connect(id, infos, order) => JoinedAvailable(v, id, infos, p);
    case Deliver(id, m, order) => ProcessChunkAvailable(v, id, m, order, p);
    case Terminate(id) =>
    case Pop =>
  }

  // ---- Refusing a chunk -------------------------------------------------------------------------------------------

  /** An unknown file, a foreign session id, a chunk out of sequence, or a last chunk that leaves the wrong size. */
  predicate Refuses(v: View, id: SessionId, m: FileChunk)
    requires id in v.sessions
  {
    || m.filename !in v.files || m.session != id
    || var (t, file) := TransferFor(v, id, v.files[m.filename].serverPath);
      !t.finished && (t.session != id || m.chunk.seqNo != t.lastSeq + 1 || m.chunk.offset < t.lastOffset
        || (m.chunk.isLast && |Overlay(file, |Concat(t.chunks)|, m.chunk.data)| != v.files[m.filename].size))
  }

  /**
   The handler fails exactly on the chunks `Refuses` describes. It then marks that file faulty, ends the
   transfer, and leaves every other file and the queue alone.
   */
  lemma {:induction false} RefusedExactly(v: View, id: SessionId, m: FileChunk, order: seq<SessionId>)
    requires id in v.sessions
    ensures var r := ProcessChunk(v, id, m, order);
      && (r.ok <==> !Refuses(v, id, m)) && (r.complete <==> Completes(v, id, m))
      && (!r.ok ==> r.view.files == if m.filename in v.files then SetStatus(v, m.filename, Fault).files else v.files)
      && (!r.ok && m.filename in v.files && m.session == id ==>
           var sp := v.files[m.filename].serverPath;
           HasTransfer(r.view, id, sp) && r.view.sessions[id].transfers[sp].finished)
      && (r.ok && !r.complete ==> r.view.files == v.files)
      && (!r.complete ==> r.view.queue == v.queue && r.view.log.enqueued == v.log.enqueued)
  {
    if m.filename in v.files && m.session == id {
      var sp := v.files[m.filename].serverPath;
      var o := Open(v, id, sp);
      assert TransferFor(v, id, sp) == (o.sessions[id].transfers[sp], FileOn(o.disk, sp));
      assert o.files == v.files && o.queue == v.queue && o.log.enqueued == v.log.enqueued;
      hide Open, TransferFor, Overlay, Sweep;
      assert ProcessChunk(v, id, m, order) == if o.sessions[id].transfers[sp].finished then Outcome(o, true, false)
        else HandleChunk(o, id, m, sp, order);
    }
  }
}
