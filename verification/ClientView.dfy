/** The code that changes the client's view in place, proved against the protocol's steps. */
module ClientViews {
  import opened Bytes
  import opened Paths
  import opened Chunks
  import opened Upload

  /** The view after trying one session. */
  ghost function Tried(v: View, id: SessionId): (w: View)
    requires id in v.sessions
  {
    var s := v.sessions[id];
    var now := if Ready(v.files, s) && !s.running then [id] else [];
    v.(sessions := v.sessions[id := Swept(v.files, s)],
       queue := v.queue + Requests(now),
       log := v.log.(enqueued := v.log.enqueued + now))
  }

  /** The view after trying the sessions in `done`. */
  ghost function TriedAll(v: View, done: seq<SessionId>): (w: View)
    ensures w.sessions.Keys == v.sessions.Keys
  {
    var newly := Newly(v.files, v.sessions, done);
    v.(sessions := PartlySwept(v.files, v.sessions, done),
       queue := v.queue + Requests(newly),
       log := v.log.(enqueued := v.log.enqueued + newly))
  }

  ghost function PartlySwept(files: Files, sessions: Sessions, done: seq<SessionId>): Sessions
  {
    map id | id in sessions :: if id in done then Swept(files, sessions[id]) else sessions[id]
  }

  lemma TriedNone(v: View)
    ensures TriedAll(v, []) == v
  {
    assert PartlySwept(v.files, v.sessions, []) == v.sessions;
    assert v.queue + Requests([]) == v.queue && v.log.enqueued + [] == v.log.enqueued;
  }

  lemma TriedEvery(v: View, order: seq<SessionId>)
    requires Lists(order, v.sessions.Keys)
    ensures TriedAll(v, order) == Sweep(v, order)
  {
    hide Newly, Requests, NoDuplicates, Swept;
    assert PartlySwept(v.files, v.sessions, order) == Sweep(v, order).sessions;
  }

  lemma SweptOneMore(files: Files, sessions: Sessions, done: seq<SessionId>, id: SessionId)
    requires id in sessions && id !in done
    ensures PartlySwept(files, sessions, done)[id] == sessions[id]
    ensures PartlySwept(files, sessions, done + [id]) == PartlySwept(files, sessions, done)[id := Swept(files, sessions[id])]
  {
    hide Swept;
  }

  lemma NewlyOneMore(files: Files, sessions: Sessions, done: seq<SessionId>, id: SessionId)
    requires id in sessions
    ensures Newly(files, sessions, done + [id]) == Newly(files, sessions, done)
      + (if Ready(files, sessions[id]) && !sessions[id].running then [id] else [])
  {
    hide Ready;
    assert (done + [id])[..|done|] == done;
  }

  lemma RequestsAppend(a: seq<SessionId>, b: seq<SessionId>)
    ensures Requests(a + b) == Requests(a) + Requests(b)
  {
  }

  lemma TriedOneMore(v: View, done: seq<SessionId>, id: SessionId)
    requires id in v.sessions && id !in done
    ensures Tried(TriedAll(v, done), id) == TriedAll(v, done + [id])
  {
    hide Newly, PartlySwept, Requests, Swept, Ready;
    var newly := Newly(v.files, v.sessions, done);
    var now := if Ready(v.files, v.sessions[id]) && !v.sessions[id].running then [id] else [];
    SweptOneMore(v.files, v.sessions, done, id);
    NewlyOneMore(v.files, v.sessions, done, id);
    RequestsAppend(newly, now);
    Associate(v.queue, Requests(newly), Requests(now));
    Associate(v.log.enqueued, newly, now);
  }

  lemma NotYet(order: seq<SessionId>, i: nat)
    requires i < |order| && NoDuplicates(order)
    ensures order[i] !in order[..i]
  {
  }

  class ClientView {
    const cwd: Path
    var files: Files
    var sessions: Sessions
    var disk: map<Path, Data>
    var queue: seq<Request>
    ghost var log: Log

    ghost function Abs(): View
      reads this
    {
      View(cwd, files, sessions, disk, queue, log)
    }

    constructor (cwd: Path)
      ensures Abs() == Init(cwd)
    {
      this.cwd := cwd;
      files, sessions, disk, queue := map[], map[], map[], [];
      log := Log({}, [], [], [], map[]);
    }

    // ---- File states ------------------------------------------------------------------------------------------------

    method AddFileState(info: FileInfo)
      modifies this`files
      ensures files == AddFile(cwd, old(files), info)
    {
      if info.filename in files && files[info.filename].sha1 == info.sha1 && files[info.filename].size == info.size {
        return;
      }
      var serverPath := ToServer(cwd, info.filename);
      if info.filename !in files {
        files := files[info.filename := FileState(info.size, info.sha1, Initial, serverPath)];
      }
    }

    method UpdateFileState(p: Path, f: FileState) returns (found: bool)
      modifies this`files
      ensures found == (p in old(files)) && files == UpdateFile(old(files), p, f)
    {
      if p !in files { return false; }
      files := files[p := f];
      return true;
    }

    // ---- Requesting compilations ------------------------------------------------------------------------------------

    /** Enqueues the session's request if its files are all available and it was not enqueued before. */
    method TryRequestSrcCompilation(id: SessionId)
      requires id in sessions
      modifies this`sessions, this`queue, this`log
      ensures Abs() == Tried(old(Abs()), id)
    {
      var s := sessions[id];
      assert sessions == sessions[id := s];
      assert Requests([]) == [] && log.enqueued + [] == log.enqueued && queue + [] == queue;
      if !s.argsReady { return; }
      for i := 0 to |s.required|
        invariant AllAvailable(files, s.required[..i])
        invariant sessions == old(sessions) && queue == old(queue) && log == old(log)
      {
        if s.required[i] !in files || files[s.required[i]].status != Available {
          assert s.required[i] in s.required;
          return;
        }
      }
      assert s.required[..|s.required|] == s.required;
      if !s.running {
        queue := queue + [Request(id, false)];
        log := log.(enqueued := log.enqueued + [id]);
        sessions := sessions[id := s.(running := true)];
      }
    }

    method TryCompileForActiveSessions(order: seq<SessionId>)
      requires Lists(order, sessions.Keys)
      modifies this`sessions, this`queue, this`log
      ensures Abs() == Sweep(old(Abs()), order)
    {
      hide Tried, TriedAll, Sweep, NoDuplicates;
      TriedNone(Abs());
      TriedEvery(Abs(), order);
      for i := 0 to |order|
        invariant Abs() == TriedAll(old(Abs()), order[..i])
      {
        assert order[..i + 1] == order[..i] + [order[i]] && order[i] in order;
        NotYet(order, i);
        TriedOneMore(old(Abs()), order[..i], order[i]);
        TryRequestSrcCompilation(order[i]);
      }
      assert order[..|order|] == order;
    }

    // ---- Sessions -----------------------------------------------------------------------------------------------------

    method AddSession(id: SessionId, infos: seq<FileInfo>, order: seq<SessionId>) returns (requested: seq<Path>)
      requires id !in sessions && Lists(order, sessions.Keys + {id})
      modifies this
      ensures Abs() == Sweep(Joined(old(Abs()), id, infos), order)
      ensures requested == AskedOf(old(Abs()), infos)
    {
      hide Sweep, Newly, Requests;
      var s := AddRequiredFiles(infos);
      AddFilesHasNamed(cwd, old(files), infos);
      s := s.(argsReady := true);
      requested := AskForFiles(s.required);
      sessions := sessions[id := s];
      log := log.(used := log.used + {id}, asked := log.asked + requested);
      TryCompileForActiveSessions(order);
    }

    method AddRequiredFiles(infos: seq<FileInfo>) returns (s: Session)
      modifies this`files
      ensures files == AddFiles(cwd, old(files), infos) && s == Session(Named(infos), false, false, map[])
    {
      s := Session([], false, false, map[]);
      for i := 0 to |infos|
        invariant files == AddFiles(cwd, old(files), infos[..i]) && s == Session(Named(infos[..i]), false, false, map[])
      {
        assert infos[..i + 1][..i] == infos[..i];
        if infos[i].filename != [] {
          AddFileState(infos[i]);
          s := s.(required := s.required + [infos[i].filename]);
        }
      }
      assert infos[..|infos|] == infos;
    }

    method AskForFiles(required: seq<Path>) returns (requested: seq<Path>)
      requires forall p | p in required :: p in files
      modifies this`files
      ensures (files, requested) == Ask(cwd, old(files), required)
    {
      requested := [];
      for i := 0 to |required|
        invariant (files, requested) == Ask(cwd, old(files), required[..i])
      {
        assert required[..i + 1][..i] == required[..i];
        var f := files[required[i]];
        match f.status
        case Initial =>
          var clientPath := ToClient(cwd, f.serverPath);
          var _ := UpdateFileState(clientPath, f.(status := Uploading));
          requested := requested + [clientPath];
        case Fault => requested := requested + [ToClient(cwd, f.serverPath)];
        case _ =>
      }
      assert required[..|required|] == required;
    }

    method TerminateServerSession(id: SessionId)
      requires id in sessions
      modifies this`sessions, this`queue
      ensures Abs() == Terminated(old(Abs()), id)
    {
      for i := 0 to |queue|
        invariant |queue| == |old(queue)| && sessions == old(sessions)
        invariant forall j | 0 <= j < |queue| :: queue[j] == if j < i then Invalidated(old(queue)[j], id) else old(queue)[j]
      {
        if queue[i].session == id { queue := queue[i := queue[i].(invalidated := true)]; }
      }
      assert queue == InvalidateAll(old(queue), id);
      sessions := sessions - {id};
    }

    // ---- Chunks -------------------------------------------------------------------------------------------------------

    method SetFileState(p: Path, status: Status)
      requires p in files
      modifies this`files
      ensures Abs() == SetStatus(old(Abs()), p, status)
    {
      var _ := UpdateFileState(p, files[p].(status := status));
    }

    method PutTransferState(id: SessionId, sp: Path, t: Transfer)
      requires id in sessions
      modifies this`sessions
      ensures Abs() == PutTransfer(old(Abs()), id, sp, t)
    {
      sessions := sessions[id := sessions[id].(transfers := sessions[id].transfers[sp := t])];
    }

    /** Constructs the transfer state, whose output stream truncates the file, unless there is one. */
    method OpenTransfer(id: SessionId, sp: Path)
      requires id in sessions
      modifies this`sessions, this`disk, this`log
      ensures Abs() == Open(old(Abs()), id, sp)
    {
      if sp !in sessions[id].transfers {
        PutTransferState(id, sp, Transfer(false, id, 0, 0, []));
        disk := disk[sp := []];
        log := log.(openers := log.openers[sp := Openers(log, sp) + {id}]);
      }
    }

    method WriteChunk(id: SessionId, sp: Path, c: Chunk)
      requires id in sessions && sp in sessions[id].transfers
      modifies this`sessions, this`disk
      ensures Abs() == Accept(old(Abs()), id, sp, c)
    {
      var t := sessions[id].transfers[sp];
      disk := disk[sp := Overlay(FileOn(disk, sp), |Concat(t.chunks)|, c.data)];
      PutTransferState(id, sp, Transfer(c.isLast, t.session, c.seqNo, c.offset, t.chunks + [c]));
    }

    /**
     `receivedSha1` is the digest of the file as received. It is compared, but whatever the outcome the file
     becomes available.
     */
    method CompleteUpload(m: FileChunk, sp: Path, receivedSha1: Digest, order: seq<SessionId>) returns (ok: bool)
      requires m.filename in files && sp in disk && Lists(order, sessions.Keys)
      modifies this
      ensures ok == (old(files)[m.filename].size == |old(disk)[sp]|)
      ensures Abs() == if ok then Sweep(SetStatus(old(Abs()), m.filename, Available), order)
                       else SetStatus(old(Abs()), m.filename, Fault)
    {
      if files[m.filename].size != |disk[sp]| {
        SetFileState(m.filename, Fault);
        return false;
      }
      if files[m.filename].sha1 != receivedSha1 { SetFileState(m.filename, Fault); }
      SetFileState(m.filename, Available);
      assert files == old(files)[m.filename := old(files)[m.filename].(status := Available)];
      TryCompileForActiveSessions(order);
      return true;
    }

    method ProcessFileChunk(id: SessionId, m: FileChunk, receivedSha1: Digest, order: seq<SessionId>)
      returns (ok: bool, complete: bool)
      requires id in sessions && Lists(order, sessions.Keys)
      modifies this
      ensures Outcome(Abs(), ok, complete) == ProcessChunk(old(Abs()), id, m, order)
    {
      if m.filename !in files { return false, false; }
      if m.session != id {
        SetFileState(m.filename, Fault);
        return false, false;
      }
      var sp := files[m.filename].serverPath;
      OpenTransfer(id, sp);
      var t := sessions[id].transfers[sp];
      if t.finished { return true, false; }
      if !(t.session == id && m.chunk.seqNo == t.lastSeq + 1 && m.chunk.offset >= t.lastOffset) {
        PutTransferState(id, sp, t.(finished := true));
        SetFileState(m.filename, Fault);
        return false, false;
      }
      WriteChunk(id, sp, m.chunk);
      if !m.chunk.isLast { return true, false; }
      ok := CompleteUpload(m, sp, receivedSha1, order);
      complete := ok;
    }
  }
}
