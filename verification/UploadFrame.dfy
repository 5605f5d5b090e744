/** What one chunk writes and what it leaves alone, whatever the message says. */
module UploadFrame {
  import opened Bytes
  import opened Paths
  import opened Chunks
  import opened Upload
  import opened UploadRuns

  ghost predicate SameButRunning(s: Session, t: Session) { t.(running := s.running) == s && (s.running ==> t.running) }

  /** Of the session's own state only the transfer for `sp` differs; of other sessions only the running flag may. */
  ghost predicate SessionTouched(s: Session, t: Session, own: bool, sp: Path)
  {
    && SameButRunning(s, t.(transfers := s.transfers))
    && (!own ==> t.transfers == s.transfers)
    && t.transfers - {sp} == s.transfers - {sp}
  }

  /** From `v` to `w` nothing changed but the status of `p`, the file `sp`, its transfer in `id`, and what a sweep does. */
  ghost predicate OnlyTouches(v: View, w: View, id: SessionId, p: Path, sp: Path)
  {
    && w.cwd == v.cwd && w.files.Keys == v.files.Keys && w.files - {p} == v.files - {p}
    && (p in v.files ==> w.files[p].(status := v.files[p].status) == v.files[p])
    && w.disk - {sp} == v.disk - {sp} && w.sessions.Keys == v.sessions.Keys
    && (forall x | x in v.sessions :: SessionTouched(v.sessions[x], w.sessions[x], x == id, sp))
    && w.log.used == v.log.used && w.log.asked == v.log.asked && w.log.started == v.log.started
  }

  lemma TouchesTransitive(u: View, v: View, w: View, id: SessionId, p: Path, sp: Path)
    requires OnlyTouches(u, v, id, p, sp) && OnlyTouches(v, w, id, p, sp)
    ensures OnlyTouches(u, w, id, p, sp)
  {
    forall x | x in u.sessions ensures SessionTouched(u.sessions[x], w.sessions[x], x == id, sp) {
      assert SessionTouched(u.sessions[x], v.sessions[x], x == id, sp);
      assert SessionTouched(v.sessions[x], w.sessions[x], x == id, sp);
    }
  }

  lemma PutTouches(v: View, id: SessionId, p: Path, sp: Path, t: Transfer, disk: map<Path, Data>, openers: map<Path, set<SessionId>>)
    requires id in v.sessions && disk - {sp} == v.disk - {sp}
    ensures OnlyTouches(v, PutTransfer(v, id, sp, t).(disk := disk, log := v.log.(openers := openers)), id, p, sp)
  {
    var ts := v.sessions[id].transfers;
    assert ts[sp := t] - {sp} == ts - {sp};
  }

  lemma SweepTouches(v: View, order: seq<SessionId>, id: SessionId, p: Path, sp: Path)
    ensures OnlyTouches(v, Sweep(v, order), id, p, sp)
  {
    hide Newly, Requests, Ready;
  }

  lemma StatusTouches(v: View, p: Path, s: Status, id: SessionId, sp: Path)
    requires p in v.files
    ensures OnlyTouches(v, SetStatus(v, p, s), id, p, sp)
  {
    assert v.files[p := v.files[p].(status := s)] - {p} == v.files - {p};
  }

  lemma OpenTouches(v: View, id: SessionId, p: Path, sp: Path)
    requires id in v.sessions
    ensures OnlyTouches(v, Open(v, id, sp), id, p, sp)
  {
    if sp !in v.sessions[id].transfers {
      hide OnlyTouches;
      assert v.disk[sp := []] - {sp} == v.disk - {sp};
      PutTouches(v, id, p, sp, Transfer(false, id, 0, 0, []), v.disk[sp := []],
                 v.log.openers[sp := Openers(v.log, sp) + {id}]);
    }
  }

  lemma SameLog(v: View)
    ensures v.log.(openers := v.log.openers) == v.log && v.(log := v.log, disk := v.disk) == v
  {
  }

  lemma AcceptTouches(v: View, id: SessionId, p: Path, sp: Path, c: Chunk)
    requires id in v.sessions && sp in v.sessions[id].transfers
    ensures OnlyTouches(v, Accept(v, id, sp, c), id, p, sp) && OnlyTouches(v, Finish(v, id, sp), id, p, sp)
  {
    hide OnlyTouches, Overlay, Concat;
    var t := v.sessions[id].transfers[sp];
    var file := Overlay(FileOn(v.disk, sp), |Concat(t.chunks)|, c.data);
    assert v.disk[sp := file] - {sp} == v.disk - {sp};
    SameLog(v);
    PutTouches(v, id, p, sp, Transfer(c.isLast, t.session, c.seqNo, c.offset, t.chunks + [c]), v.disk[sp := file], v.log.openers);
    PutTouches(v, id, p, sp, t.(finished := true), v.disk, v.log.openers);
  }

  lemma HandleTouches(v: View, id: SessionId, m: FileChunk, sp: Path, order: seq<SessionId>)
    requires id in v.sessions && sp in v.sessions[id].transfers && m.filename in v.files
    ensures OnlyTouches(v, HandleChunk(v, id, m, sp, order).view, id, m.filename, sp)
  {
    hide OnlyTouches, Sweep, Overlay, Concat, InSequence;
    var p := m.filename;
    AcceptTouches(v, id, p, sp, m.chunk);
    var w, f := Accept(v, id, sp, m.chunk), Finish(v, id, sp);
    StatusTouches(w, p, Fault, id, sp);
    TouchesTransitive(v, w, SetStatus(w, p, Fault), id, p, sp);
    StatusTouches(f, p, Fault, id, sp);
    TouchesTransitive(v, f, SetStatus(f, p, Fault), id, p, sp);
    var a := SetStatus(w, p, Available);
    StatusTouches(w, p, Available, id, sp);
    SweepTouches(a, order, id, p, sp);
    TouchesTransitive(v, w, a, id, p, sp);
    TouchesTransitive(v, a, Sweep(a, order), id, p, sp);
  }

  /**
   A message can change only the status of the file it names, that file's bytes and its transfer in this session, and
   enqueue sessions. A message that names no known file changes nothing.
   */
  lemma {:induction false} ChunkTouchesOneFile(v: View, id: SessionId, m: FileChunk, order: seq<SessionId>)
    requires id in v.sessions
    ensures var w := ProcessChunk(v, id, m, order).view;
      if m.filename !in v.files then w == v else OnlyTouches(v, w, id, m.filename, v.files[m.filename].serverPath)
  {
    hide OnlyTouches, HandleChunk, Open;
    if m.filename in v.files {
      var sp := v.files[m.filename].serverPath;
      StatusTouches(v, m.filename, Fault, id, sp);
      if m.session == id {
        OpenTouches(v, id, m.filename, sp);
        OpenHas(v, id, sp);
        var o := Open(v, id, sp);
        HandleTouches(o, id, m, sp, order);
        TouchesTransitive(v, o, HandleChunk(o, id, m, sp, order).view, id, m.filename, sp);
      }
    }
  }

  lemma OpenHas(v: View, id: SessionId, sp: Path)
    requires id in v.sessions
    ensures var o := Open(v, id, sp); id in o.sessions && sp in o.sessions[id].transfers && o.files == v.files
  {
  }

  // ---- What is written ------------------------------------------------------------------------------------------------

  /** `after` is `before` with `data` at position `pos`: nothing else of it differs, and a gap holds zeros. */
  ghost predicate WrittenAt(before: Data, pos: nat, data: Data, after: Data)
  {
    && |after| == (if pos + |data| <= |before| then |before| else pos + |data|)
    && forall i | 0 <= i < |after| ::
         after[i] == if pos <= i < pos + |data| then data[i - pos] else if i < |before| then before[i] else 0
  }

  lemma OverlayWrites(before: Data, pos: nat, data: Data)
    ensures WrittenAt(before, pos, data, Overlay(before, pos, data))
  {
  }

  /**
   An expected chunk is written where the transfer's earlier chunks end; a transfer's first chunk goes to an emptied
   file, whatever another session had put there.
   */
  lemma {:induction false} ChunkWrites(v: View, id: SessionId, m: FileChunk, order: seq<SessionId>)
    requires id in v.sessions && m.filename in v.files && m.session == id
    requires var t := TransferFor(v, id, v.files[m.filename].serverPath).0; !t.finished && InSequence(t, id, m.chunk)
    ensures var sp := v.files[m.filename].serverPath; var w := ProcessChunk(v, id, m, order).view;
      && sp in w.disk
      && if sp in v.sessions[id].transfers
         then WrittenAt(FileOn(v.disk, sp), |Concat(v.sessions[id].transfers[sp].chunks)|, m.chunk.data, w.disk[sp])
         else w.disk[sp] == m.chunk.data
  {
    var sp := v.files[m.filename].serverPath;
    var o := Open(v, id, sp);
    var t := o.sessions[id].transfers[sp];
    assert TransferFor(v, id, sp) == (t, FileOn(o.disk, sp));
    OverlayWrites(FileOn(o.disk, sp), |Concat(t.chunks)|, m.chunk.data);
    hide Overlay, WrittenAt, Newly, Requests, InSequence;
    assert ProcessChunk(v, id, m, order).view.disk == Accept(o, id, sp, m.chunk).disk;
    if sp !in v.sessions[id].transfers { FirstWrite(m.chunk.data, Overlay([], 0, m.chunk.data)); }
  }

  lemma FirstWrite(data: Data, after: Data)
    requires WrittenAt([], 0, data, after)
    ensures after == data
  {
  }
}
