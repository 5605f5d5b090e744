/** Safety of runs with honest clients. */
module HonestRuns {
  import opened Bytes
  import opened Paths
  import opened Chunks
  import opened Upload
  import opened UploadRuns
  import opened Honest

  // ---- Handling an honest chunk -------------------------------------------------------------------------------------

  lemma OffsetsGrow(data: Data, i: nat)
    requires i + 1 < |Split(data)|
    ensures Split(data)[i].offset <= Split(data)[i + 1].offset
  {
    hide Split;
    SplitReassembles(data);
    var s := Split(data);
    assert s[..i + 1] == s[..i] + [s[i]];
    ConcatOne(s[..i], s[i]);
  }

  /** The file a waiting client is sending. */
  function Current(c: Client): Path
    requires 0 < c.sendIdx <= |c.requested|
  {
    c.requested[c.sendIdx - 1]
  }

  /**
   A session, the file it is uploading and how many of its chunks were handled: everything handling the
   next chunk depends on.
   */
  ghost predicate Sending(own: map<Path, Data>, v: View, id: SessionId, p: Path, wire: seq<FileChunk>, k: nat)
  {
    var sp := ToServer(v.cwd, p);
    && wire != [] && InFlight(own, v, id, p, wire) && k == |Split(own[p])| - |wire|
    && v.files[p].serverPath == sp && v.files[p].size == |own[p]| && Openers(v.log, sp) <= {id}
    && (sp in v.sessions[id].transfers ==>
         TransferOk(id, v.sessions[id].transfers[sp]) && DiskOk(v, id, sp, v.sessions[id].transfers[sp]))
  }

  lemma IsSending(w: World, id: SessionId)
    requires HonestInv(w) && id in w.clients && w.clients[id].wire != []
    ensures 0 < w.clients[id].sendIdx <= |w.clients[id].requested| && w.clients[id].phase == Waiting
    ensures var p := Current(w.clients[id]);
      && p in w.owner && w.owner[p] == id
      && exists k: nat :: Sending(w.own, w.view, id, p, w.clients[id].wire, k)
  {
    hide Split;
    var c := w.clients[id];
    assert ClientOk(w.own, w.view, id, c);
    var p := Current(c);
    assert p in c.requested && ListOk(w.owner, id, c.requested);
    assert FileOk(w.own, w.view, p);
    var k: nat := |Split(w.own[p])| - |c.wire|;
    assert Sending(w.own, w.view, id, p, c.wire, k);
  }

  /** The transfer after handling the first `k + 1` chunks. */
  function Progress(id: SessionId, data: Data, k: nat): Transfer
    requires k < |Split(data)|
  {
    var s := Split(data);
    Transfer(s[k].isLast, id, k + 1, s[k].offset, s[..k + 1])
  }

  lemma SendingChunk(own: map<Path, Data>, v: View, id: SessionId, p: Path, wire: seq<FileChunk>, k: nat)
    requires Sending(own, v, id, p, wire, k)
    ensures k < |Split(own[p])| && wire[0] == FileChunk(id, p, Split(own[p])[k])
  {
    hide Split;
  }

  /** The transfer has taken exactly the chunks handled so far and expects the next one. */
  lemma OpenedTransfer(own: map<Path, Data>, v: View, id: SessionId, p: Path, wire: seq<FileChunk>, k: nat)
    requires Sending(own, v, id, p, wire, k) && k < |Split(own[p])|
    ensures var sp := ToServer(v.cwd, p); var o := Open(v, id, sp); var t := o.sessions[id].transfers[sp];
      && t.session == id && !t.finished && t.chunks == Split(own[p])[..k] && t.lastSeq == k
      && t.lastOffset <= Split(own[p])[k].offset
      && Openers(o.log, sp) == {id} && FileOn(o.disk, sp) == Concat(t.chunks)
  {
    hide Split, Concat, Addressed, ToServer;
    NothingCut(Split(own[p]));
    if k > 0 { OffsetsGrow(own[p], k - 1); }
  }

  /** What handling the chunk does to the view, up to the sweep. */
  function Stored(v: View, id: SessionId, p: Path, sp: Path, data: Data, k: nat): View
    requires k < |Split(data)| && id in v.sessions && p in v.files
  {
    var status := if Split(data)[k].isLast then Available else v.files[p].status;
    PutTransfer(v, id, sp, Progress(id, data, k)).(
      files := v.files[p := v.files[p].(status := status)],
      disk := v.disk[sp := Concat(Split(data)[..k + 1])],
      log := v.log.(openers := v.log.openers[sp := {id}]))
  }

  lemma OpenThenPut(v: View, id: SessionId, sp: Path, t: Transfer, d: Data)
    requires id in v.sessions
    ensures PutTransfer(Open(v, id, sp), id, sp, t).sessions == PutTransfer(v, id, sp, t).sessions
    ensures Open(v, id, sp).disk[sp := d] == v.disk[sp := d]
    ensures Open(v, id, sp).files == v.files && Open(v, id, sp).queue == v.queue && Open(v, id, sp).cwd == v.cwd
    ensures Openers(Open(v, id, sp).log, sp) == {id} ==>
      Open(v, id, sp).log == v.log.(openers := v.log.openers[sp := {id}])
  {
    var ts := v.sessions[id].transfers;
    if sp !in ts {
      assert ts[sp := Transfer(false, id, 0, 0, [])][sp := t] == ts[sp := t];
    } else if Openers(v.log, sp) == {id} {
      assert v.log.openers == v.log.openers[sp := {id}];
    }
  }

  lemma ChunkPrefix(data: Data, k: nat)
    requires k < |Split(data)|
    ensures var s := Split(data);
      && s[..k + 1] == s[..k] + [s[k]] && Concat(s[..k + 1]) == Concat(s[..k]) + s[k].data && s[k].seqNo == k + 1
      && (s[k].isLast ==> Concat(s[..k + 1]) == data)
  {
    hide Split;
    var s := Split(data);
    assert s[..k + 1] == s[..k] + [s[k]];
    ConcatOne(s[..k], s[k]);
    SplitReassembles(data);
    OnlyFinalIsFlagged(data, k);
    assert s[..|s|] == s;
  }

  /** Accepting the chunk leaves the view `Stored` describes. */
  lemma AcceptedChunk(own: map<Path, Data>, v: View, id: SessionId, p: Path, wire: seq<FileChunk>, k: nat)
    requires Sending(own, v, id, p, wire, k) && k < |Split(own[p])|
    ensures var sp, c := ToServer(v.cwd, p), Split(own[p])[k]; var o := Open(v, id, sp);
      && InSequence(o.sessions[id].transfers[sp], id, c)
      && Accept(o, id, sp, c) == Stored(v, id, p, sp, own[p], k).(files := v.files)
  {
    hide Split;
    OpenedTransfer(own, v, id, p, wire, k);
    ChunkPrefix(own[p], k);
    OpenThenPut(v, id, ToServer(v.cwd, p), Progress(id, own[p], k), Concat(Split(own[p])[..k + 1]));
  }

  /** An honest chunk is always taken; the flagged one completes the file. */
  lemma HandledChunk(own: map<Path, Data>, v: View, id: SessionId, p: Path, wire: seq<FileChunk>, k: nat, order: seq<SessionId>)
    requires Sending(own, v, id, p, wire, k) && k < |Split(own[p])|
    ensures var last := Split(own[p])[k].isLast; var stored := Stored(v, id, p, ToServer(v.cwd, p), own[p], k);
      ProcessChunk(v, id, wire[0], order) == Outcome(if last then Sweep(stored, order) else stored, true, last)
  {
    hide Split;
    SendingChunk(own, v, id, p, wire, k);
    OpenedTransfer(own, v, id, p, wire, k);
    AcceptedChunk(own, v, id, p, wire, k);
    ChunkPrefix(own[p], k);
    assert v.files == v.files[p := v.files[p].(status := v.files[p].status)];
  }

  /** How the view changed: one file's status and bytes, one transfer, and which sessions run. */
  ghost predicate Changed(v: View, x: View, id: SessionId, p: Path, data: Data, k: nat)
  {
    var sp := ToServer(v.cwd, p);
    && k < |Split(data)| && p in v.files && id in v.sessions
    && x.cwd == v.cwd && x.sessions.Keys == v.sessions.Keys
    && x.files == v.files[p := v.files[p].(status := if Split(data)[k].isLast then Available else v.files[p].status)]
    && x.disk == v.disk[sp := Concat(Split(data)[..k + 1])]
    && x.log.openers == v.log.openers[sp := {id}] && x.log.asked == v.log.asked && x.log.used == v.log.used
    && forall i | i in v.sessions :: SessionChanged(v.sessions[i], x.sessions[i], i == id, sp, Progress(id, data, k), x.files)
  }

  ghost predicate SessionChanged(s: Session, t: Session, mine: bool, sp: Path, transfer: Transfer, files: Files)
  {
    && t.required == s.required && t.argsReady == s.argsReady
    && t.transfers == (if mine then s.transfers[sp := transfer] else s.transfers)
    && (t.running ==> s.running || Ready(files, t))
  }

  lemma StoredChanged(v: View, id: SessionId, p: Path, data: Data, k: nat)
    requires k < |Split(data)| && id in v.sessions && p in v.files
    ensures Changed(v, Stored(v, id, p, ToServer(v.cwd, p), data, k), id, p, data, k)
  {
    hide Split;
  }

  lemma SweepChanged(v: View, x: View, id: SessionId, p: Path, data: Data, k: nat, order: seq<SessionId>)
    requires Changed(v, x, id, p, data, k)
    ensures Changed(v, Sweep(x, order), id, p, data, k)
  {
    hide Split;
  }

  lemma HandledChanges(own: map<Path, Data>, v: View, id: SessionId, p: Path, wire: seq<FileChunk>, k: nat, order: seq<SessionId>)
    requires Sending(own, v, id, p, wire, k) && k < |Split(own[p])|
    ensures Changed(v, ProcessChunk(v, id, wire[0], order).view, id, p, own[p], k)
    ensures ProcessChunk(v, id, wire[0], order).complete == Split(own[p])[k].isLast
    ensures ProcessChunk(v, id, wire[0], order).ok
  {
    hide Split;
    HandledChunk(own, v, id, p, wire, k, order);
    StoredChanged(v, id, p, own[p], k);
    SweepChanged(v, Stored(v, id, p, ToServer(v.cwd, p), own[p], k), id, p, own[p], k, order);
  }

  lemma ServerPathsApart(own: map<Path, Data>, v: View, p: Path, q: Path)
    requires FilesOk(own, v) && p in v.files && q in v.files && p != q
    ensures v.files[p].serverPath != v.files[q].serverPath && ToServer(v.cwd, p) != ToServer(v.cwd, q)
  {
    assert FileOk(own, v, p) && FileOk(own, v, q);
    ServerNamesDistinct(v.cwd, p, q);
  }

  lemma HandledFiles(own: map<Path, Data>, v: View, x: View, id: SessionId, p: Path, k: nat)
    requires FilesOk(own, v) && p in own && Changed(v, x, id, p, own[p], k)
    requires v.files[p].status == Uploading
    ensures FilesOk(own, x)
  {
    hide Split;
    forall q | q in x.files
      ensures FileOk(own, x, q)
    {
      assert FileOk(own, v, q);
      if q != p {
        ServerPathsApart(own, v, p, q);
      } else {
        OnlyFinalIsFlagged(own[p], k);
        ChunkPrefix(own[p], k);
      }
    }
  }

  lemma HandledOwners(own: map<Path, Data>, owner: map<Path, SessionId>, v: View, x: View, id: SessionId, p: Path, k: nat)
    requires FilesOk(own, v) && OwnersOk(owner, v) && p in own && Changed(v, x, id, p, own[p], k) && owner[p] == id
    ensures OwnersOk(owner, x)
  {
    hide Split, Concat, Progress, SessionChanged, NoDuplicates;
    forall q | q in owner
      ensures Openers(x.log, ToServer(x.cwd, q)) <= {owner[q]}
    {
      if q != p { ServerPathsApart(own, v, p, q); }
    }
    assert FileOk(own, v, p);
    RoundTripExact(v.cwd, p);
  }

  lemma HandledRunning(v: View, x: View, id: SessionId, p: Path, data: Data, k: nat)
    requires RunningOk(v) && Changed(v, x, id, p, data, k)
    ensures RunningOk(x)
  {
    hide Split;
    forall i | i in x.sessions
      ensures x.sessions[i].argsReady && (x.sessions[i].running ==> AllAvailable(x.files, x.sessions[i].required))
    {
      if v.sessions[i].running { assert AllAvailable(v.files, v.sessions[i].required); }
    }
  }

  /** Nothing a client's state speaks of has changed. */
  ghost predicate SameFor(v: View, x: View, id: SessionId, c: Client)
  {
    && x.cwd == v.cwd && id in v.sessions && id in x.sessions
    && x.sessions[id].transfers == v.sessions[id].transfers
    && (forall p | p in c.requested :: p in v.files && p in x.files && x.files[p].status == v.files[p].status)
  }

  lemma SameClientOk(own: map<Path, Data>, v: View, x: View, id: SessionId, c: Client)
    requires SameFor(v, x, id, c) && ClientOk(own, v, id, c)
    ensures ClientOk(own, x, id, c)
  {
    hide Split;
    forall j | c.sendIdx <= j < |c.requested|
      ensures Unsent(x, id, c.requested[j])
    {
      assert Unsent(v, id, c.requested[j]);
    }
  }

  lemma HandledOthers(own: map<Path, Data>, owner: map<Path, SessionId>, v: View, x: View, id: SessionId, p: Path, k: nat,
                      other: SessionId, c: Client)
    requires p in own && Changed(v, x, id, p, own[p], k) && owner.Keys == v.files.Keys && owner[p] == id
    requires other != id && other in v.sessions && ListOk(owner, other, c.requested) && ClientOk(own, v, other, c)
    ensures ClientOk(own, x, other, c)
  {
    hide Split;
    assert SessionChanged(v.sessions[other], x.sessions[other], false, ToServer(v.cwd, p), Progress(id, own[p], k), x.files);
    assert SameFor(v, x, other, c);
    SameClientOk(own, v, x, other, c);
  }

  lemma NextOnWire(id: SessionId, p: Path, all: seq<Chunk>, k: nat)
    requires k < |all|
    ensures Addressed(id, p, all[k..])[1..] == Addressed(id, p, all[k + 1..])
  {
  }

  lemma StillUnsent(own: map<Path, Data>, v: View, x: View, id: SessionId, p: Path, k: nat, q: Path)
    requires FilesOk(own, v) && p in own && Changed(v, x, id, p, own[p], k) && Unsent(v, id, q) && q != p
    ensures Unsent(x, id, q)
  {
    hide Split;
    ServerPathsApart(own, v, p, q);
    assert SessionChanged(v.sessions[id], x.sessions[id], true, ToServer(v.cwd, p), Progress(id, own[p], k), x.files);
  }

  /** The files of the client other than the current one are as they were. */
  lemma HandledRest(own: map<Path, Data>, v: View, x: View, id: SessionId, p: Path, k: nat, c: Client)
    requires FilesOk(own, v) && p in own && Changed(v, x, id, p, own[p], k)
    requires NoDuplicates(c.requested) && ClientOk(own, v, id, c) && c.phase == Waiting && p == Current(c)
    ensures forall j | 0 <= j < c.sendIdx - 1 :: IsAvailable(x.files, c.requested[j])
    ensures forall j | c.sendIdx <= j < |c.requested| :: Unsent(x, id, c.requested[j])
  {
    hide Split;
    forall j | c.sendIdx <= j < |c.requested|
      ensures Unsent(x, id, c.requested[j])
    {
      StillUnsent(own, v, x, id, p, k, c.requested[j]);
    }
  }

  lemma StillInFlight(own: map<Path, Data>, v: View, x: View, id: SessionId, p: Path, wire: seq<FileChunk>, k: nat)
    requires Sending(own, v, id, p, wire, k) && Changed(v, x, id, p, own[p], k) && !Split(own[p])[k].isLast
    ensures InFlight(own, x, id, p, wire[1..])
  {
    hide Split;
    NextOnWire(id, p, Split(own[p]), k);
    assert SessionChanged(v.sessions[id], x.sessions[id], true, ToServer(v.cwd, p), Progress(id, own[p], k), x.files);
  }

  lemma LastOnWire(data: Data, wire: seq<FileChunk>, k: nat)
    requires wire != [] && k == |Split(data)| - |wire| && Split(data)[k].isLast
    ensures wire[1..] == []
  {
    hide Split, Flagged;
    OnlyFinalIsFlagged(data, k);
  }

  function Advanced(c: Client, complete: bool): Client
    requires c.wire != []
  {
    c.(wire := c.wire[1..], phase := if complete then CallSend else c.phase)
  }

  lemma HandledSender(own: map<Path, Data>, v: View, x: View, id: SessionId, p: Path, k: nat, c: Client)
    requires FilesOk(own, v) && p in own && Sending(own, v, id, p, c.wire, k) && Changed(v, x, id, p, own[p], k)
    requires NoDuplicates(c.requested) && ClientOk(own, v, id, c) && c.phase == Waiting && p == Current(c)
    ensures ClientOk(own, x, id, Advanced(c, Split(own[p])[k].isLast))
  {
    hide FilesOk, Unsent, InFlight, NoDuplicates, Split;
    HandledRest(own, v, x, id, p, k, c);
    if Split(own[p])[k].isLast {
      LastOnWire(own[p], c.wire, k);
    } else {
      StillInFlight(own, v, x, id, p, c.wire, k);
    }
  }

  lemma HandledClients(w: World, x: View, id: SessionId, p: Path, k: nat)
    requires FilesOk(w.own, w.view) && w.owner.Keys == w.view.files.Keys && w.clients.Keys == w.view.sessions.Keys
    requires ListsOk(w.owner, w.clients) && ClientsOk(w.own, w.view, w.clients)
    requires id in w.clients && w.clients[id].phase == Waiting && 0 < w.clients[id].sendIdx <= |w.clients[id].requested|
    requires p == Current(w.clients[id]) && Sending(w.own, w.view, id, p, w.clients[id].wire, k)
    requires Changed(w.view, x, id, p, w.own[p], k) && w.owner[p] == id
    ensures ClientsOk(w.own, x, w.clients[id := Advanced(w.clients[id], Split(w.own[p])[k].isLast)])
  {
    assert ListOk(w.owner, id, w.clients[id].requested) && p in w.own;
    hide FilesOk, ClientOk, Changed, InFlight, TransferOk, DiskOk, Split;
    HandledSender(w.own, w.view, x, id, p, k, w.clients[id]);
    forall other | other in w.clients && other != id
      ensures ClientOk(w.own, x, other, w.clients[other])
    {
      HandledOther(w, x, id, p, k, other);
    }
    ReplacedClient(w.own, x, w.clients, id, Advanced(w.clients[id], Split(w.own[p])[k].isLast));
  }

  lemma HandledOther(w: World, x: View, id: SessionId, p: Path, k: nat, other: SessionId)
    requires w.owner.Keys == w.view.files.Keys && w.clients.Keys == w.view.sessions.Keys
    requires ListsOk(w.owner, w.clients) && ClientsOk(w.own, w.view, w.clients)
    requires p in w.own && p in w.owner && Changed(w.view, x, id, p, w.own[p], k) && w.owner[p] == id
    requires other in w.clients && other != id
    ensures ClientOk(w.own, x, other, w.clients[other])
  {
    hide ClientOk, Changed, ListOk;
    HandledOthers(w.own, w.owner, w.view, x, id, p, k, other, w.clients[other]);
  }

  lemma ReplacedClient(own: map<Path, Data>, x: View, clients: map<SessionId, Client>, id: SessionId, c: Client)
    requires ClientOk(own, x, id, c) && forall other | other in clients && other != id :: ClientOk(own, x, other, clients[other])
    ensures ClientsOk(own, x, clients[id := c])
  {
    hide ClientOk;
  }

  lemma AdvancedLists(owner: map<Path, SessionId>, clients: map<SessionId, Client>, id: SessionId, complete: bool)
    requires id in clients && clients[id].wire != [] && ListsOk(owner, clients)
    ensures ListsOk(owner, clients[id := Advanced(clients[id], complete)])
  {
    assert ListOk(owner, id, clients[id].requested);
  }

  lemma OwnersKeys(owner: map<Path, SessionId>, v: View)
    requires OwnersOk(owner, v)
    ensures owner.Keys == v.files.Keys
  {
  }

  lemma SendingOwn(own: map<Path, Data>, v: View, id: SessionId, p: Path, wire: seq<FileChunk>, k: nat)
    requires Sending(own, v, id, p, wire, k)
    ensures p in own && p in v.files && v.files[p].status == Uploading && id in v.sessions
  {
    hide Split;
  }

  lemma HandledWorld(w: World, x: View, id: SessionId, p: Path, k: nat)
    requires HonestInv(w) && Inv(x)
    requires id in w.clients && w.clients[id].phase == Waiting && 0 < w.clients[id].sendIdx <= |w.clients[id].requested|
    requires p == Current(w.clients[id]) && Sending(w.own, w.view, id, p, w.clients[id].wire, k)
    requires Changed(w.view, x, id, p, w.own[p], k) && w.owner[p] == id
    ensures HonestInv(w.(view := x, clients := w.clients[id := Advanced(w.clients[id], Split(w.own[p])[k].isLast)]))
  {
    hide FilesOk, OwnersOk, RunningOk, ListsOk, ClientsOk, Inv, Split, InFlight, SessionChanged;
    OwnersKeys(w.owner, w.view);
    SendingOwn(w.own, w.view, id, p, w.clients[id].wire, k);
    HandledFiles(w.own, w.view, x, id, p, k);
    HandledOwners(w.own, w.owner, w.view, x, id, p, k);
    HandledRunning(w.view, x, id, p, w.own[p], k);
    HandledClients(w, x, id, p, k);
    AdvancedLists(w.owner, w.clients, id, Split(w.own[p])[k].isLast);
  }

  lemma HandledInv(w: World, id: SessionId, order: seq<SessionId>)
    requires HonestInv(w) && id in w.clients && w.clients[id].wire != [] && Lists(order, w.view.sessions.Keys)
    ensures HonestInv(Handled(w, id, order)) && ProcessChunk(w.view, id, w.clients[id].wire[0], order).ok
  {
    hide Split;
    IsSending(w, id);
    var c, p := w.clients[id], Current(w.clients[id]);
    var k: nat :| Sending(w.own, w.view, id, p, c.wire, k);
    SendingChunk(w.own, w.view, id, p, c.wire, k);
    HandledChanges(w.own, w.view, id, p, c.wire, k, order);
    ProcessChunkInv(w.view, id, c.wire[0], order);
    HandledWorld(w, ProcessChunk(w.view, id, c.wire[0], order).view, id, p, k);
  }

  // ---- The other moves ------------------------------------------------------------------------------------------------

  /** Before the first chunk is handled the whole file is on the wire. */
  lemma StartsInFlight(own: map<Path, Data>, v: View, id: SessionId, p: Path)
    requires p in own && Unsent(v, id, p)
    ensures InFlight(own, v, id, p, Addressed(id, p, Split(own[p]))) && Addressed(id, p, Split(own[p])) != []
  {
    hide Split, Concat, ToServer;
    SplitReassembles(own[p]);
    assert Split(own[p])[0..] == Split(own[p]);
  }

  lemma SentClient(own: map<Path, Data>, v: View, id: SessionId, c: Client)
    requires FilesOk(own, v) && ClientOk(own, v, id, c) && c.phase == CallSend
    ensures var (msgs, idx) := NextUpload(id, c.requested, c.sendIdx, own);
      ClientOk(own, v, id, c.(sendIdx := idx, wire := c.wire + msgs, phase := if msgs == [] then Idle else Waiting))
  {
    hide Split, Addressed, InFlight;
    if c.sendIdx < |c.requested| {
      var p := c.requested[c.sendIdx];
      assert Unsent(v, id, p) && FileOk(own, v, p);
      hide Unsent, FileOk;
      StartsInFlight(own, v, id, p);
      var msgs := Addressed(id, p, Split(own[p]));
      assert c.wire + msgs == msgs;
    }
  }

  lemma SentInv(w: World, id: SessionId)
    requires HonestInv(w) && id in w.clients && w.clients[id].phase == CallSend
    ensures HonestInv(Sent(w, id))
  {
    hide Inv, FilesOk, OwnersOk, RunningOk, ClientOk, ListOk;
    SentClient(w.own, w.view, id, w.clients[id]);
  }

  /** A view that differs only in what clients do not see. */
  lemma SameViewOk(w: World, x: View, clients: map<SessionId, Client>)
    requires HonestInv(w) && x.cwd == w.view.cwd && x.files == w.view.files && x.disk == w.view.disk
    requires x.log.openers == w.view.log.openers && x.log.asked == w.view.log.asked && x.log.used == w.view.log.used
    requires clients.Keys == x.sessions.Keys <= w.view.sessions.Keys
    requires forall id | id in clients :: clients[id] == w.clients[id] && x.sessions[id] == w.view.sessions[id]
    ensures FilesOk(w.own, x) && OwnersOk(w.owner, x) && ListsOk(w.owner, clients) && ClientsOk(w.own, x, clients) && RunningOk(x)
  {
    hide Inv, ClientOk, ToServer, ToClient, RoundTrips, NoDuplicates, Split;
    forall p | p in x.files
      ensures FileOk(w.own, x, p)
    {
      assert FileOk(w.own, w.view, p);
    }
    hide FileOk;
    forall id | id in clients
      ensures ClientOk(w.own, x, id, clients[id])
    {
      assert ListOk(w.owner, id, clients[id].requested);
      SameClientOk(w.own, w.view, x, id, clients[id]);
    }
  }

  lemma AbortInv(w: World, id: SessionId)
    requires HonestInv(w) && id in w.view.sessions
    ensures HonestInv(w.(view := Terminated(w.view, id), clients := w.clients - {id}))
  {
    hide Inv, FilesOk, OwnersOk, RunningOk, ClientsOk, ListsOk, InvalidateAll;
    TerminatedInv(w.view, id);
    SameViewOk(w, Terminated(w.view, id), w.clients - {id});
  }

  lemma TakeInv(w: World)
    requires HonestInv(w) && w.view.queue != []
    ensures HonestInv(w.(view := Popped(w.view)))
  {
    hide Inv, FilesOk, OwnersOk, RunningOk, ClientsOk, ListsOk;
    PoppedInv(w.view);
    SameViewOk(w, Popped(w.view), w.clients);
  }
}
