/** The theorems about whole runs with honest clients. */
module HonestSafety {
  import opened Bytes
  import opened Paths
  import opened Chunks
  import opened Upload
  import opened UploadRuns
  import opened Honest
  import opened HonestRuns
  import opened HonestJoin

  lemma DoInv(w: World, a: Act)
    requires HonestInv(w) && Do(w, a).Some?
    ensures HonestInv(Do(w, a).value)
  {
    hide Split;
    match a
    case Join(id, infos, order) => JoinInv(w, id, infos, order);
    case Send(id) => SentInv(w, id);
    case Handle(id, order) => HandledInv(w, id, order);
    case Abort(id) => AbortInv(w, id);
    case Take => TakeInv(w);
  }

  lemma StartInv(own: map<Path, Data>, cwd: Path)
    ensures HonestInv(Start(own, cwd))
  {
    hide Split;
  }

  lemma DoSameOwn(w: World, a: Act)
    requires Do(w, a).Some?
    ensures Do(w, a).value.own == w.own
  {
    hide ProcessChunk, Joined, Sweep;
  }

  /** The invariant holds in every world of every play. */
  lemma {:induction false} PlayInv(own: map<Path, Data>, cwd: Path, ws: seq<World>, acts: seq<Act>, i: nat)
    requires Play(own, cwd, ws, acts) && i < |ws|
    ensures HonestInv(ws[i]) && ws[i].own == own
  {
    if i == 0 {
      StartInv(own, cwd);
    } else {
      hide HonestInv, Do;
      PlayInv(own, cwd, ws, acts, i - 1);
      assert Moves(ws[i - 1], acts[i - 1], ws[i]);
      DoInv(ws[i - 1], acts[i - 1]);
      DoSameOwn(ws[i - 1], acts[i - 1]);
    }
  }

  lemma DoIsStep(w: World, a: Act)
    requires Do(w, a).Some?
    ensures var u, s := Do(w, a).value, ServerStep(w, a);
      if s.None? then u.view == w.view else Next(w.view, s.value) == Some(u.view)
  {
  }

  lemma RunExtends(cwd: Path, vs: seq<View>, steps: seq<Step>, s: Step, w: View)
    requires Run(cwd, vs, steps) && Leads(vs[|steps|], s, w)
    ensures Run(cwd, vs + [w], steps + [s])
  {
    hide Leads;
    assert (vs + [w])[|steps|] == vs[|steps|] && (vs + [w])[|steps| + 1] == w;
  }

  /** The views of a play are those of a run of the protocol, so everything proved of runs holds of it. */
  lemma {:induction false} PlayIsRun(own: map<Path, Data>, cwd: Path, ws: seq<World>, acts: seq<Act>, i: nat)
    returns (vs: seq<View>, steps: seq<Step>)
    requires Play(own, cwd, ws, acts) && i < |ws|
    ensures Run(cwd, vs, steps) && vs[|steps|] == ws[i].view
  {
    hide Do, Next;
    if i == 0 {
      vs, steps := [Init(cwd)], [];
    } else {
      vs, steps := PlayIsRun(own, cwd, ws, acts, i - 1);
      assert Moves(ws[i - 1], acts[i - 1], ws[i]);
      DoIsStep(ws[i - 1], acts[i - 1]);
      var s := ServerStep(ws[i - 1], acts[i - 1]);
      if s.Some? {
        RunExtends(cwd, vs, steps, s.value, ws[i].view);
        vs, steps := vs + [ws[i].view], steps + [s.value];
      }
    }
  }

  /** All files a session needs are on the server, byte for byte. */
  ghost predicate HasItsFiles(w: World, id: SessionId)
  {
    id in w.view.sessions && forall p | p in w.view.sessions[id].required ::
      && IsAvailable(w.view.files, p) && p in w.own
      && FileOn(w.view.disk, w.view.files[p].serverPath) == w.own[p]
  }

  lemma RunningHasItsFiles(w: World, id: SessionId)
    requires HonestInv(w) && id in w.view.sessions && w.view.sessions[id].running
    ensures HasItsFiles(w, id)
  {
    hide Split, Flagged;
    forall p | p in w.view.sessions[id].required
      ensures IsAvailable(w.view.files, p) && p in w.own && FileOn(w.view.disk, w.view.files[p].serverPath) == w.own[p]
    {
      assert AllAvailable(w.view.files, w.view.sessions[id].required);
      assert FileOk(w.own, w.view, p);
    }
  }

  /** No file is faulty, and an available one is the client's byte for byte. */
  ghost predicate FilesAreTheClients(w: World)
  {
    forall p | p in w.view.files ::
      && w.view.files[p].status != Fault && p in w.own
      && (w.view.files[p].status == Available ==> FileOn(w.view.disk, w.view.files[p].serverPath) == w.own[p])
  }

  lemma FilesOkAreTheClients(w: World)
    requires FilesOk(w.own, w.view)
    ensures FilesAreTheClients(w)
  {
    hide Flagged;
    forall p | p in w.view.files
      ensures w.view.files[p].status != Fault && p in w.own
        && (w.view.files[p].status == Available ==> FileOn(w.view.disk, w.view.files[p].serverPath) == w.own[p])
    {
      assert FileOk(w.own, w.view, p);
    }
  }

  /**
   In every run with honest clients: no path is asked for twice, no file is ever faulty, an available file is
   the client's byte for byte, and a session's request is only ever in the queue while the session is gone or
   has all its files.
   */
  lemma {:induction false} HonestRunSafe(own: map<Path, Data>, cwd: Path, ws: seq<World>, acts: seq<Act>, i: nat)
    requires Play(own, cwd, ws, acts) && i < |ws|
    ensures ws[i].own == own && NoDuplicates(ws[i].view.log.asked) && FilesAreTheClients(ws[i])
    ensures forall r | r in ws[i].view.queue && !r.invalidated :: HasItsFiles(ws[i], r.session)
    ensures forall id | id in ws[i].view.sessions && id in ws[i].view.log.enqueued :: HasItsFiles(ws[i], id)
  {
    var w := ws[i];
    PlayInv(own, cwd, ws, acts, i);
    FilesOkAreTheClients(w);
    forall id | id in w.view.sessions && id in w.view.log.enqueued
      ensures HasItsFiles(w, id)
    {
      RunningHasItsFiles(w, id);
    }
  }

  // ---- Available is never left ----------------------------------------------------------------------------------------

  lemma HandleKeepsAvailable(w: World, id: SessionId, order: seq<SessionId>, p: Path)
    requires HonestInv(w) && id in w.clients && w.clients[id].wire != [] && IsAvailable(w.view.files, p)
    ensures IsAvailable(Handled(w, id, order).view.files, p)
  {
    hide HonestInv, ProcessChunk, Sending, SessionChanged, Progress, Concat, Split;
    IsSending(w, id);
    var c, cur := w.clients[id], Current(w.clients[id]);
    var k: nat :| Sending(w.own, w.view, id, cur, c.wire, k);
    SendingChunk(w.own, w.view, id, cur, c.wire, k);
    HandledChanges(w.own, w.view, id, cur, c.wire, k, order);
  }

  lemma JoinKeepsAvailable(w: World, id: SessionId, infos: seq<FileInfo>, order: seq<SessionId>, p: Path)
    requires HonestInv(w) && id !in w.view.log.used && Lists(order, w.view.sessions.Keys + {id})
    requires Truthful(w.own, w.view.cwd, infos) && IsAvailable(w.view.files, p)
    ensures IsAvailable(Sweep(Joined(w.view, id, infos), order).files, p)
  {
    assert id !in w.view.sessions;
    hide FilesOk, OwnersOk, ListsOk, ClientsOk, RunningOk, Inv, Joined, Sweep, AskedOf;
    JoinedChanged(w.own, w.view, infos, id, order);
  }

  lemma DoKeepsAvailable(w: World, a: Act, p: Path)
    requires HonestInv(w) && Do(w, a).Some? && IsAvailable(w.view.files, p)
    ensures IsAvailable(Do(w, a).value.view.files, p)
  {
    hide HonestInv, Handled, Sweep, Joined, AskedOf, Owned, Lists, Truthful, InvalidateAll, NextUpload;
    match a
    case Join(id, infos, order) => JoinKeepsAvailable(w, id, infos, order, p);
    case Send(id) =>
    case Handle(id, order) => HandleKeepsAvailable(w, id, order, p);
    case Abort(id) =>
    case Take =>
  }

  /** Once available a file stays available, and its bytes on the server stay the client's. */
  lemma {:induction false} AvailableForGood(own: map<Path, Data>, cwd: Path, ws: seq<World>, acts: seq<Act>, i: nat, j: nat, p: Path)
    requires Play(own, cwd, ws, acts) && i <= j < |ws| && IsAvailable(ws[i].view.files, p)
    ensures IsAvailable(ws[j].view.files, p) && p in own
    ensures FileOn(ws[j].view.disk, ws[j].view.files[p].serverPath) == own[p]
  {
    hide HonestInv, Do, FileOn;
    if i < j {
      assert i <= j - 1 < |ws|;
      AvailableForGood(own, cwd, ws, acts, i, j - 1, p);
      PlayInv(own, cwd, ws, acts, j - 1);
      assert Moves(ws[j - 1], acts[j - 1], ws[j]);
      DoKeepsAvailable(ws[j - 1], acts[j - 1], p);
    }
    AvailableIsTheClients(own, cwd, ws, acts, j, p);
  }

  lemma {:induction false} AvailableIsTheClients(own: map<Path, Data>, cwd: Path, ws: seq<World>, acts: seq<Act>, i: nat, p: Path)
    requires Play(own, cwd, ws, acts) && i < |ws| && IsAvailable(ws[i].view.files, p)
    ensures p in own && FileOn(ws[i].view.disk, ws[i].view.files[p].serverPath) == own[p]
  {
    PlayInv(own, cwd, ws, acts, i);
    FilesOkAreTheClients(ws[i]);
  }

  // ---- Uploads are accepted, and complete exactly for flagged lengths ---------------------------------------------------

  /** No chunk of an honest client is refused. */
  lemma {:induction false} HonestChunkAccepted(own: map<Path, Data>, cwd: Path, ws: seq<World>, acts: seq<Act>, i: nat)
    requires Play(own, cwd, ws, acts) && i < |acts| && acts[i].Handle?
    ensures acts[i].id in ws[i].clients && acts[i].id in ws[i].view.sessions && ws[i].clients[acts[i].id].wire != []
    ensures ProcessChunk(ws[i].view, acts[i].id, ws[i].clients[acts[i].id].wire[0], acts[i].order).ok
  {
    hide HonestInv, ProcessChunk;
    PlayInv(own, cwd, ws, acts, i);
    assert Moves(ws[i], acts[i], ws[i + 1]);
    HandledInv(ws[i], acts[i].id, acts[i].order);
  }

  lemma AllHandled(own: map<Path, Data>, v: View, id: SessionId, p: Path)
    requires InFlight(own, v, id, p, []) && TransfersOk(v)
    ensures !IsAvailable(v.files, p) && !Flagged(|own[p]|)
  {
    hide Split;
    var all := Split(own[p]);
    SplitReassembles(own[p]);
    OnlyFinalIsFlagged(own[p], |all| - 1);
    var t := v.sessions[id].transfers[ToServer(v.cwd, p)];
    assert TransferOk(id, t);
    assert all[..|all|] == all;
  }

  /**
   A file that was sent and whose chunks were all handled is available exactly when it is empty or its length
   is no multiple of the chunk size; otherwise no chunk is flagged and the client waits for ever.
   */
  lemma {:induction false} CompleteExactly(own: map<Path, Data>, cwd: Path, ws: seq<World>, acts: seq<Act>, i: nat,
                                           id: SessionId, j: nat)
    requires Play(own, cwd, ws, acts) && i < |ws| && id in ws[i].clients && ws[i].clients[id].wire == []
    requires j < ws[i].clients[id].sendIdx && j < |ws[i].clients[id].requested|
    ensures ws[i].clients[id].requested[j] in own
    ensures IsAvailable(ws[i].view.files, ws[i].clients[id].requested[j]) <==>
      Flagged(|own[ws[i].clients[id].requested[j]]|)
  {
    hide Split;
    PlayInv(own, cwd, ws, acts, i);
    SentIsComplete(ws[i], id, j);
  }

  lemma {:induction false} SentIsComplete(w: World, id: SessionId, j: nat)
    requires HonestInv(w) && id in w.clients && w.clients[id].wire == []
    requires j < w.clients[id].sendIdx && j < |w.clients[id].requested|
    ensures var p := w.clients[id].requested[j]; p in w.own && (IsAvailable(w.view.files, p) <==> Flagged(|w.own[p]|))
  {
    hide HonestInv, ClientOk, FileOk, TransfersOk, Flagged;
    ClientFacts(w, id);
    SentFile(w.own, w.view, id, w.clients[id], j);
  }

  lemma {:induction false} SentFile(own: map<Path, Data>, v: View, id: SessionId, c: Client, j: nat)
    requires ClientOk(own, v, id, c) && c.wire == [] && j < c.sendIdx && j < |c.requested| && TransfersOk(v)
    requires FileOk(own, v, c.requested[j])
    ensures c.requested[j] in own && (IsAvailable(v.files, c.requested[j]) <==> Flagged(|own[c.requested[j]]|))
  {
    hide TransfersOk, Flagged, InFlight, Unsent, RoundTrips, ToServer, FileOn;
    if c.phase == Waiting && j == c.sendIdx - 1 { AllHandled(own, v, id, c.requested[j]); }
  }

  // ---- Requests are enqueued soundly, and none is forgotten ---------------------------------------------------------------

  lemma SweepEnqueues(v: View, order: seq<SessionId>)
    ensures forall x | x in Sweep(v, order).log.enqueued :: x in v.log.enqueued || x in v.sessions
  {
    NewlyMembers(v.files, v.sessions, order);
  }

  lemma ProcessChunkEnqueues(v: View, id: SessionId, m: FileChunk, order: seq<SessionId>, x: SessionId)
    requires id in v.sessions && x in ProcessChunk(v, id, m, order).view.log.enqueued && x !in v.log.enqueued
    ensures x in v.sessions
  {
    hide Sweep, Overlay, Concat;
    if m.filename in v.files && m.session == id {
      var sp := v.files[m.filename].serverPath;
      var o := Open(v, id, sp);
      var w := SetStatus(Accept(o, id, sp, m.chunk), m.filename, Available);
      SweepEnqueues(w, order);
      assert w.sessions.Keys == v.sessions.Keys && w.log.enqueued == v.log.enqueued;
    }
  }

  lemma StepEnqueues(v: View, s: Step, x: SessionId)
    requires Next(v, s).Some? && x in Next(v, s).value.log.enqueued && x !in v.log.enqueued
    ensures x in Next(v, s).value.sessions
  {
    match s
    case Connect(id, infos, order) => SweepEnqueues(Joined(v, id, infos), order);
    case Deliver(id, m, order) =>
      ProcessChunkEnqueues(v, id, m, order, x);
      ProcessChunkFollows(v, id, m, order);
    case Terminate(id) =>
    case Pop =>
  }

  /** Whenever a request is enqueued, every required file on the server's disk is the client's byte for byte. */
  lemma {:induction false} EnqueuedWithItsFiles(own: map<Path, Data>, cwd: Path, ws: seq<World>, acts: seq<Act>, i: nat, id: SessionId)
    requires Play(own, cwd, ws, acts) && i < |acts|
    requires id !in ws[i].view.log.enqueued && id in ws[i + 1].view.log.enqueued
    ensures HasItsFiles(ws[i + 1], id)
  {
    hide Do, Next;
    assert Moves(ws[i], acts[i], ws[i + 1]);
    PlayInv(own, cwd, ws, acts, i + 1);
    DoIsStep(ws[i], acts[i]);
    StepEnqueues(ws[i].view, ServerStep(ws[i], acts[i]).value, id);
    RunningHasItsFiles(ws[i + 1], id);
  }

  /** Nothing is on its way, no client is about to send, and no session was aborted. */
  ghost predicate Quiet(w: World)
  {
    && (forall id | id in w.clients :: w.clients[id].wire == [] && w.clients[id].phase != CallSend)
    && (forall p | p in w.owner :: w.owner[p] in w.clients)
  }

  /** The files asked from the owner of `p`, up to `p`, all have a flagged last chunk. */
  ghost predicate Unblocked(w: World, p: Path)
  {
    && p in w.owner && w.owner[p] in w.clients
    && exists j :: IsAskedAt(w.clients[w.owner[p]], p, j) && FlaggedUpTo(w.own, w.clients[w.owner[p]], j)
  }

  ghost predicate IsAskedAt(c: Client, p: Path, j: nat) { j < |c.requested| && c.requested[j] == p }

  ghost predicate FlaggedUpTo(own: map<Path, Data>, c: Client, j: nat)
  {
    forall k | 0 <= k <= j && k < |c.requested| :: c.requested[k] in own && Flagged(|own[c.requested[k]]|)
  }

  /** A client with nothing on the wire that is not about to send has sent exactly up to its first unflagged file. */
  lemma {:induction false} QuietClient(own: map<Path, Data>, v: View, id: SessionId, c: Client, j: nat)
    requires ClientOk(own, v, id, c) && c.wire == [] && c.phase != CallSend && j < |c.requested| && TransfersOk(v)
    requires forall k | 0 <= k < |c.requested| :: FileOk(own, v, c.requested[k])
    ensures IsAvailable(v.files, c.requested[j]) <==> FlaggedUpTo(own, c, j)
  {
    hide TransfersOk, Flagged, FileOk, InFlight, Split;
    var sent := c.sendIdx - if c.phase == Waiting then 1 else 0;
    if j < sent {
      SentIsFlagged(own, v, c, j);
    } else {
      assert c.phase == Waiting;
      AllHandled(own, v, id, c.requested[sent]);
      if j >= c.sendIdx { assert Unsent(v, id, c.requested[j]); }
    }
  }

  lemma {:induction false} SentIsFlagged(own: map<Path, Data>, v: View, c: Client, j: nat)
    requires j < |c.requested| && forall k | 0 <= k <= j :: IsAvailable(v.files, c.requested[k])
    requires forall k | 0 <= k < |c.requested| :: FileOk(own, v, c.requested[k])
    ensures FlaggedUpTo(own, c, j)
  {
    hide Flagged, ToServer, RoundTrips;
    forall k | 0 <= k <= j && k < |c.requested|
      ensures c.requested[k] in own && Flagged(|own[c.requested[k]]|)
    {
      assert FileOk(own, v, c.requested[k]) && IsAvailable(v.files, c.requested[k]);
    }
  }

  lemma {:induction false} ClientFacts(w: World, id: SessionId)
    requires HonestInv(w) && id in w.clients
    ensures ClientOk(w.own, w.view, id, w.clients[id]) && TransfersOk(w.view) && ListOk(w.owner, id, w.clients[id].requested)
    ensures forall k | 0 <= k < |w.clients[id].requested| :: FileOk(w.own, w.view, w.clients[id].requested[k])
  {
    var c := w.clients[id];
    assert ListOk(w.owner, id, c.requested);
    hide ClientOk, TransferOk, FileOk;
    forall k | 0 <= k < |c.requested|
      ensures FileOk(w.own, w.view, c.requested[k])
    {
      assert c.requested[k] in c.requested;
    }
  }

  /**
   When everything sent was handled: a requested file is available if and only if it and all files asked from
   the same session before it are empty or of a length that is no multiple of the chunk size.
   */
  lemma {:induction false} QuietExactly(own: map<Path, Data>, cwd: Path, ws: seq<World>, acts: seq<Act>, i: nat,
                                        id: SessionId, j: nat)
    requires Play(own, cwd, ws, acts) && i < |ws| && id in ws[i].clients && j < |ws[i].clients[id].requested|
    requires ws[i].clients[id].wire == [] && ws[i].clients[id].phase != CallSend
    ensures IsAvailable(ws[i].view.files, ws[i].clients[id].requested[j]) <==>
      forall k | 0 <= k <= j :: ws[i].clients[id].requested[k] in own && Flagged(|own[ws[i].clients[id].requested[k]]|)
  {
    hide HonestInv;
    PlayInv(own, cwd, ws, acts, i);
    ClientFacts(ws[i], id);
    hide ClientOk, FileOk, TransfersOk;
    QuietClient(own, ws[i].view, id, ws[i].clients[id], j);
  }

  lemma OwnerFacts(w: World, p: Path)
    requires HonestInv(w) && Quiet(w) && p in w.view.files
    ensures p in w.owner && w.owner[p] in w.clients
  {
    hide Split;
  }

  lemma {:induction false} QuietFile(w: World, p: Path)
    requires HonestInv(w) && Quiet(w) && p in w.view.files
    ensures IsAvailable(w.view.files, p) <==> Unblocked(w, p)
  {
    hide HonestInv, FlaggedUpTo, IsAvailable, ClientOk, FileOk, TransfersOk;
    OwnerFacts(w, p);
    var id := w.owner[p];
    var c := w.clients[id];
    ClientFacts(w, id);
    assert p in c.requested;
    var j :| 0 <= j < |c.requested| && c.requested[j] == p;
    assert IsAskedAt(c, p, j);
    QuietClient(w.own, w.view, id, c, j);
    OnlyIndex(c.requested, p, j);
  }

  lemma OnlyIndex(s: seq<Path>, p: Path, j: nat)
    requires NoDuplicates(s) && j < |s| && s[j] == p
    ensures forall k | 0 <= k < |s| && s[k] == p :: k == j
  {
  }

  lemma {:induction false} QuietSession(w: World, id: SessionId)
    requires HonestInv(w) && Quiet(w) && id in w.view.sessions
    ensures id in w.view.log.enqueued <==> forall p | p in w.view.sessions[id].required :: Unblocked(w, p)
  {
    var s := w.view.sessions[id];
    assert RequiredOk(w.view) && (s.running <==> id in w.view.log.enqueued) && s.argsReady;
    assert s.running <==> AllAvailable(w.view.files, s.required);
    forall p | p in s.required
      ensures IsAvailable(w.view.files, p) <==> Unblocked(w, p)
    {
      QuietFile(w, p);
    }
    hide HonestInv, Unblocked, Quiet;
  }

  /**
   When everything sent was handled and no session was aborted, a session's request was enqueued if and only if
   none of its files waits behind one of an unflagged length.
   */
  lemma {:induction false} NobodyWaits(own: map<Path, Data>, cwd: Path, ws: seq<World>, acts: seq<Act>, i: nat, id: SessionId)
    requires Play(own, cwd, ws, acts) && i < |ws| && Quiet(ws[i]) && id in ws[i].view.sessions
    ensures id in ws[i].view.log.enqueued <==> forall p | p in ws[i].view.sessions[id].required :: Unblocked(ws[i], p)
  {
    hide HonestInv;
    PlayInv(own, cwd, ws, acts, i);
    QuietSession(ws[i], id);
  }

  // ---- A client that waits for ever -----------------------------------------------------------------------------------------

  lemma {:induction false} OneChunk(data: Data)
    requires |data| == CHUNK_SZ
    ensures |Split(data)| == 1 && !Split(data)[0].isLast
  {
    SplitFromCount(data, 1, 0);
    OnlyFinalIsFlagged(data, 0);
  }

  function OneFile(p: Path, size: nat): seq<FileInfo> { [FileInfo(p, size, [])] }

  lemma {:induction false} OneFileAsked(cwd: Path, p: Path, size: nat)
    requires p != [] && RoundTrips(cwd, p)
    ensures Named(OneFile(p, size)) == [p] && AskedOf(Init(cwd), OneFile(p, size)) == [p]
  {
    var infos := OneFile(p, size);
    assert infos[..0] == [] && [p][..0] == [] && [] + [p] == [p];
    assert Named(infos) == [p];
    RoundTripExact(cwd, p);
    var files := AddFiles(cwd, map[], infos);
    assert AddFiles(cwd, map[], infos[..0]) == map[];
    assert files == map[p := FileState(size, [], Initial, ToServer(cwd, p))];
    assert Ask(cwd, files, []) == (files, []);
    AddFilesHasNamed(cwd, map[], infos);
  }

  /** One session uploads one file of exactly the chunk size. */
  lemma {:induction false} StuckUpload(own: map<Path, Data>, cwd: Path, p: Path, id: SessionId)
    returns (ws: seq<World>, acts: seq<Act>)
    requires p in own && p != [] && RoundTrips(cwd, p) && |own[p]| == CHUNK_SZ
    ensures Play(own, cwd, ws, acts) && Quiet(ws[|acts|]) && id in ws[|acts|].view.sessions
    ensures !IsAvailable(ws[|acts|].view.files, p) && id !in ws[|acts|].view.log.enqueued
    ensures ws[|acts|].view.sessions[id].required == [p]
  {
    ws, acts := AlonePlay(own, cwd, p, id);
    hide Play;
    QuietExactly(own, cwd, ws, acts, 3, id, 0);
    NobodyWaits(own, cwd, ws, acts, 3, id);
    AloneIsBlocked(ws[3], p, id);
    assert p in [p];
  }

  lemma {:induction false} AloneIsBlocked(w: World, p: Path, id: SessionId)
    requires Alone(w, p, id, Client([p], 1, [], Waiting))
    ensures !Unblocked(w, p)
  {
    forall j | IsAskedAt(w.clients[id], p, j)
      ensures !FlaggedUpTo(w.own, w.clients[id], j)
    {
      assert w.clients[id].requested[0] == p;
    }
  }

  lemma {:induction false} AlonePlay(own: map<Path, Data>, cwd: Path, p: Path, id: SessionId)
    returns (ws: seq<World>, acts: seq<Act>)
    requires p in own && p != [] && RoundTrips(cwd, p) && |own[p]| == CHUNK_SZ
    ensures |acts| == 3 && Play(own, cwd, ws, acts) && Quiet(ws[3]) && Alone(ws[3], p, id, Client([p], 1, [], Waiting))
    ensures ws[3].own == own
  {
    hide HonestInv, Moves, Play, Do;
    var w1, join := JoinMove(own, cwd, p, id);
    var w2 := SendMove(w1, p, id);
    var w3 := HandleMove(w2, p, id);
    ws, acts := [Start(own, cwd), w1, w2, w3], [join, Send(id), Handle(id, [id])];
    PlayOfThree(own, cwd, ws, acts);
  }

  lemma {:induction false} JoinMove(own: map<Path, Data>, cwd: Path, p: Path, id: SessionId) returns (u: World, a: Act)
    requires p in own && p != [] && RoundTrips(cwd, p) && |own[p]| == CHUNK_SZ
    ensures Moves(Start(own, cwd), a, u) && HonestInv(u) && u.own == own && Alone(u, p, id, Client([p], 0, [], CallSend))
  {
    var infos := OneFile(p, |own[p]|);
    OneFileAsked(cwd, p, |own[p]|);
    var w := Start(own, cwd);
    a := Join(id, infos, [id]);
    JoinsAlone(w, p, id, infos);
    StartInv(own, cwd);
    hide Do, HonestInv, AskedOf;
    u := Do(w, a).value;
    DoInv(w, a);
    DoSameOwn(w, a);
  }

  lemma {:induction false} SendMove(w: World, p: Path, id: SessionId) returns (u: World)
    requires HonestInv(w) && p in w.own && Alone(w, p, id, Client([p], 0, [], CallSend))
    ensures Moves(w, Send(id), u) && HonestInv(u) && u.own == w.own
    ensures Alone(u, p, id, Client([p], 1, Addressed(id, p, Split(w.own[p])), Waiting))
  {
    hide HonestInv, Addressed, Split;
    u := Sent(w, id);
    SendsAlone(w, p, id);
    SentInv(w, id);
  }

  lemma {:induction false} HandleMove(w: World, p: Path, id: SessionId) returns (u: World)
    requires HonestInv(w) && p in w.own && Alone(w, p, id, Client([p], 1, Addressed(id, p, Split(w.own[p])), Waiting))
    ensures Moves(w, Handle(id, [id]), u) && Quiet(u) && u.own == w.own && Alone(u, p, id, Client([p], 1, [], Waiting))
  {
    hide HonestInv, Addressed, Split, ProcessChunk;
    SomeOnWire(w.own[p], id, p);
    HandlesAlone(w, p, id);
    u := Handled(w, id, [id]);
  }

  lemma SomeOnWire(data: Data, id: SessionId, p: Path)
    ensures Addressed(id, p, Split(data)) != []
  {
    hide Split;
    SplitReassembles(data);
  }

  lemma PlayOfThree(own: map<Path, Data>, cwd: Path, ws: seq<World>, acts: seq<Act>)
    requires |ws| == 4 && |acts| == 3 && ws[0] == Start(own, cwd)
    requires Moves(ws[0], acts[0], ws[1]) && Moves(ws[1], acts[1], ws[2]) && Moves(ws[2], acts[2], ws[3])
    ensures Play(own, cwd, ws, acts)
  {
    hide Moves, Start;
  }

  /** The world of one client asked for one file. */
  ghost predicate Alone(w: World, p: Path, id: SessionId, c: Client)
  {
    && w.clients == map[id := c] && c.requested == [p] && w.owner == map[p := id]
    && w.view.sessions.Keys == {id} && w.view.sessions[id].required == [p] && p in w.own && |w.own[p]| == CHUNK_SZ
  }

  lemma JoinedSession(v: View, id: SessionId, infos: seq<FileInfo>, order: seq<SessionId>)
    ensures var sessions := Sweep(Joined(v, id, infos), order).sessions;
      sessions.Keys == v.sessions.Keys + {id} && sessions[id].required == Named(infos)
  {
    hide Named, AskedOf, Ask, AddFiles, Newly, Requests, Ready;
  }

  lemma {:induction false} JoinsAlone(w: World, p: Path, id: SessionId, infos: seq<FileInfo>)
    requires w == Start(w.own, w.view.cwd) && p in w.own && |w.own[p]| == CHUNK_SZ && p != [] && RoundTrips(w.view.cwd, p)
    requires infos == OneFile(p, |w.own[p]|) && AskedOf(w.view, infos) == [p] && Named(infos) == [p]
    ensures Do(w, Join(id, infos, [id])).Some?
    ensures Alone(Do(w, Join(id, infos, [id])).value, p, id, Client([p], 0, [], CallSend))
  {
    assert Lists([id], {id}) && w.view.sessions.Keys + {id} == {id};
    assert Truthful(w.own, w.view.cwd, infos);
    JoinedSession(w.view, id, infos, [id]);
    hide AskedOf, Named, ToServer, RoundTrips, Lists, Truthful, OneFile, Joined, Sweep;
    var u := Do(w, Join(id, infos, [id])).value;
    assert u.owner == map[p := id];
  }

  lemma {:induction false} SendsAlone(w: World, p: Path, id: SessionId)
    requires Alone(w, p, id, Client([p], 0, [], CallSend))
    ensures Alone(Sent(w, id), p, id, Client([p], 1, Addressed(id, p, Split(w.own[p])), Waiting))
  {
    hide Split;
    OneChunk(w.own[p]);
    var msgs := Addressed(id, p, Split(w.own[p]));
    assert [] + msgs == msgs;
  }

  lemma RequiredKept(v: View, x: View, id: SessionId, p: Path, data: Data, k: nat)
    requires Changed(v, x, id, p, data, k)
    ensures x.sessions.Keys == v.sessions.Keys && x.sessions[id].required == v.sessions[id].required
  {
    hide Split;
    assert SessionChanged(v.sessions[id], x.sessions[id], true, ToServer(v.cwd, p), Progress(id, data, k), x.files);
  }

  lemma {:induction false} HandlesAlone(w: World, p: Path, id: SessionId)
    requires HonestInv(w) && p in w.own && Alone(w, p, id, Client([p], 1, Addressed(id, p, Split(w.own[p])), Waiting))
    ensures Lists([id], w.view.sessions.Keys)
    ensures Alone(Handled(w, id, [id]), p, id, Client([p], 1, [], Waiting))
  {
    hide HonestInv, ProcessChunk, Sending, Addressed, Split, Changed;
    OneChunk(w.own[p]);
    IsSending(w, id);
    var c := w.clients[id];
    var k: nat :| Sending(w.own, w.view, id, p, c.wire, k);
    SendingChunk(w.own, w.view, id, p, c.wire, k);
    assert k == 0 && |c.wire| == 1;
    HandledChanges(w.own, w.view, id, p, c.wire, k, [id]);
    var x := ProcessChunk(w.view, id, c.wire[0], [id]).view;
    RequiredKept(w.view, x, id, p, w.own[p], k);
    assert c.wire[1..] == [];
    var u := Handled(w, id, [id]);
    assert u.clients == w.clients[id := Client([p], 1, [], Waiting)];
    assert u.clients == map[id := Client([p], 1, [], Waiting)];
  }
}
