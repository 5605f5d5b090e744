/**
 Runs with honest clients: every session is driven by a client that announces its files truthfully, reads
 them in order and sends the next one when told that the last one is complete. Any number of sessions
 interleave, and each may be aborted at any moment.
 */
module Honest {
  import opened Bytes
  import opened Paths
  import opened Chunks
  import opened Upload
  import opened UploadRuns

  /** About to send the next file, waiting for it to be reported complete, or out of files to send. */
  datatype Phase = CallSend | Waiting | Idle

  /** `wire` holds the messages sent but not yet handled by the server. */
  datatype Client = Client(requested: seq<Path>, sendIdx: nat, wire: seq<FileChunk>, phase: Phase)

  /** `own` are the client's files; `owner` is the session each file was asked from. */
  datatype World = World(own: map<Path, Data>, view: View, owner: map<Path, SessionId>, clients: map<SessionId, Client>)

  function Start(own: map<Path, Data>, cwd: Path): World { World(own, Init(cwd), map[], map[]) }

  /** The announcement names existing files, with their sizes; their names convert to server names and back. */
  ghost predicate Truthful(own: map<Path, Data>, cwd: Path, infos: seq<FileInfo>)
  {
    forall i | i in infos && i.filename != [] ::
      i.filename in own && i.size == |own[i.filename]| && RoundTrips(cwd, i.filename)
  }

  datatype Act =
    | Join(id: SessionId, infos: seq<FileInfo>, order: seq<SessionId>)
    | Send(id: SessionId)
    | Handle(id: SessionId, order: seq<SessionId>)
    | Abort(id: SessionId)
    | Take

  function Owned(owner: map<Path, SessionId>, paths: seq<Path>, id: SessionId): map<Path, SessionId>
  {
    map p | p in owner.Keys + (set q | q in paths) :: if p in paths then id else owner[p]
  }

  function Sent(w: World, id: SessionId): World
    requires id in w.clients
  {
    var c := w.clients[id];
    var (msgs, idx) := NextUpload(id, c.requested, c.sendIdx, w.own);
    w.(clients := w.clients[id := c.(sendIdx := idx, wire := c.wire + msgs, phase := if msgs == [] then Idle else Waiting)])
  }

  function Handled(w: World, id: SessionId, order: seq<SessionId>): World
    requires id in w.clients && id in w.view.sessions && w.clients[id].wire != []
  {
    var c := w.clients[id];
    var r := ProcessChunk(w.view, id, c.wire[0], order);
    w.(view := r.view,
       clients := w.clients[id := c.(wire := c.wire[1..], phase := if r.complete then CallSend else c.phase)])
  }

  ghost function Do(w: World, a: Act): Option<World>
  {
    match a
    case Join(id, infos, order) =>
      if id in w.view.log.used || !Lists(order, w.view.sessions.Keys + {id}) || !Truthful(w.own, w.view.cwd, infos) then None
      else
        var asked := AskedOf(w.view, infos);
        Some(w.(view := Sweep(Joined(w.view, id, infos), order),
                owner := Owned(w.owner, asked, id),
                clients := w.clients[id := Client(asked, 0, [], CallSend)]))
    case Send(id) => if id !in w.clients || w.clients[id].phase != CallSend then None else Some(Sent(w, id))
    case Handle(id, order) =>
      if id !in w.clients || id !in w.view.sessions || w.clients[id].wire == [] || !Lists(order, w.view.sessions.Keys) then None
      else Some(Handled(w, id, order))
    case Abort(id) =>
      if id !in w.view.sessions then None else Some(w.(view := Terminated(w.view, id), clients := w.clients - {id}))
    case Take => if w.view.queue == [] then None else Some(w.(view := Popped(w.view)))
  }

  ghost predicate Moves(w: World, a: Act, u: World) { Do(w, a) == Some(u) }

  /** A play: the worlds before and after each move. */
  ghost predicate Play(own: map<Path, Data>, cwd: Path, ws: seq<World>, acts: seq<Act>)
  {
    && |ws| == |acts| + 1 && ws[0] == Start(own, cwd)
    && forall i | 0 <= i < |acts| :: Moves(ws[i], acts[i], ws[i + 1])
  }

  /** The server's step behind a move; sending does not reach the server. */
  function ServerStep(w: World, a: Act): Option<Step>
  {
    match a
    case Join(id, infos, order) => Some(Connect(id, infos, order))
    case Send(_) => None
    case Handle(id, order) =>
      if id in w.clients && w.clients[id].wire != [] then Some(Deliver(id, w.clients[id].wire[0], order)) else None
    case Abort(id) => Some(Terminate(id))
    case Take => Some(Pop)
  }

  // ---- The invariant ------------------------------------------------------------------------------------------------

  ghost predicate FileOk(own: map<Path, Data>, v: View, p: Path)
  {
    && p in v.files && p in own && v.files[p].size == |own[p]| && RoundTrips(v.cwd, p)
    && v.files[p].serverPath == ToServer(v.cwd, p)
    && (v.files[p].status == Uploading || v.files[p].status == Available)
    && (v.files[p].status == Available ==> Flagged(|own[p]|) && FileOn(v.disk, v.files[p].serverPath) == own[p])
  }

  ghost predicate FilesOk(own: map<Path, Data>, v: View)
  {
    forall p | p in v.files :: FileOk(own, v, p)
  }

  /** Each file was asked for once, from its owner, and only the owner has opened it on the server. */
  ghost predicate OwnersOk(owner: map<Path, SessionId>, v: View)
  {
    && owner.Keys == v.files.Keys
    && NoDuplicates(v.log.asked) && (forall p :: p in v.log.asked <==> p in owner)
    && (forall p | p in owner :: Openers(v.log, ToServer(v.cwd, p)) <= {owner[p]})
    && (forall p | p in owner :: owner[p] in v.log.used)
    && (forall sp | sp in v.log.openers :: ToClient(v.cwd, sp) in owner)
  }

  /** The clients' lists of requested files are the files they own. */
  ghost predicate ListsOk(owner: map<Path, SessionId>, clients: map<SessionId, Client>)
  {
    forall id | id in clients :: ListOk(owner, id, clients[id].requested)
  }

  ghost predicate ListOk(owner: map<Path, SessionId>, id: SessionId, requested: seq<Path>)
  {
    NoDuplicates(requested) && forall p :: p in requested <==> p in owner && owner[p] == id
  }

  ghost predicate Unsent(v: View, id: SessionId, p: Path)
  {
    && p in v.files && v.files[p].status == Uploading
    && id in v.sessions && ToServer(v.cwd, p) !in v.sessions[id].transfers
  }

  /** `wire` holds what is left of the file, and the transfer what was handled. */
  ghost predicate InFlight(own: map<Path, Data>, v: View, id: SessionId, p: Path, wire: seq<FileChunk>)
  {
    && p in v.files && v.files[p].status == Uploading && p in own && id in v.sessions
    && var all, transfers, sp := Split(own[p]), v.sessions[id].transfers, ToServer(v.cwd, p);
      && |wire| <= |all|
      && var k := |all| - |wire|;
        && wire == Addressed(id, p, all[k..])
        && (k == 0 ==> sp !in transfers)
        && (k > 0 ==> sp in transfers && !transfers[sp].finished && transfers[sp].chunks == all[..k])
  }

  ghost predicate ClientOk(own: map<Path, Data>, v: View, id: SessionId, c: Client)
  {
    && c.sendIdx <= |c.requested|
    && (c.phase == Waiting ==> c.sendIdx > 0 && InFlight(own, v, id, c.requested[c.sendIdx - 1], c.wire))
    && (c.phase != Waiting ==> c.wire == [])
    && (c.phase == Idle ==> c.sendIdx == |c.requested|)
    && (forall j | 0 <= j < c.sendIdx - (if c.phase == Waiting then 1 else 0) :: IsAvailable(v.files, c.requested[j]))
    && (forall j | c.sendIdx <= j < |c.requested| :: Unsent(v, id, c.requested[j]))
  }

  ghost predicate ClientsOk(own: map<Path, Data>, v: View, clients: map<SessionId, Client>)
  {
    forall id | id in clients :: ClientOk(own, v, id, clients[id])
  }

  /** A session marked running has all its files. */
  ghost predicate RunningOk(v: View)
  {
    forall id | id in v.sessions ::
      v.sessions[id].argsReady && (v.sessions[id].running ==> AllAvailable(v.files, v.sessions[id].required))
  }

  ghost predicate HonestInv(w: World)
  {
    && Inv(w.view) && FilesOk(w.own, w.view) && OwnersOk(w.owner, w.view)
    && w.clients.Keys == w.view.sessions.Keys && ListsOk(w.owner, w.clients)
    && ClientsOk(w.own, w.view, w.clients) && RunningOk(w.view)
  }
}
