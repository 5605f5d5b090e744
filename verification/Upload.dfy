/**
 The server's view of one client: the table of file states shared by all sessions, the sessions with their
 transfers, the disk and the compile queue. Adding a session, handling a chunk, terminating a session and
 a worker taking a request are atomic steps.
 */
module Upload {
  import opened Bytes
  import opened Paths
  import opened Chunks

  datatype Status = Initial | Uploading | Available | Fault
  datatype FileState = FileState(size: nat, sha1: Digest, status: Status, serverPath: Path)
  datatype FileInfo = FileInfo(filename: Path, size: nat, sha1: Digest)

  /** `chunks` are those handed to the transfer's output stream. */
  datatype Transfer = Transfer(finished: bool, session: SessionId, lastSeq: nat, lastOffset: nat, chunks: seq<Chunk>)

  /** `required` are the client paths of the file states the session points to. */
  datatype Session = Session(required: seq<Path>, argsReady: bool, running: bool, transfers: map<Path, Transfer>)

  datatype Request = Request(session: SessionId, invalidated: bool)

  type Files = map<Path, FileState>
  type Sessions = map<SessionId, Session>

  /** What happened so far: session ids given out, paths asked for, requests enqueued and started, files opened. */
  datatype Log = Log(used: set<SessionId>, asked: seq<Path>, enqueued: seq<SessionId>, started: seq<SessionId>,
                     openers: map<Path, set<SessionId>>)

  datatype View = View(cwd: Path, files: Files, sessions: Sessions, disk: map<Path, Data>, queue: seq<Request>, log: Log)

  function Init(cwd: Path): View
  {
    View(cwd, map[], map[], map[], [], Log({}, [], [], [], map[]))
  }

  // ---- Requesting a compilation -------------------------------------------------------------------------------

  predicate AllAvailable(files: Files, required: seq<Path>)
  {
    forall p | p in required :: p in files && files[p].status == Available
  }

  predicate Ready(files: Files, s: Session) { s.argsReady && AllAvailable(files, s.required) }

  function Swept(files: Files, s: Session): Session
  {
    if Ready(files, s) then s.(running := true) else s
  }

  /** The sessions among `order` whose request is enqueued by a sweep. */
  function Newly(files: Files, sessions: Sessions, order: seq<SessionId>): (r: seq<SessionId>)
  {
    if order == [] then []
    else
      var id := order[|order| - 1];
      Newly(files, sessions, order[..|order| - 1])
      + if id in sessions && Ready(files, sessions[id]) && !sessions[id].running then [id] else []
  }

  function Requests(ids: seq<SessionId>): (r: seq<Request>)
    ensures |r| == |ids| && forall i | 0 <= i < |ids| :: r[i] == Request(ids[i], false)
  {
    seq(|ids|, i requires 0 <= i < |ids| => Request(ids[i], false))
  }

  /** `order` is the iteration order of the session table. */
  ghost predicate Lists(order: seq<SessionId>, ids: set<SessionId>)
  {
    && (forall id :: id in order <==> id in ids)
    && NoDuplicates(order)
  }

  ghost predicate NoDuplicates<T>(s: seq<T>)
  {
    forall i, j | 0 <= i < j < |s| :: s[i] != s[j]
  }

  function Sweep(v: View, order: seq<SessionId>): View
  {
    var newly := Newly(v.files, v.sessions, order);
    v.(sessions := map id | id in v.sessions :: Swept(v.files, v.sessions[id]),
       queue := v.queue + Requests(newly),
       log := v.log.(enqueued := v.log.enqueued + newly))
  }

  // ---- Adding a session ---------------------------------------------------------------------------------------

  /** Never overwrites an existing entry. */
  function AddFile(cwd: Path, files: Files, info: FileInfo): Files
  {
    if info.filename in files then files
    else files[info.filename := FileState(info.size, info.sha1, Initial, ToServer(cwd, info.filename))]
  }

  function AddFiles(cwd: Path, files: Files, infos: seq<FileInfo>): Files
  {
    if infos == [] then files
    else
      var before, info := AddFiles(cwd, files, infos[..|infos| - 1]), infos[|infos| - 1];
      if info.filename == [] then before else AddFile(cwd, before, info)
  }

  /** Entries with an empty file name are skipped. */
  function Named(infos: seq<FileInfo>): (r: seq<Path>)
  {
    if infos == [] then []
    else
      var before, info := Named(infos[..|infos| - 1]), infos[|infos| - 1];
      if info.filename == [] then before else before + [info.filename]
  }

  function UpdateFile(files: Files, p: Path, f: FileState): Files
  {
    if p in files then files[p := f] else files
  }

  /** The table after asking for the required files, and the client paths asked for. */
  function Ask(cwd: Path, files: Files, required: seq<Path>): (r: (Files, seq<Path>))
    requires forall p | p in required :: p in files
    ensures r.0.Keys == files.Keys
    ensures |r.1| <= |required|
  {
    if required == [] then (files, [])
    else
      var (before, asked) := Ask(cwd, files, required[..|required| - 1]);
      var f := before[required[|required| - 1]];
      var c := ToClient(cwd, f.serverPath);
      match f.status
      case Initial => (UpdateFile(before, c, f.(status := Uploading)), asked + [c])
      case Fault => (before, asked + [c])
      case _ => (before, asked)
  }

  lemma {:induction false} AddFilesHasNamed(cwd: Path, files: Files, infos: seq<FileInfo>)
    ensures AddFiles(cwd, files, infos).Keys == files.Keys + set p | p in Named(infos)
  {
    if infos != [] { AddFilesHasNamed(cwd, files, infos[..|infos| - 1]); }
  }

  /** The paths the server asks a new session for. */
  function AskedOf(v: View, infos: seq<FileInfo>): seq<Path>
  {
    AddFilesHasNamed(v.cwd, v.files, infos);
    Ask(v.cwd, AddFiles(v.cwd, v.files, infos), Named(infos)).1
  }

  /** The new session, before its first sweep. */
  function Joined(v: View, id: SessionId, infos: seq<FileInfo>): View
  {
    AddFilesHasNamed(v.cwd, v.files, infos);
    var required := Named(infos);
    var (files, asked) := Ask(v.cwd, AddFiles(v.cwd, v.files, infos), required);
    v.(files := files,
       sessions := v.sessions[id := Session(required, true, false, map[])],
       log := v.log.(used := v.log.used + {id}, asked := v.log.asked + asked))
  }

  // ---- Handling a chunk ---------------------------------------------------------------------------------------

  /** The new view, what the handler returns, and whether it reports the upload as complete. */
  datatype Outcome = Outcome(view: View, ok: bool, complete: bool)

  function SetStatus(v: View, p: Path, s: Status): View
    requires p in v.files
  {
    v.(files := v.files[p := v.files[p].(status := s)])
  }

  function PutTransfer(v: View, id: SessionId, sp: Path, t: Transfer): View
    requires id in v.sessions
  {
    v.(sessions := v.sessions[id := v.sessions[id].(transfers := v.sessions[id].transfers[sp := t])])
  }

  function Openers(log: Log, sp: Path): set<SessionId> { if sp in log.openers then log.openers[sp] else {} }

  /** Opens the output file, truncating it, unless this session has a transfer for it already. */
  function Open(v: View, id: SessionId, sp: Path): View
    requires id in v.sessions
  {
    if sp in v.sessions[id].transfers then v
    else
      PutTransfer(v, id, sp, Transfer(false, id, 0, 0, [])).(
        disk := v.disk[sp := []],
        log := v.log.(openers := v.log.openers[sp := Openers(v.log, sp) + {id}]))
  }

  /** Bytes written at a stream position; a gap is filled with zeros. */
  function Overlay(file: Data, pos: nat, data: Data): (r: Data)
    ensures |r| >= pos + |data| && r[pos..pos + |data|] == data
    ensures pos == |file| ==> r == file + data
  {
    var head: Data := if pos <= |file| then file[..pos] else file + seq(pos - |file|, i => 0);
    head + data + if pos + |data| <= |file| then file[pos + |data|..] else []
  }

  function FileOn(disk: map<Path, Data>, sp: Path): Data { if sp in disk then disk[sp] else [] }

  /** The chunk goes to the transfer's stream. */
  function Accept(v: View, id: SessionId, sp: Path, c: Chunk): View
    requires id in v.sessions && sp in v.sessions[id].transfers
  {
    var t := v.sessions[id].transfers[sp];
    PutTransfer(v, id, sp, Transfer(c.isLast, t.session, c.seqNo, c.offset, t.chunks + [c])).(
      disk := v.disk[sp := Overlay(FileOn(v.disk, sp), |Concat(t.chunks)|, c.data)])
  }

  function Finish(v: View, id: SessionId, sp: Path): View
    requires id in v.sessions && sp in v.sessions[id].transfers
  {
    PutTransfer(v, id, sp, v.sessions[id].transfers[sp].(finished := true))
  }

  predicate InSequence(t: Transfer, id: SessionId, c: Chunk)
  {
    t.session == id && c.seqNo == t.lastSeq + 1 && c.offset >= t.lastOffset
  }

  /** A chunk for a transfer that is open and not finished. */
  function HandleChunk(v: View, id: SessionId, m: FileChunk, sp: Path, order: seq<SessionId>): Outcome
    requires id in v.sessions && sp in v.sessions[id].transfers && m.filename in v.files
  {
    if !InSequence(v.sessions[id].transfers[sp], id, m.chunk) then
      Outcome(SetStatus(Finish(v, id, sp), m.filename, Fault), false, false)
    else
      var w := Accept(v, id, sp, m.chunk);
      if !m.chunk.isLast then Outcome(w, true, false)
      else if w.files[m.filename].size != |w.disk[sp]| then Outcome(SetStatus(w, m.filename, Fault), false, false)
      else Outcome(Sweep(SetStatus(w, m.filename, Available), order), true, true)
  }

  function ProcessChunk(v: View, id: SessionId, m: FileChunk, order: seq<SessionId>): Outcome
    requires id in v.sessions
  {
    if m.filename !in v.files then Outcome(v, false, false)
    else if m.session != id then Outcome(SetStatus(v, m.filename, Fault), false, false)
    else
      var sp := v.files[m.filename].serverPath;
      var o := Open(v, id, sp);
      if o.sessions[id].transfers[sp].finished then Outcome(o, true, false)
      else HandleChunk(o, id, m, sp, order)
  }

  // ---- Terminating a session, taking a request ------------------------------------------------------------------

  function Invalidated(r: Request, id: SessionId): Request { if r.session == id then r.(invalidated := true) else r }

  function InvalidateAll(queue: seq<Request>, id: SessionId): (r: seq<Request>)
    ensures |r| == |queue| && forall i | 0 <= i < |r| :: r[i] == Invalidated(queue[i], id)
  {
    seq(|queue|, i requires 0 <= i < |queue| => Invalidated(queue[i], id))
  }

  function Terminated(v: View, id: SessionId): View
  {
    v.(queue := InvalidateAll(v.queue, id), sessions := v.sessions - {id})
  }

  function Popped(v: View): View
    requires v.queue != []
  {
    var r := v.queue[0];
    v.(queue := v.queue[1..],
       log := if r.invalidated then v.log else v.log.(started := v.log.started + [r.session]))
  }

  // ---- Runs -----------------------------------------------------------------------------------------------------

  datatype Step =
    | Connect(id: SessionId, infos: seq<FileInfo>, order: seq<SessionId>)
    | Deliver(id: SessionId, msg: FileChunk, order: seq<SessionId>)
    | Terminate(id: SessionId)
    | Pop

  /** The view after a step; None when the step cannot be taken. */
  ghost function Next(v: View, s: Step): Option<View>
  {
    match s
    case Connect(id, infos, order) =>
      if id in v.log.used || !Lists(order, v.sessions.Keys + {id}) then None else Some(Sweep(Joined(v, id, infos), order))
    case Deliver(id, m, order) =>
      if id !in v.sessions || !Lists(order, v.sessions.Keys) then None else Some(ProcessChunk(v, id, m, order).view)
    case Terminate(id) => if id !in v.sessions then None else Some(Terminated(v, id))
    case Pop => if v.queue == [] then None else Some(Popped(v))
  }

  ghost predicate Leads(v: View, s: Step, w: View) { Next(v, s) == Some(w) }

  /** A run: the views before and after each of its steps. */
  ghost predicate Run(cwd: Path, vs: seq<View>, steps: seq<Step>)
  {
    && |vs| == |steps| + 1 && vs[0] == Init(cwd)
    && forall i | 0 <= i < |steps| :: Leads(vs[i], steps[i], vs[i + 1])
  }
}
