/** What a new honest session adds. */
module HonestJoin {
  import opened Bytes
  import opened Paths
  import opened Chunks
  import opened Upload
  import opened UploadRuns
  import opened Honest
  import opened HonestRuns

  /** Every entry converts to its server name and back. */
  ghost predicate Proper(cwd: Path, files: Files)
  {
    forall p | p in files :: files[p].serverPath == ToServer(cwd, p) && RoundTrips(cwd, p)
  }

  ghost predicate IsNew(files: Files, p: Path) { p in files && files[p].status == Initial }

  ghost predicate IsFaulty(files: Files, p: Path) { p in files && files[p].status == Fault }

  function Begun(f: FileState, required: bool): FileState
  {
    if required && f.status == Initial then f.(status := Uploading) else f
  }

  /**
   Exactly the new and the faulty entries among the required ones are asked for, under the client's own name,
   and only the new ones change; without faulty entries each is asked for once.
   */
  ghost predicate AskedRight(files: Files, required: seq<Path>, after: Files, asked: seq<Path>)
  {
    && after.Keys == files.Keys && (forall p | p in files :: after[p] == Begun(files[p], p in required))
    && (forall p :: p in asked <==> p in required && (IsNew(files, p) || IsFaulty(files, p)))
    && ((forall p | p in required :: !IsFaulty(files, p)) ==> NoDuplicates(asked))
  }

  /** One more required file. */
  function AskOne(files: Files, front: seq<Path>, last: Path, before: Files, asked: seq<Path>): (Files, seq<Path>)
    requires last in files && last in before
  {
    if files[last].status == Initial && last !in front then (before[last := before[last].(status := Uploading)], asked + [last])
    else (before, if files[last].status == Fault then asked + [last] else asked)
  }

  lemma {:induction false} AskLast(cwd: Path, files: Files, front: seq<Path>, last: Path)
    requires Proper(cwd, files) && last in files && forall p | p in front :: p in files
    requires AskedRight(files, front, Ask(cwd, files, front).0, Ask(cwd, files, front).1)
    ensures Ask(cwd, files, front + [last]) == AskOne(files, front, last, Ask(cwd, files, front).0, Ask(cwd, files, front).1)
  {
    RoundTripExact(cwd, last);
    hide ToServer, ToClient, RoundTrips, NoDuplicates;
    assert (front + [last])[..|front|] == front;
    var before := Ask(cwd, files, front).0;
    assert before[last] == Begun(files[last], last in front);
  }

  lemma {:induction false} AskNewOne(files: Files, front: seq<Path>, last: Path, before: Files, asked: seq<Path>)
    requires last in files && files[last].status == Initial && last !in front && AskedRight(files, front, before, asked)
    ensures var (after, more) := AskOne(files, front, last, before, asked); AskedRight(files, front + [last], after, more)
  {
    assert last !in asked;
  }

  lemma {:induction false} AskOtherOne(files: Files, front: seq<Path>, last: Path, before: Files, asked: seq<Path>)
    requires last in files && !(files[last].status == Initial && last !in front) && AskedRight(files, front, before, asked)
    ensures var (after, more) := AskOne(files, front, last, before, asked); AskedRight(files, front + [last], after, more)
  {
    hide NoDuplicates;
    assert last in front + [last];
  }

  lemma {:induction false} AskExactly(cwd: Path, files: Files, required: seq<Path>)
    requires Proper(cwd, files) && forall p | p in required :: p in files
    ensures AskedRight(files, required, Ask(cwd, files, required).0, Ask(cwd, files, required).1)
  {
    if required != [] {
      var front, last := required[..|required| - 1], required[|required| - 1];
      assert required == front + [last];
      AskExactly(cwd, files, front);
      var (before, asked) := Ask(cwd, files, front);
      AskLast(cwd, files, front, last);
      hide AskedRight, AskOne;
      if files[last].status == Initial && last !in front {
        AskNewOne(files, front, last, before, asked);
      } else {
        AskOtherOne(files, front, last, before, asked);
      }
    }
  }

  /** An entry made for an announced file. */
  ghost predicate Announced(own: map<Path, Data>, cwd: Path, f: FileState, p: Path)
  {
    p in own && f.size == |own[p]| && f.status == Initial && f.serverPath == ToServer(cwd, p) && RoundTrips(cwd, p)
  }

  lemma {:induction false} AddHonest(own: map<Path, Data>, cwd: Path, files: Files, infos: seq<FileInfo>)
    requires Truthful(own, cwd, infos)
    ensures var added := AddFiles(cwd, files, infos);
      && added.Keys == files.Keys + (set p | p in Named(infos))
      && (forall p | p in files :: added[p] == files[p])
      && (forall p | p in added && p !in files :: Announced(own, cwd, added[p], p))
  {
    AddFilesHasNamed(cwd, files, infos);
    if infos != [] {
      AddHonest(own, cwd, files, infos[..|infos| - 1]);
      AddFilesHasNamed(cwd, files, infos[..|infos| - 1]);
      assert infos[|infos| - 1] in infos;
    }
  }

  /** How the view differs after the session joined: new files, all asked for, and a session without transfers. */
  ghost predicate JoinChanged(own: map<Path, Data>, v: View, x: View, id: SessionId, asked: seq<Path>)
  {
    && x.cwd == v.cwd && x.disk == v.disk && x.log.openers == v.log.openers
    && x.log.asked == v.log.asked + asked && x.log.used == v.log.used + {id} && NoDuplicates(asked)
    && x.files.Keys == v.files.Keys + (set p | p in asked)
    && (forall p | p in asked :: p !in v.files && Announced(own, v.cwd, x.files[p].(status := Initial), p)
          && x.files[p].status == Uploading)
    && (forall p | p in v.files :: x.files[p] == v.files[p])
    && x.sessions.Keys == v.sessions.Keys + {id} && x.sessions[id].transfers == map[]
    && (forall i | i in x.sessions :: JoinKept(v, x, id, i))
  }

  ghost predicate JoinKept(v: View, x: View, id: SessionId, i: SessionId)
    requires i in x.sessions
  {
    && (i != id ==> i in v.sessions && x.sessions[i].(running := v.sessions[i].running) == v.sessions[i])
    && (i == id ==> x.sessions[i].argsReady)
    && (x.sessions[i].running ==> Ready(x.files, x.sessions[i]) || (i in v.sessions && v.sessions[i].running && i != id))
  }

  lemma JoinedFiles(own: map<Path, Data>, v: View, infos: seq<FileInfo>, id: SessionId)
    requires FilesOk(own, v) && Truthful(own, v.cwd, infos)
    ensures var x := Joined(v, id, infos).files; var asked := AskedOf(v, infos);
      && x.Keys == v.files.Keys + (set p | p in asked) && NoDuplicates(asked)
      && (forall p | p in asked :: p !in v.files && Announced(own, v.cwd, x[p].(status := Initial), p)
            && x[p].status == Uploading)
      && (forall p | p in v.files :: x[p] == v.files[p])
  {
    hide Flagged, ToServer, ToClient, RoundTrips, Named, AddFiles, Ask;
    var added := AddFiles(v.cwd, v.files, infos);
    AddHonest(own, v.cwd, v.files, infos);
    forall p | p in added
      ensures added[p].serverPath == ToServer(v.cwd, p) && RoundTrips(v.cwd, p) && !IsFaulty(added, p)
    {
      if p in v.files { assert FileOk(own, v, p); }
    }
    forall p | p in v.files
      ensures !IsNew(added, p)
    {
      assert FileOk(own, v, p);
    }
    AskExactly(v.cwd, added, Named(infos));
  }

  lemma JoinedChanged(own: map<Path, Data>, v: View, infos: seq<FileInfo>, id: SessionId, order: seq<SessionId>)
    requires FilesOk(own, v) && Truthful(own, v.cwd, infos) && id !in v.sessions
    ensures JoinChanged(own, v, Sweep(Joined(v, id, infos), order), id, AskedOf(v, infos))
  {
    hide FilesOk, Truthful;
    JoinedFiles(own, v, infos, id);
  }

  // ---- The invariant after joining ------------------------------------------------------------------------------------

  lemma JoinFiles(own: map<Path, Data>, v: View, x: View, id: SessionId, asked: seq<Path>)
    requires FilesOk(own, v) && JoinChanged(own, v, x, id, asked)
    ensures FilesOk(own, x)
  {
    hide Flagged;
    forall p | p in x.files
      ensures FileOk(own, x, p)
    {
      if p in v.files { assert FileOk(own, v, p); }
    }
  }

  lemma JoinOpeners(own: map<Path, Data>, owner: map<Path, SessionId>, v: View, x: View, id: SessionId, asked: seq<Path>, p: Path)
    requires OwnersOk(owner, v) && JoinChanged(own, v, x, id, asked) && (p in owner || p in asked)
    ensures Openers(x.log, ToServer(x.cwd, p)) <= {Owned(owner, asked, id)[p]}
  {
    if p in asked { RoundTripExact(v.cwd, p); }
  }

  lemma JoinAsked(owner: map<Path, SessionId>, before: seq<Path>, asked: seq<Path>, id: SessionId)
    requires NoDuplicates(before) && NoDuplicates(asked) && (forall p :: p in before <==> p in owner)
    requires forall p | p in asked :: p !in owner
    ensures NoDuplicates(before + asked) && forall p :: p in before + asked <==> p in Owned(owner, asked, id)
  {
    AppendDistinct(before, asked);
  }

  lemma JoinAllOpeners(own: map<Path, Data>, owner: map<Path, SessionId>, v: View, x: View, id: SessionId, asked: seq<Path>)
    requires OwnersOk(owner, v) && JoinChanged(own, v, x, id, asked)
    ensures forall p | p in Owned(owner, asked, id) ::
      Openers(x.log, ToServer(x.cwd, p)) <= {Owned(owner, asked, id)[p]}
  {
    hide NoDuplicates, OwnersOk, JoinChanged, Openers;
    forall p | p in Owned(owner, asked, id)
      ensures Openers(x.log, ToServer(x.cwd, p)) <= {Owned(owner, asked, id)[p]}
    {
      JoinOpeners(own, owner, v, x, id, asked, p);
    }
  }

  lemma JoinOwners(own: map<Path, Data>, owner: map<Path, SessionId>, v: View, x: View, id: SessionId, asked: seq<Path>)
    requires OwnersOk(owner, v) && JoinChanged(own, v, x, id, asked)
    ensures OwnersOk(Owned(owner, asked, id), x)
  {
    hide NoDuplicates, Announced, JoinKept, ToServer, ToClient, Openers;
    JoinAsked(owner, v.log.asked, asked, id);
    JoinAllOpeners(own, owner, v, x, id, asked);
  }

  lemma JoinLists(owner: map<Path, SessionId>, clients: map<SessionId, Client>, id: SessionId, asked: seq<Path>, c: Client)
    requires ListsOk(owner, clients) && id !in clients && (forall p | p in owner :: owner[p] != id)
    requires NoDuplicates(asked) && (forall p | p in asked :: p !in owner) && c.requested == asked
    ensures ListsOk(Owned(owner, asked, id), clients[id := c])
  {
    var clients' := clients[id := c];
    forall i | i in clients'
      ensures ListOk(Owned(owner, asked, id), i, clients'[i].requested)
    {
      if i != id { assert ListOk(owner, i, clients[i].requested); }
    }
  }

  lemma JoinClients(own: map<Path, Data>, owner: map<Path, SessionId>, v: View, x: View, id: SessionId, asked: seq<Path>,
                    clients: map<SessionId, Client>)
    requires owner.Keys == v.files.Keys && ListsOk(owner, clients) && clients.Keys == v.sessions.Keys && id !in clients
    requires ClientsOk(own, v, clients) && JoinChanged(own, v, x, id, asked)
    ensures ClientsOk(own, x, clients[id := Client(asked, 0, [], CallSend)])
  {
    hide Split, Addressed, NoDuplicates, InFlight;
    forall i | i in clients
      ensures ClientOk(own, x, i, clients[i])
    {
      assert ListOk(owner, i, clients[i].requested) && JoinKept(v, x, id, i);
      SameClientOk(own, v, x, i, clients[i]);
    }
  }

  lemma JoinRunning(own: map<Path, Data>, v: View, x: View, id: SessionId, asked: seq<Path>)
    requires RunningOk(v) && JoinChanged(own, v, x, id, asked)
    ensures RunningOk(x)
  {
    forall i | i in x.sessions
      ensures x.sessions[i].argsReady && (x.sessions[i].running ==> AllAvailable(x.files, x.sessions[i].required))
    {
      assert JoinKept(v, x, id, i);
      if i != id && v.sessions[i].running { assert AllAvailable(v.files, v.sessions[i].required); }
    }
  }

  /** The session is new to everything. */
  lemma JoinFresh(w: World, x: View, id: SessionId, asked: seq<Path>)
    requires HonestInv(w) && id !in w.view.log.used && JoinChanged(w.own, w.view, x, id, asked)
    ensures id !in w.clients && (forall p | p in w.owner :: w.owner[p] != id) && (forall p | p in asked :: p !in w.owner)
    ensures w.clients[id := Client(asked, 0, [], CallSend)].Keys == x.sessions.Keys && NoDuplicates(asked)
  {
    hide Split;
  }

  lemma JoinWorld(w: World, x: View, id: SessionId, asked: seq<Path>)
    requires HonestInv(w) && Inv(x) && id !in w.view.log.used && JoinChanged(w.own, w.view, x, id, asked)
    ensures HonestInv(w.(view := x, owner := Owned(w.owner, asked, id),
                         clients := w.clients[id := Client(asked, 0, [], CallSend)]))
  {
    JoinFresh(w, x, id, asked);
    hide FilesOk, RunningOk, ListsOk, ClientsOk, Inv, NoDuplicates;
    JoinLists(w.owner, w.clients, id, asked, Client(asked, 0, [], CallSend));
    JoinFiles(w.own, w.view, x, id, asked);
    JoinOwners(w.own, w.owner, w.view, x, id, asked);
    JoinRunning(w.own, w.view, x, id, asked);
    JoinClients(w.own, w.owner, w.view, x, id, asked, w.clients);
  }

  lemma JoinInv(w: World, id: SessionId, infos: seq<FileInfo>, order: seq<SessionId>)
    requires HonestInv(w) && Do(w, Join(id, infos, order)).Some?
    ensures HonestInv(Do(w, Join(id, infos, order)).value)
  {
    hide Split;
    var x := Sweep(Joined(w.view, id, infos), order);
    StepInv(w.view, Connect(id, infos, order));
    JoinedChanged(w.own, w.view, infos, id, order);
    JoinWorld(w, x, id, AskedOf(w.view, infos));
  }
}
