/** What a session's announcement of files leads to: entries, required files and requests, in the announced order. */
module UploadJoin {
  import opened Bytes
  import opened Paths
  import opened Chunks
  import opened Upload
  import opened UploadRuns

  ghost predicate Increasing(ks: seq<nat>) { forall i, j | 0 <= i < j < |ks| :: ks[i] < ks[j] }

  /** `picked` are the elements of `all` at the positions `ks`, which go up. */
  ghost predicate Picks<T>(all: seq<T>, ks: seq<nat>, picked: seq<T>)
  {
    |ks| == |picked| && Increasing(ks) && forall i | 0 <= i < |ks| :: ks[i] < |all| && picked[i] == all[ks[i]]
  }

  lemma PicksLast<T>(all: seq<T>, last: T, ks: seq<nat>, picked: seq<T>)
    requires Picks(all, ks, picked)
    ensures Picks(all + [last], ks, picked) && Picks(all + [last], ks + [|all|], picked + [last])
  {
    assert forall k | k in ks :: k < |all|;
    var more := ks + [|all|];
    forall i, j | 0 <= i < j < |more| ensures more[i] < more[j] {
      if j == |ks| { assert more[i] == ks[i]; }
    }
  }

  // ---- The required files -------------------------------------------------------------------------------------------

  function Filenames(infos: seq<FileInfo>): (ps: seq<Path>)
    ensures |ps| == |infos| && forall i | 0 <= i < |ps| :: ps[i] == infos[i].filename
  {
    seq(|infos|, i requires 0 <= i < |infos| => infos[i].filename)
  }

  /** The required files are the names announced, in the order announced, exactly the empty ones left out. */
  lemma {:induction false} NamedInOrder(infos: seq<FileInfo>) returns (ks: seq<nat>)
    ensures Picks(Filenames(infos), ks, Named(infos))
    ensures forall k :: k in ks <==> 0 <= k < |infos| && infos[k].filename != []
  {
    ks := [];
    if infos != [] {
      var front, last := infos[..|infos| - 1], infos[|infos| - 1].filename;
      ks := NamedInOrder(front);
      assert Filenames(infos) == Filenames(front) + [last];
      PicksLast(Filenames(front), last, ks, Named(front));
      hide Picks;
      if last != [] { ks := ks + [|front|]; }
    }
  }

  lemma NamedMembers(infos: seq<FileInfo>, p: Path)
    ensures p in Named(infos) <==> p != [] && exists k :: 0 <= k < |infos| && infos[k].filename == p
  {
    var ks := NamedInOrder(infos);
    hide Named;
    if p in Named(infos) {
      var i :| 0 <= i < |Named(infos)| && Named(infos)[i] == p;
      assert ks[i] in ks;
    }
    if p != [] && exists k :: 0 <= k < |infos| && infos[k].filename == p {
      var k: nat :| k < |infos| && infos[k].filename == p;
      var i :| 0 <= i < |ks| && ks[i] == k;
      assert Named(infos)[i] == p;
    }
  }

  // ---- The table of file states -------------------------------------------------------------------------------------

  ghost predicate FirstNamed(infos: seq<FileInfo>, p: Path, k: nat)
  {
    k < |infos| && infos[k].filename == p && forall j | 0 <= j < k :: infos[j].filename != p
  }

  /** An entry that exists is kept; a new one is what the first announcement of its name says. */
  lemma {:induction false} FirstAnnouncementWins(cwd: Path, files: Files, infos: seq<FileInfo>, p: Path)
    ensures p in files ==> p in AddFiles(cwd, files, infos) && AddFiles(cwd, files, infos)[p] == files[p]
    ensures forall k: nat | p !in files && p != [] && FirstNamed(infos, p, k) ::
      p in AddFiles(cwd, files, infos)
      && AddFiles(cwd, files, infos)[p] == FileState(infos[k].size, infos[k].sha1, Initial, ToServer(cwd, p))
  {
    if infos != [] {
      var front := infos[..|infos| - 1];
      FirstAnnouncementWins(cwd, files, front, p);
      AddFilesHasNamed(cwd, files, front);
      NamedMembers(front, p);
      hide Named, ToServer;
      forall k: nat | p !in files && p != [] && FirstNamed(infos, p, k)
        ensures p in AddFiles(cwd, files, infos)
        ensures AddFiles(cwd, files, infos)[p] == FileState(infos[k].size, infos[k].sha1, Initial, ToServer(cwd, p))
      {
        if k < |front| {
          assert FirstNamed(front, p, k);
        } else {
          assert p !in Named(front);
        }
      }
    }
  }

  // ---- The requests -------------------------------------------------------------------------------------------------

  lemma {:induction false} AskKeepsServerPaths(cwd: Path, files: Files, required: seq<Path>)
    requires forall p | p in required :: p in files
    requires forall p | p in files :: ToClient(cwd, files[p].serverPath) == p
    ensures forall p | p in files :: Ask(cwd, files, required).0[p].serverPath == files[p].serverPath
  {
    if required != [] { AskKeepsServerPaths(cwd, files, required[..|required| - 1]); }
  }

  /** The paths asked for are required files, in the order they are required. */
  lemma {:induction false} AskedInOrder(cwd: Path, files: Files, required: seq<Path>) returns (ks: seq<nat>)
    requires forall p | p in required :: p in files
    requires forall p | p in files :: ToClient(cwd, files[p].serverPath) == p
    ensures Picks(required, ks, Ask(cwd, files, required).1)
  {
    ks := [];
    if required != [] {
      var front, last := required[..|required| - 1], required[|required| - 1];
      assert required == front + [last] && last in required;
      ks := AskedInOrder(cwd, files, front);
      AskKeepsServerPaths(cwd, files, front);
      hide ToClient, Picks;
      var (before, asked) := Ask(cwd, files, front);
      PicksLast(front, last, ks, asked);
      if before[last].status == Initial || before[last].status == Fault { ks := ks + [|front|]; }
    }
  }

  // ---- Over whole runs ----------------------------------------------------------------------------------------------

  ghost predicate SameNeeds(v: View, w: View)
  {
    && w.sessions.Keys == v.sessions.Keys
    && forall x | x in v.sessions ::
         w.sessions[x].required == v.sessions[x].required && w.sessions[x].argsReady == v.sessions[x].argsReady
  }

  lemma SweepKeepsNeeds(v: View, order: seq<SessionId>)
    ensures SameNeeds(v, Sweep(v, order))
  {
    hide Newly, Requests, Ready;
  }

  lemma HandleKeepsNeeds(v: View, id: SessionId, m: FileChunk, sp: Path, order: seq<SessionId>)
    requires id in v.sessions && sp in v.sessions[id].transfers && m.filename in v.files
    ensures SameNeeds(v, HandleChunk(v, id, m, sp, order).view)
  {
    hide Sweep, Overlay, Concat, InSequence;
    SweepKeepsNeeds(SetStatus(Accept(v, id, sp, m.chunk), m.filename, Available), order);
  }

  lemma DeliverKeepsNeeds(v: View, id: SessionId, m: FileChunk, order: seq<SessionId>)
    requires id in v.sessions
    ensures SameNeeds(v, ProcessChunk(v, id, m, order).view)
  {
    hide HandleChunk;
    if m.filename in v.files && m.session == id {
      var sp := v.files[m.filename].serverPath;
      var o := Open(v, id, sp);
      assert SameNeeds(v, o);
      HandleKeepsNeeds(o, id, m, sp, order);
    }
  }

  lemma StepKeepsNeeds(v: View, s: Step, id: SessionId)
    requires Next(v, s).Some? && id in v.sessions && v.sessions.Keys <= v.log.used
    ensures var w := Next(v, s).value;
      id in w.sessions ==> w.sessions[id].required == v.sessions[id].required && w.sessions[id].argsReady == v.sessions[id].argsReady
  {
    hide Newly, Requests, ProcessChunk, Ready;
    if s.Deliver? { DeliverKeepsNeeds(v, s.id, s.msg, s.order); }
  }

  lemma ConnectNeeds(v: View, s: Step)
    requires Next(v, s).Some? && s.Connect?
    ensures var w := Next(v, s).value;
      s.id in w.sessions && w.sessions[s.id].required == Named(s.infos) && w.sessions[s.id].argsReady
  {
    hide Newly, Requests, Ready, Ask, AddFiles, Named;
  }

  lemma {:induction false} NeedsLater(cwd: Path, vs: seq<View>, steps: seq<Step>, i: nat, j: nat, id: SessionId)
    requires Run(cwd, vs, steps) && i <= j < |vs| && id in vs[i].sessions
    ensures id in vs[j].log.used
    ensures id in vs[j].sessions ==>
      vs[j].sessions[id].required == vs[i].sessions[id].required && vs[j].sessions[id].argsReady == vs[i].sessions[id].argsReady
  {
    hide Inv, Next;
    RunInv(cwd, vs, steps, i);
    LiveIsUsed(vs[i], id);
    if i < j {
      NeedsLater(cwd, vs, steps, i, j - 1, id);
      RunInv(cwd, vs, steps, j - 1);
      UsedHolds(vs[j - 1]);
      assert Leads(vs[j - 1], steps[j - 1], vs[j]);
      StepBack(vs[j - 1], steps[j - 1], id);
      if id in vs[j].sessions { StepKeepsNeeds(vs[j - 1], steps[j - 1], id); }
    }
  }

  lemma UsedHolds(v: View)
    requires Inv(v)
    ensures v.sessions.Keys <= v.log.used
  {
  }

  /** For as long as it lives, a session requires exactly the files it announced by name. */
  lemma {:induction false} RequiresWhatItAnnounced(cwd: Path, vs: seq<View>, steps: seq<Step>, i: nat, j: nat, p: Path)
    requires Run(cwd, vs, steps) && i < j < |vs| && steps[i].Connect? && steps[i].id in vs[j].sessions
    ensures vs[j].sessions[steps[i].id].argsReady
    ensures p in vs[j].sessions[steps[i].id].required <==>
      p != [] && exists k :: 0 <= k < |steps[i].infos| && steps[i].infos[k].filename == p
  {
    hide Next, Named;
    assert Leads(vs[i], steps[i], vs[i + 1]);
    ConnectNeeds(vs[i], steps[i]);
    NeedsLater(cwd, vs, steps, i + 1, j, steps[i].id);
    NamedMembers(steps[i].infos, p);
  }
}
