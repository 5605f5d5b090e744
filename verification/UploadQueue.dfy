/**
 The compile queue over whole runs: requests are taken in the order they were enqueued, none is lost, and
 exactly those of terminated sessions are dropped.
 */
module UploadQueue {
  import opened Bytes
  import opened Paths
  import opened Chunks
  import opened Upload
  import opened UploadRuns

  /** How many requests the workers have taken. */
  function Pops(steps: seq<Step>): nat
  {
    if steps == [] then 0 else Pops(steps[..|steps| - 1]) + if steps[|steps| - 1].Pop? then 1 else 0
  }

  /** After `n` pops the queue holds the other requests in order, invalidated exactly if the session is gone. */
  ghost predicate Queued(v: View, n: nat)
  {
    && n + |v.queue| == |v.log.enqueued|
    && forall i | 0 <= i < |v.queue| ::
         v.queue[i] == Request(v.log.enqueued[n + i], v.log.enqueued[n + i] !in v.sessions)
  }

  /** Of the requests taken, those of sessions still alive were started, and only requests enqueued were. */
  ghost predicate Taken(v: View, n: nat)
  {
    && (forall k | 0 <= k < n && k < |v.log.enqueued| && v.log.enqueued[k] in v.sessions ::
          v.log.enqueued[k] in v.log.started)
    && (forall id | id in v.log.started :: id in v.log.enqueued)
  }

  ghost predicate Accounted(v: View, n: nat) { Queued(v, n) && Taken(v, n) }

  // ---- Steps that may enqueue ---------------------------------------------------------------------------------------

  /** From `v` to `w` the requests of `newly` were enqueued and nothing else happened to the queue. */
  ghost predicate GrownBy(v: View, w: View, newly: seq<SessionId>)
  {
    && w.queue == v.queue + Requests(newly) && w.log.enqueued == v.log.enqueued + newly
    && w.log.started == v.log.started && w.sessions.Keys == v.sessions.Keys && forall id | id in newly :: id in v.sessions
  }

  lemma GrownAccounted(v: View, w: View, newly: seq<SessionId>, n: nat)
    requires Accounted(v, n) && GrownBy(v, w, newly)
    ensures Accounted(w, n)
  {
    forall i | 0 <= i < |w.queue|
      ensures w.queue[i] == Request(w.log.enqueued[n + i], w.log.enqueued[n + i] !in w.sessions)
    {
      if i >= |v.queue| { assert newly[i - |v.queue|] in newly; }
    }
  }

  lemma SweepGrows(v: View, order: seq<SessionId>)
    ensures GrownBy(v, Sweep(v, order), Newly(v.files, v.sessions, order))
  {
    NewlyMembers(v.files, v.sessions, order);
  }

  /** What handling a chunk enqueues. */
  ghost function Enqueues(v: View, id: SessionId, m: FileChunk, order: seq<SessionId>): seq<SessionId>
    requires id in v.sessions
  {
    if !Completes(v, id, m) then []
    else
      var sp := v.files[m.filename].serverPath;
      var w := SetStatus(Accept(Open(v, id, sp), id, sp, m.chunk), m.filename, Available);
      Newly(w.files, w.sessions, order)
  }

  lemma SameGrown(v: View, w: View)
    requires w.queue == v.queue && w.log.enqueued == v.log.enqueued && w.log.started == v.log.started
    requires w.sessions.Keys == v.sessions.Keys
    ensures GrownBy(v, w, [])
  {
    assert v.queue + [] == v.queue && v.log.enqueued + [] == v.log.enqueued;
  }

  lemma CompletedGrows(v: View, id: SessionId, m: FileChunk, order: seq<SessionId>)
    requires Completes(v, id, m)
    ensures GrownBy(v, ProcessChunk(v, id, m, order).view, Enqueues(v, id, m, order))
  {
    hide Sweep, Overlay, Concat, InSequence;
    var sp := v.files[m.filename].serverPath;
    var o := Open(v, id, sp);
    var w := SetStatus(Accept(o, id, sp, m.chunk), m.filename, Available);
    RefusedExactly(v, id, m, order);
    assert ProcessChunk(v, id, m, order).view == Sweep(w, order);
    SweepGrows(w, order);
    assert w.sessions.Keys == v.sessions.Keys && w.queue == v.queue && w.log.(openers := v.log.openers) == v.log;
  }

  lemma DeliverGrows(v: View, id: SessionId, m: FileChunk, order: seq<SessionId>)
    requires id in v.sessions
    ensures GrownBy(v, ProcessChunk(v, id, m, order).view, Enqueues(v, id, m, order))
  {
    hide ProcessChunk, Completes, Refuses;
    if Completes(v, id, m) {
      CompletedGrows(v, id, m, order);
    } else {
      RefusedExactly(v, id, m, order);
      ProcessChunkFollows(v, id, m, order);
      SameGrown(v, ProcessChunk(v, id, m, order).view);
    }
  }

  // ---- Every step ---------------------------------------------------------------------------------------------------

  lemma JoinedAccounted(v: View, id: SessionId, infos: seq<FileInfo>, n: nat)
    requires Accounted(v, n) && IdsOk(v) && id !in v.log.used
    ensures Accounted(Joined(v, id, infos), n)
  {
    hide Ask, AddFiles, Named, NoDuplicates;
    var w := Joined(v, id, infos);
    assert forall k | 0 <= k < |v.log.enqueued| :: v.log.enqueued[k] in v.log.enqueued && v.log.enqueued[k] != id;
    assert w.queue == v.queue && w.log.enqueued == v.log.enqueued && w.log.started == v.log.started;
  }

  lemma TerminatedAccounted(v: View, id: SessionId, n: nat)
    requires Accounted(v, n)
    ensures Accounted(Terminated(v, id), n)
  {
  }

  lemma PoppedAccounted(v: View, n: nat)
    requires Accounted(v, n) && v.queue != []
    ensures Accounted(Popped(v), n + 1)
  {
  }

  lemma StepAccounted(v: View, s: Step, n: nat)
    requires Inv(v) && Accounted(v, n) && Next(v, s).Some?
    ensures Accounted(Next(v, s).value, if s.Pop? then n + 1 else n)
  {
    hide Accounted, GrownBy, Joined, Sweep, ProcessChunk, Terminated, Popped, IdsOk;
    match s
    case Connect(id, infos, order) =>
      var w := Joined(v, id, infos);
      JoinedAccounted(v, id, infos, n);
      SweepGrows(w, order);
      GrownAccounted(w, Sweep(w, order), Newly(w.files, w.sessions, order), n);
    case Deliver(id, m, order) =>
      DeliverGrows(v, id, m, order);
      GrownAccounted(v, ProcessChunk(v, id, m, order).view, Enqueues(v, id, m, order), n);
    case Terminate(id) => TerminatedAccounted(v, id, n);
    case Pop => PoppedAccounted(v, n);
  }

  lemma InitAccounted(cwd: Path)
    ensures Accounted(Init(cwd), 0)
  {
  }

  lemma {:induction false} RunAccounted(cwd: Path, vs: seq<View>, steps: seq<Step>, i: nat)
    requires Run(cwd, vs, steps) && i < |vs|
    ensures Accounted(vs[i], Pops(steps[..i]))
  {
    hide Accounted, Inv, Next;
    if i == 0 {
      InitAccounted(cwd);
    } else {
      RunAccounted(cwd, vs, steps, i - 1);
      RunInv(cwd, vs, steps, i - 1);
      assert Leads(vs[i - 1], steps[i - 1], vs[i]);
      assert steps[..i][..i - 1] == steps[..i - 1];
      StepAccounted(vs[i - 1], steps[i - 1], Pops(steps[..i - 1]));
    }
  }

  // ---- Over whole runs ----------------------------------------------------------------------------------------------

  /**
   First in, first out: what is queued is what was enqueued without what was taken, in that order, and a request
   is invalidated exactly when its session has been terminated.
   */
  lemma {:induction false} QueueIsFifo(cwd: Path, vs: seq<View>, steps: seq<Step>, i: nat)
    requires Run(cwd, vs, steps) && i < |vs|
    ensures var v, n := vs[i], Pops(steps[..i]);
      && n + |v.queue| == |v.log.enqueued|
      && forall k | 0 <= k < |v.queue| ::
           v.queue[k].session == v.log.enqueued[n + k] && (v.queue[k].invalidated <==> v.queue[k].session !in v.sessions)
  {
    RunAccounted(cwd, vs, steps, i);
  }

  lemma EnqueuedIsQueuedOrStarted(v: View, n: nat, id: SessionId)
    requires Accounted(v, n) && id in v.log.enqueued && id in v.sessions
    ensures Request(id, false) in v.queue || id in v.log.started
  {
    var k :| 0 <= k < |v.log.enqueued| && v.log.enqueued[k] == id;
    if k >= n { assert v.queue[k - n] == Request(id, false); }
  }

  /** A live session marked running has a valid request in the queue, or a worker has started it. */
  lemma {:induction false} RunningIsQueuedOrStarted(cwd: Path, vs: seq<View>, steps: seq<Step>, i: nat, id: SessionId)
    requires Run(cwd, vs, steps) && i < |vs| && id in vs[i].sessions && vs[i].sessions[id].running
    ensures Request(id, false) in vs[i].queue || id in vs[i].log.started
  {
    hide Accounted, Ready, Next;
    EnqueuedAtMostOnce(cwd, vs, steps, i);
    RunAccounted(cwd, vs, steps, i);
    EnqueuedIsQueuedOrStarted(vs[i], Pops(steps[..i]), id);
  }

  /** A session with all its files has a valid request in the queue, or a worker has started it. */
  lemma {:induction false} ReadyIsQueuedOrStarted(cwd: Path, vs: seq<View>, steps: seq<Step>, i: nat, id: SessionId)
    requires Run(cwd, vs, steps) && i < |vs| && id in vs[i].sessions
    requires vs[i].sessions[id].argsReady && forall p | p in vs[i].sessions[id].required :: IsAvailable(vs[i].files, p)
    ensures Request(id, false) in vs[i].queue || id in vs[i].log.started
  {
    RunInv(cwd, vs, steps, i);
    assert NoneForgotten(vs[i]) && Ready(vs[i].files, vs[i].sessions[id]);
    RunningIsQueuedOrStarted(cwd, vs, steps, i, id);
  }

  /**
   A worker takes the request that was enqueued first among those not taken, and starts it exactly if its session
   is alive; no other step starts anything.
   */
  lemma {:induction false} PopStarts(cwd: Path, vs: seq<View>, steps: seq<Step>, i: nat)
    requires Run(cwd, vs, steps) && i < |steps|
    ensures var v, w, n := vs[i], vs[i + 1], Pops(steps[..i]);
      if !steps[i].Pop? then w.log.started == v.log.started
      else
        && n < |v.log.enqueued| && w.log.enqueued == v.log.enqueued
        && w.log.started == v.log.started + if v.log.enqueued[n] in v.sessions then [v.log.enqueued[n]] else []
  {
    RunAccounted(cwd, vs, steps, i);
    assert Leads(vs[i], steps[i], vs[i + 1]);
    if steps[i].Deliver? {
      hide ProcessChunk;
      ProcessChunkFollows(vs[i], steps[i].id, steps[i].msg, steps[i].order);
    }
  }

  // ---- Which requests are enqueued, and when ------------------------------------------------------------------------

  /** Everything enqueued from `v` to `w` belongs to a live session that has all its files. */
  ghost predicate OnlyReady(v: View, w: View)
  {
    forall x | x in w.log.enqueued && x !in v.log.enqueued :: x in w.sessions && Ready(w.files, w.sessions[x])
  }

  lemma SweepOnlyReady(v: View, order: seq<SessionId>)
    ensures OnlyReady(v, Sweep(v, order))
  {
    NewlyMembers(v.files, v.sessions, order);
    var w := Sweep(v, order);
    forall x | x in w.log.enqueued && x !in v.log.enqueued
      ensures x in w.sessions && Ready(w.files, w.sessions[x])
    {
      assert w.sessions[x].required == v.sessions[x].required;
    }
  }

  lemma DeliverOnlyReady(v: View, id: SessionId, m: FileChunk, order: seq<SessionId>)
    requires id in v.sessions
    ensures OnlyReady(v, ProcessChunk(v, id, m, order).view)
  {
    if Completes(v, id, m) {
      hide Sweep, Overlay, Concat, InSequence, Ready;
      var sp := v.files[m.filename].serverPath;
      var w := SetStatus(Accept(Open(v, id, sp), id, sp, m.chunk), m.filename, Available);
      RefusedExactly(v, id, m, order);
      assert ProcessChunk(v, id, m, order).view == Sweep(w, order);
      SweepOnlyReady(w, order);
    } else {
      hide ProcessChunk, Completes, Refuses;
      RefusedExactly(v, id, m, order);
    }
  }

  lemma StepOnlyReady(v: View, s: Step)
    requires Next(v, s).Some?
    ensures OnlyReady(v, Next(v, s).value)
  {
    match s
    case Connect(id, infos, order) => SweepOnlyReady(Joined(v, id, infos), order);
    case Deliver(id, m, order) => DeliverOnlyReady(v, id, m, order);
    case Terminate(id) =>
    case Pop =>
  }

  /** A step enqueues exactly the live sessions that have all their files after it and were not enqueued before. */
  lemma {:induction false} EnqueuedExactlyWhenReady(cwd: Path, vs: seq<View>, steps: seq<Step>, i: nat, id: SessionId)
    requires Run(cwd, vs, steps) && i < |steps| && id !in vs[i].log.enqueued
    ensures var w := vs[i + 1];
      id in w.log.enqueued <==>
        id in w.sessions && w.sessions[id].argsReady && forall p | p in w.sessions[id].required :: IsAvailable(w.files, p)
  {
    hide Next;
    assert Leads(vs[i], steps[i], vs[i + 1]);
    StepOnlyReady(vs[i], steps[i]);
    EnqueuedAtMostOnce(cwd, vs, steps, i + 1);
  }
}
