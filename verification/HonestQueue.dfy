/** Honest runs seen from the compile queue: which sessions a worker gets to compile. */
module HonestQueue {
  import opened Bytes
  import opened Paths
  import opened Chunks
  import opened Upload
  import opened UploadRuns
  import opened UploadQueue
  import opened Honest
  import opened HonestSafety

  /**
   Once everything sent was handled and no uploader has left, a live session has a valid request in the queue or has
   been started by a worker, if and only if each file it requires was asked for with only flagged lengths up to it.
   */
  lemma {:induction false} CompiledExactly(own: map<Path, Data>, cwd: Path, ws: seq<World>, acts: seq<Act>, i: nat, id: SessionId)
    requires Play(own, cwd, ws, acts) && i < |ws| && Quiet(ws[i]) && id in ws[i].view.sessions
    ensures Request(id, false) in ws[i].view.queue || id in ws[i].view.log.started <==>
      forall p | p in ws[i].view.sessions[id].required :: Unblocked(ws[i], p)
  {
    NobodyWaits(own, cwd, ws, acts, i, id);
    var vs, steps := PlayIsRun(own, cwd, ws, acts, i);
    hide Play, Quiet, Unblocked, Next;
    RunAccounted(cwd, vs, steps, |steps|);
    var v, n := ws[i].view, Pops(steps[..|steps|]);
    hide Run;
    if id in v.log.enqueued {
      EnqueuedIsQueuedOrStarted(v, n, id);
    } else {
      NeverQueued(v, n, id);
    }
  }

  lemma NeverQueued(v: View, n: nat, id: SessionId)
    requires Accounted(v, n) && id !in v.log.enqueued
    ensures Request(id, false) !in v.queue && id !in v.log.started
  {
  }
}
