/** The worker pool over whole runs: whose jobs there are, which are dropped, what a worker does, and that shutdown ends. */
module PoolRuns {
  import opened Bytes
  import opened Pool

  /** The sessions of the requests added, in order. */
  function Adds(ts: seq<Turn>): seq<SessionId>
  {
    if ts == [] then []
    else Adds(ts[..|ts| - 1]) + if ts[|ts| - 1].Add? then [ts[|ts| - 1].session] else []
  }

  lemma {:induction false} AddsPrefix(ts: seq<Turn>, t: nat)
    requires t <= |ts|
    ensures Adds(ts[..t]) <= Adds(ts)
    decreases |ts|
  {
    if t == |ts| {
      assert ts[..t] == ts;
    } else {
      var front := ts[..|ts| - 1];
      AddsPrefix(front, t);
      assert front[..t] == ts[..t];
    }
  }

  /** All jobs, those taken and those queued. */
  function Jobs(p: Pool): seq<Job> { p.popped + p.queue }

  /** How the jobs after a turn follow from those before it. */
  ghost predicate JobsFollow(p: Pool, q: Pool, t: Turn)
  {
    && p.popped <= q.popped && |Jobs(q)| == |Jobs(p)| + (if t.Add? then 1 else 0)
    && (t.Add? ==> Jobs(q)[|Jobs(p)|].session == t.session && !Jobs(q)[|Jobs(p)|].invalidated)
    && forall k | 0 <= k < |Jobs(p)| ::
         && Jobs(q)[k].session == Jobs(p)[k].session
         && (Jobs(q)[k].invalidated <==>
              Jobs(p)[k].invalidated || (t == Invalidate(Jobs(p)[k].session) && |p.popped| <= k))
  }

  lemma SameJobs(p: Pool, q: Pool, t: Turn)
    requires !t.Add? && !t.Invalidate? && p.popped <= q.popped && Jobs(q) == Jobs(p)
    ensures JobsFollow(p, q, t)
  {
  }

  lemma EnterJobs(p: Pool, i: nat)
    requires i < |p.workers|
    ensures p.popped <= EnterTurn(p, i).popped && Jobs(EnterTurn(p, i)) == Jobs(p)
  {
    if p.queue != [] { assert p.popped + [p.queue[0]] + p.queue[1..] == p.popped + p.queue; }
  }

  lemma AddJobs(p: Pool, t: Turn)
    requires t.Add? && Enabled(p, t)
    ensures JobsFollow(p, Next(p, t), t)
  {
    var q := Next(p, t);
    assert Jobs(q) == Jobs(p) + [q.queue[|p.queue|]];
  }

  lemma InvalidateJobs(p: Pool, s: SessionId)
    ensures JobsFollow(p, p.(queue := FlagAll(p.queue, s)), Invalidate(s))
  {
  }

  lemma TurnJobs(p: Pool, t: Turn)
    requires Enabled(p, t)
    ensures JobsFollow(p, Next(p, t), t)
  {
    hide JobsFollow, Jobs, NotifyEvery, EnterTurn, FlagAll;
    if t.Add? {
      AddJobs(p, t);
    } else if t.Invalidate? {
      InvalidateJobs(p, t.session);
    } else {
      if t.Enter? { EnterJobs(p, t.i); }
      JobsOfParts(p, Next(p, t));
      SameJobs(p, Next(p, t), t);
    }
  }

  lemma JobsOfParts(p: Pool, q: Pool)
    ensures p.popped == q.popped && p.queue == q.queue ==> Jobs(p) == Jobs(q)
  {
  }

  lemma {:induction false} RunLast(p: Pool, ts: seq<Turn>)
    requires ts != [] && Run(p, ts).Some?
    ensures Run(p, ts[..|ts| - 1]).Some? && Enabled(Run(p, ts[..|ts| - 1]).value, ts[|ts| - 1])
    ensures Run(p, ts).value == Next(Run(p, ts[..|ts| - 1]).value, ts[|ts| - 1])
  {
  }

  /** Every job taken or queued is the request added at its place, and belongs to the session that added it. */
  lemma {:induction false} JobsAreTheRequests(size: nat, ts: seq<Turn>)
    requires Run(Initial(size), ts).Some?
    ensures var p := Run(Initial(size), ts).value;
      |p.popped + p.queue| == |Adds(ts)| && forall k | 0 <= k < |Adds(ts)| :: (p.popped + p.queue)[k].session == Adds(ts)[k]
  {
    if ts != [] {
      RunLast(Initial(size), ts);
      var front := ts[..|ts| - 1];
      JobsAreTheRequests(size, front);
      hide Run, Next, Enabled;
      TurnJobs(Run(Initial(size), front).value, ts[|ts| - 1]);
    }
  }

  /** At time `t` the session of job `k` was invalidated while the job was in the queue. */
  ghost predicate HitAt(size: nat, ts: seq<Turn>, k: nat, t: nat)
  {
    && t < |ts| && k < |Adds(ts)| && ts[t] == Invalidate(Adds(ts)[k]) && k < |Adds(ts[..t])|
    && Run(Initial(size), ts[..t]).Some? && |Run(Initial(size), ts[..t]).value.popped| <= k
  }

  lemma HitEarlier(size: nat, ts: seq<Turn>, k: nat, t: nat)
    requires ts != [] && t < |ts| - 1
    ensures HitAt(size, ts, k, t) <==> HitAt(size, ts[..|ts| - 1], k, t)
  {
    hide Run;
    var front := ts[..|ts| - 1];
    assert front[..t] == ts[..t] && front[t] == ts[t];
    AddsPrefix(ts, |ts| - 1);
    AddsPrefix(front, t);
  }

  lemma HitLater(size: nat, ts: seq<Turn>, front: seq<Turn>, k: nat)
    requires ts != [] && front == ts[..|ts| - 1]
    ensures (exists t :: HitAt(size, ts, k, t)) <==> (exists t :: HitAt(size, front, k, t)) || HitAt(size, ts, k, |front|)
  {
    forall t | 0 <= t < |ts| - 1 ensures HitAt(size, ts, k, t) <==> HitAt(size, front, k, t) {
      HitEarlier(size, ts, k, t);
    }
    assert forall t: nat | HitAt(size, ts, k, t) :: t < |ts|;
    assert forall t: nat | HitAt(size, front, k, t) :: t < |front|;
  }

  /**
   A job is dropped exactly if its own session was invalidated after it was added and before it was taken.
   */
  lemma {:induction false} InvalidatedExactly(size: nat, ts: seq<Turn>, k: nat)
    requires Run(Initial(size), ts).Some? && k < |Adds(ts)|
    ensures var p := Run(Initial(size), ts).value;
      k < |p.popped + p.queue| && ((p.popped + p.queue)[k].invalidated <==> exists t :: HitAt(size, ts, k, t))
  {
    JobsAreTheRequests(size, ts);
    if ts != [] {
      RunLast(Initial(size), ts);
      var front, last := ts[..|ts| - 1], ts[|ts| - 1];
      JobsAreTheRequests(size, front);
      HitLater(size, ts, front, k);
      AddsPrefix(ts, |front|);
      hide Run, Next, Enabled;
      TurnJobs(Run(Initial(size), front).value, last);
      if k < |Adds(front)| {
        InvalidatedExactly(size, front, k);
        assert Adds(ts)[k] == Adds(front)[k];
      }
    }
  }

  // ---- What a worker does -------------------------------------------------------------------------------------------

  /**
   A worker that comes to the queue takes the oldest job and compiles it unless it was invalidated; it goes to sleep
   only if there is none, and returns only if there is none and the pool is stopping. A slot is always free.
   */
  lemma {:induction false} WorkerTakesOldest(size: nat, ts: seq<Turn>, i: nat)
    requires Run(Initial(size), ts).Some? && Enabled(Run(Initial(size), ts).value, Enter(i))
    ensures var p := Run(Initial(size), ts).value; var q := Next(p, Enter(i));
      && q.popped + q.queue == p.popped + p.queue && |q.popped| == |p.popped| + (if p.queue == [] then 0 else 1)
      && q.workers ==
           if p.queue == [] then p.workers[i := if p.stop then Returned else Asleep(false)]
           else if p.queue[0].invalidated then p.workers
           else p.workers[i := Compiling(p.queue[0])]
  {
    hide Run, Inv, Enabled, Next;
    InitialInv(size);
    RunInv(Initial(size), ts);
    EnterTakes(Run(Initial(size), ts).value, i);
  }

  lemma EnterTakes(p: Pool, i: nat)
    requires Inv(p) && Enabled(p, Enter(i))
    ensures var q := Next(p, Enter(i));
      && q.popped + q.queue == p.popped + p.queue && |q.popped| == |p.popped| + (if p.queue == [] then 0 else 1)
      && q.workers ==
           if p.queue == [] then p.workers[i := if p.stop then Returned else Asleep(false)]
           else if p.queue[0].invalidated then p.workers
           else p.workers[i := Compiling(p.queue[0])]
  {
    hide NoLostWakeUp, Fifo, Drained, Conserved, Count;
    SlotFree(p, i);
    if p.queue != [] { assert p.popped + [p.queue[0]] + p.queue[1..] == p.popped + p.queue; }
  }

  // ---- Shutdown -----------------------------------------------------------------------------------------------------

  predicate IsWorkerTurn(t: Turn) { t.Wake? || t.Enter? || t.Finish? || t.NotifyAll? || t.Published? }

  /** Turns a worker has ahead of it before it next looks at the queue, and one more to return. */
  function Ahead(w: Worker): nat
  {
    match w
    case Returned => 0
    case Awake => 1
    case Asleep(_) => 2
    case Publishing(_) => 2
    case Finishing(_) => 3
    case Compiling(_) => 4
  }

  function TotalAhead(ws: seq<Worker>): nat
  {
    if ws == [] then 0 else Ahead(ws[0]) + TotalAhead(ws[1..])
  }

  /** A bound on the turns left once the pool is stopping. */
  function Work(p: Pool): nat { 4 * |p.queue| + TotalAhead(p.workers) }

  lemma {:induction false} AheadUpdate(ws: seq<Worker>, i: nat, w: Worker)
    requires i < |ws|
    ensures TotalAhead(ws[i := w]) == TotalAhead(ws) - Ahead(ws[i]) + Ahead(w)
  {
    if i == 0 {
      assert ws[0 := w][1..] == ws[1..];
    } else {
      AheadUpdate(ws[1..], i - 1, w);
      assert ws[i := w][1..] == ws[1..][i - 1 := w];
    }
  }

  lemma {:induction false} AheadNotify(ws: seq<Worker>)
    ensures TotalAhead(NotifyEvery(ws)) == TotalAhead(ws)
  {
    if ws != [] {
      AheadNotify(ws[1..]);
      assert NotifyEvery(ws)[1..] == NotifyEvery(ws[1..]);
    }
  }

  /** The pool is stopping and every sleeping worker has been told. */
  ghost predicate Stopping(p: Pool) { Counted(p) && p.stop && forall w | w in p.workers :: !Waiting(w) }

  lemma EnterDescends(p: Pool, i: nat)
    requires Stopping(p) && i < |p.workers| && p.workers[i].Awake?
    ensures Work(EnterTurn(p, i)) < Work(p)
  {
    hide TotalAhead, Count;
    SlotFree(p, i);
    if p.queue == [] {
      AheadUpdate(p.workers, i, Returned);
    } else {
      AheadUpdate(p.workers, i, Compiling(p.queue[0]));
    }
  }

  lemma StoppingKept(p: Pool, t: Turn)
    requires Stopping(p) && Enabled(p, t) && IsWorkerTurn(t)
    ensures Stopping(Next(p, t))
  {
    KeepsCounted(p, t);
    hide Count;
    var q := Next(p, t);
    forall k | 0 <= k < |q.workers| ensures !Waiting(q.workers[k]) {
      assert p.workers[k] in p.workers;
    }
  }

  /** Every turn of a worker brings a stopping pool closer to its end. */
  lemma TurnDescends(p: Pool, t: Turn)
    requires Stopping(p) && Enabled(p, t) && IsWorkerTurn(t)
    ensures Work(Next(p, t)) < Work(p)
  {
    hide TotalAhead, Stopping, NotifyEvery, EnterTurn;
    match t
    case Wake(i) => AheadUpdate(p.workers, i, Awake);
    case Enter(i) => EnterDescends(p, i);
    case Finish(i) => AheadUpdate(p.workers, i, Finishing(p.workers[i].job));
    case NotifyAll(i) =>
      AheadUpdate(p.workers, i, Publishing(p.workers[i].job));
      AheadNotify(p.workers[i := Publishing(p.workers[i].job)]);
    case Published(i) => AheadUpdate(p.workers, i, Awake);
  }

  /** The turn a worker can take, if it has not returned. */
  function TurnOf(w: Worker, i: nat): Turn
  {
    match w
    case Awake => Enter(i)
    case Compiling(_) => Finish(i)
    case Finishing(_) => NotifyAll(i)
    case Publishing(_) => Published(i)
    case _ => Wake(i)
  }

  /**
   Shutdown ends: once the pool is stopping, workers can take only so many turns, and as long as one has not returned
   some worker can move.
   */
  lemma {:induction false} ShutdownEnds(p: Pool, ts: seq<Turn>)
    requires Stopping(p) && Run(p, ts).Some? && forall t | t in ts :: IsWorkerTurn(t)
    ensures |ts| <= 4 * |p.queue| + TotalAhead(p.workers)
    ensures var q := Run(p, ts).value;
      || (forall w | w in q.workers :: w.Returned?)
      || exists i :: 0 <= i < |q.workers| && IsWorkerTurn(TurnOf(q.workers[i], i)) && Enabled(q, TurnOf(q.workers[i], i))
  {
    WorkBounds(p, ts);
    var q := Run(p, ts).value;
    if i :| 0 <= i < |q.workers| && !q.workers[i].Returned? {
      assert Enabled(q, TurnOf(q.workers[i], i));
    }
  }

  lemma {:induction false} WorkBounds(p: Pool, ts: seq<Turn>)
    requires Stopping(p) && Run(p, ts).Some? && forall t | t in ts :: IsWorkerTurn(t)
    ensures Stopping(Run(p, ts).value) && |ts| + Work(Run(p, ts).value) <= Work(p)
  {
    if ts != [] {
      RunLast(p, ts);
      var front, t := ts[..|ts| - 1], ts[|ts| - 1];
      assert t in ts && forall u | u in front :: u in ts;
      WorkBounds(p, front);
      hide Run, Next, Enabled, Stopping, Work;
      StoppingKept(Run(p, front).value, t);
      TurnDescends(Run(p, front).value, t);
    }
  }

  /** The destructor's two turns make the pool a stopping one, from any reachable state. */
  lemma {:induction false} DestructorStops(size: nat, ts: seq<Turn>)
    requires Run(Initial(size), ts).Some?
    ensures var p := Run(Initial(size), ts).value;
      var q := Next(Next(p, Stop), StopNotify);
      Stopping(q) && q.queue == p.queue && TotalAhead(q.workers) <= 4 * size
  {
    InitialInv(size);
    RunInv(Initial(size), ts);
    RunKeepsSize(Initial(size), ts);
    var p := Run(Initial(size), ts).value;
    hide Run, NoLostWakeUp, Fifo, Drained, Conserved;
    KeepsCounted(p, Stop);
    KeepsCounted(Next(p, Stop), StopNotify);
    NobodyWaits(p.workers);
    AheadNotify(p.workers);
    AheadBound(p.workers);
  }

  lemma {:induction false} AheadBound(ws: seq<Worker>)
    ensures TotalAhead(ws) <= 4 * |ws|
  {
    if ws != [] { AheadBound(ws[1..]); }
  }
}
