/**
 The compile worker pool: a queue guarded by one mutex and one condition variable. A turn is what a thread
 does while it holds the mutex once; a sleeping worker may also wake without having been notified.
 */
module Pool {
  import opened Bytes


  /** A CompilationRequest; `id` numbers requests in the order they were added. */
  datatype Job = Job(id: nat, session: SessionId, invalidated: bool)

  datatype Worker =
    | Asleep(notified: bool)     // inside `_cv.wait`, with or without a notification on its way
    | Awake                      // about to take the mutex
    | Compiling(job: Job)        // between the increment and the decrement of the active count
    | Finishing(job: Job)        // decremented, not yet called `notify_all`
    | Publishing(job: Job)       // handing the result to the session
    | Returned

  /** `popped` and `compiled` record history: jobs taken from the queue, and ids whose compilation ended. */
  datatype Pool = Pool(size: nat, queue: seq<Job>, active: int, workers: seq<Worker>, stop: bool,
                       added: nat, popped: seq<Job>, compiled: seq<nat>, addedAfterStop: bool)

  datatype Turn =
    | Add(session: SessionId, woken: Option<nat>)
    | Invalidate(session: SessionId)
    | Wake(i: nat)
    | Enter(i: nat)
    | Finish(i: nat)
    | NotifyAll(i: nat)
    | Published(i: nat)
    | Stop
    | StopNotify

  function Initial(size: nat): Pool
  {
    Pool(size, [], 0, seq(size, _ => Awake), false, 0, [], [], false)
  }

  // ---- One turn ---------------------------------------------------------------------------------

  predicate Waiting(w: Worker) { w == Asleep(false) }

  /** `notify_one` wakes some waiting worker, and nobody only if nobody waits. */
  predicate Enabled(p: Pool, t: Turn)
  {
    match t
    case Add(_, Some(i)) => i < |p.workers| && Waiting(p.workers[i])
    case Add(_, None) => forall w | w in p.workers :: !Waiting(w)
    case Invalidate(_) => true
    case Wake(i) => i < |p.workers| && p.workers[i].Asleep?
    case Enter(i) => i < |p.workers| && p.workers[i].Awake?
    case Finish(i) => i < |p.workers| && p.workers[i].Compiling?
    case NotifyAll(i) => i < |p.workers| && p.workers[i].Finishing?
    case Published(i) => i < |p.workers| && p.workers[i].Publishing?
    case Stop => true
    case StopNotify => p.stop
  }

  function Notified(w: Worker): Worker { if w.Asleep? then Asleep(true) else w }

  function NotifyEvery(ws: seq<Worker>): seq<Worker>
  {
    seq(|ws|, i requires 0 <= i < |ws| => Notified(ws[i]))
  }

  function Flagged(j: Job, s: SessionId): Job { if j.session == s then j.(invalidated := true) else j }

  function FlagAll(q: seq<Job>, s: SessionId): seq<Job>
  {
    seq(|q|, i requires 0 <= i < |q| => Flagged(q[i], s))
  }

  /** The body of `_worker_loop` from the wait to the end of the locked block. */
  function EnterTurn(p: Pool, i: nat): Pool
    requires i < |p.workers|
  {
    if !(p.stop || (p.queue != [] && p.active < p.size)) then p.(workers := p.workers[i := Asleep(false)])
    else if p.stop && p.queue == [] then p.(workers := p.workers[i := Returned])
    else if p.active >= p.size then p
    else
      var job := p.queue[0];
      var taken := p.(queue := p.queue[1..], popped := p.popped + [job]);
      if job.invalidated then taken
      else taken.(active := p.active + 1, workers := p.workers[i := Compiling(job)])
  }

  function Next(p: Pool, t: Turn): Pool
    requires Enabled(p, t)
  {
    match t
    case Add(s, woken) =>
      p.(queue := p.queue + [Job(p.added, s, false)], added := p.added + 1,
         workers := if woken.Some? then p.workers[woken.value := Asleep(true)] else p.workers,
         addedAfterStop := p.addedAfterStop || p.stop)
    case Invalidate(s) => p.(queue := FlagAll(p.queue, s))
    case Wake(i) => p.(workers := p.workers[i := Awake])
    case Enter(i) => EnterTurn(p, i)
    case Finish(i) =>
      p.(active := p.active - 1, workers := p.workers[i := Finishing(p.workers[i].job)],
         compiled := p.compiled + [p.workers[i].job.id])
    case NotifyAll(i) => p.(workers := NotifyEvery(p.workers[i := Publishing(p.workers[i].job)]))
    case Published(i) => p.(workers := p.workers[i := Awake])
    case Stop => p.(stop := true)
    case StopNotify => p.(workers := NotifyEvery(p.workers))
  }

  function Run(p: Pool, ts: seq<Turn>): Option<Pool>
  {
    if ts == [] then Some(p) else
    match Run(p, ts[..|ts| - 1])
    case None => None
    case Some(q) => if Enabled(q, ts[|ts| - 1]) then Some(Next(q, ts[|ts| - 1])) else None
  }

  // ---- Counting workers ---------------------------------------------------------------------------

  predicate IsCompiling(w: Worker) { w.Compiling? }

  /** Neither waiting nor compiling nor gone: will come back to the queue on its own. */
  predicate IsStirring(w: Worker) { !Waiting(w) && !w.Compiling? && !w.Returned? }

  function One(b: bool): nat { if b then 1 else 0 }

  function Count(ws: seq<Worker>, f: Worker -> bool): nat
  {
    if ws == [] then 0 else One(f(ws[0])) + Count(ws[1..], f)
  }

  lemma {:induction false} CountUpdate(ws: seq<Worker>, f: Worker -> bool, i: nat, w: Worker)
    requires i < |ws|
    ensures Count(ws[i := w], f) == Count(ws, f) - One(f(ws[i])) + One(f(w))
  {
    if i == 0 {
      assert ws[0 := w][1..] == ws[1..];
    } else {
      CountUpdate(ws[1..], f, i - 1, w);
      assert ws[i := w][1..] == ws[1..][i - 1 := w];
    }
  }

  lemma {:induction false} CountNotify(ws: seq<Worker>)
    ensures Count(NotifyEvery(ws), IsCompiling) == Count(ws, IsCompiling)
  {
    if ws != [] {
      CountNotify(ws[1..]);
      assert NotifyEvery(ws)[1..] == NotifyEvery(ws[1..]);
    }
  }

  lemma {:induction false} CountBound(ws: seq<Worker>, f: Worker -> bool)
    ensures Count(ws, f) <= |ws|
    ensures Count(ws, f) == |ws| ==> forall w | w in ws :: f(w)
    ensures Count(ws, f) == 0 ==> forall w | w in ws :: !f(w)
  {
    if ws != [] {
      CountBound(ws[1..], f);
      assert forall w | w in ws :: w == ws[0] || w in ws[1..];
    }
  }

  lemma {:induction false} CountNone(n: nat)
    ensures Count(seq(n, _ => Awake), IsCompiling) == 0
  {
    if n > 0 {
      CountNone(n - 1);
      assert seq(n, _ => Awake)[1..] == seq(n - 1, _ => Awake);
    }
  }

  // ---- What every turn keeps ------------------------------------------------------------------------

  /** The active count is the number of workers between increment and decrement. */
  ghost predicate Counted(p: Pool)
  {
    |p.workers| == p.size && p.active == Count(p.workers, IsCompiling)
  }

  /** While some worker waits un-notified, every queued job has a stirring worker of its own. */
  ghost predicate NoLostWakeUp(p: Pool)
  {
    (exists w :: w in p.workers && Waiting(w)) ==> |p.queue| <= Count(p.workers, IsStirring)
  }

  /** Popped jobs followed by queued jobs are all jobs ever added, in the order they were added. */
  ghost predicate Fifo(p: Pool)
  {
    && |p.popped| + |p.queue| == p.added
    && (forall k | 0 <= k < |p.popped| :: p.popped[k].id == k)
    && (forall k | 0 <= k < |p.queue| :: p.queue[k].id == |p.popped| + k)
  }

  ghost predicate Drained(p: Pool)
  {
    && (Returned in p.workers ==> p.stop)
    && (Returned in p.workers && !p.addedAfterStop ==> p.queue == [])
  }

  lemma EnterCounted(p: Pool, i: nat)
    requires Counted(p) && i < |p.workers| && p.workers[i].Awake?
    ensures Counted(EnterTurn(p, i))
  {
    CountUpdate(p.workers, IsCompiling, i, Asleep(false));
    CountUpdate(p.workers, IsCompiling, i, Returned);
    if p.queue != [] { CountUpdate(p.workers, IsCompiling, i, Compiling(p.queue[0])); }
  }

  lemma KeepsCounted(p: Pool, t: Turn)
    requires Counted(p) && Enabled(p, t)
    ensures Counted(Next(p, t))
  {
    match t {
      case Add(_, Some(i)) => CountUpdate(p.workers, IsCompiling, i, Asleep(true));
      case Add(_, None) =>
      case Invalidate(_) =>
      case Wake(i) => CountUpdate(p.workers, IsCompiling, i, Awake);
      case Enter(i) => EnterCounted(p, i);
      case Finish(i) => CountUpdate(p.workers, IsCompiling, i, Finishing(p.workers[i].job));
      case NotifyAll(i) =>
        var w := Publishing(p.workers[i].job);
        CountUpdate(p.workers, IsCompiling, i, w);
        CountNotify(p.workers[i := w]);
      case Published(i) => CountUpdate(p.workers, IsCompiling, i, Awake);
      case Stop =>
      case StopNotify => CountNotify(p.workers);
    }
  }

  /** A worker that has just been looking at the queue is not compiling, so a slot is free. */
  lemma SlotFree(p: Pool, i: nat)
    requires Counted(p) && i < |p.workers| && !p.workers[i].Compiling?
    ensures 0 <= p.active < p.size
  {
    CountBound(p.workers, IsCompiling);
    assert p.workers[i] in p.workers;
  }

  lemma NobodyWaits(ws: seq<Worker>)
    ensures forall w | w in NotifyEvery(ws) :: !Waiting(w)
  {
  }

  lemma UpdateKeepsWakeUp(p: Pool, q: Pool, i: nat, w: Worker)
    requires NoLostWakeUp(p) && i < |p.workers| && q.workers == p.workers[i := w] && !Waiting(w)
    requires |q.queue| == |p.queue| + One(IsStirring(w)) - One(IsStirring(p.workers[i]))
          || (|q.queue| == |p.queue| && (IsStirring(p.workers[i]) ==> IsStirring(w)))
    ensures NoLostWakeUp(q)
  {
    if exists v :: v in q.workers && Waiting(v) {
      var v :| v in q.workers && Waiting(v);
      var k :| 0 <= k < |q.workers| && q.workers[k] == v;
      assert p.workers[k] == v;
      assert v in p.workers;
      CountUpdate(p.workers, IsStirring, i, w);
    }
  }

  /** A worker goes to sleep only when the queue is empty. */
  lemma EnterKeepsWakeUp(p: Pool, i: nat)
    requires Counted(p) && NoLostWakeUp(p) && i < |p.workers| && p.workers[i].Awake?
    ensures NoLostWakeUp(EnterTurn(p, i))
  {
    SlotFree(p, i);
    var q := EnterTurn(p, i);
    if !p.stop && p.queue == [] {
    } else if p.stop && p.queue == [] {
    } else if q.workers != p.workers {
      UpdateKeepsWakeUp(p, q, i, Compiling(p.queue[0]));
    }
  }

  lemma KeepsNoLostWakeUp(p: Pool, t: Turn)
    requires Counted(p) && NoLostWakeUp(p) && Enabled(p, t)
    ensures NoLostWakeUp(Next(p, t))
  {
    var q := Next(p, t);
    match t {
      case Add(_, Some(i)) => UpdateKeepsWakeUp(p, q, i, Asleep(true));
      case Add(_, None) =>
      case Invalidate(_) =>
      case Wake(i) => UpdateKeepsWakeUp(p, q, i, Awake);
      case Enter(i) => EnterKeepsWakeUp(p, i);
      case Finish(i) => UpdateKeepsWakeUp(p, q, i, Finishing(p.workers[i].job));
      case NotifyAll(i) => NobodyWaits(p.workers[i := Publishing(p.workers[i].job)]);
      case Published(i) => UpdateKeepsWakeUp(p, q, i, Awake);
      case Stop =>
      case StopNotify => NobodyWaits(p.workers);
    }
  }

  lemma KeepsFifo(p: Pool, t: Turn)
    requires Fifo(p) && Enabled(p, t)
    ensures Fifo(Next(p, t))
  {
    hide NotifyEvery;
  }

  lemma KeepsDrained(p: Pool, t: Turn)
    requires Drained(p) && Enabled(p, t)
    ensures Drained(Next(p, t))
  {
    var q := Next(p, t);
    if Returned in q.workers {
      var k :| 0 <= k < |q.workers| && q.workers[k] == Returned;
      if !t.Enter? { assert p.workers[k] == Returned; }
    }
  }

  // ---- Conservation of jobs -------------------------------------------------------------------------

  /** Ids of the jobs that a worker began to compile, in order. */
  function Started(js: seq<Job>): seq<nat>
  {
    if js == [] then []
    else Started(js[..|js| - 1]) + (if js[|js| - 1].invalidated then [] else [js[|js| - 1].id])
  }

  function Held(w: Worker): multiset<nat> { if w.Compiling? then multiset{w.job.id} else multiset{} }

  function InProgress(ws: seq<Worker>): multiset<nat>
  {
    if ws == [] then multiset{} else Held(ws[0]) + InProgress(ws[1..])
  }

  /** A job that was started is being compiled or was compiled, once. */
  ghost predicate Conserved(p: Pool)
  {
    multiset(Started(p.popped)) == InProgress(p.workers) + multiset(p.compiled)
  }

  lemma Swap(x: multiset<nat>, y: multiset<nat>, a: multiset<nat>)
    ensures x + a + y == y + a + x
  {
  }

  lemma Exchange(h: multiset<nat>, a: multiset<nat>, a': multiset<nat>, x: multiset<nat>, y: multiset<nat>)
    requires a' + x == a + y
    ensures h + a' + x == h + a + y
  {
    assert h + a' + x == h + (a' + x);
    assert h + a + y == h + (a + y);
  }

  lemma {:induction false} InProgressFirst(ws: seq<Worker>)
    requires ws != []
    ensures InProgress(ws) == Held(ws[0]) + InProgress(ws[1..])
  {
  }

  lemma {:induction false} InProgressUpdate(ws: seq<Worker>, i: nat, w: Worker)
    requires i < |ws|
    ensures InProgress(ws[i := w]) + Held(ws[i]) == InProgress(ws) + Held(w)
  {
    var us := ws[i := w];
    hide InProgress, Held;
    InProgressFirst(ws);
    InProgressFirst(us);
    if i == 0 {
      assert us[1..] == ws[1..];
      Swap(Held(w), Held(ws[0]), InProgress(ws[1..]));
    } else {
      var tail := ws[1..];
      InProgressUpdate(tail, i - 1, w);
      assert us[1..] == tail[i - 1 := w];
      Exchange(Held(ws[0]), InProgress(tail), InProgress(tail[i - 1 := w]), Held(ws[i]), Held(w));
    }
  }

  /** The worker at `i` neither picks up nor puts down a job. */
  lemma InProgressSame(ws: seq<Worker>, i: nat, w: Worker)
    requires i < |ws| && !ws[i].Compiling? && !w.Compiling?
    ensures InProgress(ws[i := w]) == InProgress(ws)
  {
    InProgressUpdate(ws, i, w);
    assert InProgress(ws[i := w]) + multiset{} == InProgress(ws[i := w]);
    assert InProgress(ws) + multiset{} == InProgress(ws);
  }

  lemma {:induction false} InProgressNotify(ws: seq<Worker>)
    ensures InProgress(NotifyEvery(ws)) == InProgress(ws)
  {
    if ws != [] {
      InProgressNotify(ws[1..]);
      assert NotifyEvery(ws)[1..] == NotifyEvery(ws[1..]);
    }
  }

  lemma {:induction false} InProgressNone(n: nat)
    ensures InProgress(seq(n, _ => Awake)) == multiset{}
  {
    if n > 0 {
      InProgressNone(n - 1);
      assert seq(n, _ => Awake)[1..] == seq(n - 1, _ => Awake);
    }
  }

  lemma StartedNext(js: seq<Job>, j: Job)
    ensures Started(js + [j]) == Started(js) + (if j.invalidated then [] else [j.id])
  {
    assert (js + [j])[..|js|] == js;
  }

  lemma PickUp(p: Pool, i: nat, job: Job)
    requires Conserved(p) && i < |p.workers| && !p.workers[i].Compiling? && !job.invalidated
    ensures Conserved(p.(popped := p.popped + [job], workers := p.workers[i := Compiling(job)]))
  {
    StartedNext(p.popped, job);
    InProgressUpdate(p.workers, i, Compiling(job));
    assert InProgress(p.workers[i := Compiling(job)]) == InProgress(p.workers) + multiset{job.id};
  }

  lemma PutDown(p: Pool, i: nat)
    requires Conserved(p) && i < |p.workers| && p.workers[i].Compiling?
    ensures var job := p.workers[i].job;
      Conserved(p.(compiled := p.compiled + [job.id], workers := p.workers[i := Finishing(job)]))
  {
    var job := p.workers[i].job;
    InProgressUpdate(p.workers, i, Finishing(job));
    assert InProgress(p.workers[i := Finishing(job)]) + multiset{job.id} == InProgress(p.workers);
    assert multiset(p.compiled + [job.id]) == multiset(p.compiled) + multiset{job.id};
  }

  lemma DropConserves(p: Pool, job: Job)
    requires Conserved(p) && job.invalidated
    ensures Conserved(p.(popped := p.popped + [job]))
  {
    StartedNext(p.popped, job);
    assert Started(p.popped) + [] == Started(p.popped);
  }

  lemma EnterConserves(p: Pool, i: nat)
    requires Conserved(p) && i < |p.workers| && p.workers[i].Awake?
    ensures Conserved(EnterTurn(p, i))
  {
    hide Started, InProgress;
    if !(p.queue != [] && p.active < p.size) {
      InProgressSame(p.workers, i, Asleep(false));
      InProgressSame(p.workers, i, Returned);
    } else if p.queue[0].invalidated {
      DropConserves(p, p.queue[0]);
    } else {
      PickUp(p, i, p.queue[0]);
    }
  }

  lemma KeepsConserved(p: Pool, t: Turn)
    requires Conserved(p) && Enabled(p, t)
    ensures Conserved(Next(p, t))
  {
    match t {
      case Add(_, Some(i)) => InProgressSame(p.workers, i, Asleep(true));
      case Add(_, None) =>
      case Invalidate(_) =>
      case Wake(i) => InProgressSame(p.workers, i, Awake);
      case Enter(i) => EnterConserves(p, i);
      case Finish(i) => PutDown(p, i);
      case NotifyAll(i) =>
        var w := Publishing(p.workers[i].job);
        InProgressSame(p.workers, i, w);
        InProgressNotify(p.workers[i := w]);
      case Published(i) => InProgressSame(p.workers, i, Awake);
      case Stop =>
      case StopNotify => InProgressNotify(p.workers);
    }
  }

  // ---- Every run ------------------------------------------------------------------------------------

  ghost predicate Inv(p: Pool)
  {
    Counted(p) && NoLostWakeUp(p) && Fifo(p) && Drained(p) && Conserved(p)
  }

  lemma InitialInv(size: nat)
    ensures Inv(Initial(size))
  {
    CountNone(size);
    InProgressNone(size);
  }

  /** Every turn keeps the invariant. */
  lemma TurnInv(p: Pool, t: Turn)
    requires Inv(p) && Enabled(p, t)
    ensures Inv(Next(p, t))
  {
    KeepsCounted(p, t);
    KeepsNoLostWakeUp(p, t);
    KeepsFifo(p, t);
    KeepsDrained(p, t);
    KeepsConserved(p, t);
  }

  lemma {:induction false} RunInv(p: Pool, ts: seq<Turn>)
    requires Inv(p) && Run(p, ts).Some?
    ensures Inv(Run(p, ts).value)
  {
    if ts != [] {
      RunInv(p, ts[..|ts| - 1]);
      TurnInv(Run(p, ts[..|ts| - 1]).value, ts[|ts| - 1]);
    }
  }

  /** The advertised number of free slots never underflows and counts the workers not compiling. */
  lemma AvailableJobs(size: nat, ts: seq<Turn>)
    requires Run(Initial(size), ts).Some?
    ensures var p := Run(Initial(size), ts).value;
      p.active == Count(p.workers, IsCompiling) && 0 <= p.size - p.active <= p.size == size
  {
    InitialInv(size);
    RunInv(Initial(size), ts);
    CountBound(Run(Initial(size), ts).value.workers, IsCompiling);
    RunKeepsSize(Initial(size), ts);
  }

  lemma {:induction false} RunKeepsSize(p: Pool, ts: seq<Turn>)
    requires Run(p, ts).Some?
    ensures Run(p, ts).value.size == p.size
  {
    if ts != [] { RunKeepsSize(p, ts[..|ts| - 1]); }
  }

  /**
   While some worker waits un-notified, every queued job has a worker of its own on its way to the queue. So a
   queued job is never stranded: some worker is on its way, or none is idle.
   */
  lemma NeverStranded(size: nat, ts: seq<Turn>)
    requires Run(Initial(size), ts).Some?
    ensures var p := Run(Initial(size), ts).value;
      (exists w :: w in p.workers && Waiting(w)) ==> |p.queue| <= Count(p.workers, IsStirring)
    ensures var p := Run(Initial(size), ts).value;
      p.queue != [] ==> (exists w :: w in p.workers && IsStirring(w)) || (forall w | w in p.workers :: w.Compiling? || w.Returned?)
  {
    InitialInv(size);
    RunInv(Initial(size), ts);
    var p := Run(Initial(size), ts).value;
    CountBound(p.workers, IsStirring);
    if p.queue != [] && !exists w :: w in p.workers && IsStirring(w) {
      CountZero(p.workers, IsStirring);
    }
  }

  lemma {:induction false} CountZero(ws: seq<Worker>, f: Worker -> bool)
    requires forall w | w in ws :: !f(w)
    ensures Count(ws, f) == 0
  {
    if ws != [] { CountZero(ws[1..], f); }
  }

  lemma {:induction false} StartedAreAdded(js: seq<Job>, n: nat)
    requires forall k | 0 <= k < |js| :: js[k].id == n + k
    ensures forall k | 0 <= k < |Started(js)| :: n <= Started(js)[k] < n + |js|
    ensures forall j, k | 0 <= j < k < |Started(js)| :: Started(js)[j] < Started(js)[k]
  {
    if js != [] { StartedAreAdded(js[..|js| - 1], n); }
  }

  /** Jobs start in the order they were added, none twice, and each is queued, dropped, in progress or compiled. */
  lemma {:induction false} JobsConserved(size: nat, ts: seq<Turn>)
    requires Run(Initial(size), ts).Some?
    ensures var p := Run(Initial(size), ts).value;
      && |p.popped| + |p.queue| == p.added
      && (forall k | 0 <= k < |p.popped| :: p.popped[k].id == k)
      && (forall k | 0 <= k < |p.queue| :: p.queue[k].id == |p.popped| + k)
      && (forall j, k | 0 <= j < k < |Started(p.popped)| :: Started(p.popped)[j] < Started(p.popped)[k])
      && multiset(Started(p.popped)) == InProgress(p.workers) + multiset(p.compiled)
  {
    InitialInv(size);
    RunInv(Initial(size), ts);
    var p := Run(Initial(size), ts).value;
    StartedAreAdded(p.popped, 0);
  }

  /** Shutdown drains: when at least one worker exists, all have returned and nothing was added after the stop. */
  lemma ShutdownDrains(size: nat, ts: seq<Turn>)
    requires size > 0 && Run(Initial(size), ts).Some?
    requires !Run(Initial(size), ts).value.addedAfterStop
    requires forall w | w in Run(Initial(size), ts).value.workers :: w.Returned?
    ensures var p := Run(Initial(size), ts).value;
      p.queue == [] && |p.popped| == p.added && multiset(p.compiled) == multiset(Started(p.popped))
  {
    InitialInv(size);
    RunInv(Initial(size), ts);
    RunKeepsSize(Initial(size), ts);
    var p := Run(Initial(size), ts).value;
    assert p.workers[0] in p.workers;
    NothingInProgress(p.workers);
  }

  lemma {:induction false} NothingInProgress(ws: seq<Worker>)
    requires forall w | w in ws :: !w.Compiling?
    ensures InProgress(ws) == multiset{}
  {
    if ws != [] {
      assert ws[0] in ws;
      NothingInProgress(ws[1..]);
    }
  }

  // ---- Invalidation ---------------------------------------------------------------------------------

  /** From its `from`-th pop on, the pool starts no job of session `s`. */
  ghost predicate Silenced(p: Pool, s: SessionId, from: nat)
  {
    && from <= |p.popped|
    && (forall j | j in p.queue && j.session == s :: j.invalidated)
    && (forall k | from <= k < |p.popped| && p.popped[k].session == s :: p.popped[k].invalidated)
  }

  lemma KeepsSilenced(p: Pool, t: Turn, s: SessionId, from: nat)
    requires Enabled(p, t) && Silenced(p, s, from) && !(t.Add? && t.session == s)
    ensures Silenced(Next(p, t), s, from)
  {
    var q := Next(p, t);
    if t.Enter? && q.popped != p.popped {
      assert p.queue[0] in p.queue;
      assert forall j | j in q.queue :: j in p.queue;
    }
  }

  /** A session whose requests were invalidated before being popped, and that adds none later, is never compiled. */
  lemma {:induction false} TerminatedNeverCompiled(p: Pool, s: SessionId, ts: seq<Turn>)
    requires Run(Next(p, Invalidate(s)), ts).Some?
    requires forall t | t in ts :: !(t.Add? && t.session == s)
    ensures Silenced(Run(Next(p, Invalidate(s)), ts).value, s, |p.popped|)
  {
    if ts == [] {
      assert Silenced(Next(p, Invalidate(s)), s, |p.popped|);
    } else {
      var front, t := ts[..|ts| - 1], ts[|ts| - 1];
      assert t in ts && forall u | u in front :: u in ts;
      TerminatedNeverCompiled(p, s, front);
      KeepsSilenced(Run(Next(p, Invalidate(s)), front).value, t, s, |p.popped|);
    }
  }

  // ---- The manager object -----------------------------------------------------------------------------

  /**
   Each method performs one turn, states the whole new state and keeps the invariant.
   `added`, `popped` and `compiled` are history.
   */
  class CompilerManager {
    const poolSize: nat
    var queue: seq<Job>
    var activeJobs: int
    var workers: seq<Worker>
    var stopThreads: bool
    var added: nat
    ghost var popped: seq<Job>
    ghost var compiled: seq<nat>
    ghost var addedAfterStop: bool

    ghost function State(): Pool
      reads this
    { Pool(poolSize, queue, activeJobs, workers, stopThreads, added, popped, compiled, addedAfterStop) }

    ghost predicate Valid()
      reads this
    { Inv(State()) }

    constructor (size: nat)
      ensures Valid() && State() == Initial(size)
    {
      poolSize := size;
      queue, activeJobs, stopThreads := [], 0, false;
      workers := seq(size, _ => Awake);
      added, popped, compiled, addedAfterStop := 0, [], [], false;
      new;
      InitialInv(size);
    }

    /** `woken` is the worker that `notify_one` picks. */
    method AddCompilationRequest(session: SessionId, woken: Option<nat>)
      requires Valid() && Enabled(State(), Add(session, woken))
      modifies this
      ensures Valid() && State() == Next(old(State()), Add(session, woken))
    {
      hide Inv;
      TurnInv(State(), Add(session, woken));
      queue := queue + [Job(added, session, false)];
      added := added + 1;
      addedAfterStop := addedAfterStop || stopThreads;
      if woken.Some? { workers := workers[woken.value := Asleep(true)]; }
    }

    method InvalidateRequestsForSession(session: SessionId)
      requires Valid()
      modifies this
      ensures Valid() && State() == Next(old(State()), Invalidate(session))
    {
      hide Inv;
      TurnInv(State(), Invalidate(session));
      ghost var before := queue;
      for k := 0 to |queue|
        invariant |queue| == |before|
        invariant State() == old(State()).(queue := queue)
        invariant forall m | 0 <= m < k :: queue[m] == Flagged(before[m], session)
        invariant forall m | k <= m < |queue| :: queue[m] == before[m]
      {
        if queue[k].session == session {
          queue := queue[k := queue[k].(invalidated := true)];
        }
      }
      assert queue == FlagAll(before, session);
    }

    /** One pass of worker `i` through the locked part of its loop. */
    method WorkerEnter(i: nat)
      requires Valid() && Enabled(State(), Enter(i))
      modifies this
      ensures Valid() && State() == Next(old(State()), Enter(i))
    {
      hide Inv;
      TurnInv(State(), Enter(i));
      if !(stopThreads || (queue != [] && activeJobs < poolSize)) {
        workers := workers[i := Asleep(false)];
      } else if stopThreads && queue == [] {
        workers := workers[i := Returned];
      } else if activeJobs < poolSize {
        var job := queue[0];
        queue := queue[1..];
        popped := popped + [job];
        if !job.invalidated {
          activeJobs := activeJobs + 1;
          workers := workers[i := Compiling(job)];
        }
      }
    }

    /** The locked decrement after the compiler exits. */
    method WorkerFinish(i: nat)
      requires Valid() && Enabled(State(), Finish(i))
      modifies this
      ensures Valid() && State() == Next(old(State()), Finish(i))
    {
      hide Inv;
      TurnInv(State(), Finish(i));
      var job := workers[i].job;
      activeJobs := activeJobs - 1;
      workers := workers[i := Finishing(job)];
      compiled := compiled + [job.id];
    }

    /** `notify_all` after a compilation: every waiting worker is woken. */
    method NotifyWorkers(i: nat)
      requires Valid() && Enabled(State(), NotifyAll(i))
      modifies this
      ensures Valid() && State() == Next(old(State()), NotifyAll(i))
    {
      hide Inv;
      TurnInv(State(), NotifyAll(i));
      workers := workers[i := Publishing(workers[i].job)];
      WakeEvery();
    }

    /** The result is published and the worker goes back to its loop. */
    method ResultPublished(i: nat)
      requires Valid() && Enabled(State(), Published(i))
      modifies this
      ensures Valid() && State() == Next(old(State()), Published(i))
    {
      hide Inv;
      TurnInv(State(), Published(i));
      workers := workers[i := Awake];
    }

    /** The destructor's first half, under the mutex. */
    method StopThreads()
      requires Valid() && Enabled(State(), Stop)
      modifies this
      ensures Valid() && State() == Next(old(State()), Stop)
    {
      hide Inv;
      TurnInv(State(), Stop);
      stopThreads := true;
    }

    /** The destructor's `notify_all`. */
    method NotifyStopped()
      requires Valid() && Enabled(State(), StopNotify)
      modifies this
      ensures Valid() && State() == Next(old(State()), StopNotify)
    {
      hide Inv;
      TurnInv(State(), StopNotify);
      WakeEvery();
    }

    method WakeEvery()
      modifies this`workers
      ensures workers == NotifyEvery(old(workers))
    {
      for k := 0 to |workers|
        invariant |workers| == |old(workers)|
        invariant forall m | 0 <= m < |workers| :: workers[m] == if m < k then Notified(old(workers)[m]) else old(workers)[m]
      {
        workers := workers[k := Notified(workers[k])];
      }
      assert workers == NotifyEvery(old(workers));
    }

    method GetAvailableJobs() returns (n: nat)
      requires Valid()
      ensures n == poolSize - Count(workers, IsCompiling)
    {
      CountBound(workers, IsCompiling);
      n := poolSize - activeJobs;
    }
  }
}
