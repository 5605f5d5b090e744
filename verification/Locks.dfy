/**
 Lock order on the server. Every operation is the sequence of mutex acquisitions and releases it performs,
 for any number of loop iterations; threads interleave at every acquisition.
 */
module Locks {
  import opened Bytes

  /** A session belongs to the view of one client. */
  datatype Session = Session(client: string, id: string)

  datatype Lock = ViewLock(client: string) | ManagerLock | SessionLock(session: Session)

  datatype Action = Acquire(lock: Lock) | Release(lock: Lock) | StartSession(session: Session)

  datatype Operation =
    | AddSession(s: Session, files: nat, updates: nat, enqueued: nat)
    | ProcessChunk(s: Session, updates: nat, swept: Option<nat>)
    | ViewOnly(s: Session, touches: nat)
    | Terminate(s: Session)
    | PublishResult(s: Session)
    | WorkerTurn

  // ---- The scripts ----------------------------------------------------------------------------------

  function Touch(l: Lock): seq<Action> { [Acquire(l), Release(l)] }

  function Repeat(n: nat, l: Lock): seq<Action>
  {
    if n == 0 then [] else Touch(l) + Repeat(n - 1, l)
  }

  function Within(l: Lock, body: seq<Action>): seq<Action> { [Acquire(l)] + body + [Release(l)] }

  /** `try_compile_for_active_sessions`: under the view's mutex, one manager acquisition per enqueued request. */
  function Sweep(client: string, enqueued: nat): seq<Action>
  {
    Within(ViewLock(client), Repeat(enqueued, ManagerLock))
  }

  function Script(op: Operation): seq<Action>
  {
    match op
    case AddSession(s, files, updates, enqueued) =>
      var v, m := ViewLock(s.client), SessionLock(s);
      Within(v, Repeat(files, m))              // add_required_file_state under the view's mutex
      + (Within(m, Touch(v))                   // preprocess_compiler_call asks the view for the client id
      + (Within(v, Touch(m))                   // _create_client_dir_hierarchy reads the required files
      + (Touch(v)
      + (Touch(m)
      + (Repeat(updates, v)                    // update_file_state
      + ([StartSession(s)]
      + Sweep(s.client, enqueued)))))))
    case ProcessChunk(s, updates, swept) =>
      var v, m := ViewLock(s.client), SessionLock(s);
      Repeat(2, v)                             // update_last_active_ts, get_file_state
      + Within(m, Repeat(updates, v) + (if swept.Some? then Sweep(s.client, swept.value) else []))
    case ViewOnly(s, touches) => Repeat(touches, ViewLock(s.client))   // messages that never reach the transfer
    case Terminate(s) => Within(SessionLock(s), Touch(ViewLock(s.client)))
    case PublishResult(s) => Repeat(2, SessionLock(s))
    case WorkerTurn => Touch(ManagerLock)
  }

  // ---- The discipline they all follow -----------------------------------------------------------------

  /** What the rest of an operation may do, given what its thread holds and the session it is creating. */
  predicate MayAcquire(l: Lock, held: set<Lock>, creating: Option<Session>, started: set<Session>)
  {
    && l !in held
    && (forall h | h in held :: h.SessionLock? ==> creating == Some(h.session) || h.session in started)
    && match l
       case ManagerLock => true
       case ViewLock(_) => forall h | h in held :: h.SessionLock?
       case SessionLock(s) => held == {} || (creating == Some(s) && forall h | h in held :: h.ViewLock?)
  }

  predicate Disciplined(todo: seq<Action>, held: set<Lock>, creating: Option<Session>, started: set<Session>)
  {
    if todo == [] then held == {} && creating == None else
    match todo[0]
    case Acquire(l) =>
      MayAcquire(l, held, creating, started) && ManagerLock !in held
      && Disciplined(todo[1..], held + {l}, creating, started)
    case Release(l) => l in held && Disciplined(todo[1..], held - {l}, creating, started)
    case StartSession(s) => creating == Some(s) && held == {} && Disciplined(todo[1..], held, None, started)
  }

  lemma {:induction false} DisciplineGrows(todo: seq<Action>, held: set<Lock>, creating: Option<Session>, a: set<Session>, b: set<Session>)
    requires a <= b && Disciplined(todo, held, creating, a)
    ensures Disciplined(todo, held, creating, b)
  {
    if todo != [] {
      match todo[0]
      case Acquire(l) => DisciplineGrows(todo[1..], held + {l}, creating, a, b);
      case Release(l) => DisciplineGrows(todo[1..], held - {l}, creating, a, b);
      case StartSession(s) => DisciplineGrows(todo[1..], held, None, a, b);
    }
  }

  lemma AcquireThen(l: Lock, rest: seq<Action>, held: set<Lock>, creating: Option<Session>, started: set<Session>)
    requires MayAcquire(l, held, creating, started) && ManagerLock !in held
    requires Disciplined(rest, held + {l}, creating, started)
    ensures Disciplined([Acquire(l)] + rest, held, creating, started)
  {
    assert ([Acquire(l)] + rest)[1..] == rest;
  }

  lemma ReleaseThen(l: Lock, rest: seq<Action>, held: set<Lock>, creating: Option<Session>, started: set<Session>)
    requires l !in held && Disciplined(rest, held, creating, started)
    ensures Disciplined([Release(l)] + rest, held + {l}, creating, started)
  {
    assert ([Release(l)] + rest)[1..] == rest;
    assert held + {l} - {l} == held;
  }

  lemma TouchThen(l: Lock, rest: seq<Action>, held: set<Lock>, creating: Option<Session>, started: set<Session>)
    requires MayAcquire(l, held, creating, started) && ManagerLock !in held
    requires Disciplined(rest, held, creating, started)
    ensures Disciplined(Touch(l) + rest, held, creating, started)
  {
    ReleaseThen(l, rest, held, creating, started);
    AcquireThen(l, [Release(l)] + rest, held, creating, started);
    assert Touch(l) + rest == [Acquire(l)] + ([Release(l)] + rest);
  }

  lemma {:induction false} RepeatThen(n: nat, l: Lock, rest: seq<Action>, held: set<Lock>, creating: Option<Session>, started: set<Session>)
    requires MayAcquire(l, held, creating, started) && ManagerLock !in held
    requires Disciplined(rest, held, creating, started)
    ensures Disciplined(Repeat(n, l) + rest, held, creating, started)
  {
    if n == 0 {
      assert [] + rest == rest;
    } else {
      RepeatThen(n - 1, l, rest, held, creating, started);
      TouchThen(l, Repeat(n - 1, l) + rest, held, creating, started);
      assert Touch(l) + (Repeat(n - 1, l) + rest) == Repeat(n, l) + rest;
    }
  }

  /** A locked block whose body touches one inner lock any number of times. */
  lemma WithinThen(outer: Lock, n: nat, inner: Lock, rest: seq<Action>, held: set<Lock>, creating: Option<Session>, started: set<Session>)
    requires MayAcquire(outer, held, creating, started) && ManagerLock !in held && outer != ManagerLock
    requires MayAcquire(inner, held + {outer}, creating, started)
    requires Disciplined(rest, held, creating, started)
    ensures Disciplined(Within(outer, Repeat(n, inner)) + rest, held, creating, started)
  {
    ReleaseThen(outer, rest, held, creating, started);
    RepeatThen(n, inner, [Release(outer)] + rest, held + {outer}, creating, started);
    AcquireThen(outer, Repeat(n, inner) + ([Release(outer)] + rest), held, creating, started);
    assert Within(outer, Repeat(n, inner)) + rest == [Acquire(outer)] + (Repeat(n, inner) + ([Release(outer)] + rest));
  }

  lemma TouchIsRepeat(l: Lock)
    ensures Touch(l) == Repeat(1, l)
  {
    assert Repeat(0, l) == [];
  }

  lemma AddSessionDisciplined(s: Session, files: nat, updates: nat, enqueued: nat, started: set<Session>)
    ensures Disciplined(Script(AddSession(s, files, updates, enqueued)), {}, Some(s), started)
  {
    var v, m, c := ViewLock(s.client), SessionLock(s), Some(s);
    var r7 := Sweep(s.client, enqueued);
    WithinThen(v, enqueued, ManagerLock, [], {}, None, started);
    assert r7 + [] == r7;
    var r6 := [StartSession(s)] + r7;
    assert r6[1..] == r7;
    var r5 := Repeat(updates, v) + r6;
    RepeatThen(updates, v, r6, {}, c, started);
    var r4 := Touch(m) + r5;
    TouchThen(m, r5, {}, c, started);
    var r3 := Touch(v) + r4;
    TouchThen(v, r4, {}, c, started);
    TouchIsRepeat(m);
    TouchIsRepeat(v);
    var r2 := Within(v, Touch(m)) + r3;
    WithinThen(v, 1, m, r3, {}, c, started);
    var r1 := Within(m, Touch(v)) + r2;
    WithinThen(m, 1, v, r2, {}, c, started);
    WithinThen(v, files, m, r1, {}, c, started);
  }

  lemma ProcessChunkDisciplined(s: Session, updates: nat, swept: Option<nat>, started: set<Session>)
    requires s in started
    ensures Disciplined(Script(ProcessChunk(s, updates, swept)), {}, None, started)
  {
    var v, m := ViewLock(s.client), SessionLock(s);
    var sweep := if swept.Some? then Sweep(s.client, swept.value) else [];
    var close := [Release(m)];
    ReleaseThen(m, [], {}, None, started);
    assert close + [] == close && {} + {m} == {m};
    if swept.Some? {
      WithinThen(v, swept.value, ManagerLock, close, {m}, None, started);
    } else {
      assert sweep + close == close;
    }
    RepeatThen(updates, v, sweep + close, {m}, None, started);
    var body := Repeat(updates, v) + (sweep + close);
    AcquireThen(m, body, {}, None, started);
    assert [Acquire(m)] + body == Within(m, Repeat(updates, v) + sweep);
    RepeatThen(2, v, Within(m, Repeat(updates, v) + sweep), {}, None, started);
  }

  ghost predicate CanBegin(op: Operation, created: set<Session>, started: set<Session>)
  {
    match op
    case AddSession(s, _, _, _) => s !in created
    case ProcessChunk(s, _, _) => s in started
    case ViewOnly(s, _) => s in started
    case Terminate(s) => s in started
    case PublishResult(s) => s in created      // a sweep may enqueue a session that is not yet started
    case WorkerTurn => true
  }

  function CreatedBy(op: Operation): Option<Session>
  {
    match op case AddSession(s, _, _, _) => Some(s) case _ => None
  }

  lemma ScriptDisciplined(op: Operation, created: set<Session>, started: set<Session>)
    requires CanBegin(op, created, started)
    ensures Disciplined(Script(op), {}, CreatedBy(op), started)
  {
    match op {
      case AddSession(s, f, u, e) => AddSessionDisciplined(s, f, u, e, started);
      case ProcessChunk(s, u, w) => ProcessChunkDisciplined(s, u, w, started);
      case ViewOnly(s, n) =>
        RepeatThen(n, ViewLock(s.client), [], {}, None, started);
        assert Script(op) + [] == Script(op);
      case Terminate(s) =>
        TouchIsRepeat(ViewLock(s.client));
        WithinThen(SessionLock(s), 1, ViewLock(s.client), [], {}, None, started);
        assert Script(op) + [] == Script(op);
      case PublishResult(s) =>
        RepeatThen(2, SessionLock(s), [], {}, None, started);
        assert Script(op) + [] == Script(op);
      case WorkerTurn =>
        TouchThen(ManagerLock, [], {}, None, started);
        assert Script(op) + [] == Script(op);
    }
  }

  // ---- Interleavings --------------------------------------------------------------------------------

  datatype Thread = Thread(todo: seq<Action>, held: set<Lock>, creating: Option<Session>)

  datatype System = System(threads: map<nat, Thread>, created: set<Session>, started: set<Session>)

  datatype Step = Call(t: nat, op: Operation) | Do(t: nat)

  predicate Free(sys: System, l: Lock) { forall t | t in sys.threads :: l !in sys.threads[t].held }

  /** The next action of thread `t` does not block. */
  predicate CanMove(sys: System, t: nat)
    requires t in sys.threads
  {
    var th := sys.threads[t];
    th.todo != [] && (th.todo[0].Acquire? ==> Free(sys, th.todo[0].lock))
  }

  ghost predicate Enabled(sys: System, step: Step)
  {
    match step
    case Call(t, op) => t in sys.threads && sys.threads[t].todo == [] && CanBegin(op, sys.created, sys.started)
    case Do(t) => t in sys.threads && CanMove(sys, t)
  }

  ghost function Next(sys: System, step: Step): System
    requires Enabled(sys, step)
  {
    match step
    case Call(t, op) =>
      sys.(threads := sys.threads[t := Thread(Script(op), sys.threads[t].held, CreatedBy(op))],
           created := if CreatedBy(op).Some? then sys.created + {CreatedBy(op).value} else sys.created)
    case Do(t) =>
      var th := sys.threads[t];
      match th.todo[0]
      case Acquire(l) => sys.(threads := sys.threads[t := Thread(th.todo[1..], th.held + {l}, th.creating)])
      case Release(l) => sys.(threads := sys.threads[t := Thread(th.todo[1..], th.held - {l}, th.creating)])
      case StartSession(s) =>
        sys.(threads := sys.threads[t := Thread(th.todo[1..], th.held, None)], started := sys.started + {s})
  }

  ghost predicate Initial(sys: System)
  {
    sys.created == {} && sys.started == {} && forall t | t in sys.threads :: sys.threads[t] == Thread([], {}, None)
  }

  ghost predicate ThreadOk(sys: System, t: nat)
    requires t in sys.threads
  {
    var th := sys.threads[t];
    && Disciplined(th.todo, th.held, th.creating, sys.started)
    && (th.creating.Some? ==> th.creating.value in sys.created && th.creating.value !in sys.started)
  }

  ghost predicate Apart(sys: System, t: nat, u: nat)
    requires t in sys.threads && u in sys.threads
  {
    && sys.threads[t].held !! sys.threads[u].held
    && (sys.threads[t].creating.Some? ==> sys.threads[t].creating != sys.threads[u].creating)
  }

  ghost predicate Inv(sys: System)
  {
    && sys.started <= sys.created
    && (forall t | t in sys.threads :: ThreadOk(sys, t))
    && (forall t, u | t in sys.threads && u in sys.threads && t != u :: Apart(sys, t, u))
  }

  lemma OthersOk(sys: System, sys': System, t: nat, u: nat)
    requires Inv(sys) && t in sys.threads && u in sys.threads && u != t
    requires t in sys'.threads && sys'.threads == sys.threads[t := sys'.threads[t]]
    requires sys.started <= sys'.started && sys.created <= sys'.created
    requires sys.threads[u].creating.Some? ==> sys.threads[u].creating.value !in sys'.started
    ensures ThreadOk(sys', u)
  {
    assert ThreadOk(sys, u);
    var th := sys.threads[u];
    DisciplineGrows(th.todo, th.held, th.creating, sys.started, sys'.started);
  }

  lemma KeepsThreads(sys: System, step: Step)
    requires Inv(sys) && Enabled(sys, step)
    ensures var sys' := Next(sys, step);
      sys'.started <= sys'.created && forall u | u in sys'.threads :: ThreadOk(sys', u)
  {
    var sys', t := Next(sys, step), step.t;
    assert ThreadOk(sys, t);
    forall u | u in sys.threads && u != t ensures ThreadOk(sys', u) {
      assert Apart(sys, u, t);
      OthersOk(sys, sys', t, u);
    }
    if step.Call? {
      ScriptDisciplined(step.op, sys.created, sys.started);
    } else if sys.threads[t].todo[0].StartSession? {
      var th := sys'.threads[t];
      DisciplineGrows(th.todo, th.held, None, sys.started, sys'.started);
    }
  }

  lemma KeepsApart(sys: System, step: Step)
    requires Inv(sys) && Enabled(sys, step)
    ensures var sys' := Next(sys, step);
      forall u, w | u in sys'.threads && w in sys'.threads && u != w :: Apart(sys', u, w)
  {
    var sys', t := Next(sys, step), step.t;
    assert ThreadOk(sys, t);
    forall u, w | u in sys'.threads && w in sys'.threads && u != w ensures Apart(sys', u, w) {
      assert Apart(sys, u, w) && Apart(sys, w, u);
      assert ThreadOk(sys, u) && ThreadOk(sys, w);
    }
  }

  least predicate Reachable(sys: System)
  {
    Initial(sys) || exists p, step :: Reachable(p) && Enabled(p, step) && sys == Next(p, step)
  }

  least lemma ReachableInv(sys: System)
    requires Reachable(sys)
    ensures Inv(sys)
  {
    if !Initial(sys) {
      var p, step :| Reachable(p) && Enabled(p, step) && sys == Next(p, step);
      ReachableInv(p);
      KeepsThreads(p, step);
      KeepsApart(p, step);
    }
  }

  // ---- No deadlock ------------------------------------------------------------------------------------

  /** Thread `t` is blocked on a mutex that thread `u` holds. */
  ghost predicate WaitsFor(sys: System, t: nat, u: nat)
  {
    && t in sys.threads && u in sys.threads
    && sys.threads[t].todo != [] && sys.threads[t].todo[0].Acquire?
    && sys.threads[t].todo[0].lock in sys.threads[u].held
  }

  ghost predicate BlockedWithin(sys: System, d: set<nat>, t: nat)
  {
    exists u :: u in d && WaitsFor(sys, t, u)
  }

  /** A set of threads each blocked on a member of the set. */
  ghost predicate Deadlock(sys: System, d: set<nat>)
  {
    d != {} && forall t {:trigger BlockedWithin(sys, d, t)} | t in d :: BlockedWithin(sys, d, t)
  }

  lemma BlockedThread(sys: System, t: nat, u: nat)
    requires Inv(sys) && WaitsFor(sys, t, u)
    ensures t != u && ManagerLock !in sys.threads[t].held
    ensures MayAcquire(sys.threads[t].todo[0].lock, sys.threads[t].held, sys.threads[t].creating, sys.started)
  {
    assert ThreadOk(sys, t);
  }

  /** A blocked thread that holds something does not wait for a session's mutex held by a blocked thread. */
  lemma NoSessionWait(sys: System, t: nat, u: nat, w: nat)
    requires Inv(sys) && WaitsFor(sys, t, u) && WaitsFor(sys, u, w)
    requires sys.threads[t].held != {}
    ensures !sys.threads[t].todo[0].lock.SessionLock?
  {
    BlockedThread(sys, t, u);
    BlockedThread(sys, u, w);
    assert ThreadOk(sys, t);
    assert Apart(sys, t, u);
  }

  /** The holder at the end of three waits is not blocked. */
  lemma ChainsEnd(sys: System, a: nat, b: nat, c: nat, d: nat, e: nat)
    requires Inv(sys)
    requires WaitsFor(sys, a, b) && WaitsFor(sys, b, c) && WaitsFor(sys, c, d)
    ensures !WaitsFor(sys, d, e)
  {
    if WaitsFor(sys, d, e) {
      BlockedThread(sys, b, c);
      BlockedThread(sys, c, d);
      BlockedThread(sys, d, e);
      NoSessionWait(sys, b, c, d);
      NoSessionWait(sys, c, d, e);
      assert false;
    }
  }

  lemma Blocker(sys: System, d: set<nat>, t: nat) returns (u: nat)
    requires Deadlock(sys, d) && t in d
    ensures u in d && WaitsFor(sys, t, u)
  {
    assert BlockedWithin(sys, d, t);
    u :| u in d && WaitsFor(sys, t, u);
  }

  lemma NoDeadlockInv(sys: System, d: set<nat>)
    requires Inv(sys)
    ensures !Deadlock(sys, d)
  {
    if Deadlock(sys, d) {
      var t0 :| t0 in d;
      var t1 := Blocker(sys, d, t0);
      var t2 := Blocker(sys, d, t1);
      var t3 := Blocker(sys, d, t2);
      var t4 := Blocker(sys, d, t3);
      ChainsEnd(sys, t0, t1, t2, t3, t4);
    }
  }

  /** No reachable interleaving contains a cycle of waits. */
  lemma DeadlockFree(sys: System, d: set<nat>)
    requires Reachable(sys)
    ensures !Deadlock(sys, d)
  {
    ReachableInv(sys);
    NoDeadlockInv(sys, d);
  }

  ghost predicate Stuck(sys: System) { forall t | t in sys.threads :: !CanMove(sys, t) }

  ghost function Unfinished(sys: System): set<nat> { set t | t in sys.threads && sys.threads[t].todo != [] }

  lemma StuckIsFinished(sys: System)
    requires Inv(sys) && Stuck(sys)
    ensures Unfinished(sys) == {}
  {
    var d := Unfinished(sys);
    forall t | t in d ensures BlockedWithin(sys, d, t) {
      StuckIsBlocked(sys, t);
    }
    NoDeadlockInv(sys, d);
  }

  /** While any operation is unfinished, some unfinished operation can take its next action. */
  lemma AlwaysProgress(sys: System)
    requires Reachable(sys) && Unfinished(sys) != {}
    ensures exists t :: t in sys.threads && CanMove(sys, t)
  {
    ReachableInv(sys);
    if Stuck(sys) { StuckIsFinished(sys); }
  }

  lemma StuckIsBlocked(sys: System, t: nat)
    requires Inv(sys) && Stuck(sys) && t in Unfinished(sys)
    ensures BlockedWithin(sys, Unfinished(sys), t)
  {
    assert !CanMove(sys, t);
    var l := sys.threads[t].todo[0].lock;
    var u :| u in sys.threads && l in sys.threads[u].held;
    assert ThreadOk(sys, u);
    assert u in Unfinished(sys) && WaitsFor(sys, t, u);
  }

  /** In every reachable state each mutex is held by at most one thread. */
  lemma MutualExclusion(sys: System, t: nat, u: nat, l: Lock)
    requires Reachable(sys) && t in sys.threads && u in sys.threads && t != u
    ensures !(l in sys.threads[t].held && l in sys.threads[u].held)
  {
    ReachableInv(sys);
    assert Apart(sys, t, u);
  }

  // ---- What is held when ------------------------------------------------------------------------------

  /** An acquisition and what the thread holds at that moment. */
  datatype Taking = Taking(lock: Lock, held: set<Lock>)

  function HeldThen(a: Action, held: set<Lock>): set<Lock>
  {
    if a.Acquire? then held + {a.lock} else if a.Release? then held - {a.lock} else held
  }

  function HeldAfter(todo: seq<Action>, held: set<Lock>): set<Lock>
  {
    if todo == [] then held else HeldAfter(todo[1..], HeldThen(todo[0], held))
  }

  /** All acquisitions of an operation, in order. */
  function Takings(todo: seq<Action>, held: set<Lock>): seq<Taking>
  {
    if todo == [] then []
    else (if todo[0].Acquire? then [Taking(todo[0].lock, held)] else []) + Takings(todo[1..], HeldThen(todo[0], held))
  }

  lemma {:induction false} TakingsAppend(a: seq<Action>, b: seq<Action>, held: set<Lock>)
    ensures Takings(a + b, held) == Takings(a, held) + Takings(b, HeldAfter(a, held))
    ensures HeldAfter(a + b, held) == HeldAfter(b, HeldAfter(a, held))
  {
    if a == [] {
      assert a + b == b;
    } else {
      assert (a + b)[0] == a[0] && (a + b)[1..] == a[1..] + b;
      TakingsAppend(a[1..], b, HeldThen(a[0], held));
    }
  }

  lemma TakingsOne(a: Action, held: set<Lock>)
    ensures Takings([a], held) == if a.Acquire? then [Taking(a.lock, held)] else []
    ensures HeldAfter([a], held) == HeldThen(a, held)
  {
    assert [a][1..] == [];
  }

  /** A locked block: the mutex is taken first and the body runs under it. */
  lemma TakingsWithin(l: Lock, body: seq<Action>, held: set<Lock>)
    requires l !in held && HeldAfter(body, held + {l}) == held + {l}
    ensures Takings(Within(l, body), held) == [Taking(l, held)] + Takings(body, held + {l})
    ensures HeldAfter(Within(l, body), held) == held
  {
    TakingsAppend([Acquire(l)] + body, [Release(l)], held);
    TakingsAppend([Acquire(l)], body, held);
    TakingsOne(Acquire(l), held);
    TakingsOne(Release(l), held + {l});
    assert held + {l} - {l} == held;
  }

  lemma {:induction false} TakingsRepeat(n: nat, l: Lock, held: set<Lock>)
    requires l !in held
    ensures Takings(Repeat(n, l), held) == seq(n, _ => Taking(l, held)) && HeldAfter(Repeat(n, l), held) == held
  {
    if n > 0 {
      TakingsRepeat(n - 1, l, held);
      TakingsWithin(l, [], held);
      assert Within(l, []) == Touch(l) && Takings([], held + {l}) == [];
      TakingsAppend(Touch(l), Repeat(n - 1, l), held);
      assert seq(n, _ => Taking(l, held)) == [Taking(l, held)] + seq(n - 1, _ => Taking(l, held));
    }
  }

  lemma TakingsTouch(l: Lock, held: set<Lock>)
    requires l !in held
    ensures Takings(Touch(l), held) == [Taking(l, held)] && HeldAfter(Touch(l), held) == held
  {
    TouchIsRepeat(l);
    TakingsRepeat(1, l, held);
  }

  lemma TakingsSweep(client: string, enqueued: nat, held: set<Lock>)
    requires ViewLock(client) !in held && ManagerLock !in held
    ensures Takings(Sweep(client, enqueued), held)
         == [Taking(ViewLock(client), held)] + seq(enqueued, _ => Taking(ManagerLock, held + {ViewLock(client)}))
    ensures HeldAfter(Sweep(client, enqueued), held) == held
  {
    TakingsRepeat(enqueued, ManagerLock, held + {ViewLock(client)});
    TakingsWithin(ViewLock(client), Repeat(enqueued, ManagerLock), held);
  }

  /**
   Handling a chunk: the view is consulted twice without the session's mutex, then everything happens under it, and a
   request is enqueued while the session, the view and the manager are all locked.
   */
  lemma ChunkTakes(s: Session, updates: nat, swept: Option<nat>)
    ensures var v, m := ViewLock(s.client), SessionLock(s);
      Takings(Script(ProcessChunk(s, updates, swept)), {})
      == seq(2, _ => Taking(v, {})) + ([Taking(m, {})] + (seq(updates, _ => Taking(v, {m}))
         + if swept.Some? then [Taking(v, {m})] + seq(swept.value, _ => Taking(ManagerLock, {m, v})) else []))
  {
    var v, m := ViewLock(s.client), SessionLock(s);
    var sweep := if swept.Some? then Sweep(s.client, swept.value) else [];
    var body := Repeat(updates, v) + sweep;
    assert {} + {m} == {m} && {m} + {v} == {m, v};
    TakingsRepeat(2, v, {});
    TakingsRepeat(updates, v, {m});
    TakingsAppend(Repeat(updates, v), sweep, {m});
    if swept.Some? { TakingsSweep(s.client, swept.value, {m}); }
    hide Takings, HeldAfter, Repeat, Within, Sweep;
    EmptyTakes({m});
    TakingsWithin(m, body, {});
    TakingsAppend(Repeat(2, v), Within(m, body), {});
  }

  lemma EmptyTakes(held: set<Lock>)
    ensures Takings([], held) == [] && HeldAfter([], held) == held
  {
  }

  lemma TakingsThen(a: seq<Action>, first: seq<Taking>, b: seq<Action>, then': seq<Taking>)
    requires Takings(a, {}) == first && HeldAfter(a, {}) == {} && Takings(b, {}) == then'
    ensures Takings(a + b, {}) == first + then'
  {
    TakingsAppend(a, b, {});
  }

  /** The second half of adding a session, from the first block that nests nothing. */
  function AddLate(s: Session, updates: nat, enqueued: nat): seq<Action>
  {
    Touch(ViewLock(s.client)) + (Touch(SessionLock(s)) + (Repeat(updates, ViewLock(s.client))
    + ([StartSession(s)] + Sweep(s.client, enqueued))))
  }

  function AddLateTakings(s: Session, updates: nat, enqueued: nat): seq<Taking>
  {
    var v, m := ViewLock(s.client), SessionLock(s);
    [Taking(v, {})] + ([Taking(m, {})] + (seq(updates, _ => Taking(v, {}))
    + ([Taking(v, {})] + seq(enqueued, _ => Taking(ManagerLock, {v})))))
  }

  lemma AddLateTakes(s: Session, updates: nat, enqueued: nat)
    ensures Takings(AddLate(s, updates, enqueued), {}) == AddLateTakings(s, updates, enqueued)
  {
    hide Takings, HeldAfter, Repeat, Sweep, Touch;
    var v, m := ViewLock(s.client), SessionLock(s);
    assert {} + {v} == {v};
    TakingsTouch(v, {});
    TakingsTouch(m, {});
    TakingsRepeat(updates, v, {});
    TakingsOne(StartSession(s), {});
    TakingsSweep(s.client, enqueued, {});
    var t7 := [Taking(v, {})] + seq(enqueued, _ => Taking(ManagerLock, {v}));
    var r7 := Sweep(s.client, enqueued);
    TakingsThen([StartSession(s)], [], r7, t7);
    assert [] + t7 == t7;
    TakingsThen(Repeat(updates, v), seq(updates, _ => Taking(v, {})), [StartSession(s)] + r7, t7);
    var r5, t5 := Repeat(updates, v) + ([StartSession(s)] + r7), seq(updates, _ => Taking(v, {})) + t7;
    TakingsThen(Touch(m), [Taking(m, {})], r5, t5);
    TakingsThen(Touch(v), [Taking(v, {})], Touch(m) + r5, [Taking(m, {})] + t5);
  }

  /** Adding a session: its mutex is taken under the view's and the view's under its own, but only before it is started. */
  lemma AddTakes(s: Session, files: nat, updates: nat, enqueued: nat)
    ensures var v, m := ViewLock(s.client), SessionLock(s);
      Takings(Script(AddSession(s, files, updates, enqueued)), {})
      == ([Taking(v, {})] + seq(files, _ => Taking(m, {v})))
         + ([Taking(m, {}), Taking(v, {m})] + ([Taking(v, {}), Taking(m, {v})] + AddLateTakings(s, updates, enqueued)))
  {
    hide Takings, HeldAfter, Repeat, Within, Sweep, Touch, AddLateTakings;
    var v, m := ViewLock(s.client), SessionLock(s);
    assert {} + {m} == {m} && {} + {v} == {v};
    AddLateTakes(s, updates, enqueued);
    TakingsRepeat(files, m, {v});
    TakingsTouch(v, {m});
    TakingsTouch(m, {v});
    TakingsWithin(v, Repeat(files, m), {});
    TakingsWithin(m, Touch(v), {});
    TakingsWithin(v, Touch(m), {});
    var late, t3 := AddLate(s, updates, enqueued), AddLateTakings(s, updates, enqueued);
    TakingsThen(Within(v, Touch(m)), [Taking(v, {}), Taking(m, {v})], late, t3);
    var r2, t2 := Within(v, Touch(m)) + late, [Taking(v, {}), Taking(m, {v})] + t3;
    TakingsThen(Within(m, Touch(v)), [Taking(m, {}), Taking(v, {m})], r2, t2);
    TakingsThen(Within(v, Repeat(files, m)), [Taking(v, {})] + seq(files, _ => Taking(m, {v})),
                Within(m, Touch(v)) + r2, [Taking(m, {}), Taking(v, {m})] + t2);
  }

  /** The operations that take mutexes without much nesting. */
  lemma OthersTake(s: Session, touches: nat)
    ensures var v, m := ViewLock(s.client), SessionLock(s);
      && Takings(Script(Terminate(s)), {}) == [Taking(m, {}), Taking(v, {m})]
      && Takings(Script(PublishResult(s)), {}) == seq(2, _ => Taking(m, {}))
      && Takings(Script(ViewOnly(s, touches)), {}) == seq(touches, _ => Taking(v, {}))
      && Takings(Script(WorkerTurn), {}) == [Taking(ManagerLock, {})]
  {
    hide Takings, HeldAfter, Repeat, Within, Touch;
    var v, m := ViewLock(s.client), SessionLock(s);
    assert {} + {m} == {m};
    TakingsTouch(v, {m});
    TakingsWithin(m, Touch(v), {});
    TakingsRepeat(2, m, {});
    TakingsRepeat(touches, v, {});
    TakingsTouch(ManagerLock, {});
  }
}
