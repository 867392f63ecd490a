/** The worker pool as a protocol of atomic steps: each locked region without an inner atomic
    access is one step, and every load, store and compare-exchange of the shared atomics is a step
    of its own. Steps of workers, submitters, resizers and the stopper interleave arbitrarily. */
module ThreadPool {
  type Task = nat

  const MIN_WORKERS: nat := 4
  const MAX_WORKERS: nat := 64

  /** Where a worker thread is. `locked` says whether maybeShrink was called under the mutex. */
  datatype Pc =
    | Top                                   // about to take the mutex and wait
    | Gate                                  // woken, holding the mutex
    | GateLoaded(cur: nat)                  // has read the live count, about to read the target
    | ShrinkLoad(locked: bool)              // maybeShrink: about to read the live count
    | ShrinkTest(locked: bool, cur: nat)    // maybeShrink: about to read the target
    | ShrinkCas(locked: bool, cur: nat)     // maybeShrink: about to compare-exchange
    | Running(task: Task)
    | AfterTask                             // about to read the stop flag
    | Leaving(shrunk: bool)                 // out of the loop
    | Exited(shrunk: bool)

  /** `decs` counts how often this worker has decremented the live count. */
  datatype Worker = Worker(pc: Pc, decs: nat)

  /** Who holds the mutex; a resizer is inside its spawn loop, between spawns or between a
      thread's creation and its counting. */
  datatype Lock = Free | ByWorker(w: nat) | ByResize(n: nat) | BySpawn(n: nat)

  /** `pending` holds the sizes whose target store is done and whose locked part is still to come;
      `accepted`, `popped`, `finished`, `late` and `forced` record the history of tasks. */
  datatype State = State(
    workers: seq<Worker>,
    tasks: seq<Task>,
    stop: bool,
    target: nat,
    live: nat,
    lock: Lock,
    pending: multiset<nat>,
    limit: nat,
    accepted: seq<Task>,
    popped: seq<Task>,
    finished: multiset<Task>,
    late: bool,
    forced: bool)

  datatype Action =
    | Acquire(w: nat)
    | WorkerStep(w: nat, spurious: bool)
    | Enqueue(t: Task)
    | TryEnqueue(t: Task)
    | StoreTarget(n: nat)
    | ResizeLock(n: nat)
    | ResizeLoop
    | CountSpawned
    | Shutdown

  function Clamp(n: nat): nat {
    if n > MAX_WORKERS then MAX_WORKERS else if n < MIN_WORKERS then MIN_WORKERS else n
  }

  /** The pool right after its constructor. */
  predicate Init(s: State) {
    && MIN_WORKERS <= s.target <= MAX_WORKERS
    && s.workers == seq(s.target, i => Worker(Top, 0))
    && s.live == s.target
    && s.lock == Free && s.pending == multiset{}
    && s.tasks == [] && s.accepted == [] && s.popped == [] && s.finished == multiset{}
    && !s.stop && !s.late && !s.forced
  }

  predicate Enabled(s: State, a: Action) {
    match a
    case Acquire(w) => w < |s.workers| && s.workers[w].pc == Top && s.lock == Free
    case WorkerStep(w, _) => w < |s.workers| && !s.workers[w].pc.Top? && !s.workers[w].pc.Exited?
    case Enqueue(_) => s.lock == Free
    case TryEnqueue(_) => s.lock == Free
    case StoreTarget(_) => true
    case ResizeLock(n) => s.lock == Free && n in s.pending
    case ResizeLoop => s.lock.ByResize?
    case CountSpawned => s.lock.BySpawn?
    case Shutdown => s.lock == Free
  }

  /** What one step of a worker does: its new self, the live count it leaves behind, whether it
      gives up the mutex, whether it takes the front task, and the tasks it completes. */
  datatype Effect = Effect(worker: Worker, live: nat, unlock: bool, pop: bool, done: multiset<Task>)

  function Move(x: Worker, pc: Pc, live: nat, unlock: bool): Effect {
    Effect(x.(pc := pc), live, unlock, false, multiset{})
  }

  /** One step of a worker `x` that is neither waiting nor gone. */
  function WorkerEffect(x: Worker, tasks: seq<Task>, stop: bool, target: nat, live: nat, spurious: bool): Effect
    requires !x.pc.Top? && !x.pc.Exited?
  {
    match x.pc
    case Gate =>
      if stop && tasks == [] then Move(x, Leaving(false), live, true)
      else Move(x, GateLoaded(live), live, false)
    case GateLoaded(cur) =>
      if cur > target && tasks == [] then Move(x, ShrinkLoad(true), live, false)
      else if tasks == [] then Move(x, Top, live, true)
      else Effect(x.(pc := Running(tasks[0])), live, true, true, multiset{})
    case ShrinkLoad(locked) => Move(x, ShrinkTest(locked, live), live, false)
    case ShrinkTest(locked, cur) =>
      if cur > target then Move(x, ShrinkCas(locked, cur), live, false)
      else Move(x, Top, live, locked)
    case ShrinkCas(locked, cur) =>
      if live == cur && cur > 0 && !spurious
      then Effect(Worker(Leaving(true), x.decs + 1), cur - 1, locked, false, multiset{})
      else Move(x, ShrinkTest(locked, live), live, false)
    case Running(t) => Effect(x.(pc := AfterTask), live, false, false, multiset{t})
    case AfterTask => Move(x, if stop then Top else ShrinkLoad(false), live, false)
    case Leaving(shrunk) =>
      if shrunk then Move(x, Exited(true), live, false)
      else Effect(Worker(Exited(false), x.decs + 1), if live > 0 then live - 1 else 0, false, false, multiset{})
  }

  function EffectOf(s: State, w: nat, spurious: bool): Effect
    requires Enabled(s, WorkerStep(w, spurious))
  {
    WorkerEffect(s.workers[w], s.tasks, s.stop, s.target, s.live, spurious)
  }

  function Apply(s: State, w: nat, e: Effect): State
    requires w < |s.workers|
  {
    var pop := e.pop && s.tasks != [];
    s.(workers := s.workers[w := e.worker],
       live := e.live,
       lock := if e.unlock then Free else s.lock,
       tasks := if pop then s.tasks[1..] else s.tasks,
       popped := if pop then s.popped + [s.tasks[0]] else s.popped,
       finished := s.finished + e.done)
  }

  function Accept(s: State, t: Task): State {
    s.(tasks := s.tasks + [t], accepted := s.accepted + [t], late := s.late || s.stop)
  }

  function Next(s: State, a: Action): State
    requires Enabled(s, a)
  {
    match a
    case Acquire(w) => s.(workers := s.workers[w := s.workers[w].(pc := Gate)], lock := ByWorker(w))
    case WorkerStep(w, spurious) => Apply(s, w, EffectOf(s, w, spurious))
    case Enqueue(t) => Accept(s, t).(forced := true)
    case TryEnqueue(t) => if |s.tasks| >= s.limit then s else Accept(s, t)
    case StoreTarget(n) => s.(target := Clamp(n), pending := s.pending + multiset{Clamp(n)})
    case ResizeLock(n) => s.(lock := ByResize(n), pending := s.pending - multiset{n})
    case ResizeLoop =>
      if s.live < s.lock.n then s.(workers := s.workers + [Worker(Top, 0)], lock := BySpawn(s.lock.n))
      else s.(lock := Free)
    case CountSpawned => s.(live := s.live + 1, lock := ByResize(s.lock.n))
    case Shutdown => s.(stop := true)
  }

  // ---------------------------------------------------------------- counting over workers

  predicate Accounted(pc: Pc) {
    pc == Leaving(true) || pc.Exited?
  }

  /** Workers that have not yet been taken off the live count. */
  function Unaccounted(ws: seq<Worker>): nat {
    if |ws| == 0 then 0
    else Unaccounted(ws[..|ws| - 1]) + (if Accounted(ws[|ws| - 1].pc) then 0 else 1)
  }

  function TaskOf(pc: Pc): multiset<Task> {
    if pc.Running? then multiset{pc.task} else multiset{}
  }

  /** The tasks being run. */
  function RunningTasks(ws: seq<Worker>): multiset<Task> {
    if |ws| == 0 then multiset{} else RunningTasks(ws[..|ws| - 1]) + TaskOf(ws[|ws| - 1].pc)
  }

  lemma {:induction false} UnaccountedUpdate(ws: seq<Worker>, w: nat, x: Worker)
    requires w < |ws|
    ensures Unaccounted(ws[w := x]) + (if Accounted(ws[w].pc) then 0 else 1)
         == Unaccounted(ws) + (if Accounted(x.pc) then 0 else 1)
  {
    var last := |ws| - 1;
    if w == last {
      assert ws[w := x][..last] == ws[..last];
    } else {
      UnaccountedUpdate(ws[..last], w, x);
      assert ws[w := x][..last] == ws[..last][w := x];
    }
  }

  lemma {:induction false} RunningUpdate(ws: seq<Worker>, w: nat, x: Worker)
    requires w < |ws|
    ensures RunningTasks(ws[w := x]) + TaskOf(ws[w].pc) == RunningTasks(ws) + TaskOf(x.pc)
  {
    hide TaskOf;
    var last := |ws| - 1;
    if w == last {
      assert ws[w := x][..last] == ws[..last];
    } else {
      RunningUpdate(ws[..last], w, x);
      assert ws[w := x][..last] == ws[..last][w := x];
      var a, b, l := RunningTasks(ws[..last][w := x]), RunningTasks(ws[..last]), TaskOf(ws[last].pc);
      assert (a + l) + TaskOf(ws[w].pc) == (a + TaskOf(ws[w].pc)) + l;
      assert (b + l) + TaskOf(x.pc) == (b + TaskOf(x.pc)) + l;
    }
  }

  lemma AppendWorker(ws: seq<Worker>)
    ensures Unaccounted(ws + [Worker(Top, 0)]) == Unaccounted(ws) + 1
    ensures RunningTasks(ws + [Worker(Top, 0)]) == RunningTasks(ws)
  {
    assert (ws + [Worker(Top, 0)])[..|ws|] == ws;
  }

  lemma {:induction false} FreshWorkers(n: nat)
    ensures Unaccounted(seq(n, i => Worker(Top, 0))) == n
    ensures RunningTasks(seq(n, i => Worker(Top, 0))) == multiset{}
  {
    if n > 0 {
      FreshWorkers(n - 1);
      var ws := seq(n, i => Worker(Top, 0));
      assert ws[..n - 1] == seq(n - 1, i => Worker(Top, 0));
    }
  }

  lemma {:induction false} NoneUnaccounted(ws: seq<Worker>)
    requires forall w :: 0 <= w < |ws| ==> Accounted(ws[w].pc)
    ensures Unaccounted(ws) == 0
  {
    if |ws| > 0 {
      NoneUnaccounted(ws[..|ws| - 1]);
    }
  }

  lemma {:induction false} SomeUnaccounted(ws: seq<Worker>, w: nat)
    requires w < |ws| && !Accounted(ws[w].pc)
    ensures Unaccounted(ws) > 0
  {
    if w < |ws| - 1 {
      SomeUnaccounted(ws[..|ws| - 1], w);
    }
  }

  // ---------------------------------------------------------------- the invariant

  predicate HoldsMutex(pc: Pc) {
    pc.Gate? || pc.GateLoaded? || (pc.ShrinkLoad? && pc.locked) || (pc.ShrinkTest? && pc.locked)
    || (pc.ShrinkCas? && pc.locked)
  }

  /** The mutex is held by exactly the thread that believes so. */
  ghost predicate MutexInvariant(s: State) {
    MutexHeld(s.workers, s.lock)
  }

  ghost predicate MutexHeld(ws: seq<Worker>, lock: Lock) {
    forall w :: 0 <= w < |ws| ==> (HoldsMutex(ws[w].pc) <==> lock == ByWorker(w))
  }

  predicate InRange(n: nat) {
    MIN_WORKERS <= n <= MAX_WORKERS
  }

  /** Targets stay in range, and a compare-exchange is only attempted above some target. */
  ghost predicate TargetInvariant(s: State) {
    TargetsInRange(s.target, s.pending, s.lock) && CasAboveMinimum(s.workers)
  }

  ghost predicate AllInRange(pending: multiset<nat>) {
    forall n :: n in pending ==> InRange(n)
  }

  ghost predicate TargetsInRange(target: nat, pending: multiset<nat>, lock: Lock) {
    InRange(target) && AllInRange(pending)
    && (lock.ByResize? || lock.BySpawn? ==> InRange(lock.n))
  }

  ghost predicate CasAboveMinimum(ws: seq<Worker>) {
    forall w :: 0 <= w < |ws| && ws[w].pc.ShrinkCas? ==> ws[w].pc.cur > MIN_WORKERS
  }

  predicate LeftByStop(pc: Pc) {
    pc == Leaving(false) || pc == Exited(false)
  }

  /** The live count is the number of workers not yet taken off it, each worker is taken off
      once, and the count stays in range until a stopping worker takes itself off. */
  ghost predicate CountInvariant(s: State) {
    && Tally(s.workers, s.live, s.lock)
    && DecrementedOnce(s.workers)
    && s.live <= MAX_WORKERS
    && (s.live < MIN_WORKERS ==> SomeoneStopped(s.workers))
  }

  /** A thread that is created but not yet counted is the last one, and still waiting. */
  ghost predicate Tally(ws: seq<Worker>, live: nat, lock: Lock) {
    && live + (if lock.BySpawn? then 1 else 0) == Unaccounted(ws)
    && (lock.BySpawn? ==> live < lock.n && |ws| > 0 && ws[|ws| - 1].pc == Top)
  }

  ghost predicate DecrementedOnce(ws: seq<Worker>) {
    forall w :: 0 <= w < |ws| ==> ws[w].decs == if Accounted(ws[w].pc) then 1 else 0
  }

  predicate SomeoneStopped(ws: seq<Worker>) {
    exists w :: 0 <= w < |ws| && ws[w].pc == Exited(false)
  }

  /** Accepted tasks are popped in FIFO order, and the popped ones are running or finished. */
  ghost predicate TaskInvariant(s: State) {
    && s.accepted == s.popped + s.tasks
    && PoppedOnce(s.popped, s.workers, s.finished)
    && (!s.forced ==> |s.tasks| <= s.limit)
  }

  ghost predicate PoppedOnce(popped: seq<Task>, ws: seq<Worker>, finished: multiset<Task>) {
    multiset(popped) == RunningTasks(ws) + finished
  }

  /** A worker leaves other than by shrinking only after stop and with nothing queued. */
  ghost predicate DrainInvariant(s: State) {
    forall w :: 0 <= w < |s.workers| && LeftByStop(s.workers[w].pc) ==> s.stop && (s.late || s.tasks == [])
  }

  ghost predicate Inv(s: State) {
    MutexInvariant(s) && TargetInvariant(s) && CountInvariant(s) && TaskInvariant(s) && DrainInvariant(s)
  }

  lemma InitInv(s: State)
    requires Init(s)
    ensures Inv(s)
  {
    FreshWorkers(s.target);
  }

  /** A step gives up the mutex only if it held it, and holds it afterwards only if it held it before. */
  lemma EffectMutex(x: Worker, tasks: seq<Task>, stop: bool, target: nat, live: nat, spurious: bool)
    requires !x.pc.Top? && !x.pc.Exited?
    ensures var e := WorkerEffect(x, tasks, stop, target, live, spurious);
            (HoldsMutex(e.worker.pc) <==> HoldsMutex(x.pc) && !e.unlock) && (e.unlock ==> HoldsMutex(x.pc))
  {
  }

  lemma EffectTarget(x: Worker, tasks: seq<Task>, stop: bool, target: nat, live: nat, spurious: bool)
    requires !x.pc.Top? && !x.pc.Exited?
    ensures var e := WorkerEffect(x, tasks, stop, target, live, spurious);
            e.worker.pc.ShrinkCas? ==> e.worker.pc.cur > target
  {
  }

  lemma EffectRunning(x: Worker, tasks: seq<Task>, stop: bool, target: nat, live: nat, spurious: bool)
    requires !x.pc.Top? && !x.pc.Exited?
    ensures var e := WorkerEffect(x, tasks, stop, target, live, spurious);
            && (e.pop ==> tasks != [] && e.worker.pc == Running(tasks[0]) && !x.pc.Running?)
            && (!e.pop ==> !e.worker.pc.Running?)
  {
  }

  lemma EffectTasks(x: Worker, tasks: seq<Task>, stop: bool, target: nat, live: nat, spurious: bool)
    requires !x.pc.Top? && !x.pc.Exited?
    ensures var e := WorkerEffect(x, tasks, stop, target, live, spurious);
            && (e.pop ==> tasks != [] && TaskOf(e.worker.pc) == multiset{tasks[0]} && TaskOf(x.pc) == multiset{})
            && (!e.pop ==> TaskOf(e.worker.pc) == multiset{})
            && e.done == TaskOf(x.pc)
  {
    EffectRunning(x, tasks, stop, target, live, spurious);
    EffectDone(x, tasks, stop, target, live, spurious);
    hide WorkerEffect;
  }

  lemma EffectDone(x: Worker, tasks: seq<Task>, stop: bool, target: nat, live: nat, spurious: bool)
    requires !x.pc.Top? && !x.pc.Exited?
    ensures WorkerEffect(x, tasks, stop, target, live, spurious).done == TaskOf(x.pc)
  {
    if x.pc.Running? {
      assert WorkerEffect(x, tasks, stop, target, live, spurious)
          == Effect(x.(pc := AfterTask), live, false, false, multiset{x.pc.task});
    }
  }

  lemma EffectDrain(x: Worker, tasks: seq<Task>, stop: bool, target: nat, live: nat, spurious: bool)
    requires !x.pc.Top? && !x.pc.Exited?
    ensures var e := WorkerEffect(x, tasks, stop, target, live, spurious);
            LeftByStop(e.worker.pc) ==> (stop && tasks == []) || LeftByStop(x.pc)
  {
  }

  /** A step that takes its worker off the live count lowers it by one; every other step keeps it. */
  lemma EffectCounts(x: Worker, tasks: seq<Task>, stop: bool, target: nat, live: nat, spurious: bool)
    requires !x.pc.Top? && !x.pc.Exited?
    requires x.pc.ShrinkCas? ==> x.pc.cur > MIN_WORKERS
    requires !Accounted(x.pc) ==> live > 0
    requires x.decs == if Accounted(x.pc) then 1 else 0
    ensures var e := WorkerEffect(x, tasks, stop, target, live, spurious);
            && (Accounted(x.pc) ==> Accounted(e.worker.pc))
            && e.live == live - (if Accounted(e.worker.pc) && !Accounted(x.pc) then 1 else 0)
            && e.worker.decs == (if Accounted(e.worker.pc) then 1 else 0)
            && (e.live < live ==> e.live >= MIN_WORKERS || e.worker.pc == Exited(false))
  {
  }

  /** Worker `w` moves to `x` and gives up the mutex only if it holds it. */
  lemma MutexMove(ws: seq<Worker>, lock: Lock, w: nat, x: Worker, unlock: bool)
    requires w < |ws| && MutexHeld(ws, lock)
    requires (HoldsMutex(x.pc) <==> HoldsMutex(ws[w].pc) && !unlock) && (unlock ==> HoldsMutex(ws[w].pc))
    ensures MutexHeld(ws[w := x], if unlock then Free else lock)
  {
    hide HoldsMutex;
  }

  lemma MutexTaken(ws: seq<Worker>, w: nat)
    requires w < |ws| && MutexHeld(ws, Free)
    ensures MutexHeld(ws[w := ws[w].(pc := Gate)], ByWorker(w))
  {
    TopHoldsNothing();
    hide HoldsMutex;
  }

  /** Nothing changes for the workers when the mutex stays with threads that are not workers. */
  lemma MutexElsewhere(ws: seq<Worker>, lock: Lock, lock': Lock)
    requires MutexHeld(ws, lock) && !lock.ByWorker? && !lock'.ByWorker?
    ensures MutexHeld(ws, lock') && MutexHeld(ws + [Worker(Top, 0)], lock')
  {
    TopHoldsNothing();
    hide HoldsMutex;
  }

  lemma MutexKept(s: State, a: Action)
    requires Enabled(s, a) && MutexInvariant(s)
    ensures MutexInvariant(Next(s, a))
  {
    hide MutexHeld, HoldsMutex;
    if a.WorkerStep? {
      EffectMutex(s.workers[a.w], s.tasks, s.stop, s.target, s.live, a.spurious);
      hide WorkerEffect;
      var e := EffectOf(s, a.w, a.spurious);
      MutexMove(s.workers, s.lock, a.w, e.worker, e.unlock);
    } else if a.Acquire? {
      MutexTaken(s.workers, a.w);
    } else if !a.StoreTarget? {
      MutexElsewhere(s.workers, s.lock, Next(s, a).lock);
    }
  }

  lemma TopHoldsNothing()
    ensures !HoldsMutex(Top) && HoldsMutex(Gate)
  {
  }

  lemma TargetKeptByWorker(s: State, w: nat, spurious: bool)
    requires Enabled(s, WorkerStep(w, spurious)) && TargetInvariant(s)
    ensures TargetInvariant(Next(s, WorkerStep(w, spurious)))
  {
    var e := EffectOf(s, w, spurious);
    EffectTarget(s.workers[w], s.tasks, s.stop, s.target, s.live, spurious);
    hide WorkerEffect, CasAboveMinimum;
    CasKept(s.workers, w, e.worker);
  }

  lemma TargetKept(s: State, a: Action)
    requires Enabled(s, a) && TargetInvariant(s)
    ensures TargetInvariant(Next(s, a))
  {
    hide CasAboveMinimum;
    if a.WorkerStep? {
      hide Next, TargetsInRange;
      TargetKeptByWorker(s, a.w, a.spurious);
    } else if a.Acquire? {
      hide TargetsInRange;
      assert TargetsInRange(s.target, s.pending, ByWorker(a.w)) by {
        LockOutOfRange(s.target, s.pending, s.lock, ByWorker(a.w));
      }
      CasKept(s.workers, a.w, s.workers[a.w].(pc := Gate));
    } else {
      CasKeptOnSpawn(s.workers);
      TargetsKept(s, a);
      hide TargetsInRange;
    }
  }

  lemma LockOutOfRange(target: nat, pending: multiset<nat>, lock: Lock, lock': Lock)
    requires TargetsInRange(target, pending, lock) && !lock'.ByResize? && !lock'.BySpawn?
    ensures TargetsInRange(target, pending, lock')
  {
  }

  lemma PendingAdded(pending: multiset<nat>, n: nat)
    requires InRange(n) && AllInRange(pending)
    ensures AllInRange(pending + multiset{n})
  {
    hide InRange;
  }

  lemma PendingTaken(pending: multiset<nat>, n: nat)
    requires AllInRange(pending)
    ensures AllInRange(pending - multiset{n}) && (n in pending ==> InRange(n))
  {
    hide InRange;
    forall k | k in pending - multiset{n} ensures InRange(k) {
      assert k in pending;
    }
  }

  lemma TargetsKept(s: State, a: Action)
    requires Enabled(s, a) && TargetsInRange(s.target, s.pending, s.lock) && !a.WorkerStep? && !a.Acquire?
    ensures var s' := Next(s, a); TargetsInRange(s'.target, s'.pending, s'.lock)
  {
    hide AllInRange;
    if a.StoreTarget? {
      PendingAdded(s.pending, Clamp(a.n));
    } else if a.ResizeLock? {
      PendingTaken(s.pending, a.n);
    }
    hide InRange;
  }

  lemma CasKept(ws: seq<Worker>, w: nat, x: Worker)
    requires w < |ws| && CasAboveMinimum(ws)
    requires x.pc.ShrinkCas? ==> x.pc.cur > MIN_WORKERS
    ensures CasAboveMinimum(ws[w := x])
  {
  }

  lemma CasKeptOnSpawn(ws: seq<Worker>)
    ensures CasAboveMinimum(ws) ==> CasAboveMinimum(ws + [Worker(Top, 0)])
  {
  }

  lemma StoppedStays(ws: seq<Worker>, w: nat, x: Worker)
    requires w < |ws| && ws[w].pc != Exited(false)
    ensures SomeoneStopped(ws) ==> SomeoneStopped(ws[w := x])
    ensures x.pc == Exited(false) ==> SomeoneStopped(ws[w := x])
  {
    if SomeoneStopped(ws) {
      var v :| 0 <= v < |ws| && ws[v].pc == Exited(false);
      assert ws[w := x][v].pc == Exited(false);
    }
    if x.pc == Exited(false) {
      assert ws[w := x][w].pc == Exited(false);
    }
  }

  lemma StoppedStaysOnSpawn(ws: seq<Worker>, x: Worker)
    ensures SomeoneStopped(ws) ==> SomeoneStopped(ws + [x])
  {
    if SomeoneStopped(ws) {
      var v :| 0 <= v < |ws| && ws[v].pc == Exited(false);
      assert (ws + [x])[v].pc == Exited(false);
    }
  }

  lemma TallyReplace(ws: seq<Worker>, live: nat, lock: Lock, w: nat, x: Worker, live': nat, lock': Lock)
    requires w < |ws| && Tally(ws, live, lock)
    requires lock' == lock || (lock' == Free && !lock.BySpawn?)
    requires Accounted(ws[w].pc) ==> Accounted(x.pc)
    requires live' == live - (if Accounted(x.pc) && !Accounted(ws[w].pc) then 1 else 0)
    requires !ws[w].pc.Top?
    ensures Tally(ws[w := x], live', lock')
  {
    hide Unaccounted;
    UnaccountedUpdate(ws, w, x);
  }

  lemma DecrementedOnceReplace(ws: seq<Worker>, w: nat, x: Worker)
    requires w < |ws| && DecrementedOnce(ws) && x.decs == if Accounted(x.pc) then 1 else 0
    ensures DecrementedOnce(ws[w := x])
  {
  }

  /** The counting part of a worker's step, over the components it touches. */
  lemma CountMove(ws: seq<Worker>, live: nat, lock: Lock, w: nat, x: Worker, live': nat, lock': Lock)
    requires w < |ws| && Tally(ws, live, lock) && DecrementedOnce(ws) && !ws[w].pc.Top? && ws[w].pc != Exited(false)
    requires lock' == lock || (lock' == Free && !lock.BySpawn?)
    requires Accounted(ws[w].pc) ==> Accounted(x.pc)
    requires live' == live - (if Accounted(x.pc) && !Accounted(ws[w].pc) then 1 else 0)
    requires x.decs == ws[w].decs + (if Accounted(x.pc) && !Accounted(ws[w].pc) then 1 else 0)
    ensures Tally(ws[w := x], live', lock') && DecrementedOnce(ws[w := x])
    ensures SomeoneStopped(ws) || x.pc == Exited(false) ==> SomeoneStopped(ws[w := x])
  {
    TallyReplace(ws, live, lock, w, x, live', lock');
    DecrementedOnceReplace(ws, w, x);
    StoppedStays(ws, w, x);
  }

  lemma CountKeptByWorker(s: State, w: nat, spurious: bool)
    requires Enabled(s, WorkerStep(w, spurious))
    requires MutexInvariant(s) && CasAboveMinimum(s.workers) && CountInvariant(s)
    ensures CountInvariant(Next(s, WorkerStep(w, spurious)))
  {
    var x := s.workers[w];
    if !Accounted(x.pc) {
      SpawnedIsAnother(s.workers, s.live, s.lock, w);
    }
    EffectCounts(x, s.tasks, s.stop, s.target, s.live, spurious);
    EffectMutex(x, s.tasks, s.stop, s.target, s.live, spurious);
    var e := EffectOf(s, w, spurious);
    assert e.unlock ==> s.lock == ByWorker(w);
    hide WorkerEffect, EffectOf, SomeoneStopped, HoldsMutex, Accounted, Tally, DecrementedOnce, MutexInvariant;
    CountMove(s.workers, s.live, s.lock, w, e.worker, e.live, if e.unlock then Free else s.lock);
  }

  /** A worker that is about to take itself off finds a positive live count. */
  lemma SpawnedIsAnother(ws: seq<Worker>, live: nat, lock: Lock, w: nat)
    requires w < |ws| && Tally(ws, live, lock)
    requires !Accounted(ws[w].pc) && !ws[w].pc.Top?
    ensures live > 0
  {
    SomeUnaccounted(ws, w);
    if lock.BySpawn? {
      SomeUnaccounted(ws[..|ws| - 1], w);
    }
  }

  lemma TallySpawn(ws: seq<Worker>, live: nat, n: nat)
    requires Tally(ws, live, ByResize(n)) && live < n
    ensures Tally(ws + [Worker(Top, 0)], live, BySpawn(n))
  {
    hide Unaccounted;
    AppendWorker(ws);
  }

  lemma TallyAcquire(ws: seq<Worker>, live: nat, w: nat, x: Worker)
    requires w < |ws| && ws[w].pc == Top && x.pc == Gate && Tally(ws, live, Free)
    ensures Tally(ws[w := x], live, ByWorker(w))
  {
    hide Unaccounted;
    UnaccountedUpdate(ws, w, x);
  }

  lemma TallyLocks(ws: seq<Worker>, live: nat, n: nat)
    ensures Tally(ws, live, Free) <==> Tally(ws, live, ByResize(n))
    ensures Tally(ws, live, BySpawn(n)) ==> Tally(ws, live + 1, ByResize(n)) && live < n
  {
    hide Unaccounted;
  }

  lemma CountKept(s: State, a: Action)
    requires Enabled(s, a) && MutexInvariant(s) && TargetInvariant(s) && CountInvariant(s)
    ensures CountInvariant(Next(s, a))
  {
    if a.WorkerStep? {
      CountKeptByWorker(s, a.w, a.spurious);
    } else {
      hide SomeoneStopped, MutexInvariant, CasAboveMinimum, Tally, DecrementedOnce;
      match a
      case Acquire(w) =>
        var x := s.workers[w].(pc := Gate);
        TallyAcquire(s.workers, s.live, w, x);
        DecrementedOnceTop(s.workers, w);
        StoppedStays(s.workers, w, x);
      case ResizeLock(n) =>
        TallyLocks(s.workers, s.live, n);
      case ResizeLoop =>
        TallyLocks(s.workers, s.live, s.lock.n);
        if s.live < s.lock.n {
          TallySpawn(s.workers, s.live, s.lock.n);
        }
        StoppedStaysOnSpawn(s.workers, Worker(Top, 0));
        DecrementedOnceOnSpawn(s.workers);
      case CountSpawned =>
        TallyLocks(s.workers, s.live, s.lock.n);
      case _ =>
    }
  }

  lemma DecrementedOnceTop(ws: seq<Worker>, w: nat)
    requires w < |ws| && DecrementedOnce(ws) && ws[w].pc == Top
    ensures DecrementedOnce(ws[w := ws[w].(pc := Gate)])
  {
  }

  lemma DecrementedOnceOnSpawn(ws: seq<Worker>)
    requires DecrementedOnce(ws)
    ensures DecrementedOnce(ws + [Worker(Top, 0)])
  {
  }

  lemma PoppedOnceReplace(popped: seq<Task>, ws: seq<Worker>, finished: multiset<Task>, w: nat, x: Worker)
    requires w < |ws| && PoppedOnce(popped, ws, finished) && TaskOf(x.pc) == multiset{}
    ensures PoppedOnce(popped, ws[w := x], finished + TaskOf(ws[w].pc))
  {
    hide RunningTasks, TaskOf;
    RunningUpdate(ws, w, x);
    var a, b, t := RunningTasks(ws[w := x]), RunningTasks(ws), TaskOf(ws[w].pc);
    assert a + t == b + multiset{};
    assert a + (finished + t) == (a + t) + finished;
  }

  lemma PoppedOncePop(popped: seq<Task>, ws: seq<Worker>, finished: multiset<Task>, w: nat, x: Worker, t: Task)
    requires w < |ws| && PoppedOnce(popped, ws, finished)
    requires TaskOf(x.pc) == multiset{t} && TaskOf(ws[w].pc) == multiset{}
    ensures PoppedOnce(popped + [t], ws[w := x], finished)
  {
    hide RunningTasks, TaskOf;
    RunningUpdate(ws, w, x);
    var a, b := RunningTasks(ws[w := x]), RunningTasks(ws);
    assert a + multiset{} == b + multiset{t};
    assert multiset(popped + [t]) == multiset(popped) + multiset{t};
    assert (b + finished) + multiset{t} == (b + multiset{t}) + finished;
  }

  lemma PoppedOnceOnSpawn(popped: seq<Task>, ws: seq<Worker>, finished: multiset<Task>)
    requires PoppedOnce(popped, ws, finished)
    ensures PoppedOnce(popped, ws + [Worker(Top, 0)], finished)
  {
    hide RunningTasks;
    AppendWorker(ws);
  }

  lemma TaskKept(s: State, a: Action)
    requires Enabled(s, a) && TaskInvariant(s)
    ensures TaskInvariant(Next(s, a))
  {
    hide PoppedOnce;
    if a.WorkerStep? {
      hide Next, TaskInvariant;
      TaskKeptByWorker(s, a.w, a.spurious);
    } else if a.Acquire? {
      TaskKeptByAcquire(s, a.w);
    } else if a.ResizeLoop? {
      PoppedOnceOnSpawn(s.popped, s.workers, s.finished);
    } else {
      TaskKeptByCaller(s, a);
    }
  }

  lemma TaskKeptByAcquire(s: State, w: nat)
    requires Enabled(s, Acquire(w)) && TaskInvariant(s)
    ensures TaskInvariant(Next(s, Acquire(w)))
  {
    PoppedOnceReplace(s.popped, s.workers, s.finished, w, s.workers[w].(pc := Gate));
    hide PoppedOnce;
    assert s.finished + multiset{} == s.finished;
  }

  lemma TaskKeptByCaller(s: State, a: Action)
    requires Enabled(s, a) && TaskInvariant(s) && !a.WorkerStep? && !a.Acquire? && !a.ResizeLoop?
    ensures TaskInvariant(Next(s, a))
  {
    hide PoppedOnce;
    if a.Enqueue? || a.TryEnqueue? {
      assert s.popped + (s.tasks + [a.t]) == s.popped + s.tasks + [a.t];
    }
  }

  lemma TaskKeptByWorker(s: State, w: nat, spurious: bool)
    requires Enabled(s, WorkerStep(w, spurious)) && TaskInvariant(s)
    ensures TaskInvariant(Next(s, WorkerStep(w, spurious)))
  {
    var x := s.workers[w];
    var e := EffectOf(s, w, spurious);
    EffectTasks(x, s.tasks, s.stop, s.target, s.live, spurious);
    hide WorkerEffect, EffectOf, PoppedOnce, TaskOf;
    if e.pop {
      PopFront(s.popped, s.tasks);
      PoppedOncePop(s.popped, s.workers, s.finished, w, e.worker, s.tasks[0]);
      assert s.finished + multiset{} == s.finished;
    } else {
      PoppedOnceReplace(s.popped, s.workers, s.finished, w, e.worker);
    }
  }

  lemma PopFront(popped: seq<Task>, tasks: seq<Task>)
    requires tasks != []
    ensures popped + tasks == (popped + [tasks[0]]) + tasks[1..]
    ensures multiset(popped + [tasks[0]]) == multiset(popped) + multiset{tasks[0]}
  {
  }

  lemma DrainKept(s: State, a: Action)
    requires Enabled(s, a) && DrainInvariant(s)
    ensures DrainInvariant(Next(s, a))
  {
    if a.WorkerStep? {
      EffectDrain(s.workers[a.w], s.tasks, s.stop, s.target, s.live, a.spurious);
      hide WorkerEffect;
    }
  }

  lemma StepInv(s: State, a: Action)
    requires Enabled(s, a) && Inv(s)
    ensures Inv(Next(s, a))
  {
    hide MutexInvariant, TargetInvariant, CountInvariant, TaskInvariant, DrainInvariant, Next;
    MutexKept(s, a);
    TargetKept(s, a);
    CountKept(s, a);
    TaskKept(s, a);
    DrainKept(s, a);
  }

  // ---------------------------------------------------------------- every run

  ghost predicate Steps(s: State, a: Action, s': State) {
    Enabled(s, a) && s' == Next(s, a)
  }

  /** `s` is reached from `s0` by the interleaving `acts`. */
  ghost predicate Reaches(s0: State, acts: seq<Action>, s: State) {
    if |acts| == 0 then s == s0
    else
      var init, a := acts[..|acts| - 1], acts[|acts| - 1];
      exists mid :: Reaches(s0, init, mid) && Steps(mid, a, s)
  }

  lemma {:induction false} RunInv(s0: State, acts: seq<Action>, s: State)
    requires Init(s0) && Reaches(s0, acts, s)
    ensures Inv(s)
  {
    hide Inv, Init, Enabled, Next;
    if |acts| == 0 {
      InitInv(s0);
    } else {
      var init, a := acts[..|acts| - 1], acts[|acts| - 1];
      var mid :| Reaches(s0, init, mid) && Steps(mid, a, s);
      RunInv(s0, init, mid);
      StepInv(mid, a);
    }
  }

  /** Steps are deterministic: the state a run ends in. */
  function After(s0: State, acts: seq<Action>): State {
    if |acts| == 0 then s0
    else
      var s, a := After(s0, acts[..|acts| - 1]), acts[|acts| - 1];
      if Enabled(s, a) then Next(s, a) else s
  }

  /** The tasks that callers handed in: every enqueue, and every tryEnqueue that met a queue below
      the backpressure limit. */
  function Submitted(s0: State, acts: seq<Action>): seq<Task> {
    if |acts| == 0 then []
    else
      var init, a := acts[..|acts| - 1], acts[|acts| - 1];
      Submitted(s0, init) +
      (match a
       case Enqueue(t) => [t]
       case TryEnqueue(t) => if |After(s0, init).tasks| < s0.limit then [t] else []
       case _ => [])
  }

  lemma {:induction false} RunIsAfter(s0: State, acts: seq<Action>, s: State)
    requires Reaches(s0, acts, s)
    ensures s == After(s0, acts)
  {
    if |acts| > 0 {
      hide Enabled, Next;
      var init, a := acts[..|acts| - 1], acts[|acts| - 1];
      var mid :| Reaches(s0, init, mid) && Steps(mid, a, s);
      RunIsAfter(s0, init, mid);
    }
  }

  lemma StepSubmits(s: State, a: Action)
    requires Enabled(s, a)
    ensures Next(s, a).limit == s.limit
    ensures Next(s, a).accepted == s.accepted +
            (match a
             case Enqueue(t) => [t]
             case TryEnqueue(t) => if |s.tasks| < s.limit then [t] else []
             case _ => [])
  {
    hide WorkerEffect;
    assert s.accepted + [] == s.accepted;
  }

  lemma {:induction false} AcceptedIsSubmitted(s0: State, acts: seq<Action>, s: State)
    requires Init(s0) && Reaches(s0, acts, s)
    ensures s.accepted == Submitted(s0, acts) && s.limit == s0.limit
  {
    if |acts| > 0 {
      hide Enabled, Next, Init;
      var init, a := acts[..|acts| - 1], acts[|acts| - 1];
      var mid :| Reaches(s0, init, mid) && Steps(mid, a, s);
      AcceptedIsSubmitted(s0, init, mid);
      RunIsAfter(s0, init, mid);
      StepSubmits(mid, a);
    }
  }

  /** Task conservation: in every interleaving the tasks that callers handed in are, in order, the
      popped ones followed by the queued ones; every popped task is running in exactly one worker or
      finished; and without a plain enqueue the queue never exceeds the backpressure limit. */
  lemma TaskConservation(s0: State, acts: seq<Action>, s: State)
    requires Init(s0) && Reaches(s0, acts, s)
    ensures s.accepted == Submitted(s0, acts)
    ensures s.accepted == s.popped + s.tasks
    ensures multiset(s.accepted) == multiset(s.tasks) + RunningTasks(s.workers) + s.finished
    ensures !s.forced ==> |s.tasks| <= s.limit
  {
    AcceptedIsSubmitted(s0, acts, s);
    hide Reaches, RunningTasks, Submitted;
    RunInv(s0, acts, s);
  }

  /** Live count: in every interleaving it is the number of spawned workers not yet taken off it,
      each worker is taken off exactly once, and it stays within [4, 64] until the pool is stopped,
      whatever happens to the target between a shrinker's loads and its compare-exchange. */
  lemma LiveCountBounds(s0: State, acts: seq<Action>, s: State)
    requires Init(s0) && Reaches(s0, acts, s)
    ensures !s.lock.BySpawn? ==> s.live == Unaccounted(s.workers)
    ensures forall w :: 0 <= w < |s.workers| ==> s.workers[w].decs == if Accounted(s.workers[w].pc) then 1 else 0
    ensures s.live <= 64
    ensures !s.stop ==> 4 <= s.live
  {
    hide Reaches, Unaccounted;
    RunInv(s0, acts, s);
    if s.live < MIN_WORKERS {
      var w :| 0 <= w < |s.workers| && s.workers[w].pc == Exited(false);
      assert LeftByStop(s.workers[w].pc);
    }
  }

  /** Drain: once every worker has exited, the pool was stopped, the live count is zero, and, if
      nothing was enqueued after the stop, every accepted task has finished. */
  lemma DrainedOnExit(s0: State, acts: seq<Action>, s: State)
    requires Init(s0) && Reaches(s0, acts, s)
    requires forall w :: 0 <= w < |s.workers| ==> s.workers[w].pc.Exited?
    ensures s.stop && s.live == 0
    ensures !s.late ==> s.tasks == [] && multiset(s.accepted) == s.finished
  {
    hide Reaches, Unaccounted;
    RunInv(s0, acts, s);
    NoneUnaccounted(s.workers);
    NothingRunning(s.workers);
    var w :| 0 <= w < |s.workers| && s.workers[w].pc == Exited(false);
    assert LeftByStop(s.workers[w].pc);
    if s.tasks == [] {
      assert s.popped + s.tasks == s.popped;
    }
  }

  lemma {:induction false} NothingRunning(ws: seq<Worker>)
    requires forall w :: 0 <= w < |ws| ==> ws[w].pc.Exited?
    ensures RunningTasks(ws) == multiset{}
  {
    if |ws| > 0 {
      NothingRunning(ws[..|ws| - 1]);
    }
  }
}
