/** What workers get done when they are let run: the safety results of ThreadPool hold of a pool that
    never works, these do not. */
module PoolProgress {
  import opened ThreadPool
  import Pool

  lemma OneTurn(s0: State, acts: seq<Action>, s: State, w: nat)
    requires Reaches(s0, acts, s) && Enabled(s, WorkerStep(w, false))
    ensures Reaches(s0, acts + [WorkerStep(w, false)], Next(s, WorkerStep(w, false)))
  {
    hide Reaches, Enabled, Next;
    Pool.RunStep(s0, acts, s, WorkerStep(w, false));
  }

  /** Worker `w` waits and nobody holds the mutex. */
  predicate Waits(s: State, w: nat) {
    w < |s.workers| && s.workers[w].pc == Top && s.lock == Free
  }

  /** The state with worker `w` at `pc`. */
  function At(s: State, w: nat, pc: Pc): State
    requires w < |s.workers|
  {
    s.(workers := s.workers[w := s.workers[w].(pc := pc)])
  }

  lemma Wakes(s: State, w: nat)
    requires Waits(s, w)
    ensures Next(s, Acquire(w)) == At(s, w, Gate).(lock := ByWorker(w))
    ensures Reaches(s, [Acquire(w)], Next(s, Acquire(w)))
  {
    Pool.NoStep(s);
    hide Reaches, WorkerEffect;
    Pool.RunStep(s, [], s, Acquire(w));
    assert [] + [Acquire(w)] == [Acquire(w)];
    Woken(s, w);
  }

  lemma Woken(s: State, w: nat)
    requires Waits(s, w)
    ensures Next(s, Acquire(w)) == At(s, w, Gate).(lock := ByWorker(w))
  {
    hide WorkerEffect, Clamp;
  }

  lemma SameTasks(f: multiset<Task>)
    ensures f + multiset{} == f
  {
  }

  lemma StepTo(s: State, w: nat, pc: Pc, pc': Pc, s': State)
    requires w < |s.workers| && s.workers[w].pc == pc && !pc.Top? && !pc.Exited?
    requires WorkerEffect(s.workers[w], s.tasks, s.stop, s.target, s.live, false)
          == Move(s.workers[w], pc', s.live, false)
    requires s' == At(s, w, pc')
    ensures Next(s, WorkerStep(w, false)) == s'
  {
    SameTasks(s.finished);
    hide WorkerEffect;
  }

  /** The state with worker `w` holding the mutex at `pc`. */
  function Holding(s: State, w: nat, pc: Pc): State
    requires w < |s.workers|
  {
    At(s, w, pc).(lock := ByWorker(w))
  }

  lemma HoldingTurn(s0: State, acts: seq<Action>, s: State, w: nat, pc: Pc, pc': Pc)
    requires w < |s.workers| && !pc.Top? && !pc.Exited? && Reaches(s0, acts, Holding(s, w, pc))
    requires WorkerEffect(s.workers[w].(pc := pc), s.tasks, s.stop, s.target, s.live, false)
          == Move(s.workers[w].(pc := pc), pc', s.live, false)
    ensures Reaches(s0, acts + [WorkerStep(w, false)], Holding(s, w, pc'))
  {
    hide Reaches;
    StepTo(Holding(s, w, pc), w, pc, pc', Holding(s, w, pc'));
    hide WorkerEffect;
    OneTurn(s0, acts, Holding(s, w, pc), w);
  }

  /** Worker `w` has taken the front task. */
  function Taken(s: State, w: nat): State
    requires w < |s.workers| && s.tasks != []
  {
    At(s, w, Running(s.tasks[0])).(lock := Free, tasks := s.tasks[1..], popped := s.popped + [s.tasks[0]])
  }

  lemma TakeStep(s: State, w: nat)
    requires w < |s.workers| && s.tasks != []
    ensures Next(Holding(s, w, GateLoaded(s.live)), WorkerStep(w, false)) == Taken(s, w)
  {
    SameTasks(s.finished);
  }

  lemma GateTurn(x: Worker, tasks: seq<Task>, stop: bool, target: nat, live: nat)
    requires tasks != []
    ensures WorkerEffect(x.(pc := Gate), tasks, stop, target, live, false)
         == Move(x.(pc := Gate), GateLoaded(live), live, false)
  {
  }

  /** A waiting worker that gets the mutex while a task is queued takes the front task, whatever the
      stop flag, the target and the live count, and leaves the mutex to others. */
  lemma TakesFront(s: State, w: nat)
    requires Waits(s, w) && s.tasks != []
    ensures Reaches(s, [Acquire(w)] + [WorkerStep(w, false)] + [WorkerStep(w, false)], Taken(s, w))
  {
    Wakes(s, w);
    GateTurn(s.workers[w], s.tasks, s.stop, s.target, s.live);
    TakeStep(s, w);
    hide Reaches, WorkerEffect, Next, At;
    assert Reaches(s, [Acquire(w)], Holding(s, w, Gate));
    HoldingTurn(s, [Acquire(w)], s, w, Gate, GateLoaded(s.live));
    LoadedTurn(s, [Acquire(w)] + [WorkerStep(w, false)], w);
  }

  lemma LoadedTurn(s: State, acts: seq<Action>, w: nat)
    requires w < |s.workers| && s.tasks != [] && Reaches(s, acts, Holding(s, w, GateLoaded(s.live)))
    ensures Reaches(s, acts + [WorkerStep(w, false)], Taken(s, w))
  {
    hide Reaches;
    TakeStep(s, w);
    hide WorkerEffect, Next;
    OneTurn(s, acts, Holding(s, w, GateLoaded(s.live)), w);
  }

  lemma FinishStep(s: State, w: nat, t: Task)
    requires w < |s.workers| && s.workers[w].pc == Running(t)
    ensures Next(s, WorkerStep(w, false)) == At(s, w, AfterTask).(finished := s.finished + multiset{t})
  {
  }

  /** The front task is finished by any waiting worker that is let run, and nothing else happens. */
  lemma FinishesFront(s: State, w: nat) returns (acts: seq<Action>, s': State)
    requires Waits(s, w) && s.tasks != []
    ensures Reaches(s, acts, s') && s'.lock == Free && s'.live == s.live
    ensures s'.tasks == s.tasks[1..] && s'.finished == s.finished + multiset{s.tasks[0]}
  {
    var s1 := Taken(s, w);
    TakesFront(s, w);
    hide Reaches, WorkerEffect;
    acts := [Acquire(w)] + [WorkerStep(w, false)] + [WorkerStep(w, false)];
    FinishStep(s1, w, s.tasks[0]);
    OneTurn(s, acts, s1, w);
    acts := acts + [WorkerStep(w, false)];
    s' := Next(s1, WorkerStep(w, false));
  }

  lemma StopStep(s: State, w: nat)
    requires w < |s.workers| && s.workers[w].pc == Gate && s.stop && s.tasks == []
    ensures Next(s, WorkerStep(w, false)) == At(s, w, Leaving(false)).(lock := Free)
  {
    SameTasks(s.finished);
  }

  lemma ExitStep(s: State, w: nat)
    requires w < |s.workers| && s.workers[w].pc == Leaving(false) && s.live > 0
    ensures var s' := Next(s, WorkerStep(w, false));
            && s'.lock == s.lock && s'.live == s.live - 1
            && s'.workers == s.workers[w := Worker(Exited(false), s.workers[w].decs + 1)]
  {
  }

  lemma StopTurn(s: State, w: nat)
    requires Waits(s, w) && s.stop && s.tasks == []
    ensures Reaches(s, [Acquire(w)] + [WorkerStep(w, false)], At(s, w, Leaving(false)))
  {
    var s1 := At(s, w, Gate).(lock := ByWorker(w));
    Wakes(s, w);
    hide Reaches, WorkerEffect;
    StopStep(s1, w);
    assert At(s1, w, Leaving(false)).(lock := Free) == At(s, w, Leaving(false));
    OneTurn(s, [Acquire(w)], s1, w);
  }

  /** After a stop, a waiting worker that finds the queue empty leaves and takes itself off the count. */
  lemma LeavesWhenStopped(s: State, w: nat) returns (acts: seq<Action>, s': State)
    requires Waits(s, w) && s.stop && s.tasks == [] && s.live > 0
    ensures Reaches(s, acts, s') && s'.lock == Free && s'.live == s.live - 1
    ensures s'.workers == s.workers[w := Worker(Exited(false), s.workers[w].decs + 1)]
  {
    hide Reaches, WorkerEffect, Next;
    var s2 := At(s, w, Leaving(false));
    StopTurn(s, w);
    ExitStep(s2, w);
    OneTurn(s, [Acquire(w)] + [WorkerStep(w, false)], s2, w);
    acts := [Acquire(w)] + [WorkerStep(w, false)] + [WorkerStep(w, false)];
    s' := Next(s2, WorkerStep(w, false));
  }

  lemma CasStep(s: State, w: nat)
    requires w < |s.workers| && s.workers[w].pc == ShrinkCas(true, s.live) && s.live > 0
    ensures var s' := Next(s, WorkerStep(w, false));
            && s'.lock == Free && s'.live == s.live - 1
            && s'.workers == s.workers[w := Worker(Leaving(true), s.workers[w].decs + 1)]
  {
  }

  /** The path of a worker that shrinks the pool, under the mutex. */
  lemma ShrinkMoves(x: Worker, stop: bool, target: nat, live: nat)
    requires !stop && live > target
    ensures WorkerEffect(x.(pc := Gate), [], stop, target, live, false)
         == Move(x.(pc := Gate), GateLoaded(live), live, false)
    ensures WorkerEffect(x.(pc := GateLoaded(live)), [], stop, target, live, false)
         == Move(x.(pc := GateLoaded(live)), ShrinkLoad(true), live, false)
    ensures WorkerEffect(x.(pc := ShrinkLoad(true)), [], stop, target, live, false)
         == Move(x.(pc := ShrinkLoad(true)), ShrinkTest(true, live), live, false)
    ensures WorkerEffect(x.(pc := ShrinkTest(true, live)), [], stop, target, live, false)
         == Move(x.(pc := ShrinkTest(true, live)), ShrinkCas(true, live), live, false)
  {
  }

  lemma ReachesCas(s: State, w: nat) returns (acts: seq<Action>)
    requires Waits(s, w) && !s.stop && s.tasks == [] && s.live > s.target
    ensures Reaches(s, acts, Holding(s, w, ShrinkCas(true, s.live)))
  {
    Wakes(s, w);
    hide Reaches, WorkerEffect, Next, At;
    var n := s.live;
    ShrinkMoves(s.workers[w], s.stop, s.target, n);
    acts := [Acquire(w)];
    assert Reaches(s, acts, Holding(s, w, Gate));
    hide Holding, Move;
    HoldingTurn(s, acts, s, w, Gate, GateLoaded(n));
    acts := acts + [WorkerStep(w, false)];
    HoldingTurn(s, acts, s, w, GateLoaded(n), ShrinkLoad(true));
    acts := acts + [WorkerStep(w, false)];
    HoldingTurn(s, acts, s, w, ShrinkLoad(true), ShrinkTest(true, n));
    acts := acts + [WorkerStep(w, false)];
    HoldingTurn(s, acts, s, w, ShrinkTest(true, n), ShrinkCas(true, n));
    acts := acts + [WorkerStep(w, false)];
  }

  /** Above the target a waiting worker that finds the queue empty shrinks the pool by itself. */
  lemma ShrinksAboveTarget(s: State, w: nat) returns (acts: seq<Action>, s': State)
    requires Waits(s, w) && !s.stop && s.tasks == [] && s.live > s.target
    ensures Reaches(s, acts, s') && s'.lock == Free && s'.live == s.live - 1
    ensures s'.workers == s.workers[w := Worker(Leaving(true), s.workers[w].decs + 1)]
  {
    hide Reaches, WorkerEffect, Next;
    var last := Holding(s, w, ShrinkCas(true, s.live));
    acts := ReachesCas(s, w);
    CasStep(last, w);
    OneTurn(s, acts, last, w);
    acts := acts + [WorkerStep(w, false)];
    s' := Next(last, WorkerStep(w, false));
  }
}
