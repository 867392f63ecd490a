/** The pool object as its callers use it. Each method is shown to be a run of the protocol's steps,
    here without interference; ThreadPool proves what holds when the steps of other threads, and of
    the workers, come in between. */
module Pool {
  import opened ThreadPool

  lemma RunStep(s0: State, acts: seq<Action>, s: State, a: Action)
    requires Reaches(s0, acts, s) && Enabled(s, a)
    ensures Reaches(s0, acts + [a], Next(s, a))
  {
    hide Enabled, Next;
    assert (acts + [a])[..|acts|] == acts;
    assert Steps(s, a, Next(s, a));
  }

  lemma NoStep(s: State)
    ensures Reaches(s, [], s)
  {
  }

  class WorkerPool {
    const limit: nat
    var workers: seq<Worker>
    var tasks: seq<Task>
    var stop: bool
    var target: nat
    var live: nat
    var lock: Lock
    var pending: multiset<nat>
    ghost var accepted: seq<Task>
    ghost var popped: seq<Task>
    ghost var finished: multiset<Task>
    ghost var late: bool
    ghost var forced: bool

    ghost function View(): State
      reads this
    {
      State(workers, tasks, stop, target, live, lock, pending, limit, accepted, popped, finished, late, forced)
    }

    constructor (n: nat, limit: nat)
      ensures this.target == n == live && this.limit == limit && workers == seq(n, _ => Worker(Top, 0))
      ensures tasks == [] && !stop && lock == Free && accepted == []
      ensures Init(View()) <==> MIN_WORKERS <= n <= MAX_WORKERS
    {
      this.limit, target, lock, pending := limit, n, Free, multiset{};
      tasks, stop, accepted, popped, finished, late, forced := [], false, [], [], multiset{}, false, false;
      workers, live := [], 0;
      new;
      for i := 0 to n
        invariant workers == seq(i, _ => Worker(Top, 0)) && live == i
        invariant View()
               == State(workers, [], false, n, live, Free, multiset{}, limit, [], [], multiset{}, false, false)
      {
        workers := workers + [Worker(Top, 0)];
        live := live + 1;
      }
    }

    method Enqueue(t: Task)
      requires lock == Free
      modifies this`tasks, this`accepted, this`late, this`forced
      ensures tasks == old(tasks) + [t] && accepted == old(accepted) + [t]
      ensures View() == Next(old(View()), Action.Enqueue(t))
    {
      tasks := tasks + [t];
      accepted := accepted + [t];
      late, forced := late || stop, true;
    }

    /** Refuses exactly when the queue has reached the backpressure limit. */
    method TryEnqueue(t: Task) returns (ok: bool)
      requires lock == Free
      modifies this`tasks, this`accepted, this`late
      ensures ok <==> |old(tasks)| < limit
      ensures ok ==> tasks == old(tasks) + [t] && accepted == old(accepted) + [t]
      ensures !ok ==> View() == old(View())
      ensures View() == Next(old(View()), Action.TryEnqueue(t))
    {
      if |tasks| >= limit {
        return false;
      }
      tasks := tasks + [t];
      accepted := accepted + [t];
      late := late || stop;
      return true;
    }

    method Shutdown()
      requires lock == Free
      modifies this`stop
      ensures stop && View() == Next(old(View()), Action.Shutdown)
    {
      stop := true;
    }

    method StoreClamped(size: nat) returns (n: nat)
      modifies this`target, this`pending
      ensures n == target == Clamp(size) && pending == old(pending) + multiset{n}
      ensures View() == Next(old(View()), StoreTarget(size))
    {
      n := size;
      if n > MAX_WORKERS {
        n := MAX_WORKERS;
      }
      if n < MIN_WORKERS {
        n := MIN_WORKERS;
      }
      target, pending := n, pending + multiset{n};
    }

    method BeginResize(n: nat)
      requires lock == Free && n in pending
      modifies this`lock, this`pending
      ensures lock == ByResize(n) && pending == old(pending) - multiset{n}
      ensures View() == Next(old(View()), ResizeLock(n))
    {
      lock, pending := ByResize(n), pending - multiset{n};
    }

    method StartThread()
      requires lock.ByResize? && live < lock.n
      modifies this`workers, this`lock
      ensures lock == BySpawn(old(lock).n) && workers == old(workers) + [Worker(Top, 0)]
      ensures View() == Next(old(View()), ResizeLoop)
    {
      workers, lock := workers + [Worker(Top, 0)], BySpawn(lock.n);
    }

    method CountThread()
      requires lock.BySpawn?
      modifies this`live, this`lock
      ensures lock == ByResize(old(lock).n) && live == old(live) + 1
      ensures View() == Next(old(View()), CountSpawned)
    {
      live, lock := live + 1, ByResize(lock.n);
    }

    method EndResize()
      requires lock.ByResize? && live >= lock.n
      modifies this`lock
      ensures lock == Free
      ensures View() == Next(old(View()), ResizeLoop)
    {
      lock := Free;
    }

    /** The spawning loop of resize. */
    method SpawnUpTo(n: nat, ghost s0: State, ghost before: seq<Action>) returns (ghost acts: seq<Action>)
      requires lock == ByResize(n) && Reaches(s0, before, View())
      modifies this`workers, this`live, this`lock
      ensures Reaches(s0, acts, View()) && lock == ByResize(n)
      ensures live == if old(live) < n then n else old(live)
      ensures |workers| == |old(workers)| + (live - old(live)) && old(workers) <= workers
    {
      hide Reaches, Next;
      acts := before;
      while live < n
        invariant Reaches(s0, acts, View()) && lock == ByResize(n)
        invariant live == old(live) || old(live) < live <= n
        invariant |workers| == |old(workers)| + (live - old(live)) && old(workers) <= workers
        decreases n - live
      {
        RunStep(s0, acts, View(), ResizeLoop);
        acts := acts + [ResizeLoop];
        StartThread();
        RunStep(s0, acts, View(), CountSpawned);
        acts := acts + [CountSpawned];
        CountThread();
      }
    }

    /** resize up to its spawning loop. */
    method OpenResize(size: nat) returns (n: nat, ghost acts: seq<Action>)
      requires lock == Free
      modifies this`target, this`lock, this`pending
      ensures Reaches(old(View()), acts, View())
      ensures n == target == Clamp(size) && lock == ByResize(n) && pending == old(pending)
    {
      hide Reaches, Next, Clamp;
      ghost var s0 := View();
      NoStep(s0);
      RunStep(s0, [], s0, StoreTarget(size));
      acts := [] + [StoreTarget(size)];
      n := StoreClamped(size);
      RunStep(s0, acts, View(), ResizeLock(n));
      acts := acts + [ResizeLock(n)];
      BeginResize(n);
    }

    /** resize: the size is clamped and stored as the target, and workers are spawned up to it. */
    method Resize(size: nat) returns (ghost acts: seq<Action>)
      requires lock == Free
      modifies this`workers, this`target, this`live, this`lock, this`pending
      ensures Reaches(old(View()), acts, View())
      ensures target == (if size < 4 then 4 else if size > 64 then 64 else size)
      ensures lock == Free && pending == old(pending) && tasks == old(tasks) && stop == old(stop)
      ensures live == if old(live) < target then target else old(live)
      ensures |workers| == |old(workers)| + (live - old(live)) && old(workers) <= workers
    {
      hide Reaches, Next;
      ghost var s0 := View();
      var n;
      n, acts := OpenResize(size);
      acts := SpawnUpTo(n, s0, acts);
      RunStep(s0, acts, View(), ResizeLoop);
      acts := acts + [ResizeLoop];
      EndResize();
    }
  }
}
