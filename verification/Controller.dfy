/** The connection controller object. Each method is one region that the source runs under its
    locks, with that region's loops; what the regions guarantee together, in every interleaving, is
    proved in Reconnect about the step that each method is shown to take. */
module Controller {
  import opened Reconnect
  import ReconnectSteps

  lemma WithoutStreamStep(q: seq<Work>, j: nat, s: Stream)
    requires j < |q|
    ensures WithoutStream(q[..j + 1], s)
         == if q[j].stream == s then WithoutStream(q[..j], s) else WithoutStream(q[..j], s) + [q[j]]
  {
    assert q[..j + 1][..j] == q[..j];
  }

  lemma NothingSeen(q: seq<Work>, s: Stream)
    ensures WithoutStream(q[..0], s) == [] && q == [] + q[0..]
  {
  }

  lemma EraseOrKeep(kept: seq<Work>, rest: seq<Work>)
    requires rest != []
    ensures var q := kept + rest;
            && q[|kept|] == rest[0]
            && q[..|kept|] + q[|kept| + 1..] == kept + rest[1..]
            && q == kept + [rest[0]] + rest[1..]
  {
  }

  lemma GatherIndicesStep(m: seq<Conn>, i: nat)
    requires i < |m|
    ensures GatherIndices(m[..i + 1]) == GatherIndices(m[..i]) + (if ShouldGather(m[i]) then [i] else [])
  {
    assert m[..i + 1][..i] == m[..i];
  }

  lemma KeepsInv(st: State, a: Action, openSet: bool)
    requires Enabled(st, a)
    ensures Inv(st) ==> (Inv(Next(st, a, openSet)) <==> Sound(st, a, openSet))
  {
    hide Inv, Sound, Next, Enabled;
    if Inv(st) {
      StepExact(st, a, openSet);
    }
  }

  lemma FailureFacts(st: State, s: Stream, openSet: bool)
    ensures forall i :: 0 <= i < |st.managed| && st.managed[i].stream == s && Inv(st) ==>
              ReconnectSteps.MarkedFailed(st, i, Next(st, NotifyFailure(s), openSet))
    ensures ReconnectSteps.Unmanaged(st.managed, s) ==> Next(st, NotifyFailure(s), openSet) == st
  {
    hide Inv, Next, ReconnectSteps.MarkedFailed, ReconnectSteps.Unmanaged;
    ReconnectSteps.UnknownFailure(st, s, 0, openSet);
    forall i | 0 <= i < |st.managed| && st.managed[i].stream == s && Inv(st)
      ensures ReconnectSteps.MarkedFailed(st, i, Next(st, NotifyFailure(s), openSet))
    {
      ReconnectSteps.FailureMarks(st, i, openSet);
    }
  }

  lemma HealthFacts(st: State, i: nat, s: Stream, openSet: bool)
    ensures i < |st.managed| && st.managed[i].stream == s && Inv(st) ==>
              ReconnectSteps.MarkedFailed(st, i, Next(st, HealthFailed(i, s), openSet))
    ensures i >= |st.managed| || st.managed[i].stream != s ==> Next(st, HealthFailed(i, s), openSet) == st
  {
    hide Inv, Next, ReconnectSteps.MarkedFailed;
    ReconnectSteps.UnknownFailure(st, s, i, openSet);
    if i < |st.managed| && st.managed[i].stream == s && Inv(st) {
      ReconnectSteps.FailureMarks(st, i, openSet);
    }
  }

  class ConnectionController {
    const openSet: bool
    var managed: seq<Conn>
    var queue: seq<Work>
    var flight: seq<Flight>
    var gathered: seq<nat>
    var count: int

    ghost function View(): State
      reads this
    {
      State(managed, queue, flight, gathered, count)
    }

    /** The object took the step `a`, and with it kept the invariant exactly when the step is sound. */
    twostate predicate Took(a: Action)
      reads this
    {
      && Enabled(old(View()), a) && View() == Next(old(View()), a, openSet)
      && (Inv(old(View())) ==> (Inv(View()) <==> Sound(old(View()), a, openSet)))
    }

    constructor (openSet: bool)
      ensures View() == START && this.openSet == openSet
    {
      this.openSet := openSet;
      managed, queue, flight, gathered, count := [], [], [], [], 0;
    }

    method FindStream(s: Stream) returns (i: nat)
      ensures i == Find(managed, s)
    {
      i := 0;
      while i < |managed| && managed[i].stream != s
        invariant i <= |managed|
        invariant forall j :: 0 <= j < i ==> managed[j].stream != s
      {
        i := i + 1;
      }
    }

    method Manage(s: Stream, connected: bool)
      modifies this`managed, this`count
      ensures Took(Action.Manage(s, connected))
    {
      hide Inv, Sound;
      KeepsInv(View(), Action.Manage(s, connected), openSet);
      if connected {
        count := count + 1;
      }
      managed := managed + [Conn(s, connected, false, 0)];
    }

    method Unmanage(s: Stream)
      modifies this`managed, this`queue, this`count
      ensures Took(Action.Unmanage(s))
    {
      hide Inv, Sound;
      KeepsInv(View(), Action.Unmanage(s), openSet);
      var i := FindStream(s);
      if i < |managed| {
        if managed[i].connected {
          count := count - 1;
        }
        managed := managed[..i] + managed[i + 1..];
      }
      CancelWork(s);
    }

    /** The erasing loop over the queue. */
    method CancelWork(s: Stream)
      modifies this`queue
      ensures queue == WithoutStream(old(queue), s)
    {
      hide WithoutStream;
      ghost var before := queue;
      ghost var seen := 0;
      ghost var kept: seq<Work> := WithoutStream(before[..0], s);
      NothingSeen(before, s);
      var it := 0;
      while it < |queue|
        invariant seen <= |before| && it == |kept|
        invariant kept == WithoutStream(before[..seen], s)
        invariant queue == kept + before[seen..]
        decreases |before| - seen
      {
        WithoutStreamStep(before, seen, s);
        EraseOrKeep(kept, before[seen..]);
        if queue[it].stream == s {
          queue := queue[..it] + queue[it + 1..];
        } else {
          kept := kept + [queue[it]];
          it := it + 1;
        }
        seen := seen + 1;
      }
      assert seen == |before| && before[..seen] == before;
    }

    /** Drop entry `i`'s flag and, unless a job is pending, queue one. */
    method MarkFailed(i: nat)
      requires i < |managed|
      modifies this`managed, this`queue, this`count
      ensures View() == Fail(old(View()), i)
    {
      var c := managed[i];
      if c.connected {
        count := count - 1;
      }
      var opens := c.opens;
      if !c.pending {
        opens := 0;
        queue := queue + [Work(c.stream, 0)];
      }
      managed := managed[i := Conn(c.stream, false, true, opens)];
    }

    method NotifyFailure(s: Stream)
      modifies this`managed, this`queue, this`count
      ensures Took(Action.NotifyFailure(s))
      ensures forall i :: 0 <= i < |old(managed)| && old(managed)[i].stream == s && Inv(old(View())) ==>
                ReconnectSteps.MarkedFailed(old(View()), i, View())
      ensures ReconnectSteps.Unmanaged(old(managed), s) ==> View() == old(View())
    {
      hide Inv, Sound, Fail, ReconnectSteps.MarkedFailed, ReconnectSteps.Unmanaged;
      KeepsInv(View(), Action.NotifyFailure(s), openSet);
      FailureFacts(View(), s, openSet);
      var i := FindStream(s);
      if i < |managed| {
        MarkFailed(i);
      }
    }

    /** What probeAllIdle and run do when the check of an entry seen at index `i` failed. */
    method HealthFailed(i: nat, s: Stream)
      modifies this`managed, this`queue, this`count
      ensures Took(Action.HealthFailed(i, s))
      ensures i < |old(managed)| && old(managed)[i].stream == s && Inv(old(View())) ==>
                ReconnectSteps.MarkedFailed(old(View()), i, View())
      ensures i >= |old(managed)| || old(managed)[i].stream != s ==> View() == old(View())
    {
      hide Inv, Sound, Fail, ReconnectSteps.MarkedFailed, ReconnectSteps.Unmanaged;
      KeepsInv(View(), Action.HealthFailed(i, s), openSet);
      HealthFacts(View(), i, s, openSet);
      if i < |managed| && managed[i].stream == s {
        MarkFailed(i);
      }
    }

    /** The gathering loop of run. */
    method Gather()
      requires gathered == []
      modifies this`managed, this`gathered
      ensures Took(Action.Gather)
    {
      hide Inv, Sound;
      KeepsInv(View(), Action.Gather, openSet);
      ghost var m := managed;
      for i := 0 to |managed|
        invariant |managed| == |m| && gathered == GatherIndices(m[..i])
        invariant forall j :: 0 <= j < i ==> managed[j] == MarkGathered(m)[j]
        invariant forall j :: i <= j < |m| ==> managed[j] == m[j]
      {
        GatherIndicesStep(m, i);
        if !managed[i].pending && !managed[i].connected {
          managed := managed[i := managed[i].(pending := true, opens := 0)];
          gathered := gathered + [i];
        }
      }
      assert m[..|m|] == m;
      assert managed == MarkGathered(m);
    }

    /** One turn of run's enqueuing loop. */
    method EnqueueGathered()
      requires gathered != []
      modifies this`queue, this`gathered
      ensures Took(Action.EnqueueGathered)
    {
      hide Inv, Sound;
      KeepsInv(View(), Action.EnqueueGathered, openSet);
      var idx := gathered[0];
      gathered := gathered[1..];
      if idx < |managed| {
        queue := queue + [Work(managed[idx].stream, 0)];
      }
    }

    /** reconnectLoop takes the front job. */
    method PopWork()
      requires queue != [] && |flight| < RECONNECT_WORKERS
      modifies this`queue, this`flight
      ensures Took(Action.Pop)
    {
      hide Inv, Sound;
      KeepsInv(View(), Action.Pop, openSet);
      flight := flight + [Popped(queue[0])];
      queue := queue[1..];
    }

    /** reconnectStream up to its open attempt. */
    method LookBeforeOpen(k: nat)
      requires k < |flight| && flight[k].Popped?
      modifies this`managed, this`flight
      ensures Took(Action.FirstLookup(k))
    {
      hide Inv, Sound;
      KeepsInv(View(), Action.FirstLookup(k), openSet);
      var work := flight[k].work;
      var i := FindStream(work.stream);
      if i < |managed| && openSet && !managed[i].connected {
        managed := managed[i := managed[i].(opens := managed[i].opens + 1)];
        flight := flight[k := Opening(work)];
      } else {
        flight := RemoveAt(flight, k);
      }
    }

    /** reconnectStream after its open attempt returned `ok`. */
    method SettleAfterOpen(k: nat, ok: bool)
      requires k < |flight| && flight[k].Opening?
      modifies this`managed, this`queue, this`flight, this`count
      ensures Took(Action.Complete(k, ok))
    {
      hide Inv, Sound;
      KeepsInv(View(), Action.Complete(k, ok), openSet);
      var work := flight[k].work;
      flight := RemoveAt(flight, k);
      var i := FindStream(work.stream);
      if i < |managed| {
        if ok {
          managed := managed[i := managed[i].(pending := false, connected := true)];
          count := count + 1;
        } else if work.retries < MAX_RETRIES {
          queue := queue + [Work(work.stream, work.retries + 1)];
        } else {
          managed := managed[i := managed[i].(pending := false)];
        }
      }
    }
  }
}
