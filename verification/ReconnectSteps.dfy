/** What each step of the reconnect protocol does to the fields. The invariant of Reconnect is kept by
    a controller that does nothing; these are not. */
module ReconnectSteps {
  import opened Reconnect

  /** Only entry `i` changed, and not its stream. */
  ghost predicate OnlyEntry(m: seq<Conn>, i: nat, m': seq<Conn>)
    requires i < |m|
  {
    |m'| == |m| && m'[i].stream == m[i].stream && forall j :: 0 <= j < |m| && j != i ==> m'[j] == m[j]
  }

  /** Entry `i` is down and pending; the count fell if it was up, and one job was queued unless it was
      pending already. */
  ghost predicate MarkedFailed(st: State, i: nat, st': State)
    requires i < |st.managed|
  {
    var c := st.managed[i];
    && OnlyEntry(st.managed, i, st'.managed) && !st'.managed[i].connected && st'.managed[i].pending
    && st'.count == st.count - (if c.connected then 1 else 0)
    && st'.queue == st.queue + (if c.pending then [] else [Work(c.stream, 0)])
    && st'.flight == st.flight && st'.gathered == st.gathered
  }

  ghost predicate Unmanaged(m: seq<Conn>, s: Stream) {
    forall i :: 0 <= i < |m| ==> m[i].stream != s
  }

  lemma FindManaged(m: seq<Conn>, i: nat)
    requires i < |m| && Distinct(m)
    ensures Find(m, m[i].stream) == i
  {
  }

  lemma FindUnmanaged(m: seq<Conn>, s: Stream)
    requires Unmanaged(m, s)
    ensures Find(m, s) == |m|
  {
  }

  lemma InvDistinct(st: State)
    requires Inv(st)
    ensures Distinct(st.managed)
  {
    hide CountConnected, AttemptInvariant, QueueIsManaged;
  }

  /** A failure takes the connection down, counts it out once and queues exactly one job. */
  lemma FailureMarks(st: State, i: nat, openSet: bool)
    requires Inv(st) && i < |st.managed|
    ensures MarkedFailed(st, i, Next(st, NotifyFailure(st.managed[i].stream), openSet))
    ensures MarkedFailed(st, i, Next(st, HealthFailed(i, st.managed[i].stream), openSet))
  {
    InvDistinct(st);
    FindManaged(st.managed, i);
    hide Inv, Find;
    assert st.queue + [] == st.queue;
  }

  /** A failure of an unknown stream, or one seen at an index where another stream is now, does nothing. */
  lemma UnknownFailure(st: State, s: Stream, i: nat, openSet: bool)
    ensures Unmanaged(st.managed, s) ==> Next(st, NotifyFailure(s), openSet) == st
    ensures i >= |st.managed| || st.managed[i].stream != s ==> Next(st, HealthFailed(i, s), openSet) == st
  {
    if Unmanaged(st.managed, s) {
      FindUnmanaged(st.managed, s);
    }
  }

  /** A managed entry is added last, counted if it is up, and has no job. */
  lemma ManageAdds(st: State, s: Stream, connected: bool, openSet: bool)
    ensures var st' := Next(st, Manage(s, connected), openSet);
            && |st'.managed| == |st.managed| + 1 && st'.managed[..|st.managed|] == st.managed
            && st'.managed[|st.managed|] == Conn(s, connected, false, 0)
            && st'.count == st.count + (if connected then 1 else 0)
            && st'.queue == st.queue && st'.flight == st.flight && st'.gathered == st.gathered
  {
  }

  /** The entry is gone with its queued jobs, and the others are as they were, in order. */
  lemma UnmanageRemoves(st: State, i: nat, openSet: bool)
    requires Inv(st) && i < |st.managed|
    ensures var s, st' := st.managed[i].stream, Next(st, Unmanage(st.managed[i].stream), openSet);
            && st'.managed == st.managed[..i] + st.managed[i + 1..]
            && st'.count == st.count - (if st.managed[i].connected then 1 else 0)
            && (forall j :: 0 <= j < |st'.queue| ==> st'.queue[j].stream != s)
            && (forall w: Work :: w.stream != s ==> multiset(st'.queue)[w] == multiset(st.queue)[w])
            && st'.flight == st.flight && st'.gathered == st.gathered
  {
    InvDistinct(st);
    FindManaged(st.managed, i);
    hide Inv, Find;
    WithoutFacts(st.queue, st.managed[i].stream);
    OthersStay(st.queue, st.managed[i].stream);
    hide WithoutStream;
  }

  lemma {:induction false} OthersStay(q: seq<Work>, s: Stream)
    ensures forall w: Work :: w.stream != s ==> multiset(WithoutStream(q, s))[w] == multiset(q)[w]
  {
    if |q| > 0 {
      var init, last := q[..|q| - 1], q[|q| - 1];
      OthersStay(init, s);
      assert q == init + [last];
      assert multiset(q) == multiset(init) + multiset{last};
    }
  }

  lemma {:induction false} GathersAll(m: seq<Conn>, i: nat)
    requires i < |m|
    ensures i in GatherIndices(m) <==> !m[i].pending && !m[i].connected
  {
    var init := m[..|m| - 1];
    GatherFacts(init);
    if i < |init| {
      GathersAll(init, i);
      assert init[i] == m[i];
    }
  }

  /** Exactly the entries that are down without a job become pending and are gathered. */
  lemma GatherMarks(st: State, i: nat, openSet: bool)
    requires st.gathered == [] && i < |st.managed|
    ensures var c, st' := st.managed[i], Next(st, Gather, openSet);
            && |st'.managed| == |st.managed| && st'.count == st.count
            && st'.queue == st.queue && st'.flight == st.flight
            && (i in st'.gathered <==> !c.pending && !c.connected)
            && (i in st'.gathered ==> st'.managed[i] == Conn(c.stream, false, true, 0))
            && (i !in st'.gathered ==> st'.managed[i] == c)
  {
    GathersAll(st.managed, i);
    hide GatherIndices;
  }

  /** A gathered index becomes one job of the entry it stands for. */
  lemma EnqueuesGathered(st: State, openSet: bool)
    requires Inv(st) && st.gathered != []
    ensures st.gathered[0] < |st.managed|
    ensures Next(st, EnqueueGathered, openSet)
         == st.(gathered := st.gathered[1..], queue := st.queue + [Work(st.managed[st.gathered[0]].stream, 0)])
  {
    hide CountConnected, AttemptInvariant, QueueIsManaged;
  }

  /** The oldest job passes to a worker. */
  lemma PopsFront(st: State, openSet: bool)
    requires st.queue != [] && |st.flight| < 4
    ensures Enabled(st, Pop)
    ensures Next(st, Pop, openSet) == st.(queue := st.queue[1..], flight := st.flight + [Popped(st.queue[0])])
  {
  }

  /** The entry a job is for is pending and down. */
  lemma JobMeansDown(st: State, k: nat, i: nat)
    requires Inv(st) && k < |st.flight| && i < |st.managed| && st.managed[i].stream == st.flight[k].work.stream
    ensures st.managed[i].pending && !st.managed[i].connected
  {
    hide CountConnected, AttemptInvariant, QueueIsManaged, FlightStreams, QueueStreams, GatheredStreams;
    var m, q, f, g := st.managed, st.queue, st.flight, st.gathered;
    assert Jobs(m, q, f, g)[m[i].stream] <= 1;
    OnlyJob(m, q, f, g, k);
    hide Jobs;
  }

  /** With an open function the first lookup of a managed entry's job always leads to an attempt. */
  lemma LookupOpens(st: State, k: nat, i: nat)
    requires Inv(st) && Enabled(st, FirstLookup(k))
    requires i < |st.managed| && st.managed[i].stream == st.flight[k].work.stream
    ensures var st' := Next(st, FirstLookup(k), true);
            && st'.flight == st.flight[k := Opening(st.flight[k].work)]
            && OnlyEntry(st.managed, i, st'.managed)
            && st'.managed[i] == st.managed[i].(opens := st.managed[i].opens + 1)
            && st'.queue == st.queue && st'.gathered == st.gathered && st'.count == st.count
  {
    JobMeansDown(st, k, i);
    InvDistinct(st);
    FindManaged(st.managed, i);
    hide Inv, Find;
  }

  /** A successful attempt brings the entry up and counts it in. */
  lemma AttemptSucceeds(st: State, k: nat, i: nat, openSet: bool)
    requires Inv(st) && k < |st.flight| && st.flight[k].Opening?
    requires i < |st.managed| && st.managed[i].stream == st.flight[k].work.stream
    ensures var c, st' := st.managed[i], Next(st, Complete(k, true), openSet);
            && !c.connected && st'.managed == st.managed[i := Conn(c.stream, true, false, c.opens)]
            && st'.count == st.count + 1 && st'.queue == st.queue
            && st'.flight == st.flight[..k] + st.flight[k + 1..] && st'.gathered == st.gathered
  {
    JobMeansDown(st, k, i);
    InvDistinct(st);
    FindManaged(st.managed, i);
    hide Inv, Find;
  }

  /** A failed attempt is queued again with one more retry, five times, and then given up; the entry
      stays down. */
  lemma AttemptFails(st: State, k: nat, i: nat, openSet: bool)
    requires Inv(st) && k < |st.flight| && st.flight[k].Opening?
    requires i < |st.managed| && st.managed[i].stream == st.flight[k].work.stream
    ensures var c, w, st' := st.managed[i], st.flight[k].work, Next(st, Complete(k, false), openSet);
            && (w.retries < 5 ==>
                  st'.managed == st.managed && st'.queue == st.queue + [Work(c.stream, w.retries + 1)])
            && (w.retries >= 5 ==>
                  st'.managed == st.managed[i := Conn(c.stream, false, false, c.opens)] && st'.queue == st.queue)
            && st'.count == st.count
            && st'.flight == st.flight[..k] + st.flight[k + 1..] && st'.gathered == st.gathered
  {
    JobMeansDown(st, k, i);
    InvDistinct(st);
    FindManaged(st.managed, i);
    hide Inv, Find, Next;
    FailedIs(st, k, i, openSet);
  }

  lemma FailedIs(st: State, k: nat, i: nat, openSet: bool)
    requires k < |st.flight| && st.flight[k].Opening?
    requires Find(st.managed, st.flight[k].work.stream) == i < |st.managed|
    requires !st.managed[i].connected && st.managed[i].stream == st.flight[k].work.stream
    ensures var c, w, st' := st.managed[i], st.flight[k].work, Next(st, Complete(k, false), openSet);
            && (w.retries < 5 ==>
                  st'.managed == st.managed && st'.queue == st.queue + [Work(c.stream, w.retries + 1)])
            && (w.retries >= 5 ==>
                  st'.managed == st.managed[i := Conn(c.stream, false, false, c.opens)] && st'.queue == st.queue)
            && st'.count == st.count
            && st'.flight == st.flight[..k] + st.flight[k + 1..] && st'.gathered == st.gathered
  {
    hide Find;
  }

  lemma RecoveryFails(st: State, i: nat, s: Stream)
    requires Inv(st) && i < |st.managed| && st.managed[i].connected && st.managed[i].stream == s && st.queue == []
    ensures Next(st, NotifyFailure(s), true)
         == st.(managed := st.managed[i := Conn(s, false, true, 0)], queue := [Work(s, 0)], count := st.count - 1)
  {
    InvDistinct(st);
    InvPendingDown(st, i);
    FindManaged(st.managed, i);
    hide Inv, Find;
    assert [] + [Work(s, 0)] == [Work(s, 0)];
  }

  lemma RecoveryLooks(st: State, i: nat, s: Stream)
    requires Find(st.managed, s) == i < |st.managed| && st.managed[i] == Conn(s, false, true, 0)
    requires st.flight == [Popped(Work(s, 0))]
    ensures Next(st, FirstLookup(0), true)
         == st.(managed := st.managed[i := Conn(s, false, true, 1)], flight := [Opening(Work(s, 0))])
  {
    hide Find;
  }

  lemma RecoveryOpens(st: State, i: nat, s: Stream)
    requires Find(st.managed, s) == i < |st.managed| && st.managed[i] == Conn(s, false, true, 1)
    requires st.flight == [Opening(Work(s, 0))]
    ensures Next(st, Complete(0, true), true)
         == st.(managed := st.managed[i := Conn(s, true, false, 1)], flight := [], count := st.count + 1)
  {
    hide Find;
    assert RemoveAt(st.flight, 0) == [];
  }

  lemma RecoveryPops(st: State, s: Stream)
    requires st.queue == [Work(s, 0)] && st.flight == []
    ensures Enabled(st, Pop) && Next(st, Pop, true) == st.(queue := [], flight := [Popped(Work(s, 0))])
  {
    assert [] + [Popped(Work(s, 0))] == [Popped(Work(s, 0))];
  }

  lemma FoundAgain(m: seq<Conn>, i: nat, c: Conn)
    requires Distinct(m) && i < |m| && c.stream == m[i].stream
    ensures Find(m[i := c], c.stream) == i
  {
    var m' := m[i := c];
    assert Distinct(m');
    assert m'[i].stream == c.stream;
    FindManaged(m', i);
  }

  /** A connection that fails is brought up again: four guarded steps later it is up, counted and
      without a job, and everything else is as it was. */
  lemma Recovers(st: State, i: nat) returns (s1: State, s2: State, s3: State)
    requires Inv(st) && i < |st.managed| && st.managed[i].connected && st.queue == [] && st.flight == []
    ensures var s := st.managed[i].stream;
            && Steps(st, NotifyFailure(s), s1, true) && Steps(s1, Pop, s2, true)
            && Steps(s2, FirstLookup(0), s3, true)
            && Steps(s3, Complete(0, true), st.(managed := st.managed[i := Conn(s, true, false, 1)]), true)
  {
    var s, m := st.managed[i].stream, st.managed;
    InvDistinct(st);
    FoundAgain(m, i, Conn(s, false, true, 0));
    FoundAgain(m, i, Conn(s, false, true, 1));
    RecoveryFails(st, i, s);
    hide Inv, Find, Next;
    s1 := st.(managed := m[i := Conn(s, false, true, 0)], queue := [Work(s, 0)], count := st.count - 1);
    RecoveryPops(s1, s);
    s2 := s1.(queue := [], flight := [Popped(Work(s, 0))]);
    RecoveryLooks(s2, i, s);
    s3 := s2.(flight := [Opening(Work(s, 0))], managed := m[i := Conn(s, false, true, 1)]);
    assert s2.managed[i := Conn(s, false, true, 1)] == m[i := Conn(s, false, true, 1)];
    RecoveryOpens(s3, i, s);
    assert s3.managed[i := Conn(s, true, false, 1)] == m[i := Conn(s, true, false, 1)];
  }

  lemma InvPendingDown(st: State, i: nat)
    requires Inv(st) && i < |st.managed| && st.managed[i].connected
    ensures !st.managed[i].pending
  {
    hide CountConnected, AttemptInvariant, QueueIsManaged, Jobs;
  }
}
