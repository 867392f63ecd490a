/** The reconnect protocol as a protocol of atomic steps: every region locked by the controller's
    mutexes is one step, and a worker's open attempt lies between its two lookups. Steps of callers,
    the maintenance loop and the reconnect workers interleave arbitrarily. */
module Reconnect {
  /** A connection is identified by its stream. */
  type Stream = nat

  const RECONNECT_WORKERS: nat := 4
  const MAX_RETRIES: nat := 5

  /** A managed connection; `opens` counts the open attempts since `pending` was last set. */
  datatype Conn = Conn(stream: Stream, connected: bool, pending: bool, opens: nat)

  datatype Work = Work(stream: Stream, retries: nat)

  /** A job in a worker's hands: before its first lookup, or between the lookups. */
  datatype Flight = Popped(work: Work) | Opening(work: Work)

  /** `gathered` is the maintenance loop's local list of indices still to be enqueued. */
  datatype State = State(managed: seq<Conn>, queue: seq<Work>, flight: seq<Flight>, gathered: seq<nat>, count: int)

  datatype Action =
    | Manage(s: Stream, connected: bool)
    | Unmanage(s: Stream)
    | NotifyFailure(s: Stream)
    | HealthFailed(i: nat, s: Stream)
    | Gather
    | EnqueueGathered
    | Pop
    | FirstLookup(k: nat)
    | Complete(k: nat, ok: bool)

  /** The first managed entry with this stream, or the length. */
  function Find(m: seq<Conn>, s: Stream): (i: nat)
    ensures i <= |m|
    ensures i < |m| ==> m[i].stream == s
    ensures forall j :: 0 <= j < i ==> m[j].stream != s
  {
    if |m| == 0 then 0 else if m[0].stream == s then 0 else 1 + Find(m[1..], s)
  }

  function RemoveAt<T>(xs: seq<T>, k: nat): seq<T>
    requires k < |xs|
  {
    xs[..k] + xs[k + 1..]
  }

  function WithoutStream(q: seq<Work>, s: Stream): seq<Work> {
    if |q| == 0 then []
    else if q[|q| - 1].stream == s then WithoutStream(q[..|q| - 1], s)
    else WithoutStream(q[..|q| - 1], s) + [q[|q| - 1]]
  }

  predicate ShouldGather(c: Conn) {
    !c.pending && !c.connected
  }

  function GatherIndices(m: seq<Conn>): seq<nat> {
    if |m| == 0 then []
    else GatherIndices(m[..|m| - 1]) + (if ShouldGather(m[|m| - 1]) then [|m| - 1] else [])
  }

  function MarkGathered(m: seq<Conn>): (r: seq<Conn>)
    ensures |r| == |m|
  {
    seq(|m|, i requires 0 <= i < |m| => if ShouldGather(m[i]) then m[i].(pending := true, opens := 0) else m[i])
  }

  /** Connection i failed: drop its flag and, unless a job is pending, queue one. */
  function Fail(st: State, i: nat): State
    requires i < |st.managed|
  {
    var c := st.managed[i];
    var c' := Conn(c.stream, false, true, if c.pending then c.opens else 0);
    State(st.managed[i := c'],
          if c.pending then st.queue else st.queue + [Work(c.stream, 0)],
          st.flight, st.gathered,
          if c.connected then st.count - 1 else st.count)
  }

  predicate Enabled(st: State, a: Action) {
    match a
    case Manage(_, _) => true
    case Unmanage(_) => true
    case NotifyFailure(_) => true
    case HealthFailed(_, _) => true
    case Gather => st.gathered == []
    case EnqueueGathered => st.gathered != []
    case Pop => st.queue != [] && |st.flight| < RECONNECT_WORKERS
    case FirstLookup(k) => k < |st.flight| && st.flight[k].Popped?
    case Complete(k, _) => k < |st.flight| && st.flight[k].Opening?
  }

  /** One step; `openSet` says whether an open function is installed. */
  function Next(st: State, a: Action, openSet: bool): State
    requires Enabled(st, a)
  {
    match a
    case Manage(s, connected) =>
      st.(managed := st.managed + [Conn(s, connected, false, 0)],
          count := if connected then st.count + 1 else st.count)
    case Unmanage(s) =>
      var i := Find(st.managed, s);
      var st' := st.(queue := WithoutStream(st.queue, s));
      if i == |st.managed| then st'
      else st'.(managed := RemoveAt(st.managed, i),
                count := if st.managed[i].connected then st.count - 1 else st.count)
    case NotifyFailure(s) =>
      var i := Find(st.managed, s);
      if i == |st.managed| then st else Fail(st, i)
    case HealthFailed(i, s) =>
      if i < |st.managed| && st.managed[i].stream == s then Fail(st, i) else st
    case Gather =>
      st.(managed := MarkGathered(st.managed), gathered := GatherIndices(st.managed))
    case EnqueueGathered =>
      var i := st.gathered[0];
      var st' := st.(gathered := st.gathered[1..]);
      if i < |st.managed| then st'.(queue := st.queue + [Work(st.managed[i].stream, 0)]) else st'
    case Pop =>
      st.(queue := st.queue[1..], flight := st.flight + [Popped(st.queue[0])])
    case FirstLookup(k) =>
      var w := st.flight[k].work;
      var i := Find(st.managed, w.stream);
      if i == |st.managed| || !openSet || st.managed[i].connected
      then st.(flight := RemoveAt(st.flight, k))
      else st.(flight := st.flight[k := Opening(w)],
               managed := st.managed[i := st.managed[i].(opens := st.managed[i].opens + 1)])
    case Complete(k, ok) =>
      var w := st.flight[k].work;
      var i := Find(st.managed, w.stream);
      var st' := st.(flight := RemoveAt(st.flight, k));
      if i == |st.managed| then st'
      else if ok then
        st'.(managed := st.managed[i := st.managed[i].(pending := false, connected := true)], count := st.count + 1)
      else if w.retries < MAX_RETRIES then
        st'.(queue := st.queue + [Work(w.stream, w.retries + 1)])
      else st'.(managed := st.managed[i := st.managed[i].(pending := false)])
  }

  // ---------------------------------------------------------------- outstanding jobs

  function QueueStreams(q: seq<Work>): (r: seq<Stream>)
    ensures |r| == |q|
  {
    seq(|q|, i requires 0 <= i < |q| => q[i].stream)
  }

  function FlightStreams(f: seq<Flight>): (r: seq<Stream>)
    ensures |r| == |f|
  {
    seq(|f|, i requires 0 <= i < |f| => f[i].work.stream)
  }

  predicate InBounds(m: seq<Conn>, g: seq<nat>) {
    forall j :: 0 <= j < |g| ==> g[j] < |m|
  }

  function GatheredStreams(m: seq<Conn>, g: seq<nat>): (r: seq<Stream>)
    requires InBounds(m, g)
    ensures |r| == |g|
  {
    seq(|g|, j requires 0 <= j < |g| => m[g[j]].stream)
  }

  /** Every outstanding job, queued, in a worker's hands, or gathered, by its stream. */
  function Jobs(m: seq<Conn>, q: seq<Work>, f: seq<Flight>, g: seq<nat>): multiset<Stream>
    requires InBounds(m, g)
  {
    multiset(QueueStreams(q)) + multiset(FlightStreams(f)) + multiset(GatheredStreams(m, g))
  }

  function CountConnected(m: seq<Conn>): nat {
    if |m| == 0 then 0 else CountConnected(m[..|m| - 1]) + (if m[|m| - 1].connected then 1 else 0)
  }

  // ---------------------------------------------------------------- the invariant

  ghost predicate Distinct(m: seq<Conn>) {
    forall i, j :: 0 <= i < j < |m| ==> m[i].stream != m[j].stream
  }

  /** A managed entry is pending exactly when it has one outstanding job, and is then down. */
  ghost predicate PendingMatches(m: seq<Conn>, jobs: multiset<Stream>) {
    forall i :: 0 <= i < |m| ==> jobs[m[i].stream] == (if m[i].pending then 1 else 0)
  }

  ghost predicate PendingIsDown(m: seq<Conn>) {
    forall i :: 0 <= i < |m| && m[i].pending ==> !m[i].connected
  }

  ghost predicate IsManaged(m: seq<Conn>, s: Stream) {
    exists i :: 0 <= i < |m| && m[i].stream == s
  }

  /** Queued jobs belong to managed entries; only workers can hold a job for a removed one. */
  ghost predicate QueueIsManaged(m: seq<Conn>, q: seq<Work>) {
    forall j :: 0 <= j < |q| ==> IsManaged(m, q[j].stream)
  }

  function AttemptsOf(f: Flight): nat {
    if f.Opening? then f.work.retries + 1 else f.work.retries
  }

  /** A job's retry counter tells how often its connection was tried since it became pending. */
  ghost predicate QueueAttempts(m: seq<Conn>, q: seq<Work>) {
    forall i, j :: 0 <= i < |m| && 0 <= j < |q| && q[j].stream == m[i].stream ==>
      q[j].retries == m[i].opens <= MAX_RETRIES
  }

  ghost predicate FlightAttempts(m: seq<Conn>, f: seq<Flight>) {
    forall i, j :: 0 <= i < |m| && 0 <= j < |f| && f[j].work.stream == m[i].stream ==>
      AttemptsOf(f[j]) == m[i].opens && f[j].work.retries <= MAX_RETRIES
  }

  ghost predicate GatheredAttempts(m: seq<Conn>, g: seq<nat>)
    requires InBounds(m, g)
  {
    forall j :: 0 <= j < |g| ==> m[g[j]].opens == 0
  }

  ghost predicate OpensBounded(m: seq<Conn>) {
    forall i :: 0 <= i < |m| ==> m[i].opens <= MAX_RETRIES + 1
  }

  ghost predicate JobInvariant(m: seq<Conn>, q: seq<Work>, f: seq<Flight>, g: seq<nat>) {
    Distinct(m) && InBounds(m, g) && PendingMatches(m, Jobs(m, q, f, g)) && PendingIsDown(m)
  }

  ghost predicate AttemptInvariant(m: seq<Conn>, q: seq<Work>, f: seq<Flight>, g: seq<nat>) {
    InBounds(m, g) && QueueAttempts(m, q) && FlightAttempts(m, f) && GatheredAttempts(m, g) && OpensBounded(m)
  }

  ghost predicate Inv(st: State) {
    && JobInvariant(st.managed, st.queue, st.flight, st.gathered)
    && AttemptInvariant(st.managed, st.queue, st.flight, st.gathered)
    && QueueIsManaged(st.managed, st.queue)
    && st.count == CountConnected(st.managed)
  }

  /** The use the protocol is written for: a stream is managed once at a time and only when no
      worker still holds a job for it, and an entry is not removed while the maintenance loop
      holds an index at or after it. */
  ghost predicate Guarded(st: State, a: Action) {
    match a
    case Manage(s, _) =>
      Find(st.managed, s) == |st.managed| && s !in FlightStreams(st.flight)
    case Unmanage(s) =>
      Find(st.managed, s) < |st.managed| ==> forall j :: 0 <= j < |st.gathered| ==> st.gathered[j] < Find(st.managed, s)
    case _ => true
  }

  // ---------------------------------------------------------------- counting lemmas

  lemma {:induction false} CountUpdate(m: seq<Conn>, i: nat, c: Conn)
    requires i < |m|
    ensures CountConnected(m[i := c]) + (if m[i].connected then 1 else 0)
         == CountConnected(m) + (if c.connected then 1 else 0)
  {
    var last := |m| - 1;
    if i == last {
      assert m[i := c][..last] == m[..last];
    } else {
      CountUpdate(m[..last], i, c);
      assert m[i := c][..last] == m[..last][i := c];
    }
  }

  lemma {:induction false} CountRemove(m: seq<Conn>, i: nat)
    requires i < |m|
    ensures CountConnected(RemoveAt(m, i)) + (if m[i].connected then 1 else 0) == CountConnected(m)
  {
    var last := |m| - 1;
    if i == last {
      assert RemoveAt(m, i) == m[..last];
    } else {
      CountRemove(m[..last], i);
      var r := RemoveAt(m, i);
      assert r[..|r| - 1] == RemoveAt(m[..last], i);
    }
  }

  lemma {:induction false} CountSame(m: seq<Conn>, m': seq<Conn>)
    requires |m| == |m'| && forall i :: 0 <= i < |m| ==> m[i].connected == m'[i].connected
    ensures CountConnected(m) == CountConnected(m')
  {
    if |m| > 0 {
      CountSame(m[..|m| - 1], m'[..|m| - 1]);
    }
  }

  lemma RemoveBag(xs: seq<Stream>, k: nat)
    requires k < |xs|
    ensures multiset(xs) == multiset(RemoveAt(xs, k)) + multiset{xs[k]}
  {
    assert xs == xs[..k] + [xs[k]] + xs[k + 1..];
  }

  // ---------------------------------------------------------------- jobs and streams

  lemma NoJob(m: seq<Conn>, q: seq<Work>, f: seq<Flight>, g: seq<nat>, s: Stream)
    requires InBounds(m, g) && Jobs(m, q, f, g)[s] == 0
    ensures forall j :: 0 <= j < |q| ==> q[j].stream != s
    ensures forall j :: 0 <= j < |f| ==> f[j].work.stream != s
    ensures forall j :: 0 <= j < |g| ==> m[g[j]].stream != s
  {
    assert s !in multiset(QueueStreams(q)) && s !in multiset(FlightStreams(f)) && s !in multiset(GatheredStreams(m, g));
    forall j | 0 <= j < |q| ensures q[j].stream != s { assert QueueStreams(q)[j] == q[j].stream; }
    forall j | 0 <= j < |f| ensures f[j].work.stream != s { assert FlightStreams(f)[j] == f[j].work.stream; }
    forall j | 0 <= j < |g| ensures m[g[j]].stream != s { assert GatheredStreams(m, g)[j] == m[g[j]].stream; }
  }

  /** The job in a worker's hands is its connection's only one. */
  lemma OnlyJob(m: seq<Conn>, q: seq<Work>, f: seq<Flight>, g: seq<nat>, k: nat)
    requires InBounds(m, g) && k < |f| && Jobs(m, q, f, g)[f[k].work.stream] <= 1
    ensures forall j :: 0 <= j < |q| ==> q[j].stream != f[k].work.stream
    ensures forall j :: 0 <= j < |f| && j != k ==> f[j].work.stream != f[k].work.stream
    ensures forall j :: 0 <= j < |g| ==> m[g[j]].stream != f[k].work.stream
    ensures Jobs(m, q, f, g)[f[k].work.stream] == 1
  {
    var s := f[k].work.stream;
    var fs := FlightStreams(f);
    assert fs[k] == s;
    RemoveBag(fs, k);
    var rest := RemoveAt(fs, k);
    assert multiset(rest)[s] == 0;
    forall j | 0 <= j < |q| ensures q[j].stream != s { assert QueueStreams(q)[j] == q[j].stream; }
    forall j | 0 <= j < |f| && j != k ensures f[j].work.stream != s {
      assert rest[if j < k then j else j - 1] == f[j].work.stream;
    }
    forall j | 0 <= j < |g| ensures m[g[j]].stream != s { assert GatheredStreams(m, g)[j] == m[g[j]].stream; }
  }

  ghost predicate SameStreams(m: seq<Conn>, m': seq<Conn>) {
    |m| == |m'| && forall i :: 0 <= i < |m| ==> m[i].stream == m'[i].stream
  }

  /** Jobs depend on the entries only through their streams. */
  lemma JobsSameStreams(m: seq<Conn>, m': seq<Conn>, q: seq<Work>, f: seq<Flight>, g: seq<nat>)
    requires SameStreams(m, m') && InBounds(m, g)
    ensures Jobs(m, q, f, g) == Jobs(m', q, f, g)
    ensures Distinct(m) ==> Distinct(m')
    ensures QueueIsManaged(m, q) ==> QueueIsManaged(m', q)
  {
    assert GatheredStreams(m, g) == GatheredStreams(m', g);
    if QueueIsManaged(m, q) {
      forall j | 0 <= j < |q| ensures IsManaged(m', q[j].stream) {
        var i :| 0 <= i < |m| && m[i].stream == q[j].stream;
        assert m'[i].stream == q[j].stream;
      }
    }
  }

  lemma JobsEnqueue(m: seq<Conn>, q: seq<Work>, f: seq<Flight>, g: seq<nat>, w: Work)
    requires InBounds(m, g)
    ensures Jobs(m, q + [w], f, g) == Jobs(m, q, f, g) + multiset{w.stream}
    ensures QueueIsManaged(m, q) && IsManaged(m, w.stream) ==> QueueIsManaged(m, q + [w])
  {
    assert QueueStreams(q + [w]) == QueueStreams(q) + [w.stream];
  }

  lemma JobsLand(m: seq<Conn>, q: seq<Work>, f: seq<Flight>, g: seq<nat>, k: nat)
    requires InBounds(m, g) && k < |f|
    ensures Jobs(m, q, f, g) == Jobs(m, q, RemoveAt(f, k), g) + multiset{f[k].work.stream}
  {
    RemoveBag(FlightStreams(f), k);
    assert FlightStreams(RemoveAt(f, k)) == RemoveAt(FlightStreams(f), k);
  }

  lemma JobsPop(m: seq<Conn>, q: seq<Work>, f: seq<Flight>, g: seq<nat>)
    requires InBounds(m, g) && q != []
    ensures Jobs(m, q[1..], f + [Popped(q[0])], g) == Jobs(m, q, f, g)
    ensures QueueIsManaged(m, q) ==> QueueIsManaged(m, q[1..])
  {
    assert QueueStreams(q) == [q[0].stream] + QueueStreams(q[1..]);
    assert FlightStreams(f + [Popped(q[0])]) == FlightStreams(f) + [q[0].stream];
  }

  lemma JobsUngather(m: seq<Conn>, q: seq<Work>, f: seq<Flight>, g: seq<nat>)
    requires InBounds(m, g) && g != []
    ensures InBounds(m, g[1..])
    ensures Jobs(m, q, f, g) == Jobs(m, q, f, g[1..]) + multiset{m[g[0]].stream}
  {
    assert GatheredStreams(m, g) == [m[g[0]].stream] + GatheredStreams(m, g[1..]);
  }

  lemma UpdateOne(m: seq<Conn>, i: nat, c: Conn)
    requires i < |m| && c.stream == m[i].stream
    ensures SameStreams(m, m[i := c])
  {
  }

  // ---------------------------------------------------------------- parts of the invariant

  lemma CountSnoc(m: seq<Conn>, c: Conn)
    ensures CountConnected(m + [c]) == CountConnected(m) + (if c.connected then 1 else 0)
  {
    assert (m + [c])[..|m|] == m;
  }

  lemma NoStream(m: seq<Conn>, q: seq<Work>, f: seq<Flight>, g: seq<nat>, s: Stream)
    requires InBounds(m, g)
    requires forall j :: 0 <= j < |q| ==> q[j].stream != s
    requires s !in FlightStreams(f)
    requires forall j :: 0 <= j < |m| ==> m[j].stream != s
    ensures Jobs(m, q, f, g)[s] == 0
  {
    assert s !in QueueStreams(q);
    assert s !in GatheredStreams(m, g);
  }

  lemma {:induction false} GatherFacts(m: seq<Conn>)
    ensures InBounds(m, GatherIndices(m))
    ensures forall j :: 0 <= j < |GatherIndices(m)| ==> ShouldGather(m[GatherIndices(m)[j]])
  {
    if |m| > 0 {
      GatherFacts(m[..|m| - 1]);
    }
  }

  /** Gathering adds exactly one job for every entry that is down and not pending. */
  lemma JobsGather(m: seq<Conn>, q: seq<Work>, f: seq<Flight>)
    requires Distinct(m) && InBounds(m, GatherIndices(m))
    ensures forall i :: 0 <= i < |m| ==>
              Jobs(MarkGathered(m), q, f, GatherIndices(m))[m[i].stream]
              == Jobs(m, q, f, [])[m[i].stream] + (if ShouldGather(m[i]) then 1 else 0)
  {
    hide GatherIndices, ShouldGather;
    var g := GatherIndices(m);
    assert GatheredStreams(m, []) == [];
    assert GatheredStreams(MarkGathered(m), g) == GatheredStreams(m, g);
    forall i | 0 <= i < |m|
      ensures multiset(GatheredStreams(m, g))[m[i].stream] == if ShouldGather(m[i]) then 1 else 0
    {
      GatheredOnce(m, i);
    }
  }

  lemma {:induction false} GatheredOnce(m: seq<Conn>, i: nat)
    requires Distinct(m) && i < |m| && InBounds(m, GatherIndices(m))
    ensures multiset(GatheredStreams(m, GatherIndices(m)))[m[i].stream] == if ShouldGather(m[i]) then 1 else 0
  {
    var init, last := m[..|m| - 1], m[|m| - 1];
    var g := GatherIndices(init);
    GatherFacts(init);
    var front := GatheredStreams(m, g);
    assert front == GatheredStreams(init, g);
    assert GatheredStreams(m, GatherIndices(m)) == front + (if ShouldGather(last) then [last.stream] else []);
    if i < |m| - 1 {
      GatheredOnce(init, i);
    } else {
      assert last.stream !in front;
    }
  }

  lemma PendingReplace(m: seq<Conn>, jobs: multiset<Stream>, i: nat, c: Conn, jobs': multiset<Stream>)
    requires i < |m| && Distinct(m) && PendingMatches(m, jobs) && c.stream == m[i].stream
    requires forall s :: s != c.stream ==> jobs'[s] == jobs[s]
    requires jobs'[c.stream] == if c.pending then 1 else 0
    ensures PendingMatches(m[i := c], jobs')
  {
  }

  lemma DownReplace(m: seq<Conn>, i: nat, c: Conn)
    requires i < |m| && PendingIsDown(m) && (c.pending ==> !c.connected)
    ensures PendingIsDown(m[i := c])
  {
  }

  /** Replacing an entry keeps the job part when its jobs change in step with its pending flag. */
  lemma JobsReplace(
    m: seq<Conn>, q: seq<Work>, f: seq<Flight>, g: seq<nat>, i: nat, c: Conn, q': seq<Work>, f': seq<Flight>)
    requires JobInvariant(m, q, f, g) && i < |m| && c.stream == m[i].stream && (c.pending ==> !c.connected)
    requires forall s :: s != c.stream ==> Jobs(m, q', f', g)[s] == Jobs(m, q, f, g)[s]
    requires Jobs(m, q', f', g)[c.stream] == if c.pending then 1 else 0
    ensures JobInvariant(m[i := c], q', f', g)
  {
    hide Jobs, Distinct, PendingMatches, PendingIsDown;
    UpdateOne(m, i, c);
    JobsSameStreams(m, m[i := c], q', f', g);
    PendingReplace(m, Jobs(m, q, f, g), i, c, Jobs(m, q', f', g));
    DownReplace(m, i, c);
  }

  ghost predicate NoJobFor(m: seq<Conn>, q: seq<Work>, f: seq<Flight>, g: seq<nat>, s: Stream)
    requires InBounds(m, g)
  {
    && (forall j :: 0 <= j < |q| ==> q[j].stream != s)
    && (forall j :: 0 <= j < |f| ==> f[j].work.stream != s)
    && (forall j :: 0 <= j < |g| ==> m[g[j]].stream != s)
  }

  lemma AttemptsReplace(m: seq<Conn>, q: seq<Work>, f: seq<Flight>, g: seq<nat>, i: nat, c: Conn)
    requires AttemptInvariant(m, q, f, g) && i < |m| && c.stream == m[i].stream && c.opens <= MAX_RETRIES + 1
    requires c.opens == m[i].opens || NoJobFor(m, q, f, g, c.stream)
    ensures AttemptInvariant(m[i := c], q, f, g)
  {
    hide AttemptsOf;
    var m' := m[i := c];
    assert forall j :: 0 <= j < |m| && j != i ==> m'[j] == m[j];
    assert QueueAttempts(m', q);
    assert FlightAttempts(m', f);
    assert GatheredAttempts(m', g) by {
      forall j | 0 <= j < |g| ensures m'[g[j]].opens == 0 {
        assert m[g[j]].opens == 0;
      }
    }
  }

  lemma AttemptsEnqueue(m: seq<Conn>, q: seq<Work>, f: seq<Flight>, g: seq<nat>, w: Work)
    requires AttemptInvariant(m, q, f, g)
    requires forall i :: 0 <= i < |m| && m[i].stream == w.stream ==> m[i].opens == w.retries <= MAX_RETRIES
    ensures AttemptInvariant(m, q + [w], f, g)
  {
    hide FlightAttempts, GatheredAttempts, OpensBounded, InBounds;
  }

  lemma AttemptsPop(m: seq<Conn>, q: seq<Work>, f: seq<Flight>, g: seq<nat>)
    requires AttemptInvariant(m, q, f, g) && q != []
    ensures AttemptInvariant(m, q[1..], f + [Popped(q[0])], g)
  {
    hide GatheredAttempts, OpensBounded, InBounds;
  }

  lemma AttemptsLand(m: seq<Conn>, q: seq<Work>, f: seq<Flight>, g: seq<nat>, k: nat)
    requires AttemptInvariant(m, q, f, g) && k < |f|
    ensures AttemptInvariant(m, q, RemoveAt(f, k), g)
  {
    hide QueueAttempts, GatheredAttempts, OpensBounded, InBounds, AttemptsOf;
  }

  lemma AttemptsUngather(m: seq<Conn>, q: seq<Work>, f: seq<Flight>, g: seq<nat>)
    requires AttemptInvariant(m, q, f, g) && g != []
    ensures AttemptInvariant(m, q, f, g[1..])
  {
    hide QueueAttempts, FlightAttempts, OpensBounded;
  }

  // ---------------------------------------------------------------- each step keeps the invariant

  lemma FailKept(st: State, i: nat)
    requires Inv(st) && i < |st.managed|
    ensures Inv(Fail(st, i))
  {
    var m, q, f, g := st.managed, st.queue, st.flight, st.gathered;
    var c := m[i];
    var c' := Conn(c.stream, false, true, if c.pending then c.opens else 0);
    var w := Work(c.stream, 0);
    var m' := m[i := c'];
    assert Jobs(m, q, f, g)[c.stream] == if c.pending then 1 else 0;
    hide Jobs, CountConnected, Distinct, PendingMatches, PendingIsDown;
    hide QueueAttempts, FlightAttempts, GatheredAttempts, QueueIsManaged;
    UpdateOne(m, i, c');
    JobsSameStreams(m, m', q, f, g);
    CountUpdate(m, i, c');
    if c.pending {
      JobsReplace(m, q, f, g, i, c', q, f);
      AttemptsReplace(m, q, f, g, i, c');
    } else {
      NoJob(m, q, f, g, c.stream);
      JobsEnqueue(m, q, f, g, w);
      JobsReplace(m, q, f, g, i, c', q + [w], f);
      AttemptsReplace(m, q, f, g, i, c');
      JobInvariantDistinct(m', q + [w], f, g);
      EnqueueOwn(m', q, f, g, i, w);
    }
  }

  lemma JobInvariantDistinct(m: seq<Conn>, q: seq<Work>, f: seq<Flight>, g: seq<nat>)
    requires JobInvariant(m, q, f, g)
    ensures Distinct(m)
  {
  }

  /** Queuing a job for entry `i` whose retry counter is the entry's number of attempts. */
  lemma EnqueueOwn(m: seq<Conn>, q: seq<Work>, f: seq<Flight>, g: seq<nat>, i: nat, w: Work)
    requires Distinct(m) && AttemptInvariant(m, q, f, g) && QueueIsManaged(m, q)
    requires i < |m| && m[i].stream == w.stream && m[i].opens == w.retries <= MAX_RETRIES
    ensures AttemptInvariant(m, q + [w], f, g) && QueueIsManaged(m, q + [w])
  {
    hide AttemptInvariant, Jobs;
    AttemptsEnqueue(m, q, f, g, w);
    AttemptBounds(m, q, f, g);
    JobsEnqueue(m, q, f, g, w);
    assert IsManaged(m, w.stream);
  }

  lemma AttemptBounds(m: seq<Conn>, q: seq<Work>, f: seq<Flight>, g: seq<nat>)
    requires AttemptInvariant(m, q, f, g)
    ensures InBounds(m, g)
  {
  }

  lemma ManageKept(st: State, s: Stream, connected: bool)
    requires Inv(st) && Guarded(st, Manage(s, connected))
    ensures Inv(Next(st, Manage(s, connected), true))
  {
    var m, q, f, g := st.managed, st.queue, st.flight, st.gathered;
    var c := Conn(s, connected, false, 0);
    assert forall j :: 0 <= j < |m| ==> m[j].stream != s;
    forall j | 0 <= j < |f| ensures f[j].work.stream != s { assert FlightStreams(f)[j] == f[j].work.stream; }
    CountSnoc(m, c);
    hide CountConnected, FlightStreams;
    ManageQueue(m, q, c);
    ManageJobs(m, q, f, g, c);
    ManageAttempts(m, q, f, g, c);
  }

  lemma ManageQueue(m: seq<Conn>, q: seq<Work>, c: Conn)
    requires QueueIsManaged(m, q) && (forall j :: 0 <= j < |m| ==> m[j].stream != c.stream)
    ensures QueueIsManaged(m + [c], q) && forall j :: 0 <= j < |q| ==> q[j].stream != c.stream
  {
    forall j | 0 <= j < |q| ensures IsManaged(m + [c], q[j].stream) && q[j].stream != c.stream {
      assert IsManaged(m, q[j].stream);
      var i :| 0 <= i < |m| && m[i].stream == q[j].stream;
      assert (m + [c])[i].stream == q[j].stream;
    }
  }

  lemma ManageJobs(m: seq<Conn>, q: seq<Work>, f: seq<Flight>, g: seq<nat>, c: Conn)
    requires JobInvariant(m, q, f, g) && !c.pending
    requires forall j :: 0 <= j < |m| ==> m[j].stream != c.stream
    requires forall j :: 0 <= j < |q| ==> q[j].stream != c.stream
    requires forall j :: 0 <= j < |f| ==> f[j].work.stream != c.stream
    ensures JobInvariant(m + [c], q, f, g)
  {
    var m' := m + [c];
    assert GatheredStreams(m', g) == GatheredStreams(m, g);
    NoStream(m, q, f, g, c.stream);
    assert Jobs(m', q, f, g) == Jobs(m, q, f, g);
    hide Jobs;
    assert forall j :: 0 <= j < |m| ==> m'[j] == m[j];
  }

  lemma ManageAttempts(m: seq<Conn>, q: seq<Work>, f: seq<Flight>, g: seq<nat>, c: Conn)
    requires AttemptInvariant(m, q, f, g) && c.opens == 0
    requires forall j :: 0 <= j < |q| ==> q[j].stream != c.stream
    requires forall j :: 0 <= j < |f| ==> f[j].work.stream != c.stream
    ensures AttemptInvariant(m + [c], q, f, g)
  {
    hide AttemptsOf;
    var m' := m + [c];
    assert forall j :: 0 <= j < |m| ==> m'[j] == m[j];
    assert QueueAttempts(m', q);
    assert FlightAttempts(m', f);
  }

  lemma GatherKept(st: State)
    requires Inv(st) && Enabled(st, Gather)
    ensures Inv(Next(st, Gather, true))
  {
    var m, q, f := st.managed, st.queue, st.flight;
    var m', g' := MarkGathered(m), GatherIndices(m);
    GatherFacts(m);
    CountSame(m, m');
    assert SameStreams(m, m');
    JobsSameStreams(m, m', q, f, []);
    hide CountConnected, GatherIndices, QueueIsManaged;
    GatherJobs(m, q, f);
    GatherAttempts(m, q, f);
  }

  lemma GatherJobs(m: seq<Conn>, q: seq<Work>, f: seq<Flight>)
    requires JobInvariant(m, q, f, []) && InBounds(m, GatherIndices(m))
    ensures JobInvariant(MarkGathered(m), q, f, GatherIndices(m))
  {
    JobsGather(m, q, f);
    hide Jobs, GatherIndices;
  }

  lemma GatherAttempts(m: seq<Conn>, q: seq<Work>, f: seq<Flight>)
    requires JobInvariant(m, q, f, []) && AttemptInvariant(m, q, f, []) && InBounds(m, GatherIndices(m))
    requires forall j :: 0 <= j < |GatherIndices(m)| ==> ShouldGather(m[GatherIndices(m)[j]])
    ensures AttemptInvariant(MarkGathered(m), q, f, GatherIndices(m))
  {
    hide GatherIndices, AttemptsOf;
    var m' := MarkGathered(m);
    forall i | 0 <= i < |m| && ShouldGather(m[i])
      ensures forall j :: 0 <= j < |q| ==> q[j].stream != m[i].stream
      ensures forall j :: 0 <= j < |f| ==> f[j].work.stream != m[i].stream
    {
      NoJob(m, q, f, [], m[i].stream);
    }
    hide Jobs, JobInvariant;
    assert QueueAttempts(m', q);
    assert FlightAttempts(m', f);
  }

  lemma UngatherKept(m: seq<Conn>, q: seq<Work>, f: seq<Flight>, g: seq<nat>, w: Work)
    requires JobInvariant(m, q, f, g) && AttemptInvariant(m, q, f, g) && QueueIsManaged(m, q)
    requires g != [] && g[0] < |m| && w == Work(m[g[0]].stream, 0)
    ensures JobInvariant(m, q + [w], f, g[1..]) && AttemptInvariant(m, q + [w], f, g[1..]) && QueueIsManaged(m, q + [w])
  {
    JobInvariantDistinct(m, q, f, g);
    FirstGathered(m, q, f, g);
    AttemptsUngather(m, q, f, g);
    JobsUngather(m, q, f, g);
    JobsEnqueue(m, q, f, g[1..], w);
    hide Jobs, PendingMatches, PendingIsDown, QueueIsManaged, Distinct, AttemptInvariant;
    EnqueueOwn(m, q, f, g[1..], g[0], w);
  }

  lemma FirstGathered(m: seq<Conn>, q: seq<Work>, f: seq<Flight>, g: seq<nat>)
    requires AttemptInvariant(m, q, f, g) && g != []
    ensures g[0] < |m| && m[g[0]].opens == 0
  {
  }

  lemma EnqueueGatheredKept(st: State)
    requires Inv(st) && Enabled(st, EnqueueGathered)
    ensures Inv(Next(st, EnqueueGathered, true))
  {
    var m, q, f, g := st.managed, st.queue, st.flight, st.gathered;
    hide JobInvariant, AttemptInvariant, CountConnected, QueueIsManaged;
    FirstGathered(m, q, f, g);
    UngatherKept(m, q, f, g, Work(m[g[0]].stream, 0));
  }

  lemma PopKept(st: State)
    requires Inv(st) && Enabled(st, Pop)
    ensures Inv(Next(st, Pop, true))
  {
    JobsPop(st.managed, st.queue, st.flight, st.gathered);
    AttemptsPop(st.managed, st.queue, st.flight, st.gathered);
    hide Jobs, CountConnected, PendingMatches, PendingIsDown, AttemptInvariant, QueueIsManaged, Distinct, InBounds;
  }

  /** A job whose entry is gone lands without a trace. */
  lemma OrphanLands(m: seq<Conn>, q: seq<Work>, f: seq<Flight>, g: seq<nat>, k: nat)
    requires k < |f| && JobInvariant(m, q, f, g)
    requires forall i :: 0 <= i < |m| ==> m[i].stream != f[k].work.stream
    ensures JobInvariant(m, q, RemoveAt(f, k), g)
  {
    JobsLand(m, q, f, g, k);
    hide Jobs, Distinct, PendingIsDown;
  }

  /** The entry a worker's job is for is pending, so it is down, and has no other job. */
  lemma FlightFacts(m: seq<Conn>, q: seq<Work>, f: seq<Flight>, g: seq<nat>, k: nat, i: nat)
    requires k < |f| && i < |m| && m[i].stream == f[k].work.stream
    requires JobInvariant(m, q, f, g) && AttemptInvariant(m, q, f, g)
    ensures m[i].pending && !m[i].connected && m[i].opens == AttemptsOf(f[k]) && f[k].work.retries <= MAX_RETRIES
    ensures NoJobFor(m, q, RemoveAt(f, k), g, m[i].stream)
    ensures Jobs(m, q, RemoveAt(f, k), g)[m[i].stream] == 0
  {
    OnlyJob(m, q, f, g, k);
    JobsLand(m, q, f, g, k);
    hide Jobs;
  }

  lemma JobsTake(m: seq<Conn>, q: seq<Work>, f: seq<Flight>, g: seq<nat>, k: nat)
    requires InBounds(m, g) && k < |f|
    ensures Jobs(m, q, f[k := Opening(f[k].work)], g) == Jobs(m, q, f, g)
  {
    assert FlightStreams(f[k := Opening(f[k].work)]) == FlightStreams(f);
  }

  lemma TakeAttempts(m: seq<Conn>, q: seq<Work>, f: seq<Flight>, g: seq<nat>, k: nat, i: nat)
    requires Distinct(m) && k < |f| && f[k].Popped? && i < |m| && m[i].stream == f[k].work.stream
    requires AttemptInvariant(m, q, f, g) && NoJobFor(m, q, RemoveAt(f, k), g, m[i].stream)
    requires m[i].opens == f[k].work.retries <= MAX_RETRIES
    ensures AttemptInvariant(m[i := m[i].(opens := m[i].opens + 1)], q, f[k := Opening(f[k].work)], g)
  {
    var m' := m[i := m[i].(opens := m[i].opens + 1)];
    var f' := f[k := Opening(f[k].work)];
    assert QueueAttempts(m', q);
    assert FlightAttempts(m', f') by {
      forall a, b | 0 <= a < |m'| && 0 <= b < |f'| && f'[b].work.stream == m'[a].stream
        ensures AttemptsOf(f'[b]) == m'[a].opens && f'[b].work.retries <= MAX_RETRIES
      {
        if b != k {
          assert RemoveAt(f, k)[if b < k then b else b - 1] == f[b];
        }
      }
    }
    assert GatheredAttempts(m', g) by {
      forall j | 0 <= j < |g| ensures m'[g[j]].opens == 0 {
        assert m[g[j]].opens == 0;
      }
    }
  }

  lemma TakeKept(m: seq<Conn>, q: seq<Work>, f: seq<Flight>, g: seq<nat>, k: nat, i: nat)
    requires k < |f| && f[k].Popped? && i < |m| && m[i].stream == f[k].work.stream
    requires JobInvariant(m, q, f, g) && AttemptInvariant(m, q, f, g) && QueueIsManaged(m, q)
    ensures !m[i].connected
    ensures var m', f' := m[i := m[i].(opens := m[i].opens + 1)], f[k := Opening(f[k].work)];
            && JobInvariant(m', q, f', g) && AttemptInvariant(m', q, f', g) && QueueIsManaged(m', q)
            && CountConnected(m') == CountConnected(m)
  {
    var c := m[i].(opens := m[i].opens + 1);
    var f' := f[k := Opening(f[k].work)];
    FlightFacts(m, q, f, g, k, i);
    JobInvariantDistinct(m, q, f, g);
    TakeAttempts(m, q, f, g, k, i);
    hide CountConnected, QueueIsManaged, Jobs, PendingMatches, PendingIsDown, Distinct, AttemptInvariant, RemoveAt;
    CountUpdate(m, i, c);
    JobsTake(m, q, f, g, k);
    JobsLand(m, q, f, g, k);
    UpdateOne(m, i, c);
    JobsSameStreams(m, m[i := c], q, f', g);
    JobsReplace(m, q, f, g, i, c, q, f');
  }

  lemma LookupOrphan(st: State, k: nat)
    requires Inv(st) && Enabled(st, FirstLookup(k))
    requires Find(st.managed, st.flight[k].work.stream) == |st.managed|
    ensures Inv(Next(st, FirstLookup(k), true))
  {
    hide CountConnected, QueueIsManaged, AttemptInvariant, JobInvariant, RemoveAt, Find;
    OrphanLands(st.managed, st.queue, st.flight, st.gathered, k);
    AttemptsLand(st.managed, st.queue, st.flight, st.gathered, k);
  }

  lemma LookupTakes(st: State, k: nat)
    requires Inv(st) && Enabled(st, FirstLookup(k))
    requires Find(st.managed, st.flight[k].work.stream) < |st.managed|
    ensures Inv(Next(st, FirstLookup(k), true))
  {
    hide CountConnected, QueueIsManaged, AttemptInvariant, JobInvariant, RemoveAt, Find;
    TakeKept(st.managed, st.queue, st.flight, st.gathered, k, Find(st.managed, st.flight[k].work.stream));
  }

  lemma FirstLookupKept(st: State, k: nat)
    requires Inv(st) && Enabled(st, FirstLookup(k))
    ensures Inv(Next(st, FirstLookup(k), true))
  {
    hide Inv, Next, Find;
    if Find(st.managed, st.flight[k].work.stream) == |st.managed| {
      LookupOrphan(st, k);
    } else {
      LookupTakes(st, k);
    }
  }

  lemma SettleKept(m: seq<Conn>, q: seq<Work>, f: seq<Flight>, g: seq<nat>, k: nat, i: nat, c: Conn)
    requires k < |f| && i < |m| && m[i].stream == f[k].work.stream == c.stream
    requires JobInvariant(m, q, f, g) && AttemptInvariant(m, q, f, g) && QueueIsManaged(m, q)
    requires !c.pending && c.opens == m[i].opens
    ensures JobInvariant(m[i := c], q, RemoveAt(f, k), g) && AttemptInvariant(m[i := c], q, RemoveAt(f, k), g)
    ensures QueueIsManaged(m[i := c], q)
    ensures CountConnected(m[i := c]) == CountConnected(m) + (if c.connected then 1 else 0)
  {
    hide CountConnected, QueueIsManaged, Jobs, PendingMatches, PendingIsDown, Distinct, NoJobFor, RemoveAt;
    hide QueueAttempts, FlightAttempts, GatheredAttempts;
    var f' := RemoveAt(f, k);
    FlightFacts(m, q, f, g, k, i);
    JobsLand(m, q, f, g, k);
    CountUpdate(m, i, c);
    UpdateOne(m, i, c);
    JobsSameStreams(m, m[i := c], q, f', g);
    JobsReplace(m, q, f, g, i, c, q, f');
    AttemptsLand(m, q, f, g, k);
    AttemptsReplace(m, q, f', g, i, c);
  }

  lemma RetryKept(m: seq<Conn>, q: seq<Work>, f: seq<Flight>, g: seq<nat>, k: nat, i: nat)
    requires k < |f| && f[k].Opening? && i < |m| && m[i].stream == f[k].work.stream
    requires JobInvariant(m, q, f, g) && AttemptInvariant(m, q, f, g) && QueueIsManaged(m, q)
    requires f[k].work.retries < MAX_RETRIES
    ensures var q' := q + [Work(f[k].work.stream, f[k].work.retries + 1)];
            && JobInvariant(m, q', RemoveAt(f, k), g) && AttemptInvariant(m, q', RemoveAt(f, k), g)
            && QueueIsManaged(m, q')
  {
    var f', w' := RemoveAt(f, k), Work(f[k].work.stream, f[k].work.retries + 1);
    FlightFacts(m, q, f, g, k, i);
    JobInvariantDistinct(m, q, f, g);
    AttemptsLand(m, q, f, g, k);
    hide RemoveAt, AttemptInvariant, QueueIsManaged, Distinct;
    EnqueueOwn(m, q, f', g, i, w');
    JobsLand(m, q, f, g, k);
    JobsEnqueue(m, q, f', g, w');
    hide Jobs, PendingMatches, PendingIsDown;
    SameJobs(m, q, f, g, q + [w'], f');
  }

  lemma SettleFacts(m: seq<Conn>, q: seq<Work>, f: seq<Flight>, g: seq<nat>, k: nat, i: nat)
    requires k < |f| && i < |m| && m[i].stream == f[k].work.stream
    requires JobInvariant(m, q, f, g) && AttemptInvariant(m, q, f, g)
    ensures !m[i].connected
  {
    FlightFacts(m, q, f, g, k, i);
  }

  lemma CompleteOrphan(st: State, k: nat, ok: bool)
    requires Inv(st) && Enabled(st, Complete(k, ok))
    requires Find(st.managed, st.flight[k].work.stream) == |st.managed|
    ensures Inv(Next(st, Complete(k, ok), true))
  {
    var m, q, f, g := st.managed, st.queue, st.flight, st.gathered;
    hide CountConnected, QueueIsManaged, AttemptInvariant, JobInvariant, RemoveAt;
    OrphanLands(m, q, f, g, k);
    AttemptsLand(m, q, f, g, k);
  }

  lemma CompleteSettles(st: State, k: nat, ok: bool)
    requires Inv(st) && Enabled(st, Complete(k, ok))
    requires Find(st.managed, st.flight[k].work.stream) < |st.managed|
    requires ok || st.flight[k].work.retries >= MAX_RETRIES
    ensures Inv(Next(st, Complete(k, ok), true))
  {
    var m, q, f, g := st.managed, st.queue, st.flight, st.gathered;
    hide CountConnected, QueueIsManaged, AttemptInvariant, JobInvariant, RemoveAt;
    var i := Find(m, f[k].work.stream);
    SettleFacts(m, q, f, g, k, i);
    var c := if ok then m[i].(pending := false, connected := true) else m[i].(pending := false);
    SettleKept(m, q, f, g, k, i, c);
  }

  lemma CompleteRetries(st: State, k: nat, ok: bool)
    requires Inv(st) && Enabled(st, Complete(k, ok))
    requires Find(st.managed, st.flight[k].work.stream) < |st.managed| && !ok && st.flight[k].work.retries < MAX_RETRIES
    ensures Inv(Next(st, Complete(k, ok), true))
  {
    var m, q, f, g := st.managed, st.queue, st.flight, st.gathered;
    hide CountConnected, QueueIsManaged, AttemptInvariant, JobInvariant, RemoveAt;
    RetryKept(m, q, f, g, k, Find(m, f[k].work.stream));
  }

  lemma CompleteKept(st: State, k: nat, ok: bool)
    requires Inv(st) && Enabled(st, Complete(k, ok))
    ensures Inv(Next(st, Complete(k, ok), true))
  {
    hide Inv, Next;
    if Find(st.managed, st.flight[k].work.stream) == |st.managed| {
      CompleteOrphan(st, k, ok);
    } else if ok || st.flight[k].work.retries >= MAX_RETRIES {
      CompleteSettles(st, k, ok);
    } else {
      CompleteRetries(st, k, ok);
    }
  }

  lemma SameJobs(m: seq<Conn>, q: seq<Work>, f: seq<Flight>, g: seq<nat>, q': seq<Work>, f': seq<Flight>)
    requires JobInvariant(m, q, f, g) && Jobs(m, q, f, g) == Jobs(m, q', f', g)
    ensures JobInvariant(m, q', f', g)
  {
  }

  lemma {:induction false} WithoutFacts(q: seq<Work>, s: Stream)
    ensures forall j :: 0 <= j < |WithoutStream(q, s)| ==>
              WithoutStream(q, s)[j].stream != s && WithoutStream(q, s)[j] in q
    ensures forall t :: t != s ==> multiset(QueueStreams(WithoutStream(q, s)))[t] == multiset(QueueStreams(q))[t]
  {
    if |q| > 0 {
      var init, last := q[..|q| - 1], q[|q| - 1];
      WithoutFacts(init, s);
      assert q == init + [last];
      assert QueueStreams(q) == QueueStreams(init) + [last.stream];
      if last.stream != s {
        var r := WithoutStream(init, s);
        assert QueueStreams(r + [last]) == QueueStreams(r) + [last.stream];
      }
    }
  }

  lemma RemoveEntry(m: seq<Conn>, i: nat)
    requires i < |m| && Distinct(m)
    ensures var r := RemoveAt(m, i);
            && Distinct(r)
            && (forall j :: 0 <= j < |r| ==> r[j] == m[if j < i then j else j + 1] && r[j].stream != m[i].stream)
  {
  }

  lemma UnmanageJobs(m: seq<Conn>, q: seq<Work>, f: seq<Flight>, g: seq<nat>, i: nat)
    requires JobInvariant(m, q, f, g) && i < |m|
    requires forall j :: 0 <= j < |g| ==> g[j] < i
    ensures JobInvariant(RemoveAt(m, i), WithoutStream(q, m[i].stream), f, g)
  {
    var s := m[i].stream;
    var r, q' := RemoveAt(m, i), WithoutStream(q, s);
    WithoutFacts(q, s);
    RemoveEntry(m, i);
    assert GatheredStreams(r, g) == GatheredStreams(m, g);
    hide WithoutStream, RemoveAt;
    forall j | 0 <= j < |r| ensures Jobs(r, q', f, g)[r[j].stream] == if r[j].pending then 1 else 0 {
      var k := if j < i then j else j + 1;
      assert r[j] == m[k] && Jobs(m, q, f, g)[m[k].stream] == if m[k].pending then 1 else 0;
    }
  }

  lemma UnmanageAttempts(m: seq<Conn>, q: seq<Work>, f: seq<Flight>, g: seq<nat>, i: nat)
    requires AttemptInvariant(m, q, f, g) && Distinct(m) && QueueIsManaged(m, q) && i < |m|
    requires forall j :: 0 <= j < |g| ==> g[j] < i
    ensures AttemptInvariant(RemoveAt(m, i), WithoutStream(q, m[i].stream), f, g)
    ensures QueueIsManaged(RemoveAt(m, i), WithoutStream(q, m[i].stream))
  {
    var s := m[i].stream;
    var r, q' := RemoveAt(m, i), WithoutStream(q, s);
    WithoutFacts(q, s);
    RemoveEntry(m, i);
    hide WithoutStream, RemoveAt, QueueStreams, AttemptsOf;
    assert QueueAttempts(r, q');
    assert FlightAttempts(r, f);
    assert GatheredAttempts(r, g);
    forall j | 0 <= j < |q'| ensures IsManaged(r, q'[j].stream) {
      var b :| 0 <= b < |q| && q[b] == q'[j];
      assert IsManaged(m, q[b].stream);
      var a :| 0 <= a < |m| && m[a].stream == q[b].stream;
      var a' := if a < i then a else a - 1;
      assert a != i;
      assert r[a'].stream == q'[j].stream;
    }
  }

  lemma NothingQueued(m: seq<Conn>, q: seq<Work>, s: Stream)
    requires QueueIsManaged(m, q) && Find(m, s) == |m|
    ensures WithoutStream(q, s) == q
  {
    forall j | 0 <= j < |q| ensures q[j].stream != s {
      assert IsManaged(m, q[j].stream);
    }
    WithoutAbsent(q, s);
  }

  lemma {:induction false} WithoutAbsent(q: seq<Work>, s: Stream)
    requires forall j :: 0 <= j < |q| ==> q[j].stream != s
    ensures WithoutStream(q, s) == q
  {
    if |q| > 0 {
      WithoutAbsent(q[..|q| - 1], s);
      assert q == q[..|q| - 1] + [q[|q| - 1]];
    }
  }

  lemma UnmanageKept(st: State, s: Stream)
    requires Inv(st) && Guarded(st, Unmanage(s))
    ensures Inv(Next(st, Unmanage(s), true))
  {
    var m, q, f, g := st.managed, st.queue, st.flight, st.gathered;
    var i := Find(m, s);
    if i == |m| {
      NothingQueued(m, q, s);
    } else {
      JobInvariantDistinct(m, q, f, g);
      UnmanageJobs(m, q, f, g, i);
      UnmanageAttempts(m, q, f, g, i);
      CountRemove(m, i);
      hide JobInvariant, AttemptInvariant, CountConnected, QueueIsManaged, Distinct, WithoutStream, RemoveAt;
    }
  }

  lemma StepInv(st: State, a: Action)
    requires Enabled(st, a) && Guarded(st, a) && Inv(st)
    ensures Inv(Next(st, a, true))
  {
    hide Inv, Guarded;
    match a
    case Manage(s, connected) => ManageKept(st, s, connected);
    case Unmanage(s) => UnmanageKept(st, s);
    case NotifyFailure(s) =>
      if Find(st.managed, s) < |st.managed| {
        FailKept(st, Find(st.managed, s));
      }
    case HealthFailed(i, s) =>
      if i < |st.managed| && st.managed[i].stream == s {
        FailKept(st, i);
      }
    case Gather => GatherKept(st);
    case EnqueueGathered => EnqueueGatheredKept(st);
    case Pop => PopKept(st);
    case FirstLookup(k) => FirstLookupKept(st, k);
    case Complete(k, ok) => CompleteKept(st, k, ok);
  }

  // ---------------------------------------------------------------- exactly when a step keeps the invariant

  lemma ManageNeedsGuard(st: State, s: Stream, connected: bool)
    requires Inv(st) && !Guarded(st, Manage(s, connected))
    ensures !Inv(Next(st, Manage(s, connected), true))
  {
    hide CountConnected, AttemptInvariant, QueueIsManaged;
    var m, q, f, g := st.managed, st.queue, st.flight, st.gathered;
    var m' := m + [Conn(s, connected, false, 0)];
    assert m'[|m|].stream == s && !m'[|m|].pending;
    if Find(m, s) < |m| {
      assert m'[Find(m, s)].stream == m'[|m|].stream;
    } else if InBounds(m', g) {
      assert s in multiset(FlightStreams(f));
      assert Jobs(m', q, f, g)[m'[|m|].stream] > 0;
    }
  }

  lemma {:induction false} LargestIndex(g: seq<nat>) returns (j: nat)
    requires g != []
    ensures j < |g| && forall k :: 0 <= k < |g| ==> g[k] <= g[j]
  {
    j := 0;
    if |g| > 1 {
      var k := LargestIndex(g[1..]);
      j := if g[k + 1] > g[0] then k + 1 else 0;
      assert forall i :: 1 <= i < |g| ==> g[i] == g[1..][i - 1];
    }
  }

  /** Once entry `i` is gone, the largest gathered index stands for the entry after the one it was
      gathered for, and gives that entry a job too many. */
  lemma ShiftedJob(m: seq<Conn>, q: seq<Work>, f: seq<Flight>, g: seq<nat>, i: nat, j: nat)
    requires JobInvariant(m, q, f, g) && i < |m| && j < |g| && i <= g[j]
    requires forall k :: 0 <= k < |g| ==> g[k] <= g[j]
    ensures !JobInvariant(RemoveAt(m, i), WithoutStream(q, m[i].stream), f, g)
  {
    var r, q' := RemoveAt(m, i), WithoutStream(q, m[i].stream);
    RemoveEntry(m, i);
    WithoutFacts(q, m[i].stream);
    hide WithoutStream, RemoveAt;
    if InBounds(r, g) {
      var n := g[j];
      var t := r[n].stream;
      assert r[n] == m[n + 1];
      assert GatheredStreams(r, g)[j] == t;
      assert t in multiset(GatheredStreams(r, g));
      assert t !in GatheredStreams(m, g);
      assert Jobs(r, q', f, g)[t] > Jobs(m, q, f, g)[t];
    }
  }

  lemma UnmanageNeedsGuard(st: State, s: Stream)
    requires Inv(st) && !Guarded(st, Unmanage(s))
    ensures !Inv(Next(st, Unmanage(s), true))
  {
    hide CountConnected, AttemptInvariant, QueueIsManaged, JobInvariant, RemoveAt, WithoutStream;
    var m, g := st.managed, st.gathered;
    var k :| 0 <= k < |g| && g[k] >= Find(m, s);
    var j := LargestIndex(g);
    ShiftedJob(m, st.queue, st.flight, g, Find(m, s), j);
  }

  /** The job of a managed entry comes to its first lookup; without an open function it is dropped there. */
  predicate LooksUpManaged(st: State, a: Action) {
    a.FirstLookup? && a.k < |st.flight| && Find(st.managed, st.flight[a.k].work.stream) < |st.managed|
  }

  /** The calls are guarded, and no job is dropped for want of an open function. */
  ghost predicate Sound(st: State, a: Action, openSet: bool) {
    Guarded(st, a) && (openSet || !LooksUpManaged(st, a))
  }

  /** The entry of a job that reaches its first lookup is pending, and the job is its only one. */
  lemma DroppedJob(st: State, k: nat)
    requires Inv(st) && Enabled(st, FirstLookup(k)) && LooksUpManaged(st, FirstLookup(k))
    ensures !Inv(Next(st, FirstLookup(k), false))
  {
    hide CountConnected, AttemptInvariant, QueueIsManaged, RemoveAt, FlightStreams, QueueStreams, GatheredStreams;
    var m, q, f, g := st.managed, st.queue, st.flight, st.gathered;
    var i := Find(m, f[k].work.stream);
    assert Jobs(m, q, f, g)[m[i].stream] <= 1;
    OnlyJob(m, q, f, g, k);
    JobsLand(m, q, f, g, k);
    hide Jobs;
    assert m[i].pending;
  }

  /** Exactly when a step keeps the invariant, with or without an open function. */
  lemma StepExact(st: State, a: Action, openSet: bool)
    requires Enabled(st, a) && Inv(st)
    ensures Inv(Next(st, a, openSet)) <==> Sound(st, a, openSet)
  {
    hide Inv, Next;
    GuardExact(st, a);
    if !openSet {
      if LooksUpManaged(st, a) {
        DroppedJob(st, a.k);
      } else {
        OpenFunctionUnused(st, a);
      }
    }
  }

  /** The open function matters only to the first lookup of a managed entry's job. */
  lemma OpenFunctionUnused(st: State, a: Action)
    requires Enabled(st, a) && !LooksUpManaged(st, a)
    ensures Next(st, a, false) == Next(st, a, true)
  {
    hide Find, MarkGathered, GatherIndices, WithoutStream, Fail, RemoveAt;
  }

  /** The guards are exact: from a state that satisfies the invariant, a step leads to one that does
      if and only if it is guarded. */
  lemma GuardExact(st: State, a: Action)
    requires Enabled(st, a) && Inv(st)
    ensures Inv(Next(st, a, true)) <==> Guarded(st, a)
  {
    hide Inv, Next;
    if Guarded(st, a) {
      StepInv(st, a);
    } else if a.Manage? {
      ManageNeedsGuard(st, a.s, a.connected);
    } else {
      UnmanageNeedsGuard(st, a.s);
    }
  }

  // ---------------------------------------------------------------- every run

  const START: State := State([], [], [], [], 0)

  ghost predicate Steps(st: State, a: Action, st': State, openSet: bool) {
    Enabled(st, a) && Sound(st, a, openSet) && st' == Next(st, a, openSet)
  }

  /** `st` is reached from the empty controller by the guarded interleaving `acts`. With an open
      function that is all; without one, no job of a managed entry has come to its first lookup. */
  ghost predicate Reaches(acts: seq<Action>, st: State, openSet: bool) {
    if |acts| == 0 then st == START
    else
      var init, a := acts[..|acts| - 1], acts[|acts| - 1];
      exists mid :: Reaches(init, mid, openSet) && Steps(mid, a, st, openSet)
  }

  lemma {:induction false} RunInv(acts: seq<Action>, st: State, openSet: bool)
    requires Reaches(acts, st, openSet)
    ensures Inv(st)
  {
    if |acts| == 0 {
      assert Jobs([], [], [], []) == multiset{};
    } else {
      hide Inv, Enabled, Sound, Next;
      var init, a := acts[..|acts| - 1], acts[|acts| - 1];
      var mid :| Reaches(init, mid, openSet) && Steps(mid, a, st, openSet);
      RunInv(init, mid, openSet);
      StepExact(mid, a, openSet);
    }
  }

  /** In every interleaving the connected count is the number of managed entries that are up. */
  lemma ConnectedCountExact(acts: seq<Action>, st: State, openSet: bool)
    requires Reaches(acts, st, openSet)
    ensures st.count == CountConnected(st.managed)
  {
    hide Reaches, JobInvariant, AttemptInvariant, CountConnected;
    RunInv(acts, st, openSet);
  }

  /** In every interleaving a managed entry is pending exactly when it has one outstanding job,
      queued, gathered or in a worker's hands, and otherwise it has none. */
  lemma PendingIffOneJob(acts: seq<Action>, st: State, i: nat, openSet: bool)
    requires Reaches(acts, st, openSet) && i < |st.managed|
    ensures InBounds(st.managed, st.gathered)
    ensures Jobs(st.managed, st.queue, st.flight, st.gathered)[st.managed[i].stream]
         == if st.managed[i].pending then 1 else 0
    ensures st.managed[i].pending ==> !st.managed[i].connected
  {
    hide Reaches, AttemptInvariant, CountConnected, Jobs;
    RunInv(acts, st, openSet);
  }

  /** One failure causes at most six open attempts: the number of attempts since an entry became
      pending never exceeds six, and no job carries more than five retries. */
  lemma AtMostSixOpens(acts: seq<Action>, st: State, i: nat, openSet: bool)
    requires Reaches(acts, st, openSet) && i < |st.managed|
    ensures st.managed[i].opens <= 6
    ensures forall k :: 0 <= k < |st.flight| && st.flight[k].work.stream == st.managed[i].stream ==>
              st.flight[k].work.retries <= 5 && AttemptsOf(st.flight[k]) == st.managed[i].opens
  {
    hide Reaches, JobInvariant, CountConnected;
    RunInv(acts, st, openSet);
  }

  // ---------------------------------------------------------------- callers that manage fresh streams

  /** The streams managed in the course of `acts`. */
  function ManagedIn(acts: seq<Action>): set<Stream> {
    if |acts| == 0 then {}
    else
      var a := acts[|acts| - 1];
      ManagedIn(acts[..|acts| - 1]) + (if a.Manage? then {a.s} else {})
  }

  /** Every call of manage brings a stream that was never managed before. */
  predicate FreshStreams(acts: seq<Action>) {
    if |acts| == 0 then true
    else
      var init, a := acts[..|acts| - 1], acts[|acts| - 1];
      FreshStreams(init) && (a.Manage? ==> a.s !in ManagedIn(init))
  }

  ghost predicate KnownTo(st: State, known: set<Stream>) {
    && (forall i :: 0 <= i < |st.managed| ==> st.managed[i].stream in known)
    && (forall i :: 0 <= i < |st.queue| ==> st.queue[i].stream in known)
    && (forall i :: 0 <= i < |st.flight| ==> st.flight[i].work.stream in known)
  }

  lemma KnownUnmanage(st: State, s: Stream, openSet: bool, known: set<Stream>)
    requires KnownTo(st, known)
    ensures KnownTo(Next(st, Unmanage(s), openSet), known)
  {
    WithoutFacts(st.queue, s);
    hide WithoutStream;
  }

  lemma KnownGather(st: State, openSet: bool, known: set<Stream>)
    requires KnownTo(st, known) && Enabled(st, Gather)
    ensures KnownTo(Next(st, Gather, openSet), known)
  {
    hide GatherIndices, ShouldGather;
  }

  lemma KnownManage(st: State, s: Stream, connected: bool, openSet: bool, known: set<Stream>)
    requires KnownTo(st, known)
    ensures KnownTo(Next(st, Manage(s, connected), openSet), known + {s})
  {
  }

  lemma KnownWorker(st: State, a: Action, openSet: bool, known: set<Stream>)
    requires Enabled(st, a) && KnownTo(st, known) && (a.FirstLookup? || a.Complete?)
    ensures KnownTo(Next(st, a, openSet), known)
  {
    var w := st.flight[a.k].work;
    assert w.stream in known;
    assert forall j :: 0 <= j < |st.flight| - 1 ==> RemoveAt(st.flight, a.k)[j] in st.flight;
  }

  lemma KnownQueue(st: State, a: Action, openSet: bool, known: set<Stream>)
    requires Enabled(st, a) && KnownTo(st, known)
    requires a.NotifyFailure? || a.HealthFailed? || a.EnqueueGathered? || a.Pop?
    ensures KnownTo(Next(st, a, openSet), known)
  {
  }

  lemma KnownStep(st: State, a: Action, openSet: bool, known: set<Stream>)
    requires Enabled(st, a) && KnownTo(st, known)
    ensures KnownTo(Next(st, a, openSet), known + (if a.Manage? then {a.s} else {}))
  {
    hide KnownTo, Next;
    assert known + {} == known;
    match a
    case Manage(s, connected) => KnownManage(st, s, connected, openSet, known);
    case Unmanage(s) => KnownUnmanage(st, s, openSet, known);
    case Gather => KnownGather(st, openSet, known);
    case FirstLookup(_) => KnownWorker(st, a, openSet, known);
    case Complete(_, _) => KnownWorker(st, a, openSet, known);
    case _ => KnownQueue(st, a, openSet, known);
  }

  /** A step in which manage is called without looking at the workers. */
  ghost predicate CallerStep(st: State, a: Action, st': State, openSet: bool) {
    Enabled(st, a) && (a.Manage? || Sound(st, a, openSet)) && st' == Next(st, a, openSet)
  }

  ghost predicate CallerReaches(acts: seq<Action>, st: State, openSet: bool) {
    if |acts| == 0 then st == START
    else
      var init, a := acts[..|acts| - 1], acts[|acts| - 1];
      exists mid :: CallerReaches(init, mid, openSet) && CallerStep(mid, a, st, openSet)
  }

  /** Every stream in the managed entries, the queue or a worker's hands was managed earlier in the run. */
  lemma {:induction false} KnownStreams(acts: seq<Action>, st: State, openSet: bool)
    requires CallerReaches(acts, st, openSet)
    ensures KnownTo(st, ManagedIn(acts))
  {
    if |acts| > 0 {
      hide Enabled, Next, Guarded, LooksUpManaged, KnownTo;
      var init, a := acts[..|acts| - 1], acts[|acts| - 1];
      var mid :| CallerReaches(init, mid, openSet) && CallerStep(mid, a, st, openSet);
      KnownStreams(init, mid, openSet);
      KnownStep(mid, a, openSet, ManagedIn(init));
    }
  }

  lemma FreshIsGuarded(st: State, s: Stream, connected: bool, known: set<Stream>)
    requires KnownTo(st, known) && s !in known
    ensures Guarded(st, Manage(s, connected))
  {
  }

  /** Callers that manage only fresh streams meet the guard of manage, whatever the workers hold: such
      runs are guarded runs, so all results about guarded runs hold for them. */
  lemma {:induction false} FreshRunsAreGuarded(acts: seq<Action>, st: State, openSet: bool)
    requires CallerReaches(acts, st, openSet) && FreshStreams(acts)
    ensures Reaches(acts, st, openSet)
  {
    if |acts| > 0 {
      hide Enabled, Next, Guarded, LooksUpManaged, KnownTo;
      var init, a := acts[..|acts| - 1], acts[|acts| - 1];
      var mid :| CallerReaches(init, mid, openSet) && CallerStep(mid, a, st, openSet);
      FreshRunsAreGuarded(init, mid, openSet);
      if a.Manage? {
        KnownStreams(init, mid, openSet);
        FreshIsGuarded(mid, a.s, a.connected, ManagedIn(init));
      }
      assert Steps(mid, a, st, openSet);
    }
  }

  // ---------------------------------------------------------------- outside the guards

  ghost predicate Reachable(st: State, openSet: bool) {
    exists acts :: Reaches(acts, st, openSet)
  }

  lemma ReachableStep(st: State, a: Action, st': State, openSet: bool)
    requires Reachable(st, openSet) && Steps(st, a, st', openSet)
    ensures Reachable(st', openSet)
  {
    hide Steps;
    var acts :| Reaches(acts, st, openSet);
    assert (acts + [a])[..|acts|] == acts;
    assert Reaches(acts + [a], st', openSet);
  }

  lemma ManagedReachable(openSet: bool)
    ensures Reachable(State([Conn(1, false, false, 0)], [], [], [], 0), openSet)
  {
    var s1 := State([Conn(1, false, false, 0)], [], [], [], 0);
    StartReachable(openSet);
    hide Reachable;
    assert Next(START, Manage(1, false), openSet) == s1;
    ReachableStep(START, Manage(1, false), s1, openSet);
  }

  lemma GatherOne(c: Conn)
    requires ShouldGather(c)
    ensures GatherIndices([c]) == [0] && MarkGathered([c]) == [c.(pending := true, opens := 0)]
  {
    assert [c][..0] == [];
  }

  lemma GatheredReachable(openSet: bool)
    ensures Reachable(State([Conn(1, false, true, 0)], [], [], [0], 0), openSet)
  {
    var s1 := State([Conn(1, false, false, 0)], [], [], [], 0);
    var s2 := State([Conn(1, false, true, 0)], [], [], [0], 0);
    GatherOne(Conn(1, false, false, 0));
    ManagedReachable(openSet);
    hide Reachable, GatherIndices, MarkGathered;
    ReachableStep(s1, Gather, s2, openSet);
  }

  lemma StartReachable(openSet: bool)
    ensures Reachable(START, openSet)
  {
    assert Reaches([], START, openSet);
  }

  lemma PoppedReachable(openSet: bool)
    ensures Reachable(State([Conn(1, false, true, 0)], [], [Popped(Work(1, 0))], [], 0), openSet)
  {
    var s2 := State([Conn(1, false, true, 0)], [], [], [0], 0);
    var s3 := State([Conn(1, false, true, 0)], [Work(1, 0)], [], [], 0);
    var s4 := State([Conn(1, false, true, 0)], [], [Popped(Work(1, 0))], [], 0);
    hide Reachable;
    GatheredReachable(openSet);
    assert Next(s2, EnqueueGathered, openSet) == s3;
    ReachableStep(s2, EnqueueGathered, s3, openSet);
    assert Next(s3, Pop, openSet) == s4;
    ReachableStep(s3, Pop, s4, openSet);
  }

  /** A worker can be between its lookups for an entry that has been removed. */
  lemma OrphanReachable()
    ensures Reachable(State([], [], [Opening(Work(1, 0))], [], 0), true)
  {
    var s4 := State([Conn(1, false, true, 0)], [], [Popped(Work(1, 0))], [], 0);
    var s5 := State([Conn(1, false, true, 1)], [], [Opening(Work(1, 0))], [], 0);
    var s6 := State([], [], [Opening(Work(1, 0))], [], 0);
    hide Reachable;
    PoppedReachable(true);
    assert Next(s4, FirstLookup(0), true) == s5;
    ReachableStep(s4, FirstLookup(0), s5, true);
    assert Next(s5, Unmanage(1), true) == s6;
    ReachableStep(s5, Unmanage(1), s6, true);
  }

  /** Managing a stream again while a worker still holds its old job breaks the count: the stale
      job completes on the new entry and counts it twice. The state is reached by guarded steps. */
  lemma RemanageBreaksCount()
    ensures var orphan := State([], [], [Opening(Work(1, 0))], [], 0);
            var again := Next(orphan, Manage(1, true), true);
            var done := Next(again, Complete(0, true), true);
            && Reachable(orphan, true) && !Guarded(orphan, Manage(1, true))
            && done.count == 2 && CountConnected(done.managed) == 1
  {
    OrphanReachable();
    hide Reachable;
    var orphan := State([], [], [Opening(Work(1, 0))], [], 0);
    var again := Next(orphan, Manage(1, true), true);
    assert again.managed == [Conn(1, true, false, 0)];
    assert Find(again.managed, 1) == 0;
    var done := Next(again, Complete(0, true), true);
    assert done.managed == [Conn(1, true, false, 0)];
    assert done.managed[..0] == [];
    assert FlightStreams(orphan.flight)[0] == 1;
  }

  lemma TwoManagedReachable()
    ensures Reachable(State([Conn(1, true, false, 0), Conn(2, false, false, 0)], [], [], [], 1), true)
  {
    var s1 := State([Conn(1, true, false, 0)], [], [], [], 1);
    var s2 := State([Conn(1, true, false, 0), Conn(2, false, false, 0)], [], [], [], 1);
    StartReachable(true);
    hide Reachable;
    assert Next(START, Manage(1, true), true) == s1;
    ReachableStep(START, Manage(1, true), s1, true);
    assert Next(s1, Manage(2, false), true) == s2;
    ReachableStep(s1, Manage(2, false), s2, true);
  }

  lemma GatherSecond(c: Conn, d: Conn)
    requires !ShouldGather(c) && ShouldGather(d)
    ensures GatherIndices([c, d]) == [1] && MarkGathered([c, d]) == [c, d.(pending := true, opens := 0)]
  {
    assert [c, d][..1] == [c] && [c][..0] == [];
    assert GatherIndices([c]) == [];
  }

  lemma SecondGatheredReachable()
    ensures Reachable(State([Conn(1, true, false, 0), Conn(2, false, true, 0)], [], [], [1], 1), true)
  {
    var s2 := State([Conn(1, true, false, 0), Conn(2, false, false, 0)], [], [], [], 1);
    var s3 := State([Conn(1, true, false, 0), Conn(2, false, true, 0)], [], [], [1], 1);
    GatherSecond(s2.managed[0], s2.managed[1]);
    TwoManagedReachable();
    hide Reachable, GatherIndices, MarkGathered;
    ReachableStep(s2, Gather, s3, true);
  }

  /** Removing an entry below a gathered index strands the gathered one: it stays pending with no
      job anywhere. The state it happens in is reached by guarded steps. */
  lemma UnmanageBelowGatheredStrands()
    ensures var st := State([Conn(1, true, false, 0), Conn(2, false, true, 0)], [], [], [1], 1);
            var removed := Next(st, Unmanage(1), true);
            Reachable(st, true) && !Guarded(st, Unmanage(1)) &&
            removed.gathered != [] &&
            Next(removed, EnqueueGathered, true) == State([Conn(2, false, true, 0)], [], [], [], 0)
  {
    var st := State([Conn(1, true, false, 0), Conn(2, false, true, 0)], [], [], [1], 1);
    SecondGatheredReachable();
    hide Reachable;
    assert Find(st.managed, 1) == 0;
    assert st.gathered[0] == 1;
    var removed := Next(st, Unmanage(1), true);
    assert removed == State([Conn(2, false, true, 0)], [], [], [1], 0);
  }

  /** Without an open function a popped job is dropped and its entry stays pending, in a state that is
      reached without one. */
  lemma NoOpenFunctionStrands()
    ensures var st := State([Conn(1, false, true, 0)], [], [Popped(Work(1, 0))], [], 0);
            && Reachable(st, false) && !Sound(st, FirstLookup(0), false)
            && Next(st, FirstLookup(0), false) == State([Conn(1, false, true, 0)], [], [], [], 0)
  {
    var st := State([Conn(1, false, true, 0)], [], [Popped(Work(1, 0))], [], 0);
    PoppedReachable(false);
    hide Reachable;
    assert Find(st.managed, 1) == 0;
    assert RemoveAt(st.flight, 0) == [];
    assert Next(st, FirstLookup(0), false) == st.(flight := []);
  }
}
