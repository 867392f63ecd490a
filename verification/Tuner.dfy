/** The self-tuning controller: one cycle as a sequence of phases over the controller's fields,
    with the measurements as arbitrary inputs. */
module Tuner {
  import opened Filters

  const MIN_CONNS := 24
  const MAX_CONNS := 48
  const MIN_THREADS := 16
  const MAX_THREADS := 32
  const MAX_HISTORY := 150

  /** Clock readings are nanoseconds. */
  const SECOND := 1_000_000_000
  const HOLDOFF := 15 * SECOND

  /** What one cycle reads from its surroundings; the boosts are never negative. */
  datatype Measure = Measure(
    now: int, rawLat: real, err: real, hitRate: real, util: real, load: int, qps: real,
    urgency: int, connBoost: nat, threadBoost: nat, refreshBoost: nat)

  /** The controller's fields, with the two cache TTL settings it steers. */
  datatype State = State(
    conn: int, threads: int, refresh: int, minTTL: int, negTTL: int,
    highLat: nat, highErr: nat, lowLoad: nat, samples: nat, turbo: nat, cooldown: nat,
    lastChange: int, estimate: real, error: PosReal, history: seq<real>)

  const INITIAL: State :=
    State(32, 20, 10, 600, 300, 0, 0, 0, 0, 0, 0, 0, 0.0, 1.0, [])

  function Min(a: int, b: int): int { if a < b then a else b }
  function Max(a: int, b: int): int { if a < b then b else a }
  function Count(up: bool, n: nat): nat { if up then n + 1 else if n > 0 then n - 1 else 0 }

  // ---------------------------------------------------------------- phases of a cycle

  function Remember(h: seq<real>, lat: real): seq<real> {
    if |h| + 1 > MAX_HISTORY then (h + [lat])[1..] else h + [lat]
  }

  /** Filter the latency, extend the history and update the streak counters. */
  function Observe(s: State, m: Measure): State {
    var lat := NextEstimate(s.estimate, s.error, ClampLatency(m.rawLat));
    s.(estimate := lat,
       error := NextError(s.error),
       history := Remember(s.history, lat),
       highLat := Count(lat > 200.0, s.highLat),
       highErr := Count(m.err > 0.05, s.highErr),
       lowLoad := Count(lat < 50.0 && m.err < 0.01, s.lowLoad))
  }

  predicate IsIdle(s: State, m: Measure) {
    m.load == 0 && s.lowLoad >= 8
  }

  function RecoverIdle(s: State, m: Measure): State {
    if IsIdle(s, m) then s.(conn := Max(s.conn - 1, MIN_CONNS), threads := Max(s.threads - 1, MIN_THREADS)) else s
  }

  predicate IsStuck(s: State, m: Measure) {
    m.load > 200 && s.highLat >= 3
  }

  function CutStuck(s: State, m: Measure): State {
    if IsStuck(s, m) then
      s.(threads := Max(s.threads - 2, MIN_THREADS), conn := Max(s.conn - 2, MIN_CONNS),
         minTTL := Min(s.minTTL + 120, 1200), negTTL := Min(s.negTTL + 120, 600),
         highLat := 0, highErr := 0)
    else s
  }

  predicate IsErrorSpike(s: State, m: Measure) {
    m.err > 0.03 && s.highErr >= 2
  }

  function CutErrors(s: State, m: Measure): State {
    if IsErrorSpike(s, m) then s.(conn := Max(s.conn - 1, MIN_CONNS), lastChange := m.now, highErr := 0) else s
  }

  predicate IsHitCollapse(s: State, m: Measure) {
    m.hitRate < 0.5 && s.samples > 60
  }

  function RaiseTTLs(s: State, m: Measure): State {
    if IsHitCollapse(s, m) then s.(minTTL := Min(s.minTTL + 300, 7200), negTTL := Min(s.negTTL + 120, 3600)) else s
  }

  function BoostTTLs(s: State, m: Measure, anomaly: bool): State {
    if !anomaly && m.hitRate < 0.7 && s.estimate > 150.0 && s.samples > 30 && s.minTTL < 3600 then
      s.(minTTL := Min(s.minTTL + ((s.estimate - 50.0) * 2.0).Floor, 7200), negTTL := Min(s.negTTL + 60, 3600))
    else s
  }

  function CoolDown(s: State, m: Measure, anomaly: bool): State {
    if anomaly then s.(cooldown := 6, lastChange := m.now)
    else if s.cooldown > 0 then s.(cooldown := s.cooldown - 1)
    else s
  }

  predicate ProxySaturated(s: State, m: Measure) {
    s.estimate > 1000.0 && m.util < 0.7 && s.conn > MIN_CONNS
  }

  /** Connections wanted outside turbo mode. */
  function SteadyConns(s: State, m: Measure, trend: real): int {
    if ProxySaturated(s, m) then Max(s.conn - 1, MIN_CONNS)
    else if m.util > 0.90 && s.estimate > 200.0 && s.conn < MAX_CONNS then
      Min(s.conn + (if m.util > 0.95 then 3 else 2), MAX_CONNS)
    else if m.util > 0.70 && trend > 3.0 && m.qps > 5.0 && s.conn < MAX_CONNS then Min(s.conn + 2, MAX_CONNS)
    else if m.util > 0.85 && m.qps > 5.0 && s.conn < MAX_CONNS then
      Min(s.conn + (if m.util > 0.95 then 3 else 2), MAX_CONNS)
    else if m.err > 0.02 || s.highErr >= 2 then Min(s.conn + 2, MAX_CONNS)
    else if s.estimate > 200.0 && m.qps > 5.0 && s.conn < MAX_CONNS then Min(s.conn + 1, MAX_CONNS)
    else if trend > 5.0 && s.conn < MAX_CONNS then Min(s.conn + 1, MAX_CONNS)
    else if s.lowLoad >= 3 && s.conn > MIN_CONNS then s.conn - 1
    else s.conn
  }

  function WantedConns(s: State, m: Measure, trend: real): int {
    var base := if s.turbo < 2 then SteadyConns(s, m, trend)
                else if m.load > 50 && Min(4, MAX_CONNS - s.conn) > 0 then s.conn + Min(4, MAX_CONNS - s.conn)
                else s.conn;
    if m.urgency > 0 && !ProxySaturated(s, m) && base < MAX_CONNS
    then Max(base, Min(base + m.connBoost, MAX_CONNS))
    else base
  }

  /** Growth waits for the holdoff; reductions apply at once. */
  function DampedConns(s: State, m: Measure, trend: real): int {
    var wanted := WantedConns(s, m, trend);
    if wanted > s.conn && m.now - s.lastChange < HOLDOFF then s.conn else wanted
  }

  function TuneConns(s: State, m: Measure, trend: real): State {
    var c := DampedConns(s, m, trend);
    s.(conn := c, lastChange := if c != s.conn then m.now else s.lastChange)
  }

  function NextTurbo(s: State, m: Measure): nat {
    if m.load > 50 then
      var t := if s.turbo + 1 < 10 then s.turbo + 1 else 10;
      if t >= 2 && Min(8, MAX_THREADS - s.threads) <= 0 then (if t < 5 then t else 5) else t
    else if s.turbo > 0 then s.turbo - 1 else 0
  }

  /** Threads wanted outside turbo mode; `curConn` is the connection count before this cycle's change. */
  function SteadyThreads(s: State, m: Measure, trend: real, curConn: int): int {
    var grown :=
      if m.util > 0.5 && trend > 3.0 && s.threads < MAX_THREADS then Min(s.threads + 1, MAX_THREADS)
      else if m.util > 0.8 && s.estimate > 200.0 && s.threads < MAX_THREADS then Min(s.threads + 2, MAX_THREADS)
      else if m.load > 3 && s.estimate > 100.0 && s.threads < MAX_THREADS then Min(s.threads + 2, MAX_THREADS)
      else if m.load > 5 && s.threads < MAX_THREADS then Min(s.threads + 1, MAX_THREADS)
      else s.threads;
    var fitting := curConn + curConn / 5;
    var shrunk :=
      if s.threads > fitting && s.threads > MIN_THREADS then Max(fitting, MIN_THREADS)
      else if m.util < 0.7 && m.load == 0 && s.lowLoad >= 8 && s.threads > MIN_THREADS then s.threads - 1
      else if m.util < 0.7 && m.load < 3 && s.lowLoad >= 12 && s.threads > MIN_THREADS then s.threads - 1
      else grown;
    if m.urgency > 0 && shrunk < MAX_THREADS then Max(shrunk, Min(shrunk + m.threadBoost, MAX_THREADS)) else shrunk
  }

  function TuneThreads(s: State, m: Measure, trend: real, curConn: int): State {
    var turbo := NextTurbo(s, m);
    var surged := if m.load > 50 && turbo >= 2 && Min(8, MAX_THREADS - s.threads) > 0
                  then s.threads + Min(8, MAX_THREADS - s.threads) else s.threads;
    var wanted := if turbo < 2 then SteadyThreads(s, m, trend, curConn) else surged;
    s.(turbo := turbo, threads := Min(Max(wanted, MIN_THREADS), MAX_THREADS))
  }

  function TuneRefresh(s: State, m: Measure): State {
    if s.samples < 12 then s.(refresh := 15)
    else if m.urgency > 0 && s.refresh < 50 then s.(refresh := Min(s.refresh + m.refreshBoost, 10))
    else if m.hitRate < 0.3 && s.refresh < 30 then s.(refresh := Min(s.refresh + 5, 10))
    else if m.hitRate > 0.8 && s.refresh > 5 then s.(refresh := Max(s.refresh - 2, 5))
    else s
  }

  function TuneTTLs(s: State, m: Measure): State {
    if s.samples > 12 then
      if s.estimate > 80.0 && m.hitRate < 0.92 && s.minTTL < 900 then
        s.(minTTL := s.minTTL + 60, negTTL := Min(s.negTTL + 60, 600))
      else if s.estimate < 40.0 && m.hitRate > 0.95 && s.minTTL > 300 then s.(minTTL := s.minTTL - 60)
      else s
    else s
  }

  // ---------------------------------------------------------------- a whole cycle

  /** The state after the phases that can only cut, with the anomaly verdict. */
  function Guarded(s: State, m: Measure): (State, bool) {
    var s1 := RecoverIdle(Observe(s, m), m);
    var s2 := CutStuck(s1, m);
    var s3 := CutErrors(s2, m);
    var anomaly := IsStuck(s1, m) || IsErrorSpike(s2, m) || IsHitCollapse(s3, m);
    (CoolDown(BoostTTLs(RaiseTTLs(s3, m), m, anomaly), m, anomaly), anomaly)
  }

  function Grown(s: State, m: Measure): State {
    var trend := Trend(s.history);
    TuneTTLs(TuneRefresh(TuneThreads(TuneConns(s, m, trend), m, trend, s.conn), m), m)
  }

  predicate Skips(s: State, m: Measure) {
    var (g, anomaly) := Guarded(s, m);
    anomaly || IsIdle(Observe(s, m), m) || g.cooldown > 0
  }

  function Tuned(s: State, m: Measure): State {
    var g := Guarded(s, m).0;
    var t := if Skips(s, m) then g else Grown(g, m);
    t.(samples := t.samples + 1)
  }

  // ---------------------------------------------------------------- bounds over every run

  predicate CountsInBounds(s: State) {
    MIN_CONNS <= s.conn <= MAX_CONNS && MIN_THREADS <= s.threads <= MAX_THREADS && 5 <= s.refresh <= 15
  }

  predicate TTLsInBounds(s: State) {
    241 <= s.minTTL <= 7200 && 300 <= s.negTTL <= 3600
  }

  predicate FilterInBounds(s: State) {
    0.0 <= s.estimate <= 10000.0 && |s.history| <= MAX_HISTORY
  }

  predicate Bounded(s: State) {
    CountsInBounds(s) && TTLsInBounds(s) && FilterInBounds(s)
  }

  lemma ObserveBounded(s: State, m: Measure)
    requires Bounded(s)
    ensures Bounded(Observe(s, m))
  {
    hide NextEstimate, NextError;
    KalmanStep(s.estimate, s.error, ClampLatency(m.rawLat));
  }

  lemma GuardedBounded(s: State, m: Measure)
    requires Bounded(s)
    ensures Bounded(Guarded(s, m).0)
  {
    hide NextEstimate, NextError, Observe;
    ObserveBounded(s, m);
    var s1 := RecoverIdle(Observe(s, m), m);
    assert Bounded(s1);
    var s2 := CutStuck(s1, m);
    assert Bounded(s2);
    var s3 := CutErrors(s2, m);
    assert Bounded(s3);
    hide CutStuck, CutErrors, RecoverIdle, IsStuck, IsErrorSpike, IsHitCollapse;
    var s4 := RaiseTTLs(s3, m);
    assert Bounded(s4);
    hide RaiseTTLs;
    BoostBounded(s4, m, Guarded(s, m).1);
  }

  lemma BoostBounded(s: State, m: Measure, anomaly: bool)
    requires Bounded(s)
    ensures Bounded(BoostTTLs(s, m, anomaly))
  {
    var boost := ((s.estimate - 50.0) * 2.0).Floor;
    assert s.estimate > 150.0 ==> boost >= 0;
  }

  lemma ConnsInBounds(s: State, m: Measure, trend: real)
    requires MIN_CONNS <= s.conn <= MAX_CONNS
    ensures MIN_CONNS <= DampedConns(s, m, trend) <= MAX_CONNS
  {
  }

  lemma ThreadsInBounds(s: State, m: Measure, trend: real, curConn: int)
    ensures MIN_THREADS <= TuneThreads(s, m, trend, curConn).threads <= MAX_THREADS
  {
    hide SteadyThreads, NextTurbo;
  }

  lemma CacheSettingsBounded(s: State, m: Measure)
    requires Bounded(s)
    ensures Bounded(TuneTTLs(TuneRefresh(s, m), m))
  {
    assert Bounded(TuneRefresh(s, m));
    hide TuneRefresh;
  }

  lemma GrownBounded(s: State, m: Measure)
    requires Bounded(s)
    ensures Bounded(Grown(s, m))
  {
    var trend := Trend(s.history);
    hide Trend;
    ConnsInBounds(s, m, trend);
    hide DampedConns;
    var s1 := TuneConns(s, m, trend);
    assert Bounded(s1);
    ThreadsInBounds(s1, m, trend, s.conn);
    hide SteadyThreads, NextTurbo;
    var s2 := TuneThreads(s1, m, trend, s.conn);
    assert Bounded(s2);
    hide TuneConns, TuneThreads, TuneRefresh, TuneTTLs, Bounded;
    CacheSettingsBounded(s2, m);
  }

  lemma TunedBounded(s: State, m: Measure)
    requires Bounded(s)
    ensures Bounded(Tuned(s, m))
  {
    hide Guarded, Grown, Skips;
    GuardedBounded(s, m);
    GrownBounded(Guarded(s, m).0, m);
  }

  /** The state after a run of cycles. */
  function After(ms: seq<Measure>): State {
    if |ms| == 0 then INITIAL else Tuned(After(ms[..|ms| - 1]), ms[|ms| - 1])
  }

  /** Run safety: whatever is measured, after any number of cycles connections are in [24, 48],
      threads in [16, 32], the refresh threshold in [5, 15], the minimum TTL in [241, 7200], the
      negative TTL in [300, 3600], and the latency estimate in [0, 10000]. */
  lemma {:induction false} RunBounded(ms: seq<Measure>)
    ensures Bounded(After(ms))
    ensures var s := After(ms);
            && 24 <= s.conn <= 48 && 16 <= s.threads <= 32 && 5 <= s.refresh <= 15
            && 241 <= s.minTTL <= 7200 && 300 <= s.negTTL <= 3600 && 0.0 <= s.estimate <= 10000.0
  {
    if |ms| > 0 {
      RunBounded(ms[..|ms| - 1]);
      hide Tuned;
      TunedBounded(After(ms[..|ms| - 1]), ms[|ms| - 1]);
    }
  }

  // ---------------------------------------------------------------- anomalies and the holdoff

  predicate NoRise(s: State, s': State) {
    s'.conn <= s.conn && s'.threads <= s.threads
  }

  /** The guarding phases never raise a count; they touch the change time only to set it to now. */
  lemma GuardedNoRise(s: State, m: Measure)
    requires Bounded(s)
    ensures NoRise(s, Guarded(s, m).0)
    ensures Guarded(s, m).0.lastChange == s.lastChange || Guarded(s, m).0.lastChange == m.now
    ensures Guarded(s, m).0.cooldown ==
            (if Guarded(s, m).1 then 6 else if s.cooldown > 0 then s.cooldown - 1 else 0)
  {
    hide NextEstimate, NextError, Bounded, ClampLatency;
    assert MIN_CONNS <= s.conn && MIN_THREADS <= s.threads by {
      BoundedCounts(s);
    }
    var s0 := Observe(s, m);
    assert s0.conn == s.conn && s0.threads == s.threads && s0.cooldown == s.cooldown && s0.lastChange == s.lastChange;
    hide Observe, IsIdle, IsStuck, IsErrorSpike, IsHitCollapse;
    var s1 := RecoverIdle(s0, m);
    assert NoRise(s, s1) && MIN_CONNS <= s1.conn && MIN_THREADS <= s1.threads;
    assert s1.cooldown == s.cooldown && s1.lastChange == s.lastChange;
    hide RecoverIdle;
    var s2 := CutStuck(s1, m);
    assert NoRise(s1, s2) && MIN_CONNS <= s2.conn && MIN_THREADS <= s2.threads;
    assert s2.cooldown == s.cooldown && s2.lastChange == s.lastChange;
    hide CutStuck;
    var s3 := CutErrors(s2, m);
    assert NoRise(s2, s3) && s3.cooldown == s.cooldown;
    hide CutErrors;
  }

  lemma BoundedCounts(s: State)
    requires Bounded(s)
    ensures MIN_CONNS <= s.conn <= MAX_CONNS && MIN_THREADS <= s.threads <= MAX_THREADS
  {
  }

  /** A cycle raises the connection count only when the holdoff has passed, and a cycle that raises
      it records the time. */
  lemma GrownConns(s: State, m: Measure)
    ensures Grown(s, m).conn > s.conn ==> m.now - s.lastChange >= HOLDOFF && Grown(s, m).lastChange == m.now
    ensures Grown(s, m).lastChange == s.lastChange || Grown(s, m).lastChange == m.now
    ensures Grown(s, m).cooldown == s.cooldown
  {
    hide Trend, WantedConns, SteadyThreads, NextTurbo;
  }

  predicate Anomalous(s: State, m: Measure) {
    Guarded(s, m).1
  }

  lemma CycleFacts(s: State, m: Measure)
    requires Bounded(s)
    ensures Anomalous(s, m) ==> Tuned(s, m).cooldown == 6
    ensures !Anomalous(s, m) ==> Tuned(s, m).cooldown == if s.cooldown > 0 then s.cooldown - 1 else 0
    ensures Anomalous(s, m) || s.cooldown > 1 ==> NoRise(s, Tuned(s, m))
    ensures Tuned(s, m).conn > s.conn ==>
              Tuned(s, m).lastChange == m.now && m.now - s.lastChange >= HOLDOFF
    ensures Tuned(s, m).lastChange == s.lastChange || Tuned(s, m).lastChange == m.now
  {
    hide Bounded, Guarded, Grown, IsIdle, Observe;
    GuardedNoRise(s, m);
    GrownConns(Guarded(s, m).0, m);
  }

  predicate MonotoneClock(ms: seq<Measure>) {
    (forall i :: 0 <= i < |ms| ==> 0 <= ms[i].now) && forall i, j :: 0 <= i < j < |ms| ==> ms[i].now <= ms[j].now
  }

  lemma {:induction false} CooldownLeft(ms: seq<Measure>, i: nat, j: nat)
    requires i < j <= |ms| && j <= i + 6 && Anomalous(After(ms[..i]), ms[i])
    ensures After(ms[..j]).cooldown >= 7 - (j - i)
    decreases j
  {
    hide Anomalous, Tuned;
    var before := ms[..j - 1];
    assert ms[..j][..j - 1] == before;
    RunBounded(before);
    CycleFacts(After(before), ms[j - 1]);
    if j > i + 1 {
      CooldownLeft(ms, i, j - 1);
    }
  }

  /** After an anomaly in cycle `i`, neither count rises in that cycle or in the next five. */
  lemma QuietAfterAnomaly(ms: seq<Measure>, i: nat, j: nat)
    requires i <= j < |ms| && j <= i + 5 && Anomalous(After(ms[..i]), ms[i])
    ensures After(ms[..j + 1]).conn <= After(ms[..j]).conn
    ensures After(ms[..j + 1]).threads <= After(ms[..j]).threads
  {
    hide Anomalous, Tuned;
    assert ms[..j + 1][..j] == ms[..j];
    RunBounded(ms[..j]);
    CycleFacts(After(ms[..j]), ms[j]);
    if j > i {
      CooldownLeft(ms, i, j);
    }
  }

  lemma FirstErrorCycle(m: Measure)
    requires m.err > 0.05 && 0 < m.load <= 200 && m.hitRate >= 0.7
    ensures Tuned(INITIAL, m).highErr == 1
  {
    hide NextEstimate, NextError, ClampLatency, Remember, Trend, WantedConns, SteadyThreads, NextTurbo;
    var s1 := RecoverIdle(Observe(INITIAL, m), m);
    assert s1.highErr == 1 && s1.samples == 0;
    assert Guarded(INITIAL, m).0.highErr == 1;
    hide Guarded, Observe;
  }

  /** Anomalies happen: the second of two cycles with errors above five in a hundred is one. */
  lemma SecondErrorIsAnomaly(m: Measure)
    requires m.err > 0.05 && 0 < m.load <= 200 && m.hitRate >= 0.7
    ensures Anomalous(After([m]), m)
  {
    assert After([m]) == Tuned(INITIAL, m) by {
      assert [m][..0] == [];
      assert After([m][..0]) == INITIAL;
    }
    FirstErrorCycle(m);
    hide Tuned, After, NextEstimate, NextError, ClampLatency, Remember;
    var s := Tuned(INITIAL, m);
    assert Observe(s, m).highErr == 2;
  }

  predicate RaisesConns(ms: seq<Measure>, i: nat)
    requires i < |ms|
  {
    After(ms[..i + 1]).conn > After(ms[..i]).conn
  }

  lemma {:induction false} ChangeTimeKept(ms: seq<Measure>, i: nat, j: nat)
    requires i < j <= |ms| && MonotoneClock(ms) && RaisesConns(ms, i)
    ensures After(ms[..j]).lastChange >= ms[i].now
    decreases j
  {
    hide Tuned;
    var before := ms[..j - 1];
    assert ms[..j][..j - 1] == before;
    RunBounded(before);
    CycleFacts(After(before), ms[j - 1]);
    if j > i + 1 {
      ChangeTimeKept(ms, i, j - 1);
    }
  }

  /** Any two cycles that raise the connection count are at least 15 seconds apart. */
  lemma RaisesSpacedOut(ms: seq<Measure>, i: nat, j: nat)
    requires i < j < |ms| && MonotoneClock(ms) && RaisesConns(ms, i) && RaisesConns(ms, j)
    ensures ms[j].now - ms[i].now >= 15_000_000_000
  {
    ChangeTimeKept(ms, i, j);
    hide Tuned;
    assert ms[..j + 1][..j] == ms[..j];
    RunBounded(ms[..j]);
    CycleFacts(After(ms[..j]), ms[j]);
  }

  lemma SteadyIgnoresTurbo(s: State, s': State, m: Measure, trend: real, curConn: int)
    requires s' == s.(turbo := s'.turbo)
    ensures SteadyThreads(s', m, trend, curConn) == SteadyThreads(s, m, trend, curConn)
  {
  }

  // ---------------------------------------------------------------- the controller object

  class AutoTuner {
    var conn: int
    var threads: int
    var refresh: int
    var minTTL: int
    var negTTL: int
    var highLat: nat
    var highErr: nat
    var lowLoad: nat
    var samples: nat
    var turbo: nat
    var cooldown: nat
    var lastChange: int
    var estimate: real
    var error: PosReal
    var history: seq<real>

    function View(): State
      reads this
    {
      State(conn, threads, refresh, minTTL, negTTL, highLat, highErr, lowLoad, samples, turbo, cooldown,
            lastChange, estimate, error, history)
    }

    constructor ()
      ensures View() == INITIAL
    {
      conn, threads, refresh, minTTL, negTTL := 32, 20, 10, 600, 300;
      highLat, highErr, lowLoad, samples, turbo, cooldown := 0, 0, 0, 0, 0, 0;
      lastChange, estimate, error, history := 0, 0.0, 1.0, [];
    }

    /** kalmanFilter on the clamped latency. */
    method FilterLatency(raw: real)
      modifies this`estimate, this`error
      ensures estimate == NextEstimate(old(estimate), old(error), ClampLatency(raw))
      ensures error == NextError(old(error))
    {
      hide NextEstimate, NextError;
      var rawLat := raw;
      if rawLat < 1.0 {
        rawLat := 1.0;
      }
      if rawLat > 10000.0 {
        rawLat := 10000.0;
      }
      estimate := NextEstimate(estimate, error, rawLat);
      error := NextError(error);
    }

    method RememberLatency(lat: real)
      modifies this`history
      ensures history == Remember(old(history), lat)
    {
      history := history + [lat];
      if |history| > MAX_HISTORY {
        history := history[1..];
      }
    }

    method CountStreaks(m: Measure, lat: real)
      modifies this`highLat, this`highErr, this`lowLoad
      ensures highLat == Count(lat > 200.0, old(highLat))
      ensures highErr == Count(m.err > 0.05, old(highErr))
      ensures lowLoad == Count(lat < 50.0 && m.err < 0.01, old(lowLoad))
    {
      highLat := if lat > 200.0 then highLat + 1 else if highLat > 0 then highLat - 1 else 0;
      highErr := if m.err > 0.05 then highErr + 1 else if highErr > 0 then highErr - 1 else 0;
      lowLoad := if lat < 50.0 && m.err < 0.01 then lowLoad + 1 else if lowLoad > 0 then lowLoad - 1 else 0;
    }

    /** The filter, the history push and the streak counters. */
    method ObserveLatency(m: Measure)
      modifies this
      ensures View() == Observe(old(View()), m)
    {
      hide NextEstimate, NextError, ClampLatency, Remember, Count;
      FilterLatency(m.rawLat);
      RememberLatency(estimate);
      CountStreaks(m, estimate);
    }

    method RecoverFromIdle(m: Measure) returns (idle: bool)
      modifies this`conn, this`threads
      ensures idle == IsIdle(old(View()), m)
      ensures View() == RecoverIdle(old(View()), m)
      ensures MIN_CONNS <= old(conn) && MIN_THREADS <= old(threads) ==> NoRise(old(View()), View())
      ensures CountsInBounds(old(View())) ==> CountsInBounds(View())
    {
      idle := m.load == 0 && lowLoad >= 8;
      if idle {
        conn := Max(conn - 1, MIN_CONNS);
        threads := Max(threads - 1, MIN_THREADS);
      }
    }

    method CutIfStuck(m: Measure) returns (stuck: bool)
      modifies this
      ensures stuck == IsStuck(old(View()), m)
      ensures View() == CutStuck(old(View()), m)
      ensures MIN_CONNS <= old(conn) && MIN_THREADS <= old(threads) ==> NoRise(old(View()), View())
      ensures Bounded(old(View())) ==> Bounded(View())
    {
      stuck := m.load > 200 && highLat >= 3;
      if stuck {
        threads := Max(threads - 2, MIN_THREADS);
        conn := Max(conn - 2, MIN_CONNS);
        minTTL := Min(minTTL + 120, 1200);
        negTTL := Min(negTTL + 120, 600);
        highLat := 0;
        highErr := 0;
      }
    }

    method CutOnErrors(m: Measure) returns (spike: bool)
      modifies this`conn, this`lastChange, this`highErr
      ensures spike == IsErrorSpike(old(View()), m)
      ensures View() == CutErrors(old(View()), m)
      ensures MIN_CONNS <= old(conn) ==> NoRise(old(View()), View())
      ensures CountsInBounds(old(View())) ==> CountsInBounds(View())
    {
      spike := m.err > 0.03 && highErr >= 2;
      if spike {
        conn := Max(conn - 1, MIN_CONNS);
        lastChange := m.now;
        highErr := 0;
      }
    }

    method RaiseOnCollapse(m: Measure) returns (collapse: bool)
      modifies this`minTTL, this`negTTL
      ensures collapse == IsHitCollapse(old(View()), m)
      ensures View() == RaiseTTLs(old(View()), m)
      ensures TTLsInBounds(old(View())) ==>
                TTLsInBounds(View()) && old(minTTL) <= minTTL && old(negTTL) <= negTTL
    {
      collapse := m.hitRate < 0.5 && samples > 60;
      if collapse {
        minTTL := Min(minTTL + 300, 7200);
        negTTL := Min(negTTL + 120, 3600);
      }
    }

    method BoostAndCoolDown(m: Measure, anomaly: bool)
      modifies this
      ensures View() == CoolDown(BoostTTLs(old(View()), m, anomaly), m, anomaly)
      ensures TTLsInBounds(old(View())) ==> TTLsInBounds(View()) && old(minTTL) <= minTTL
    {
      if !anomaly && m.hitRate < 0.7 && estimate > 150.0 && samples > 30 {
        var boost := ((estimate - 50.0) * 2.0).Floor;
        if minTTL < 3600 {
          minTTL := Min(minTTL + boost, 7200);
          negTTL := Min(negTTL + 60, 3600);
        }
      }
      if anomaly {
        cooldown := 6;
        lastChange := m.now;
      } else if cooldown > 0 {
        cooldown := cooldown - 1;
      }
    }

    /** Connections wanted before damping. */
    method GoalConnections(m: Measure, trend: real) returns (newConn: int)
      ensures newConn == WantedConns(View(), m, trend)
    {
      newConn := conn;
      var inTurbo := turbo >= 2;
      if inTurbo && m.load > 50 {
        var growth := Min(4, MAX_CONNS - conn);
        if growth > 0 {
          newConn := conn + growth;
        }
      }
      var saturated := estimate > 1000.0 && m.util < 0.7 && conn > MIN_CONNS;
      if !inTurbo {
        if saturated {
          newConn := Max(conn - 1, MIN_CONNS);
        } else if lowLoad >= 3 && conn > MIN_CONNS {
          newConn := conn - 1;
        }
      }
      if !inTurbo && !saturated {
        if m.util > 0.90 && estimate > 200.0 && conn < MAX_CONNS {
          newConn := Min(conn + (if m.util > 0.95 then 3 else 2), MAX_CONNS);
        } else if m.util > 0.70 && trend > 3.0 && m.qps > 5.0 && conn < MAX_CONNS {
          newConn := Min(conn + 2, MAX_CONNS);
        } else if m.util > 0.85 && m.qps > 5.0 && conn < MAX_CONNS {
          newConn := Min(conn + (if m.util > 0.95 then 3 else 2), MAX_CONNS);
        } else if m.err > 0.02 || highErr >= 2 {
          newConn := Min(conn + 2, MAX_CONNS);
        } else if estimate > 200.0 && m.qps > 5.0 && conn < MAX_CONNS {
          newConn := Min(conn + 1, MAX_CONNS);
        } else if trend > 5.0 && conn < MAX_CONNS {
          newConn := Min(conn + 1, MAX_CONNS);
        }
      }
      if m.urgency > 0 && !saturated && newConn < MAX_CONNS {
        var boosted := Min(newConn + m.connBoost, MAX_CONNS);
        if boosted > newConn {
          newConn := boosted;
        }
      }
    }

    method TuneConnections(m: Measure, trend: real)
      modifies this`conn, this`lastChange
      ensures View() == TuneConns(old(View()), m, trend)
      ensures conn > old(conn) ==> m.now - old(lastChange) >= HOLDOFF && lastChange == m.now
    {
      hide WantedConns;
      var newConn := GoalConnections(m, trend);
      if newConn > conn && m.now - lastChange < HOLDOFF {
        newConn := conn;
      }
      if newConn != conn {
        lastChange := m.now;
      }
      conn := newConn;
    }

    method TuneThreadPool(m: Measure, trend: real, curConn: int)
      modifies this`threads, this`turbo
      ensures View() == TuneThreads(old(View()), m, trend, curConn)
      ensures MIN_THREADS <= threads <= MAX_THREADS
    {
      hide SteadyThreads;
      var newThreads := threads;
      if m.load > 50 {
        turbo := Min(turbo + 1, 10);
        if turbo >= 2 {
          var growth := Min(8, MAX_THREADS - threads);
          if growth > 0 {
            newThreads := threads + growth;
          } else {
            turbo := Min(turbo, 5);
          }
        }
      } else {
        turbo := Max(0, turbo - 1);
      }
      var inTurbo := turbo >= 2;
      if !inTurbo {
        newThreads := SteadyGoal(m, trend, curConn);
        SteadyIgnoresTurbo(View(), old(View()), m, trend, curConn);
      }
      if newThreads < MIN_THREADS {
        newThreads := MIN_THREADS;
      }
      if newThreads > MAX_THREADS {
        newThreads := MAX_THREADS;
      }
      threads := newThreads;
    }

    /** The part of the thread phase that runs outside turbo mode. */
    method SteadyGoal(m: Measure, trend: real, curConn: int) returns (newThreads: int)
      ensures newThreads == SteadyThreads(View(), m, trend, curConn)
    {
      newThreads := threads;
      if m.util > 0.5 && trend > 3.0 && threads < MAX_THREADS {
        newThreads := Min(threads + 1, MAX_THREADS);
      } else if m.util > 0.8 && estimate > 200.0 && threads < MAX_THREADS {
        newThreads := Min(threads + 2, MAX_THREADS);
      } else if m.load > 3 && estimate > 100.0 && threads < MAX_THREADS {
        newThreads := Min(threads + 2, MAX_THREADS);
      } else if m.load > 5 && threads < MAX_THREADS {
        newThreads := Min(threads + 1, MAX_THREADS);
      }
      if threads > curConn + curConn / 5 && threads > MIN_THREADS {
        newThreads := Max(curConn + curConn / 5, MIN_THREADS);
      } else if m.util < 0.7 {
        if m.load == 0 && lowLoad >= 8 && threads > MIN_THREADS {
          newThreads := threads - 1;
        } else if m.load < 3 && lowLoad >= 12 && threads > MIN_THREADS {
          newThreads := threads - 1;
        }
      }
      if m.urgency > 0 && newThreads < MAX_THREADS {
        var boosted := Min(newThreads + m.threadBoost, MAX_THREADS);
        if boosted > newThreads {
          newThreads := boosted;
        }
      }
    }

    method TuneRefreshPct(m: Measure)
      modifies this`refresh
      ensures View() == TuneRefresh(old(View()), m)
      ensures CountsInBounds(old(View())) ==> CountsInBounds(View())
    {
      if samples < 12 {
        refresh := 15;
      } else if m.urgency > 0 && refresh < 50 {
        refresh := Min(refresh + m.refreshBoost, 10);
      } else if m.hitRate < 0.3 && refresh < 30 {
        refresh := Min(refresh + 5, 10);
      } else if m.hitRate > 0.8 && refresh > 5 {
        refresh := Max(refresh - 2, 5);
      }
    }

    method TuneCacheTTLs(m: Measure)
      modifies this`minTTL, this`negTTL
      ensures View() == TuneTTLs(old(View()), m)
      ensures TTLsInBounds(old(View())) ==> TTLsInBounds(View())
    {
      if samples > 12 {
        var curMin, curNeg := minTTL, negTTL;
        if estimate > 80.0 && m.hitRate < 0.92 && curMin < 900 {
          minTTL := curMin + 60;
          negTTL := Min(curNeg + 60, 600);
        }
        if estimate < 40.0 && m.hitRate > 0.95 && curMin > 300 {
          minTTL := curMin - 60;
        }
      }
    }

    /** The refresh threshold and the two TTL settings. */
    method TuneCache(m: Measure)
      modifies this`refresh, this`minTTL, this`negTTL
      ensures View() == TuneTTLs(TuneRefresh(old(View()), m), m)
      ensures Bounded(old(View())) ==> Bounded(View())
    {
      ghost var s := View();
      if Bounded(s) {
        CacheSettingsBounded(s, m);
      }
      hide Bounded, TuneRefresh, TuneTTLs;
      TuneRefreshPct(m);
      TuneCacheTTLs(m);
    }

    /** The observation and the cutting phases; `skip` says whether the cycle ends there. */
    method Guard(m: Measure) returns (skip: bool)
      modifies this
      ensures View() == Guarded(old(View()), m).0
      ensures skip == Skips(old(View()), m)
    {
      hide Observe, IsIdle, RecoverIdle, CutStuck, CutErrors, RaiseTTLs, IsStuck, IsErrorSpike, IsHitCollapse;
      hide BoostTTLs, CoolDown, Bounded, CountsInBounds, TTLsInBounds, NoRise;
      ObserveLatency(m);
      var idle := RecoverFromIdle(m);
      var stuck := CutIfStuck(m);
      var spike := CutOnErrors(m);
      var collapse := RaiseOnCollapse(m);
      var anomaly := stuck || spike || collapse;
      BoostAndCoolDown(m, anomaly);
      skip := anomaly || idle || cooldown > 0;
    }

    /** The phases that can also grow. */
    method Grow(m: Measure)
      modifies this
      ensures View() == Grown(old(View()), m)
    {
      hide TuneConns, TuneThreads, TuneRefresh, TuneTTLs, Trend, Bounded;
      var trend := ComputeTrend(history);
      var curConn := conn;
      TuneConnections(m, trend);
      TuneThreadPool(m, trend, curConn);
      TuneCache(m);
    }

    /** tune: one whole cycle. */
    method Tune(m: Measure)
      modifies this
      ensures View() == Tuned(old(View()), m)
      ensures Bounded(old(View())) ==> Bounded(View())
    {
      hide Guarded, Skips, Grown, Bounded;
      ghost var s := View();
      if Bounded(s) {
        TunedBounded(s, m);
      }
      var skip := Guard(m);
      if !skip {
        Grow(m);
      }
      samples := samples + 1;
    }
  }
}
