/** What the controller does when it is called for: the bounds of Tuner hold of a controller that never
    moves, these do not. */
module TunerMoves {
  import opened Filters
  import opened Tuner

  /** When the growing phases are skipped: in an anomaly, when idle, or with a cooldown of two cycles or
      more; otherwise they run on the state the cutting phases leave. */
  lemma GrowsExactly(s: State, m: Measure)
    ensures Skips(s, m) <==> Anomalous(s, m) || (m.load == 0 && Observe(s, m).lowLoad >= 8) || s.cooldown >= 2
    ensures var g := Grown(Guarded(s, m).0, m);
            !Skips(s, m) ==> Tuned(s, m).conn == g.conn && Tuned(s, m).threads == g.threads
                             && Tuned(s, m).lastChange == g.lastChange && Tuned(s, m).turbo == g.turbo
  {
    ObservedSamples(s, m);
    hide Grown, Observe;
  }

  // ---------------------------------------------------------------- what is observed

  /** The newest latency is the filtered one, and the oldest is dropped when there are more than 150. */
  lemma HistoryGrows(h: seq<real>, lat: real)
    requires |h| <= 150
    ensures var r := Remember(h, lat);
            && |r| == (if |h| < 150 then |h| + 1 else 150) && r[|r| - 1] == lat
            && forall i :: 0 <= i < |r| - 1 ==> r[i] == h[|h| + 1 - |r| + i]
  {
  }

  /** Three streaks: up by one in a cycle that belongs to the streak, else down by one to zero. */
  lemma StreaksCount(s: State, m: Measure)
    ensures var o := Observe(s, m);
            && o.highLat == (if o.estimate > 200.0 then s.highLat + 1 else if s.highLat > 0 then s.highLat - 1 else 0)
            && o.highErr == (if m.err > 0.05 then s.highErr + 1 else if s.highErr > 0 then s.highErr - 1 else 0)
            && o.lowLoad == (if o.estimate < 50.0 && m.err < 0.01 then s.lowLoad + 1
                             else if s.lowLoad > 0 then s.lowLoad - 1 else 0)
            && o.conn == s.conn && o.threads == s.threads && o.refresh == s.refresh
            && o.minTTL == s.minTTL && o.negTTL == s.negTTL
  {
    hide NextEstimate, NextError, Remember, ClampLatency;
  }

  // ---------------------------------------------------------------- cutting

  /** A queue of more than 200 tasks with high latency for three cycles costs two threads and at least
      two connections, and starts a cooldown. */
  lemma StuckCuts(s: State, m: Measure)
    requires m.load > 200 && Observe(s, m).highLat >= 3 && s.conn >= 24 && s.threads >= 16
    ensures var t := Tuned(s, m);
            && t.threads == (if s.threads >= 18 then s.threads - 2 else 16)
            && t.conn <= (if s.conn >= 26 then s.conn - 2 else 24)
            && t.cooldown == 6 && t.lastChange == m.now
  {
    StreaksCount(s, m);
    hide Observe, Grown;
  }

  /** More than 3% errors, and more than 5% lately, cost at least a connection and start a cooldown. */
  lemma ErrorsCut(s: State, m: Measure)
    requires m.err > 0.03 && m.load <= 200 && Observe(s, m).highErr >= 2 && s.conn >= 24
    ensures var t := Tuned(s, m);
            t.conn <= (if s.conn >= 25 then s.conn - 1 else 24) && t.cooldown == 6 && t.lastChange == m.now
  {
    StreaksCount(s, m);
    hide Observe, Grown;
  }

  /** An idle server gives up a connection and a thread. */
  lemma IdleShrinks(s: State, m: Measure)
    requires m.load == 0 && Observe(s, m).lowLoad >= 8 && s.conn >= 24 && s.threads >= 16
    ensures var t := Tuned(s, m);
            && t.threads == (if s.threads >= 17 then s.threads - 1 else 16)
            && t.conn <= (if s.conn >= 25 then s.conn - 1 else 24)
  {
    StreaksCount(s, m);
    hide Observe, Grown;
  }

  /** A hit rate below one half after 60 cycles keeps entries longer. */
  lemma CollapseKeepsLonger(s: State, m: Measure)
    requires m.hitRate < 0.5 && s.samples > 60 && m.load <= 200
    ensures var t := Tuned(s, m);
            && t.minTTL == (if s.minTTL + 300 < 7200 then s.minTTL + 300 else 7200)
            && t.negTTL == (if s.negTTL + 120 < 3600 then s.negTTL + 120 else 3600)
            && t.cooldown == 6
  {
    StreaksCount(s, m);
    ObservedSamples(s, m);
    hide Observe, Grown;
  }

  lemma ObservedSamples(s: State, m: Measure)
    ensures Observe(s, m).samples == s.samples && Observe(s, m).turbo == s.turbo
    ensures Observe(s, m).cooldown == s.cooldown && Observe(s, m).lastChange == s.lastChange
  {
    hide NextEstimate, NextError, Remember, ClampLatency;
  }

  // ---------------------------------------------------------------- growing

  lemma GrownConnsIs(g: State, m: Measure)
    ensures Grown(g, m).conn == DampedConns(g, m, Trend(g.history))
    ensures Grown(g, m).lastChange == if Grown(g, m).conn != g.conn then m.now else g.lastChange
  {
    hide DampedConns, SteadyThreads, NextTurbo, Trend;
  }

  /** Saturated connections and high latency: three more connections, or as many as there may be, once
      15 seconds have passed since the last change. */
  lemma SaturationGrows(s: State, m: Measure, g: State)
    requires !Skips(s, m) && g == Guarded(s, m).0 && 24 <= g.conn < 48
    requires m.util > 0.95 && g.estimate > 200.0 && g.turbo < 2 && m.now - g.lastChange >= 15_000_000_000
    ensures Tuned(s, m).conn >= if g.conn + 3 < 48 then g.conn + 3 else 48
    ensures Tuned(s, m).conn == (if g.conn + 3 < 48 then g.conn + 3 else 48) || m.urgency > 0
  {
    GrowsExactly(s, m);
    GrownConnsIs(g, m);
    hide Skips, Guarded, Grown, Trend;
  }

  /** A deep queue two cycles running: four more connections at once, under the same holdoff. */
  lemma TurboGrowsConns(s: State, m: Measure, g: State)
    requires !Skips(s, m) && g == Guarded(s, m).0 && 24 <= g.conn <= 48
    requires m.load > 50 && g.turbo >= 2 && m.now - g.lastChange >= 15_000_000_000
    ensures Tuned(s, m).conn >= if g.conn + 4 < 48 then g.conn + 4 else 48
  {
    GrowsExactly(s, m);
    GrownConnsIs(g, m);
    hide Skips, Guarded, Grown, Trend, SteadyConns;
  }

  /** Low load for three cycles and nothing that calls for more: a connection less, at once. */
  lemma QuietShrinks(s: State, m: Measure, g: State)
    requires !Skips(s, m) && g == Guarded(s, m).0 && 24 < g.conn <= 48
    requires m.util <= 0.70 && g.estimate <= 200.0 && m.err <= 0.02 && g.highErr < 2 && Trend(g.history) <= 5.0
    requires g.lowLoad >= 3 && g.turbo < 2 && m.urgency <= 0
    ensures Tuned(s, m).conn == g.conn - 1 && Tuned(s, m).lastChange == m.now
  {
    GrowsExactly(s, m);
    GrownConnsIs(g, m);
    hide Skips, Guarded, Grown, Trend;
  }

  lemma GrownThreadsIs(g: State, m: Measure)
    ensures var c := TuneConns(g, m, Trend(g.history));
            Grown(g, m).threads == TuneThreads(c, m, Trend(g.history), g.conn).threads
            && c == g.(conn := c.conn, lastChange := c.lastChange)
    ensures Grown(g, m).turbo == NextTurbo(g, m)
  {
    hide DampedConns, SteadyThreads, Trend;
  }

  /** A queue of more than 50 tasks for two cycles adds eight threads, or as many as there may be. */
  lemma TurboGrowsThreads(s: State, m: Measure, g: State)
    requires !Skips(s, m) && g == Guarded(s, m).0 && 16 <= g.threads <= 32 && m.load > 50
    ensures g.turbo >= 1 ==> Tuned(s, m).threads == if g.threads + 8 < 32 then g.threads + 8 else 32
    ensures g.turbo == 0 ==> Tuned(s, m).turbo == 1
  {
    GrowsExactly(s, m);
    GrownThreadsIs(g, m);
    hide Skips, Guarded, Grown, Trend, TuneConns, SteadyThreads;
  }

  /** Six or more waiting tasks add at least a thread, unless there are too many for the connections. */
  lemma LoadGrowsThreads(s: State, m: Measure, g: State)
    requires !Skips(s, m) && g == Guarded(s, m).0 && 16 <= g.threads < 32
    requires 5 < m.load <= 50 && g.turbo <= 2 && g.threads <= g.conn + g.conn / 5
    ensures Tuned(s, m).threads >= g.threads + 1
  {
    GrowsExactly(s, m);
    GrownThreadsIs(g, m);
    hide Skips, Guarded, Grown, Trend, TuneConns;
  }

  /** More threads than six for five connections are cut back to that. */
  lemma ThreadsFollowConns(s: State, m: Measure, g: State)
    requires !Skips(s, m) && g == Guarded(s, m).0 && 16 < g.threads <= 32 && g.threads > g.conn + g.conn / 5
    requires m.load <= 50 && g.turbo <= 2 && m.urgency <= 0
    ensures Tuned(s, m).threads == if g.conn + g.conn / 5 > 16 then g.conn + g.conn / 5 else 16
  {
    GrowsExactly(s, m);
    GrownThreadsIs(g, m);
    hide Skips, Guarded, Grown, Trend, TuneConns;
  }

  /** Refreshing starts eager; a slow upstream raises the TTL settings by a minute, a fast one with a
      high hit rate lowers the minimum by one. */
  lemma CacheSettingsMove(g: State, m: Measure)
    ensures var t := Grown(g, m);
            && (g.samples < 12 ==> t.refresh == 15)
            && (g.samples > 12 && g.estimate > 80.0 && m.hitRate < 0.92 && g.minTTL < 900 ==>
                  t.minTTL == g.minTTL + 60 && t.negTTL == if g.negTTL + 60 < 600 then g.negTTL + 60 else 600)
            && (g.samples > 12 && g.estimate < 40.0 && m.hitRate > 0.95 && g.minTTL > 300 ==>
                  t.minTTL == g.minTTL - 60 && t.negTTL == g.negTTL)
  {
    hide DampedConns, SteadyThreads, NextTurbo, Trend;
  }
}
