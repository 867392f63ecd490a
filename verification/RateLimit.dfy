/** The per-client rate limiter: a fixed-window counter in sixteen shards. */
module RateLimit {
  type Ip = string

  /** steady_clock ticks are nanoseconds. */
  const SECOND: nat := 1_000_000_000
  const LIMIT: nat := 100
  const SHARDS: nat := 16

  datatype Entry = Entry(last: nat, count: nat)

  datatype Event = Event(ip: Ip, time: nat)

  type Table = map<Ip, Entry>

  predicate Loopback(ip: Ip) {
    ip == "127.0.0.1" || ip == "::1"
  }

  /** clients[ip], which default-constructs a missing entry. */
  function Lookup(t: Table, ip: Ip): Entry {
    if ip in t then t[ip] else Entry(0, 0)
  }

  function Window(e: Entry, now: nat): Entry {
    if now - e.last > SECOND then Entry(now, 0) else e
  }

  function Counted(e: Entry, now: nat): Entry {
    var w := Window(e, now);
    Entry(w.last, w.count + 1)
  }

  predicate Allowed(e: Entry, now: nat) {
    Counted(e, now).count <= LIMIT
  }

  // ---------------------------------------------------------------- one unsharded table

  predicate TableAllows(t: Table, ev: Event) {
    Loopback(ev.ip) || Allowed(Lookup(t, ev.ip), ev.time)
  }

  function TableStep(t: Table, ev: Event): Table {
    if Loopback(ev.ip) then t else t[ev.ip := Counted(Lookup(t, ev.ip), ev.time)]
  }

  function TableAfter(evs: seq<Event>): Table {
    if |evs| == 0 then map[] else TableStep(TableAfter(evs[..|evs| - 1]), evs[|evs| - 1])
  }

  // ---------------------------------------------------------------- sixteen shards

  function ShardOf(hash: Ip -> nat, ip: Ip): nat {
    hash(ip) % SHARDS
  }

  predicate ShardsAllow(hash: Ip -> nat, s: seq<Table>, ev: Event)
    requires |s| == SHARDS
  {
    Loopback(ev.ip) || Allowed(Lookup(s[ShardOf(hash, ev.ip)], ev.ip), ev.time)
  }

  function ShardsStep(hash: Ip -> nat, s: seq<Table>, ev: Event): (r: seq<Table>)
    requires |s| == SHARDS
    ensures |r| == SHARDS
  {
    var i := ShardOf(hash, ev.ip);
    if Loopback(ev.ip) then s else s[i := s[i][ev.ip := Counted(Lookup(s[i], ev.ip), ev.time)]]
  }

  function ShardsAfter(hash: Ip -> nat, evs: seq<Event>): (r: seq<Table>)
    ensures |r| == SHARDS
  {
    if |evs| == 0 then seq(SHARDS, i => map[])
    else ShardsStep(hash, ShardsAfter(hash, evs[..|evs| - 1]), evs[|evs| - 1])
  }

  class RateLimiter {
    const hash: Ip -> nat
    const shards: array<Table>

    ghost predicate Valid()
      reads this
    {
      shards.Length == SHARDS
    }

    constructor (h: Ip -> nat)
      ensures Valid() && hash == h && fresh(shards)
      ensures shards[..] == ShardsAfter(h, [])
    {
      hash := h;
      shards := new Table[SHARDS](_ => map[]);
    }

    method Allow(ip: Ip, now: nat) returns (ok: bool)
      requires Valid()
      modifies shards
      ensures ok == ShardsAllow(hash, old(shards[..]), Event(ip, now))
      ensures shards[..] == ShardsStep(hash, old(shards[..]), Event(ip, now))
    {
      if ip == "127.0.0.1" || ip == "::1" {
        return true;
      }
      var i := hash(ip) % SHARDS;
      var entry := Lookup(shards[i], ip);
      if now - entry.last > SECOND {
        entry := Entry(now, 0);
      }
      entry := Entry(entry.last, entry.count + 1);
      shards[i] := shards[i][ip := entry];
      if entry.count > LIMIT {
        return false;
      }
      return true;
    }
  }

  lemma {:induction false} ShardsHoldTheTable(hash: Ip -> nat, evs: seq<Event>, ip: Ip)
    ensures Lookup(ShardsAfter(hash, evs)[ShardOf(hash, ip)], ip) == Lookup(TableAfter(evs), ip)
  {
    if |evs| > 0 {
      ShardsHoldTheTable(hash, evs[..|evs| - 1], ip);
      ShardsHoldTheTable(hash, evs[..|evs| - 1], evs[|evs| - 1].ip);
    }
  }

  /** Sharding is invisible: whatever the hash, after every history the sixteen shards decide
      every request exactly as one table would. */
  lemma ShardingInvisible(hash: Ip -> nat, evs: seq<Event>, ev: Event)
    ensures ShardsAllow(hash, ShardsAfter(hash, evs), ev) == TableAllows(TableAfter(evs), ev)
  {
    ShardsHoldTheTable(hash, evs, ev.ip);
  }

  // ---------------------------------------------------------------- one client at a time

  /** The events of one client, in order. */
  function EventsOf(evs: seq<Event>, ip: Ip): seq<Event> {
    if |evs| == 0 then []
    else EventsOf(evs[..|evs| - 1], ip) + (if evs[|evs| - 1].ip == ip then [evs[|evs| - 1]] else [])
  }

  /** Clients do not affect each other: a client's entry after any history is its entry after
      its own requests alone. */
  lemma {:induction false} ClientsIndependent(evs: seq<Event>, ip: Ip)
    ensures Lookup(TableAfter(evs), ip) == Lookup(TableAfter(EventsOf(evs, ip)), ip)
  {
    if |evs| > 0 {
      var init, ev := evs[..|evs| - 1], evs[|evs| - 1];
      ClientsIndependent(init, ip);
      if ev.ip == ip {
        var mine := EventsOf(evs, ip);
        assert mine[..|mine| - 1] == EventsOf(init, ip);
      } else {
        assert EventsOf(evs, ip) == EventsOf(init, ip);
      }
    }
  }

  /** The times of the client's allowed requests. */
  function AllowedTimes(evs: seq<Event>, ip: Ip): seq<nat> {
    if |evs| == 0 then []
    else
      var init, ev := evs[..|evs| - 1], evs[|evs| - 1];
      if ev.ip == ip && TableAllows(TableAfter(init), ev) then AllowedTimes(init, ip) + [ev.time]
      else AllowedTimes(init, ip)
  }

  /** The window each of those requests was counted in, named by its start. */
  ghost function Windows(evs: seq<Event>, ip: Ip): seq<nat> {
    if |evs| == 0 then []
    else
      var init, ev := evs[..|evs| - 1], evs[|evs| - 1];
      if ev.ip == ip && TableAllows(TableAfter(init), ev) then Windows(init, ip) + [Lookup(TableAfter(evs), ip).last]
      else Windows(init, ip)
  }

  predicate Monotone(evs: seq<Event>) {
    forall i, j :: 0 <= i < j < |evs| ==> evs[i].time <= evs[j].time
  }

  /** Allowed times `a` and windows `w` are in order, and windows lie more than a second apart. */
  ghost predicate LogOrder(a: seq<nat>, w: seq<nat>, last: nat, now: nat) {
    && |a| == |w| && last <= now
    && (forall i :: 0 <= i < |a| ==> w[i] <= a[i] <= now && w[i] <= last)
    && (forall i, j :: 0 <= i < j < |a| ==> a[i] <= a[j] && w[i] <= w[j])
    && (forall i, j :: 0 <= i < j < |a| && w[i] < w[j] ==> a[i] <= w[j] && w[i] + SECOND < w[j])
    && (forall i :: 0 <= i < |a| && w[i] < last ==> a[i] <= last && w[i] + SECOND < last)
  }

  /** At most 100 requests share a window; the current window holds the last `e.count` of them. */
  ghost predicate LogCounts(w: seq<nat>, e: Entry) {
    && (forall i :: 0 <= i < |w| - (if e.count < LIMIT then e.count else LIMIT) ==> w[i] < e.last)
    && (forall i, j :: 0 <= i && i + LIMIT <= j < |w| ==> w[i] < w[j])
  }

  ghost predicate LogInvariant(a: seq<nat>, w: seq<nat>, e: Entry, now: nat) {
    LogOrder(a, w, e.last, now) && LogCounts(w, e)
  }

  lemma LogWaits(a: seq<nat>, w: seq<nat>, e: Entry, before: nat, now: nat)
    requires LogInvariant(a, w, e, before) && before <= now
    ensures LogInvariant(a, w, Window(e, now), now)
  {
  }

  lemma OrderGrows(a: seq<nat>, w: seq<nat>, last: nat, now: nat)
    requires LogOrder(a, w, last, now)
    ensures LogOrder(a + [now], w + [last], last, now)
  {
  }

  lemma CountsGrow(w: seq<nat>, e: Entry)
    requires LogCounts(w, e) && e.count < LIMIT
    ensures LogCounts(w + [e.last], Entry(e.last, e.count + 1))
  {
  }

  lemma LogGrows(a: seq<nat>, w: seq<nat>, e: Entry, now: nat)
    requires LogInvariant(a, w, e, now) && e.count < LIMIT
    ensures LogInvariant(a + [now], w + [e.last], Entry(e.last, e.count + 1), now)
  {
    hide LogOrder, LogCounts;
    OrderGrows(a, w, e.last, now);
    CountsGrow(w, e);
  }

  lemma LogSkips(a: seq<nat>, w: seq<nat>, e: Entry, before: nat, now: nat)
    requires LogInvariant(a, w, e, before) && before <= now
    ensures LogInvariant(a, w, e, now)
  {
  }

  lemma LogStep(a: seq<nat>, w: seq<nat>, e: Entry, before: nat, now: nat)
    requires LogInvariant(a, w, e, before) && before <= now
    ensures Allowed(e, now) ==> LogInvariant(a + [now], w + [Counted(e, now).last], Counted(e, now), now)
    ensures !Allowed(e, now) ==> LogInvariant(a, w, Counted(e, now), now)
  {
    LogWaits(a, w, e, before, now);
    if Allowed(e, now) {
      hide LogInvariant;
      LogGrows(a, w, Window(e, now), now);
    }
  }

  ghost function LastTime(evs: seq<Event>): nat {
    if |evs| == 0 then 0 else evs[|evs| - 1].time
  }

  lemma {:induction false} LogInvariantHolds(evs: seq<Event>, ip: Ip)
    requires Monotone(evs) && !Loopback(ip)
    ensures LogInvariant(AllowedTimes(evs, ip), Windows(evs, ip), Lookup(TableAfter(evs), ip), LastTime(evs))
  {
    if |evs| > 0 {
      hide Allowed, Counted, LogInvariant;
      var init, ev := evs[..|evs| - 1], evs[|evs| - 1];
      LogInvariantHolds(init, ip);
      var a, w, e := AllowedTimes(init, ip), Windows(init, ip), Lookup(TableAfter(init), ip);
      assert LastTime(init) <= ev.time;
      LogSkips(a, w, e, LastTime(init), ev.time);
      if ev.ip == ip {
        LogStep(a, w, e, LastTime(init), ev.time);
      }
    }
  }

  /** Any 201 allowed requests of a client span more than one second. */
  lemma TwoHundredOneSpan(evs: seq<Event>, ip: Ip, k: nat)
    requires Monotone(evs) && !Loopback(ip)
    requires k + 200 < |AllowedTimes(evs, ip)|
    ensures AllowedTimes(evs, ip)[k + 200] > AllowedTimes(evs, ip)[k] + 1_000_000_000
  {
    hide AllowedTimes, Windows, TableAfter, Lookup;
    LogInvariantHolds(evs, ip);
    var w := Windows(evs, ip);
    assert w[k] < w[k + LIMIT] < w[k + 2 * LIMIT];
  }

  function CountIn(a: seq<nat>, lo: nat, hi: nat): nat {
    if |a| == 0 then 0
    else CountIn(a[..|a| - 1], lo, hi) + (if lo <= a[|a| - 1] <= hi then 1 else 0)
  }

  predicate Sorted(a: seq<nat>) {
    forall i, j :: 0 <= i < j < |a| ==> a[i] <= a[j]
  }

  lemma {:induction false} NoneBelow(a: seq<nat>, lo: nat, hi: nat)
    requires forall i :: 0 <= i < |a| ==> a[i] < lo
    ensures CountIn(a, lo, hi) == 0
  {
    if |a| > 0 {
      NoneBelow(a[..|a| - 1], lo, hi);
    }
  }

  /** In a sorted sequence bounded by `hi`, the counted elements are the last ones. */
  lemma {:induction false} CountedAreLast(a: seq<nat>, lo: nat, hi: nat)
    requires Sorted(a) && (forall i :: 0 <= i < |a| ==> a[i] <= hi)
    ensures CountIn(a, lo, hi) <= |a|
    ensures forall i :: |a| - CountIn(a, lo, hi) <= i < |a| ==> lo <= a[i]
  {
    if |a| > 0 {
      if a[|a| - 1] < lo {
        NoneBelow(a, lo, hi);
      } else {
        CountedAreLast(a[..|a| - 1], lo, hi);
      }
    }
  }

  lemma {:induction false} SpreadBoundsCount(a: seq<nat>, lo: nat, hi: nat, n: nat)
    requires Sorted(a) && n > 0
    requires forall k :: 0 <= k && k + n < |a| && a[k] >= lo ==> a[k + n] - a[k] > hi - lo
    ensures CountIn(a, lo, hi) <= n
  {
    if |a| > 0 {
      var init := a[..|a| - 1];
      if a[|a| - 1] > hi {
        SpreadBoundsCount(init, lo, hi, n);
      } else {
        CountedAreLast(a, lo, hi);
        var k := |a| - 1 - n;
        if k >= 0 {
          assert a[k + n] <= hi;
          assert a[k] < lo;
        }
      }
    }
  }

  /** Sliding-window bound: in every run under a monotone clock, and for every one-second
      interval, a non-loopback client is allowed at most 200 requests in it. */
  lemma SlidingWindowBound(evs: seq<Event>, ip: Ip, t: nat)
    requires Monotone(evs) && !Loopback(ip)
    ensures CountIn(AllowedTimes(evs, ip), t, t + 1_000_000_000) <= 200
  {
    hide AllowedTimes, TableAfter, Windows, CountIn;
    var a := AllowedTimes(evs, ip);
    LogInvariantHolds(evs, ip);
    forall k | 0 <= k && k + 2 * LIMIT < |a| ensures a[k + 2 * LIMIT] - a[k] > t + SECOND - t {
      TwoHundredOneSpan(evs, ip, k);
    }
    SpreadBoundsCount(a, t, t + SECOND, 2 * LIMIT);
  }

  // ---------------------------------------------------------------- after the first second

  /** The client asks nothing during the first second of the clock. */
  predicate AsksLate(evs: seq<Event>, ip: Ip) {
    forall i :: 0 <= i < |evs| && evs[i].ip == ip ==> evs[i].time > SECOND
  }

  /** Request `i` is the first allowed one of a window that does not start at clock zero. */
  predicate StartsWindow(w: seq<nat>, i: nat)
    requires i < |w|
  {
    w[i] != 0 && (i == 0 || w[i - 1] < w[i])
  }

  /** The first allowed request of every window stands at its start, and the last window is the
      current one. Only the window at clock zero, which a missing entry counts as, is opened by no
      request, and its requests lie in the first second. */
  ghost predicate LogOpens(a: seq<nat>, w: seq<nat>, e: Entry) {
    && |a| == |w|
    && (forall i :: 0 <= i < |w| && w[i] == 0 ==> a[i] <= SECOND)
    && (forall i :: 0 <= i < |w| && StartsWindow(w, i) ==> a[i] == w[i])
    && (if |w| == 0 then e == Entry(0, 0) else e.count > 0 && w[|w| - 1] == e.last)
  }

  lemma OpensStep(a: seq<nat>, w: seq<nat>, e: Entry, now: nat)
    requires LogOpens(a, w, e)
    ensures Allowed(e, now) ==> LogOpens(a + [now], w + [Counted(e, now).last], Counted(e, now))
    ensures !Allowed(e, now) ==> LogOpens(a, w, Counted(e, now))
  {
  }

  lemma {:induction false} LogOpensHolds(evs: seq<Event>, ip: Ip)
    requires !Loopback(ip)
    ensures LogOpens(AllowedTimes(evs, ip), Windows(evs, ip), Lookup(TableAfter(evs), ip))
  {
    if |evs| > 0 {
      hide Allowed, Counted, LogOpens;
      var init, ev := evs[..|evs| - 1], evs[|evs| - 1];
      LogOpensHolds(init, ip);
      if ev.ip == ip {
        OpensStep(AllowedTimes(init, ip), Windows(init, ip), Lookup(TableAfter(init), ip), ev.time);
      }
    } else {
      assert LogOpens([], [], Entry(0, 0));
    }
  }

  /** When requests `k` to `k + 99` share a window, `k` is its first request. */
  lemma FullWindowOpens(a: seq<nat>, w: seq<nat>, e: Entry, k: nat)
    requires LogCounts(w, e) && LogOpens(a, w, e) && k + LIMIT - 1 < |a|
    requires w[k] == w[k + LIMIT - 1] && w[k] != 0
    ensures a[k] == w[k]
  {
    if k > 0 {
      assert w[k - 1] < w[k - 1 + LIMIT];
    }
    assert StartsWindow(w, k);
  }

  lemma TwoHundredApart(a: seq<nat>, w: seq<nat>, e: Entry, now: nat, k: nat)
    requires LogInvariant(a, w, e, now) && LogOpens(a, w, e) && k + 2 * LIMIT - 1 < |a| && a[k] > SECOND
    ensures a[k + 2 * LIMIT - 1] - a[k] > SECOND
  {
    var l, m, n := k + LIMIT - 1, k + LIMIT, k + 2 * LIMIT - 1;
    assert w[k] < w[m] && w[l] < w[n];
    assert w[k] <= w[l] && w[m] <= w[n];
    if w[k] == w[l] {
      FullWindowOpens(a, w, e, k);
    }
    hide LogOpens, LogCounts;
    if w[m] < w[n] {
      assert a[k] <= w[m] && w[m] + SECOND < w[n];
    } else if w[k] < w[l] {
      assert a[k] <= w[l] && w[l] + SECOND < w[n];
    } else {
      assert w[k] + SECOND < w[n];
    }
    assert w[n] <= a[n];
  }

  lemma {:induction false} AllowedLate(evs: seq<Event>, ip: Ip)
    requires AsksLate(evs, ip)
    ensures forall k :: 0 <= k < |AllowedTimes(evs, ip)| ==> AllowedTimes(evs, ip)[k] > SECOND
  {
    hide TableAllows, TableAfter;
    if |evs| > 0 {
      AllowedLate(evs[..|evs| - 1], ip);
    }
  }

  /** Sliding-window bound after the first second of the clock: every client is allowed at most 199
      requests in any one-second interval that starts later, because its windows start with a request;
      and a client that asks nothing during the first second, in any interval at all. */
  lemma LateWindowBound(evs: seq<Event>, ip: Ip, t: nat)
    requires Monotone(evs) && !Loopback(ip) && (t > 1_000_000_000 || AsksLate(evs, ip))
    ensures CountIn(AllowedTimes(evs, ip), t, t + 1_000_000_000) <= 199
  {
    hide AllowedTimes, TableAfter, Windows, CountIn, LogOpens, AsksLate;
    var a := AllowedTimes(evs, ip);
    LogInvariantHolds(evs, ip);
    LogOpensHolds(evs, ip);
    if AsksLate(evs, ip) {
      AllowedLate(evs, ip);
    }
    forall k | 0 <= k && k + (2 * LIMIT - 1) < |a| && a[k] >= t
      ensures a[k + (2 * LIMIT - 1)] - a[k] > t + SECOND - t
    {
      TwoHundredApart(a, Windows(evs, ip), Lookup(TableAfter(evs), ip), LastTime(evs), k);
    }
    SpreadBoundsCount(a, t, t + SECOND, 2 * LIMIT - 1);
  }

  // ---------------------------------------------------------------- clients are served again

  /** How often the client asked at time `since` or later, whether it was allowed or refused. */
  function AskedSince(evs: seq<Event>, ip: Ip, since: int): nat {
    if |evs| == 0 then 0
    else
      var ev := evs[|evs| - 1];
      AskedSince(evs[..|evs| - 1], ip, since) + (if ev.ip == ip && ev.time >= since then 1 else 0)
  }

  lemma {:induction false} AskedLess(evs: seq<Event>, ip: Ip, since: int, earlier: int)
    requires earlier <= since
    ensures AskedSince(evs, ip, since) <= AskedSince(evs, ip, earlier)
  {
    if |evs| > 0 {
      AskedLess(evs[..|evs| - 1], ip, since, earlier);
    }
  }

  /** An entry counts no more than the requests since its window began. */
  lemma {:induction false} CountIsAsked(evs: seq<Event>, ip: Ip)
    requires Monotone(evs) && !Loopback(ip)
    ensures var e := Lookup(TableAfter(evs), ip); e.last <= LastTime(evs) && e.count <= AskedSince(evs, ip, e.last)
  {
    if |evs| > 0 {
      var init, ev := evs[..|evs| - 1], evs[|evs| - 1];
      CountIsAsked(init, ip);
      assert LastTime(init) <= ev.time;
    }
  }

  /** Every client is served again: a request is allowed when the client made fewer than 100 requests,
      allowed or refused, in the second that ends with it. */
  lemma ServedAgain(evs: seq<Event>, ip: Ip, now: nat)
    requires Monotone(evs) && LastTime(evs) <= now
    requires AskedSince(evs, ip, now - 1_000_000_000) < 100
    ensures TableAllows(TableAfter(evs), Event(ip, now))
  {
    hide TableAfter, Lookup, AskedSince;
    if !Loopback(ip) {
      CountIsAsked(evs, ip);
      var e := Lookup(TableAfter(evs), ip);
      if now - e.last <= 1_000_000_000 {
        AskedLess(evs, ip, e.last, now - 1_000_000_000);
      }
    }
  }

  /** The same of the sixteen shards, for every hash; loopback is never refused. */
  lemma ServedByShards(hash: Ip -> nat, evs: seq<Event>, ip: Ip, now: nat)
    requires Monotone(evs) && LastTime(evs) <= now
    requires AskedSince(evs, ip, now - 1_000_000_000) < 100 || ip == "127.0.0.1" || ip == "::1"
    ensures ShardsAllow(hash, ShardsAfter(hash, evs), Event(ip, now))
  {
    hide TableAfter, ShardsAfter, AskedSince;
    ShardingInvisible(hash, evs, Event(ip, now));
    if ip != "127.0.0.1" && ip != "::1" {
      ServedAgain(evs, ip, now);
    }
  }

  // ---------------------------------------------------------------- the bounds are reached

  /** `n` requests of one client, all at the same time. */
  function Burst(ip: Ip, time: nat, n: nat): seq<Event> {
    seq(n, i => Event(ip, time))
  }

  lemma OneMore(evs: seq<Event>, ip: Ip, time: nat)
    requires !Loopback(ip)
    ensures var e, more := Lookup(TableAfter(evs), ip), evs + [Event(ip, time)];
            && Lookup(TableAfter(more), ip) == Counted(e, time)
            && AllowedTimes(more, ip) == AllowedTimes(evs, ip) + (if Allowed(e, time) then [time] else [])
  {
    hide Counted, Allowed;
    var more := evs + [Event(ip, time)];
    assert more[..|more| - 1] == evs;
  }

  /** The client's entry after `n` requests at the same time. */
  function AfterBurst(e: Entry, time: nat, n: nat): Entry {
    if n == 0 then e else Entry(Window(e, time).last, Window(e, time).count + n)
  }

  lemma BurstCounted(e: Entry, time: nat, n: nat)
    requires n > 0
    ensures AfterBurst(e, time, n) == Counted(AfterBurst(e, time, n - 1), time)
    ensures Window(e, time).count + n <= LIMIT ==> Allowed(AfterBurst(e, time, n - 1), time)
  {
  }

  lemma {:induction false} BurstAllowed(evs: seq<Event>, ip: Ip, time: nat, n: nat)
    requires !Loopback(ip) && Window(Lookup(TableAfter(evs), ip), time).count + n <= LIMIT
    ensures AllowedTimes(evs + Burst(ip, time, n), ip) == AllowedTimes(evs, ip) + seq(n, i => time)
    ensures Lookup(TableAfter(evs + Burst(ip, time, n)), ip) == AfterBurst(Lookup(TableAfter(evs), ip), time, n)
    decreases n
  {
    hide AllowedTimes, TableAfter, Lookup;
    if n == 0 {
      assert evs + Burst(ip, time, n) == evs;
      assert AllowedTimes(evs, ip) + seq(n, i => time) == AllowedTimes(evs, ip);
    } else {
      BurstAllowed(evs, ip, time, n - 1);
      BurstCounted(Lookup(TableAfter(evs), ip), time, n);
      hide AfterBurst, Window, Allowed, Counted;
      BurstSplit(evs, ip, time, n);
      OneMore(evs + Burst(ip, time, n - 1), ip, time);
      assert AllowedTimes(evs, ip) + seq(n - 1, i => time) + [time] == AllowedTimes(evs, ip) + seq(n, i => time);
    }
  }

  lemma BurstSplit(evs: seq<Event>, ip: Ip, time: nat, n: nat)
    requires n > 0
    ensures evs + Burst(ip, time, n) == (evs + Burst(ip, time, n - 1)) + [Event(ip, time)]
  {
  }

  lemma {:induction false} AllCounted(a: seq<nat>, lo: nat, hi: nat)
    requires forall i :: 0 <= i < |a| ==> lo <= a[i] <= hi
    ensures CountIn(a, lo, hi) == |a|
  {
    if |a| > 0 {
      AllCounted(a[..|a| - 1], lo, hi);
    }
  }

  lemma TwoBursts(ip: Ip)
    requires !Loopback(ip)
    ensures AllowedTimes(Burst(ip, SECOND, LIMIT) + Burst(ip, SECOND + 1, LIMIT), ip)
         == seq(LIMIT, i => SECOND) + seq(LIMIT, i => SECOND + 1)
  {
    var first := Burst(ip, SECOND, LIMIT);
    assert [] + first == first;
    assert Lookup(TableAfter([]), ip) == Entry(0, 0) && AllowedTimes([], ip) == [];
    hide TableAfter, Lookup, AllowedTimes;
    BurstAllowed([], ip, SECOND, LIMIT);
    assert [] + seq(LIMIT, i => SECOND) == seq(LIMIT, i => SECOND);
    BurstAllowed(first, ip, SECOND + 1, LIMIT);
  }

  /** In the first two seconds of the clock the bound of 200 is reached: 100 requests at the end of
      the window that starts at clock zero and 100 just after it are all allowed. */
  lemma BoundIsReached(ip: Ip)
    requires !Loopback(ip)
    ensures exists evs :: Monotone(evs) && CountIn(AllowedTimes(evs, ip), 1_000_000_000, 2_000_000_000) == 200
  {
    hide AllowedTimes, CountIn;
    var evs := Burst(ip, SECOND, LIMIT) + Burst(ip, SECOND + 1, LIMIT);
    assert Monotone(evs);
    TwoBursts(ip);
    AllCounted(AllowedTimes(evs, ip), SECOND, 2 * SECOND);
  }

  /** One request opens a window, the rest of it is used up at its end, and the next window at once. */
  function LateBursts(ip: Ip, t: nat): seq<Event> {
    Burst(ip, t, 1) + Burst(ip, t + SECOND, LIMIT - 1) + Burst(ip, t + SECOND + 1, LIMIT)
  }

  lemma FirstRequest(ip: Ip, t: nat)
    requires !Loopback(ip) && t > SECOND
    ensures AllowedTimes(Burst(ip, t, 1), ip) == [t] && Lookup(TableAfter(Burst(ip, t, 1)), ip) == Entry(t, 1)
  {
    assert Lookup(TableAfter([]), ip) == Entry(0, 0) && AllowedTimes([], ip) == [];
    hide TableAfter, Lookup, AllowedTimes;
    OneMore([], ip, t);
    assert [] + [Event(ip, t)] == Burst(ip, t, 1);
  }

  lemma Regroup(x: nat, a: seq<nat>, b: seq<nat>)
    ensures ([x] + a) + b == [x] + (a + b)
  {
  }

  lemma ThreeBursts(ip: Ip, t: nat)
    requires !Loopback(ip) && t > SECOND
    ensures AllowedTimes(LateBursts(ip, t), ip)
         == [t] + (seq(LIMIT - 1, i => t + SECOND) + seq(LIMIT, i => t + SECOND + 1))
  {
    hide TableAfter, Lookup, AllowedTimes, Burst;
    var first, second := Burst(ip, t, 1), Burst(ip, t + SECOND, LIMIT - 1);
    FirstRequest(ip, t);
    BurstAllowed(first, ip, t + SECOND, LIMIT - 1);
    BurstAllowed(first + second, ip, t + SECOND + 1, LIMIT);
    Regroup(t, seq(LIMIT - 1, i => t + SECOND), seq(LIMIT, i => t + SECOND + 1));
  }

  lemma {:induction false} CountSkipsFirst(x: nat, a: seq<nat>, lo: nat, hi: nat)
    requires x < lo
    ensures CountIn([x] + a, lo, hi) == CountIn(a, lo, hi)
  {
    if |a| > 0 {
      CountSkipsFirst(x, a[..|a| - 1], lo, hi);
      assert ([x] + a)[..|a|] == [x] + a[..|a| - 1];
    } else {
      assert ([x] + a)[..0] == [] && [x] + a == [x];
    }
  }

  /** At any later time the bound of 199 is reached. */
  lemma LateBoundIsReached(ip: Ip, t: nat)
    requires !Loopback(ip) && t > 1_000_000_000
    ensures exists evs :: Monotone(evs) && AsksLate(evs, ip)
                       && CountIn(AllowedTimes(evs, ip), t + 1_000_000_000, t + 2_000_000_000) == 199
  {
    hide AllowedTimes, CountIn;
    var evs := LateBursts(ip, t);
    assert Monotone(evs) && AsksLate(evs, ip);
    ThreeBursts(ip, t);
    var a := seq(LIMIT - 1, i => t + SECOND) + seq(LIMIT, i => t + SECOND + 1);
    CountSkipsFirst(t, a, t + SECOND, t + 2 * SECOND);
    AllCounted(a, t + SECOND, t + 2 * SECOND);
  }
}
