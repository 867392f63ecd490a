/** The caching resolver object. A query is split where the source asks its backend: `QueryCached`
    is everything before, `FinishQuery` everything after. */
module Resolver {
  import opened Bytes
  import opened Messages
  import opened Cache
  import opened FastPath
  import CacheRuns
  import Hits

  /** computeCacheTTL: one pass over the three sections. */
  method ComputeCacheTTL(m: Message, minTTL: u32) returns (ttl: u32)
    ensures ttl == CacheTTL(m, minTTL)
  {
    hide LeastTTL;
    var least := LeastOf(m.answers, MAX_TTL);
    least := LeastOf(m.authorities, least);
    least := LeastOf(m.additionals, least);
    var hasRecord := |m.answers| > 0 || |m.authorities| > 0 || |m.additionals| > 0;
    ttl := if hasRecord then least else minTTL;
    if ttl < minTTL {
      ttl := minTTL;
    }
    if ttl > MAX_TTL {
      ttl := MAX_TTL;
    }
  }

  method LeastOf(rs: seq<Record>, start: u32) returns (least: u32)
    ensures least == LeastTTL(rs, start)
  {
    least := start;
    for i := 0 to |rs|
      invariant least == LeastTTL(rs[..i], start)
    {
      assert rs[..i + 1][..i] == rs[..i];
      if rs[i].ttl < least {
        least := rs[i].ttl;
      }
    }
    assert rs[..|rs|] == rs;
  }

  /** clobberTTL: one pass per section. */
  method ClobberTTL(m: Message, ttl: u32) returns (r: Message)
    ensures r == WithTTL(m, ttl)
  {
    hide Clobbered;
    var answers := ClobberSection(m.answers, ttl);
    var authorities := ClobberSection(m.authorities, ttl);
    var additionals := ClobberSection(m.additionals, ttl);
    r := Message(m.header, m.questions, answers, authorities, additionals);
  }

  method ClobberSection(rs: seq<Record>, ttl: u32) returns (r: seq<Record>)
    ensures r == Clobbered(rs, ttl)
  {
    r := rs;
    for i := 0 to |rs|
      invariant |r| == |rs|
      invariant forall k :: 0 <= k < i ==> r[k] == rs[k].(ttl := ttl)
      invariant forall k :: i <= k < |rs| ==> r[k] == rs[k]
    {
      r := r[i := r[i].(ttl := ttl)];
    }
  }

  /** A step of the cache's transition system keeps its invariant. */
  lemma StepKeeps(hash: Hash, stale: nat, s: CacheRuns.System, a: CacheRuns.Timed)
    requires |s.st.l1| == TURBO_SIZE && (a.act.MissStep? ==> |a.act.req.questions| == 1)
    ensures CacheRuns.Enabled(stale, s, a) && CacheRuns.Inv(hash, stale, s) ==>
              CacheRuns.Inv(hash, stale, CacheRuns.Next(hash, stale, s, a))
  {
    hide CacheRuns.Enabled, CacheRuns.Inv, CacheRuns.Next;
    if CacheRuns.Enabled(stale, s, a) && CacheRuns.Inv(hash, stale, s) {
      CacheRuns.StepInv(hash, stale, s, a);
    }
  }

  lemma MissStores(hash: Hash, st: State, req: Message, r: Message, c: Config, now: int, v: Key)
    requires |st.l1| == TURBO_SIZE && |req.questions| == 1 && ShouldCache(req.questions[0], r)
    ensures var k, st' := KeyOf(req.questions[0]), AfterMiss(hash, st, req, Some(r), c, now, v);
            k in st'.l2 && st'.l2[k] == ReplyEntry(r, c, now)
  {
    hide ShouldCache, ReplyEntry;
  }

  lemma RefreshStores(st: State, k: Key, r: Message, c: Config, now: int)
    requires k in st.l2
    ensures Hits.Positive(QuestionOf(k), r) || Hits.Negative(QuestionOf(k), r) ==>
              var st' := AfterRefresh(st, k, Some(r), c, now); k in st'.l2 && Hits.SameAnswer(st'.l2[k].msg, r)
  {
    hide Hits.Positive, Hits.Negative, Hits.SameAnswer, AfterRefresh;
    if Hits.Positive(QuestionOf(k), r) || Hits.Negative(QuestionOf(k), r) {
      Hits.RefreshReplaces(st, k, r, c, now);
    }
  }

  /** What storing a reply does is the store step. */
  lemma StoredStep(
    hash: Hash, stale: nat, s: CacheRuns.System, req: Message, r: Message, c: Config, victim: Key, now: int,
    s': CacheRuns.System)
    requires |s.st.l1| == TURBO_SIZE && s.clock <= now && |req.questions| == 1 && ShouldCache(req.questions[0], r)
    requires |s.st.l2| >= MAX_CACHE_SIZE ==> IsVictim(s.st.l2, now, victim)
    requires var k, e := KeyOf(req.questions[0]), ReplyEntry(r, c, now);
             && s'.st == Put(hash, s.st, k, e, Stored(s.st.l2, k, e, victim))
             && s'.saved == s.saved + {CacheRuns.Saved(k, e.msg, e.ttl, now)} && s'.clock == now
    ensures var a := CacheRuns.Timed(CacheRuns.MissStep(req, Some(r), c, victim), now, false);
            CacheRuns.Steps(hash, stale, s, a, s')
    ensures CacheRuns.Inv(hash, stale, s) ==> CacheRuns.Inv(hash, stale, s')
  {
    hide ShouldCache, ReplyEntry, IsVictim, Put, Stored, CacheRuns.Inv;
    StepKeeps(hash, stale, s, CacheRuns.Timed(CacheRuns.MissStep(req, Some(r), c, victim), now, false));
  }

  /** `saved` and `clock` are the history that `CacheRuns` speaks about. */
  class CachingResolver {
    const hash: Hash
    const stale: nat
    const turbo: array<Slot>
    var l2: map<Key, Entry>
    var queue: seq<Key>
    ghost var saved: set<CacheRuns.Saved>
    ghost var clock: int

    ghost predicate Valid()
      reads this
    {
      turbo.Length == TURBO_SIZE
    }

    ghost function View(): State
      reads this, turbo
    {
      State(turbo[..], l2, queue)
    }

    ghost function History(): CacheRuns.System
      reads this, turbo
    {
      CacheRuns.System(View(), saved, clock)
    }

    /** Unless the clock ran backwards, the object took the step `a` of the transition system, and
        kept its invariant. */
    twostate predicate Took(a: CacheRuns.Timed)
      reads this, turbo
    {
      old(clock) <= a.now ==>
        && CacheRuns.Steps(hash, stale, old(History()), a, History())
        && (CacheRuns.Inv(hash, stale, old(History())) ==> CacheRuns.Inv(hash, stale, History()))
    }

    constructor (hash: Hash, stale: nat)
      ensures Valid() && fresh(turbo) && this.hash == hash && this.stale == stale
      ensures View() == EmptyCache() && History() == CacheRuns.START
    {
      this.hash, this.stale := hash, stale;
      turbo := new Slot[TURBO_SIZE](_ => Slot(0, None, 0));
      l2, queue, saved, clock := map[], [], {}, 0;
    }

    method LookupTurbo(h: nat, now: int) returns (r: Option<Message>)
      requires Valid()
      ensures r == TurboLookup(turbo[..], h, now)
    {
      var slot := turbo[h % TURBO_SIZE];
      if slot.keyHash != h {
        return None;
      }
      if slot.msg.None? {
        return None;
      }
      if now >= slot.expires {
        return None;
      }
      return slot.msg;
    }

    method InsertTurbo(h: nat, msg: Message, expires: int)
      requires Valid()
      modifies turbo
      ensures turbo[..] == TurboInsert(old(turbo[..]), h, msg, expires)
    {
      turbo[h % TURBO_SIZE] := Slot(h, Some(msg), expires);
    }

    method EnqueueRefresh(k: Key)
      modifies this`queue
      ensures queue == Enqueued(old(queue), k)
    {
      if |queue| < MAX_REFRESH_QUEUE {
        queue := queue + [k];
      }
    }

    /** query, up to the point where the backend is asked. */
    method QueryCached(req: Message, now: int) returns (reply: Option<Message>)
      requires Valid()
      modifies this`queue, this`clock, turbo
      ensures |req.questions| != 1 ==> reply == None && View() == old(View())
      ensures |req.questions| == 1 ==>
                var k := KeyOf(req.questions[0]);
                && reply == HitReply(req, Lookup(hash, old(View()), stale, k, now))
                && View() == AfterLookup(hash, old(View()), stale, k, now)
                && Took(CacheRuns.Timed(CacheRuns.LookupStep(k), now, false))
    {
      hide CachedReply, CacheRuns.Inv;
      if |req.questions| != 1 {
        return None;
      }
      var key := KeyOf(req.questions[0]);
      var h := hash(key);
      StepKeeps(hash, stale, History(), CacheRuns.Timed(CacheRuns.LookupStep(key), now, false));
      clock := now;
      var turboMsg := LookupTurbo(h, now);
      if turboMsg.Some? {
        return Some(CachedReply(req, turboMsg.value));
      }
      if key in l2 {
        var e := l2[key];
        if now < e.expires {
          InsertTurbo(h, e.msg, e.expires);
          return Some(CachedReply(req, e.msg));
        }
        var staleLimit := e.expires + stale * SECOND;
        if now < staleLimit {
          InsertTurbo(h, e.msg, now + STALE_SECS * SECOND);
          EnqueueRefresh(key);
          return Some(CachedReply(req, e.msg));
        }
      }
      return None;
    }

    /** peekCache: the same lookup, leaving the cache alone. */
    method PeekCache(req: Message, now: int) returns (reply: Option<Message>)
      requires Valid()
      ensures |req.questions| != 1 ==> reply == None
      ensures |req.questions| == 1 ==>
                reply == HitReply(req, Lookup(hash, View(), stale, KeyOf(req.questions[0]), now))
    {
      hide CachedReply;
      if |req.questions| != 1 {
        return None;
      }
      var key := KeyOf(req.questions[0]);
      var turboMsg := LookupTurbo(hash(key), now);
      if turboMsg.Some? {
        return Some(CachedReply(req, turboMsg.value));
      }
      if key in l2 {
        var e := l2[key];
        if now < e.expires {
          return Some(CachedReply(req, e.msg));
        }
        if now < e.expires + stale * SECOND {
          return Some(CachedReply(req, e.msg));
        }
      }
      return None;
    }

    /** peekCacheRaw: the lookup of query on a key read from the bytes. */
    method PeekCacheRaw(data: seq<byte>, now: int) returns (reply: Option<Message>)
      requires Valid()
      modifies this`queue, this`clock, turbo
      ensures RawKey(data).None? ==> reply == None && View() == old(View())
      ensures RawKey(data).Some? ==>
                var k := RawKey(data).value;
                && |data| >= HEADER_SIZE
                && reply == RawHitReply(ReadU16(data, 0), Lookup(hash, old(View()), stale, k, now))
                && View() == AfterLookup(hash, old(View()), stale, k, now)
                && Took(CacheRuns.Timed(CacheRuns.LookupStep(k), now, false))
    {
      hide RawReply, RawStaleReply, CacheRuns.Inv;
      var raw := ReadRawKey(data);
      if raw.None? {
        return None;
      }
      hide RawLabels;
      var key := raw.value;
      var h := hash(key);
      var id := ReadU16(data, 0);
      StepKeeps(hash, stale, History(), CacheRuns.Timed(CacheRuns.LookupStep(key), now, false));
      clock := now;
      var turboMsg := LookupTurbo(h, now);
      if turboMsg.Some? {
        return Some(RawReply(id, turboMsg.value));
      }
      if key in l2 {
        var e := l2[key];
        if now < e.expires {
          InsertTurbo(h, e.msg, e.expires);
          return Some(RawReply(id, e.msg));
        }
        if now < e.expires + stale * SECOND {
          InsertTurbo(h, e.msg, now + STALE_SECS * SECOND);
          EnqueueRefresh(key);
          return Some(RawStaleReply(id, e.msg));
        }
      }
      return None;
    }

    /** The eviction scan, in any order: the least positive remaining time, or the first entry. */
    method ChooseVictim(now: int) returns (victim: Key)
      requires l2 != map[]
      ensures IsVictim(l2, now, victim)
    {
      hide RemainingMs;
      assert l2.Keys != {} by {
        var k :| k in l2;
        assert k in l2.Keys;
      }
      var todo := l2.Keys;
      victim :| victim in todo;
      var best := 0;
      var found := false;
      while todo != {}
        invariant todo <= l2.Keys && victim in l2
        invariant found ==> best == RemainingMs(l2[victim], now) > 0
        invariant found ==> forall k :: k in l2.Keys - todo && RemainingMs(l2[k], now) > 0 ==>
                              best <= RemainingMs(l2[k], now)
        invariant !found ==> forall k :: k in l2.Keys - todo ==> RemainingMs(l2[k], now) <= 0
        decreases todo
      {
        var k :| k in todo;
        todo := todo - {k};
        var rem := RemainingMs(l2[k], now);
        if rem > 0 && (!found || rem < best) {
          best := rem;
          victim := k;
          found := true;
        }
      }
    }

    /** Store an entry in both levels. */
    method PutBoth(key: Key, e: Entry, now: int)
      requires Valid()
      modifies this`l2, this`saved, this`clock, turbo
      ensures View() == Put(hash, old(View()), key, e, old(l2)[key := e])
      ensures saved == old(saved) + {CacheRuns.Saved(key, e.msg, e.ttl, now)} && clock == now
    {
      hide TurboInsert;
      l2 := l2[key := e];
      clock, saved := now, saved + {CacheRuns.Saved(key, e.msg, e.ttl, now)};
      InsertTurbo(hash(key), e.msg, e.expires);
    }

    /** The backend failed: a SERVFAIL is kept for a while, unless the cache is full. */
    method StoreFailure(req: Message, c: Config, now: int, ghost v: Key) returns (errorReply: Message)
      requires Valid() && |req.questions| == 1
      modifies this`l2, this`saved, this`clock, turbo
      ensures errorReply == FailureEntry(req, c, now).msg
      ensures View() == AfterMiss(hash, old(View()), req, None, c, now, v)
      ensures Took(CacheRuns.Timed(CacheRuns.MissStep(req, None, c, v), now, false))
    {
      hide CreateError, WithTTL, CacheRuns.Inv, Put;
      StepKeeps(hash, stale, History(), CacheRuns.Timed(CacheRuns.MissStep(req, None, c, v), now, false));
      var key := KeyOf(req.questions[0]);
      var ttl := FailureTTL(c);
      errorReply := ClobberTTL(CreateError(req, 2), ttl);
      if |l2| < MAX_CACHE_SIZE {
        PutBoth(key, Entry(errorReply, ttl, now + ttl * SECOND), now);
      } else {
        clock := now;
      }
    }

    /** Make room if L2 is full. */
    method EvictIfFull(now: int) returns (ghost victim: Key)
      requires Valid()
      modifies this`l2
      ensures |old(l2)| >= MAX_CACHE_SIZE ==> IsVictim(old(l2), now, victim) && l2 == old(l2) - {victim}
      ensures |old(l2)| < MAX_CACHE_SIZE ==> l2 == old(l2)
    {
      hide IsVictim;
      victim := Key([], 0, 0);
      if |l2| >= MAX_CACHE_SIZE {
        var v := ChooseVictim(now);
        victim := v;
        l2 := l2 - {v};
      }
    }

    /** Store an entry in both levels, after making room. */
    method StoreEntry(key: Key, e: Entry, now: int) returns (ghost victim: Key)
      requires Valid()
      modifies this`l2, this`saved, this`clock, turbo
      ensures |old(l2)| >= MAX_CACHE_SIZE ==> IsVictim(old(l2), now, victim)
      ensures View() == Put(hash, old(View()), key, e, Stored(old(l2), key, e, victim))
      ensures saved == old(saved) + {CacheRuns.Saved(key, e.msg, e.ttl, now)} && clock == now
    {
      hide IsVictim, TurboInsert;
      victim := EvictIfFull(now);
      PutBoth(key, e, now);
    }

    /** The backend's reply is to be cached. */
    method StoreReply(req: Message, r: Message, c: Config, now: int) returns (stored: Message, ghost victim: Key)
      requires Valid() && |req.questions| == 1 && ShouldCache(req.questions[0], r)
      modifies this`l2, this`saved, this`clock, turbo
      ensures stored == ReplyEntry(r, c, now).msg
      ensures |old(l2)| >= MAX_CACHE_SIZE ==> IsVictim(old(l2), now, victim)
      ensures View() == AfterMiss(hash, old(View()), req, Some(r), c, now, victim)
      ensures Took(CacheRuns.Timed(CacheRuns.MissStep(req, Some(r), c, victim), now, false))
    {
      hide ShouldCache, StoreTTL, WithTTL, IsVictim, Put, Stored, CacheRuns.Inv, CacheRuns.Steps;
      ghost var before := History();
      var ttl := NegativeOrCacheTTL(r, c);
      stored := ClobberTTL(r, ttl);
      var e := Entry(stored, ttl, now + ttl * SECOND);
      assert e == ReplyEntry(r, c, now);
      hide ReplyEntry;
      victim := StoreEntry(KeyOf(req.questions[0]), e, now);
      if before.clock <= now {
        StoredStep(hash, stale, before, req, r, c, victim, now, History());
      }
    }

    /** query, once the backend has answered or failed. */
    method FinishQuery(req: Message, backend: Option<Message>, c: Config, now: int)
      returns (reply: Option<Message>, ghost victim: Key)
      requires Valid()
      modifies this`l2, this`saved, this`clock, turbo
      ensures |req.questions| != 1 ==> reply == backend && View() == old(View())
      ensures |req.questions| == 1 && |old(l2)| >= MAX_CACHE_SIZE && backend.Some? ==>
                ShouldCache(req.questions[0], backend.value) ==> IsVictim(old(l2), now, victim)
      ensures |req.questions| == 1 ==> View() == AfterMiss(hash, old(View()), req, backend, c, now, victim)
      ensures |req.questions| == 1 ==> Took(CacheRuns.Timed(CacheRuns.MissStep(req, backend, c, victim), now, false))
      ensures |req.questions| == 1 && backend.Some? ==>
                var k, r := KeyOf(req.questions[0]), backend.value;
                if Hits.Positive(req.questions[0], r) || Hits.Negative(req.questions[0], r)
                then k in l2 && Hits.SameAnswer(l2[k].msg, r) && reply == Some(l2[k].msg)
                else View() == old(View()) && reply == Some(r)
      ensures |req.questions| == 1 && backend.None? ==> reply == Some(FailureEntry(req, c, now).msg)
      ensures |req.questions| == 1 && backend.Some? ==>
                reply == Some(if ShouldCache(req.questions[0], backend.value)
                              then ReplyEntry(backend.value, c, now).msg else backend.value)
    {
      victim := Key([], 0, 0);
      if |req.questions| != 1 {
        return backend, victim;
      }
      hide ShouldCache, ReplyEntry, FailureEntry, IsVictim, CacheRuns.Inv;
      if backend.None? {
        hide AfterMiss, CacheRuns.Steps;
        var errorReply := StoreFailure(req, c, now, victim);
        return Some(errorReply), victim;
      }
      var r := backend.value;
      Hits.WhichAreKept(req.questions[0], r);
      hide Hits.Positive, Hits.Negative, Hits.SameAnswer;
      if ShouldCache(req.questions[0], r) {
        hide AfterMiss, CacheRuns.Steps;
        Hits.ReplyEntrySame(r, c, now);
        ghost var before := View();
        var stored;
        stored, victim := StoreReply(req, r, c, now);
        MissStores(hash, before, req, r, c, now, victim);
        return Some(stored), victim;
      }
      StepKeeps(hash, stale, History(), CacheRuns.Timed(CacheRuns.MissStep(req, backend, c, victim), now, false));
      clock := now;
      return Some(r), victim;
    }

    method NegativeOrCacheTTL(r: Message, c: Config) returns (ttl: u32)
      ensures ttl == StoreTTL(r, c)
    {
      hide CacheTTL;
      ttl := ComputeCacheTTL(r, c.minTTL);
      if IsNegative(r) {
        ttl := c.negTTL;
      }
    }

    /** Replace the entry of `k`, if it is still there, by a reply that is to be cached. */
    method ReplaceEntry(k: Key, backend: Option<Message>, c: Config, now: int)
      requires Valid()
      modifies this`l2, this`saved, this`clock
      ensures View() == AfterRefresh(old(View()), k, backend, c, now)
      ensures Took(CacheRuns.Timed(CacheRuns.RefreshStep(k, backend, c), now, false))
    {
      hide ShouldCache, StoreTTL, WithTTL, CacheRuns.Inv;
      StepKeeps(hash, stale, History(), CacheRuns.Timed(CacheRuns.RefreshStep(k, backend, c), now, false));
      clock := now;
      if backend.None? {
        return;
      }
      var r := backend.value;
      if ShouldCache(QuestionOf(k), r) {
        var ttl := NegativeOrCacheTTL(r, c);
        var stored := ClobberTTL(r, ttl);
        if k in l2 {
          l2 := l2[k := Entry(stored, ttl, now + ttl * SECOND)];
          saved := saved + {CacheRuns.Saved(k, stored, ttl, now)};
        }
      }
    }

    /** refreshEntry, once the backend has answered or failed. */
    method RefreshEntry(k: Key, backend: Option<Message>, c: Config, now: int)
      requires Valid()
      modifies this`l2, this`saved, this`clock
      ensures View() == AfterRefresh(old(View()), k, backend, c, now)
      ensures Took(CacheRuns.Timed(CacheRuns.RefreshStep(k, backend, c), now, false))
      ensures k in old(l2) && backend.Some? &&
              (Hits.Positive(QuestionOf(k), backend.value) || Hits.Negative(QuestionOf(k), backend.value)) ==>
                k in l2 && Hits.SameAnswer(l2[k].msg, backend.value)
    {
      hide Hits.Positive, Hits.Negative, Hits.SameAnswer, AfterRefresh, CacheRuns.Steps, CacheRuns.Inv;
      if k in l2 && backend.Some? {
        RefreshStores(View(), k, backend.value, c, now);
      }
      ReplaceEntry(k, backend, c, now);
    }

    /** The erasing loop, in any order. */
    method EraseExpired(now: int)
      modifies this`l2
      ensures l2 == Live(old(l2), now)
    {
      ghost var before := l2;
      var todo := l2.Keys;
      while todo != {}
        invariant todo <= before.Keys
        invariant forall k :: k in l2 ==> k in before && l2[k] == before[k]
        invariant forall k :: k in todo ==> k in l2
        invariant forall k :: k in before.Keys - todo ==> (k in l2 <==> now < before[k].expires)
        decreases todo
      {
        var k :| k in todo;
        todo := todo - {k};
        if now >= l2[k].expires {
          l2 := l2 - {k};
        }
      }
      assert l2 == Live(before, now);
    }

    method GcCache(now: int)
      requires Valid()
      modifies this`l2, this`clock
      ensures View() == old(View()).(l2 := Live(old(l2), now))
      ensures Took(CacheRuns.Timed(CacheRuns.GcStep, now, false))
    {
      hide CacheRuns.Inv, Live;
      StepKeeps(hash, stale, History(), CacheRuns.Timed(CacheRuns.GcStep, now, false));
      clock := now;
      EraseExpired(now);
    }

    /** The refresh worker takes the front key. */
    method TakeRefresh() returns (k: Key)
      requires Valid() && queue != []
      modifies this`queue
      ensures k == old(queue)[0] && View() == old(View()).(queue := old(queue)[1..])
      ensures Took(CacheRuns.Timed(CacheRuns.PopRefresh, old(clock), false))
    {
      hide CacheRuns.Inv;
      StepKeeps(hash, stale, History(), CacheRuns.Timed(CacheRuns.PopRefresh, clock, false));
      k := queue[0];
      queue := queue[1..];
    }

    method FlushCache()
      requires Valid()
      modifies this`l2
      ensures View() == old(View()).(l2 := map[])
      ensures Took(CacheRuns.Timed(CacheRuns.FlushStep, old(clock), false))
    {
      hide CacheRuns.Inv;
      StepKeeps(hash, stale, History(), CacheRuns.Timed(CacheRuns.FlushStep, clock, false));
      l2 := map[];
    }
  }
}
