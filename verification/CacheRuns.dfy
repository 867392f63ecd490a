/** Every run of the cache: lookups, stores, refreshes, garbage collections and flushes interleave in
    any order under a monotone clock, with one clock reading per step. A query that misses is two
    steps, because the backend is asked in between without any lock; and the L1 write of a step may
    come late, as a step of its own, because L1 is written outside the L2 lock. */
module CacheRuns {
  import opened Bytes
  import opened Messages
  import opened Cache

  /** Something once stored in L2: under which key, with which TTL, and when. */
  datatype Saved = Saved(key: Key, msg: Message, ttl: u32, at: int)

  function Expiry(x: Saved): int {
    x.at + x.ttl * SECOND
  }

  datatype Action =
    | LookupStep(k: Key)
    | MissStep(req: Message, reply: Option<Message>, c: Config, victim: Key)
    | RefreshStep(k: Key, reply: Option<Message>, c: Config)
    | PopRefresh
    | GcStep
    | FlushStep
    | LateInsert(x: Saved, seen: int)

  /** When `late`, the L1 write of the step is left to a later `LateInsert`. */
  datatype Timed = Timed(act: Action, now: int, late: bool)

  /** The cache, everything ever stored in L2, and the last clock reading. */
  datatype System = System(st: State, saved: set<Saved>, clock: int)

  const START: System := System(EmptyCache(), {}, 0)

  /** The expiry given to an L1 copy made by a thread that saw `x` in L2 at time `seen`. */
  function CopyExpiry(x: Saved, seen: int): int {
    if seen < Expiry(x) then Expiry(x) else seen + STALE_SECS * SECOND
  }

  /** A reply to be stored finds L2 full. */
  predicate Evicts(l2: map<Key, Entry>, q: Question, reply: Option<Message>) {
    |l2| >= MAX_CACHE_SIZE && reply.Some? && ShouldCache(q, reply.value)
  }

  ghost predicate Enabled(stale: nat, s: System, a: Timed) {
    && s.clock <= a.now && |s.st.l1| == TURBO_SIZE
    && match a.act
       case MissStep(req, reply, _, victim) =>
         |req.questions| == 1 && (Evicts(s.st.l2, req.questions[0], reply) ==> IsVictim(s.st.l2, a.now, victim))
       case PopRefresh => s.st.queue != []
       case LateInsert(x, seen) => x in s.saved && seen <= a.now && seen < Expiry(x) + stale * SECOND
       case _ => true
  }

  /** The entry a step stores in L2, if any, and its key. */
  function Stores(s: System, a: Timed): Option<(Key, Entry)> {
    match a.act
    case MissStep(req, reply, c, _) =>
      if |req.questions| != 1 then None
      else if reply.None? then
        if |s.st.l2| >= MAX_CACHE_SIZE then None
        else Some((KeyOf(req.questions[0]), FailureEntry(req, c, a.now)))
      else if ShouldCache(req.questions[0], reply.value)
      then Some((KeyOf(req.questions[0]), ReplyEntry(reply.value, c, a.now)))
      else None
    case RefreshStep(k, reply, c) =>
      if reply.Some? && ShouldCache(QuestionOf(k), reply.value) && k in s.st.l2
      then Some((k, ReplyEntry(reply.value, c, a.now)))
      else None
    case _ => None
  }

  function Effect(hash: Hash, stale: nat, s: System, a: Timed): State
    requires |s.st.l1| == TURBO_SIZE && (a.act.MissStep? ==> |a.act.req.questions| == 1)
  {
    match a.act
    case LookupStep(k) => AfterLookup(hash, s.st, stale, k, a.now)
    case MissStep(req, reply, c, victim) => AfterMiss(hash, s.st, req, reply, c, a.now, victim)
    case RefreshStep(k, reply, c) => AfterRefresh(s.st, k, reply, c, a.now)
    case PopRefresh => if s.st.queue == [] then s.st else s.st.(queue := s.st.queue[1..])
    case GcStep => s.st.(l2 := Live(s.st.l2, a.now))
    case FlushStep => s.st.(l2 := map[])
    case LateInsert(x, seen) => s.st.(l1 := TurboInsert(s.st.l1, hash(x.key), x.msg, CopyExpiry(x, seen)))
  }

  /** The step with its L1 write made at once. */
  function Prompt(hash: Hash, stale: nat, s: System, a: Timed): System
    requires |s.st.l1| == TURBO_SIZE && (a.act.MissStep? ==> |a.act.req.questions| == 1)
  {
    var saved := match Stores(s, a)
                 case None => s.saved
                 case Some((k, e)) => s.saved + {Saved(k, e.msg, e.ttl, a.now)};
    System(Effect(hash, stale, s, a), saved, a.now)
  }

  function Next(hash: Hash, stale: nat, s: System, a: Timed): System
    requires |s.st.l1| == TURBO_SIZE && (a.act.MissStep? ==> |a.act.req.questions| == 1)
  {
    var p := Prompt(hash, stale, s, a);
    if a.late then p.(st := p.st.(l1 := s.st.l1)) else p
  }

  // ---------------------------------------------------------------- the invariant

  ghost predicate L2Recorded(l2: map<Key, Entry>, saved: set<Saved>) {
    forall k :: k in l2 ==> Saved(k, l2[k].msg, l2[k].ttl, l2[k].expires - l2[k].ttl * SECOND) in saved
  }

  /** The slot holds what was saved as `x`, for at most the stale threshold and a minute past its expiry. */
  ghost predicate SlotFrom(hash: Hash, stale: nat, slot: Slot, x: Saved) {
    && slot.msg == Some(x.msg)
    && slot.keyHash == hash(x.key)
    && slot.expires <= Expiry(x) + (stale + STALE_SECS) * SECOND
  }

  ghost predicate SlotRecorded(hash: Hash, stale: nat, slot: Slot, saved: set<Saved>) {
    slot.msg.Some? ==> exists x :: x in saved && SlotFrom(hash, stale, slot, x)
  }

  ghost predicate L1Recorded(hash: Hash, stale: nat, l1: seq<Slot>, saved: set<Saved>) {
    forall i :: 0 <= i < |l1| ==> SlotRecorded(hash, stale, l1[i], saved)
  }

  ghost predicate UniformTTL(rs: seq<Record>, ttl: u32) {
    forall i :: 0 <= i < |rs| ==> rs[i].ttl == ttl
  }

  /** A response that reports an error, or no error and some answer or authority. */
  predicate Conclusive(m: Message) {
    && Qr(m.header.flags)
    && (IsNegative(m) || (Rcode(m.header.flags) == RCODE_NOERROR && |m.answers| + |m.authorities| > 0))
  }

  /** A conclusive response with one question, matching the key in name and type; every record
      carries the entry's TTL. */
  ghost predicate WellStored(x: Saved) {
    && Conclusive(x.msg)
    && |x.msg.questions| == 1
    && x.msg.questions[0].qname == x.key.name && x.msg.questions[0].qtype == x.key.qtype
    && UniformTTL(x.msg.answers, x.ttl) && UniformTTL(x.msg.authorities, x.ttl) && UniformTTL(x.msg.additionals, x.ttl)
  }

  ghost predicate AllWellStored(saved: set<Saved>, clock: int) {
    forall x :: x in saved ==> WellStored(x) && x.at <= clock
  }

  ghost predicate Inv(hash: Hash, stale: nat, s: System) {
    && |s.st.l1| == TURBO_SIZE
    && L2Recorded(s.st.l2, s.saved)
    && L1Recorded(hash, stale, s.st.l1, s.saved)
    && AllWellStored(s.saved, s.clock)
    && |s.st.l2| <= MAX_CACHE_SIZE
    && |s.st.queue| <= MAX_REFRESH_QUEUE
  }

  // ---------------------------------------------------------------- parts of a step

  lemma RecordedGrow(hash: Hash, stale: nat, l1: seq<Slot>, l2: map<Key, Entry>, saved: set<Saved>, x: Saved)
    requires L1Recorded(hash, stale, l1, saved) && L2Recorded(l2, saved)
    ensures L1Recorded(hash, stale, l1, saved + {x}) && L2Recorded(l2, saved + {x})
  {
    forall i | 0 <= i < |l1| ensures SlotRecorded(hash, stale, l1[i], saved + {x}) {
      if l1[i].msg.Some? {
        assert SlotRecorded(hash, stale, l1[i], saved);
        var y :| y in saved && SlotFrom(hash, stale, l1[i], y);
        assert y in saved + {x};
      }
    }
  }

  lemma L1Insert(hash: Hash, stale: nat, l1: seq<Slot>, saved: set<Saved>, k: Key, expires: int, x: Saved)
    requires |l1| == TURBO_SIZE && L1Recorded(hash, stale, l1, saved)
    requires x in saved && x.key == k && expires <= Expiry(x) + (stale + STALE_SECS) * SECOND
    ensures L1Recorded(hash, stale, TurboInsert(l1, hash(k), x.msg, expires), saved)
  {
    var slot := Slot(hash(k), Some(x.msg), expires);
    assert SlotFrom(hash, stale, slot, x);
    assert SlotRecorded(hash, stale, slot, saved);
  }

  lemma L2Insert(l2: map<Key, Entry>, saved: set<Saved>, k: Key, e: Entry, v: Key, now: int)
    requires L2Recorded(l2, saved) && Saved(k, e.msg, e.ttl, now) in saved && e.expires == now + e.ttl * SECOND
    ensures L2Recorded(l2[k := e], saved) && L2Recorded((l2 - {v})[k := e], saved)
  {
  }

  /** What an L2 entry was saved as. */
  function SavedAs(k: Key, e: Entry): Saved {
    Saved(k, e.msg, e.ttl, e.expires - e.ttl * SECOND)
  }

  lemma LookupKeeps(hash: Hash, stale: nat, s: System, k: Key, now: int)
    requires Inv(hash, stale, s)
    ensures var st := AfterLookup(hash, s.st, stale, k, now);
            && L1Recorded(hash, stale, st.l1, s.saved) && st.l2 == s.st.l2
            && |st.l1| == TURBO_SIZE && |st.queue| <= MAX_REFRESH_QUEUE
  {
    hide L1Recorded, AllWellStored, TurboInsert;
    match Lookup(hash, s.st, stale, k, now)
    case Fresh(e) =>
      L1Insert(hash, stale, s.st.l1, s.saved, k, e.expires, SavedAs(k, e));
    case Stale(e) =>
      L1Insert(hash, stale, s.st.l1, s.saved, k, now + STALE_SECS * SECOND, SavedAs(k, e));
    case _ =>
  }

  lemma UniformClobbered(rs: seq<Record>, ttl: u32)
    ensures UniformTTL(Clobbered(rs, ttl), ttl)
  {
  }

  lemma FailureConclusive(req: Message, c: Config, now: int)
    ensures Conclusive(FailureEntry(req, c, now).msg)
  {
    hide SetRa, SetQr, SetRcode, Qr, Opcode, Tc, Ra, Rcode, FailureTTL;
    ReplyFlags(req, 2);
  }

  lemma ReplyConclusive(q: Question, reply: Message, c: Config, now: int)
    requires ShouldCache(q, reply)
    ensures Conclusive(ReplyEntry(reply, c, now).msg)
  {
    hide Qr, Opcode, Tc, Rcode, StoreTTL;
  }

  /** Whatever a step stores is well stored. */
  lemma StoresWell(s: System, a: Timed)
    requires Stores(s, a).Some?
    ensures var (k, e) := Stores(s, a).value;
            e.expires == a.now + e.ttl * SECOND && WellStored(Saved(k, e.msg, e.ttl, a.now))
  {
    hide Clobbered, UniformTTL, StoreTTL, FailureTTL, SetRa, SetQr, SetRcode;
    hide IsNegative, Conclusive, Rcode, Qr, Opcode, Tc;
    var (k, e) := Stores(s, a).value;
    if a.act.MissStep? && a.act.reply.None? {
      FailureConclusive(a.act.req, a.act.c, a.now);
      var err := CreateError(a.act.req, 2);
      UniformClobbered(err.answers, e.ttl);
      UniformClobbered(err.authorities, e.ttl);
      UniformClobbered(err.additionals, e.ttl);
    } else {
      var r := a.act.reply.value;
      ReplyConclusive(if a.act.MissStep? then a.act.req.questions[0] else QuestionOf(a.act.k), r, a.act.c, a.now);
      UniformClobbered(r.answers, e.ttl);
      UniformClobbered(r.authorities, e.ttl);
      UniformClobbered(r.additionals, e.ttl);
    }
  }

  /** The TTL of what a step stores, when its configuration is in the tuner's range. */
  lemma StoresInRange(s: System, a: Timed)
    requires Stores(s, a).Some?
    requires a.act.MissStep? || a.act.RefreshStep? ==>
               241 <= a.act.c.minTTL <= MAX_TTL && 300 <= a.act.c.negTTL <= 3600
    ensures 30 <= Stores(s, a).value.1.ttl <= MAX_TTL
  {
    hide WithTTL, CacheTTL, IsNegative, ShouldCache, CreateError;
    if a.act.reply.Some? {
      CacheTTLMeaning(a.act.reply.value, a.act.c.minTTL);
    }
  }

  lemma {:induction false} MapRemoveSize(l2: map<Key, Entry>, v: Key)
    requires v in l2
    ensures |l2 - {v}| == |l2| - 1
  {
    var r := l2 - {v};
    assert r.Keys == l2.Keys - {v};
    assert |r| == |r.Keys| && |l2| == |l2.Keys|;
  }

  lemma MapInsertSize(l2: map<Key, Entry>, k: Key, e: Entry)
    ensures |l2[k := e]| == if k in l2 then |l2| else |l2| + 1
  {
    var r := l2[k := e];
    assert r.Keys == l2.Keys + {k};
    assert |r| == |r.Keys| && |l2| == |l2.Keys|;
  }

  lemma LiveSize(l2: map<Key, Entry>, now: int)
    ensures |Live(l2, now)| <= |l2|
  {
    var r := Live(l2, now);
    assert r.Keys <= l2.Keys;
    SubsetSize(r.Keys, l2.Keys);
  }

  lemma {:induction false} SubsetSize(a: set<Key>, b: set<Key>)
    requires a <= b
    ensures |a| <= |b|
  {
    assert b == a + (b - a);
  }

  /** Eviction: storing into a full cache removes the victim and nothing else, the new entry is in,
      and the size does not grow. */
  lemma StoredEvictsOne(l2: map<Key, Entry>, k: Key, e: Entry, v: Key, now: int)
    requires |l2| >= MAX_CACHE_SIZE && IsVictim(l2, now, v)
    ensures var r := Stored(l2, k, e, v);
            && r.Keys == (l2.Keys - {v}) + {k} && r[k] == e
            && (forall j :: j in r && j != k ==> r[j] == l2[j])
            && |r| == if k in l2 && k != v then |l2| - 1 else |l2|
  {
    MapRemoveSize(l2, v);
    MapInsertSize(l2 - {v}, k, e);
  }

  lemma StoredSize(l2: map<Key, Entry>, k: Key, e: Entry, v: Key, now: int)
    requires |l2| <= MAX_CACHE_SIZE && (|l2| >= MAX_CACHE_SIZE ==> IsVictim(l2, now, v))
    ensures |Stored(l2, k, e, v)| <= MAX_CACHE_SIZE
    ensures |l2| < MAX_CACHE_SIZE ==> |l2[k := e]| <= MAX_CACHE_SIZE
  {
    hide IsVictim;
    MapInsertSize(l2, k, e);
    if |l2| >= MAX_CACHE_SIZE {
      StoredEvictsOne(l2, k, e, v, now);
    }
  }

  // ---------------------------------------------------------------- each step keeps the invariant

  lemma GrowWell(saved: set<Saved>, clock: int, x: Saved, now: int)
    requires AllWellStored(saved, clock) && clock <= now && WellStored(x) && x.at == now
    ensures AllWellStored(saved + {x}, now) && AllWellStored(saved, now)
  {
    hide WellStored;
  }

  lemma LaterWell(saved: set<Saved>, clock: int, now: int)
    requires AllWellStored(saved, clock) && clock <= now
    ensures AllWellStored(saved, now)
  {
    hide WellStored;
  }

  /** A step that stores `e` under `k` into both levels. */
  lemma PutKeeps(hash: Hash, stale: nat, s: System, k: Key, e: Entry, l2: map<Key, Entry>, v: Key, now: int)
    requires Inv(hash, stale, s) && s.clock <= now
    requires e.expires == now + e.ttl * SECOND && WellStored(Saved(k, e.msg, e.ttl, now))
    requires (l2 == s.st.l2[k := e] || l2 == (s.st.l2 - {v})[k := e]) && |l2| <= MAX_CACHE_SIZE
    ensures Inv(hash, stale, System(Put(hash, s.st, k, e, l2), s.saved + {Saved(k, e.msg, e.ttl, now)}, now))
  {
    var x := Saved(k, e.msg, e.ttl, now);
    var saved := s.saved + {x};
    RecordedGrow(hash, stale, s.st.l1, s.st.l2, s.saved, x);
    GrowWell(s.saved, s.clock, x, now);
    L1Insert(hash, stale, s.st.l1, saved, k, e.expires, x);
    L2Insert(s.st.l2, saved, k, e, v, now);
    hide L1Recorded, L2Recorded, AllWellStored, TurboInsert, WellStored;
  }

  lemma MissKeeps(hash: Hash, stale: nat, s: System, a: Timed)
    requires Inv(hash, stale, s) && Enabled(stale, s, a) && a.act.MissStep?
    ensures Inv(hash, stale, Prompt(hash, stale, s, a))
  {
    var v := a.act.victim;
    if Stores(s, a).None? {
      LaterWell(s.saved, s.clock, a.now);
      hide L1Recorded, L2Recorded, AllWellStored, FailureEntry, ReplyEntry, ShouldCache, IsVictim;
    } else {
      StoresWell(s, a);
      var (k, e) := Stores(s, a).value;
      InvSize(hash, stale, s);
      if a.act.reply.None? {
        MapInsertSize(s.st.l2, k, e);
      } else {
        StoredSize(s.st.l2, k, e, v, a.now);
      }
      hide L1Recorded, L2Recorded, AllWellStored, FailureEntry, ReplyEntry, ShouldCache, IsVictim, WellStored, Inv, Put;
      var l2 := if a.act.reply.None? then s.st.l2[k := e] else Stored(s.st.l2, k, e, v);
      PutKeeps(hash, stale, s, k, e, l2, v, a.now);
    }
  }

  lemma InvSize(hash: Hash, stale: nat, s: System)
    requires Inv(hash, stale, s)
    ensures |s.st.l2| <= MAX_CACHE_SIZE
  {
  }

  lemma RefreshKeeps(hash: Hash, stale: nat, s: System, a: Timed)
    requires Inv(hash, stale, s) && Enabled(stale, s, a) && a.act.RefreshStep?
    ensures Inv(hash, stale, Prompt(hash, stale, s, a))
  {
    if Stores(s, a).None? {
      LaterWell(s.saved, s.clock, a.now);
      hide L1Recorded, L2Recorded, AllWellStored, ReplyEntry, ShouldCache;
    } else {
      StoresWell(s, a);
      var (k, e) := Stores(s, a).value;
      var x := Saved(k, e.msg, e.ttl, a.now);
      RecordedGrow(hash, stale, s.st.l1, s.st.l2, s.saved, x);
      GrowWell(s.saved, s.clock, x, a.now);
      L2Insert(s.st.l2, s.saved + {x}, k, e, k, a.now);
      MapInsertSize(s.st.l2, k, e);
      hide L1Recorded, L2Recorded, AllWellStored, ReplyEntry, ShouldCache, WellStored;
    }
  }

  lemma OtherKeeps(hash: Hash, stale: nat, s: System, a: Timed)
    requires Inv(hash, stale, s) && Enabled(stale, s, a) && !a.act.MissStep? && !a.act.RefreshStep?
    ensures Inv(hash, stale, Prompt(hash, stale, s, a))
  {
    LaterWell(s.saved, s.clock, a.now);
    hide AllWellStored;
    match a.act
    case LookupStep(k) =>
      LookupKeeps(hash, stale, s, k, a.now);
      hide AfterLookup, L1Recorded, L2Recorded;
    case GcStep =>
      LiveSize(s.st.l2, a.now);
      hide L1Recorded;
    case PopRefresh =>
      hide L1Recorded, L2Recorded;
    case FlushStep =>
      hide L1Recorded;
    case LateInsert(x, seen) =>
      L1Insert(hash, stale, s.st.l1, s.saved, x.key, CopyExpiry(x, seen), x);
      hide L1Recorded, L2Recorded, TurboInsert;
  }

  /** Leaving the L1 write for later keeps the invariant too. */
  lemma LateKeeps(hash: Hash, stale: nat, s: System, a: Timed)
    requires Inv(hash, stale, s) && Enabled(stale, s, a) && Inv(hash, stale, Prompt(hash, stale, s, a))
    ensures Inv(hash, stale, Next(hash, stale, s, a))
  {
    if Stores(s, a).Some? {
      var (k, e) := Stores(s, a).value;
      RecordedGrow(hash, stale, s.st.l1, s.st.l2, s.saved, Saved(k, e.msg, e.ttl, a.now));
    }
    hide Stores, Effect, L1Recorded, L2Recorded, AllWellStored;
  }

  lemma StepInv(hash: Hash, stale: nat, s: System, a: Timed)
    requires Inv(hash, stale, s) && Enabled(stale, s, a)
    ensures Inv(hash, stale, Next(hash, stale, s, a))
  {
    hide Inv, Next, Prompt, Enabled;
    if a.act.MissStep? {
      MissKeeps(hash, stale, s, a);
    } else if a.act.RefreshStep? {
      RefreshKeeps(hash, stale, s, a);
    } else {
      OtherKeeps(hash, stale, s, a);
    }
    LateKeeps(hash, stale, s, a);
  }

  // ---------------------------------------------------------------- every run

  ghost predicate Steps(hash: Hash, stale: nat, s: System, a: Timed, s': System) {
    Enabled(stale, s, a) && s' == Next(hash, stale, s, a)
  }

  /** `s` is reached from `s0` by the steps `acts`. */
  ghost predicate Reaches(hash: Hash, stale: nat, s0: System, acts: seq<Timed>, s: System) {
    if |acts| == 0 then s == s0
    else
      var init, a := acts[..|acts| - 1], acts[|acts| - 1];
      exists mid :: Reaches(hash, stale, s0, init, mid) && Steps(hash, stale, mid, a, s)
  }

  lemma StartInv(hash: Hash, stale: nat)
    ensures Inv(hash, stale, START)
  {
  }

  /** The invariant holds throughout every run that starts with it, as the empty cache does. */
  lemma {:induction false} RunInv(hash: Hash, stale: nat, s0: System, acts: seq<Timed>, s: System)
    requires Inv(hash, stale, s0) && Reaches(hash, stale, s0, acts, s)
    ensures Inv(hash, stale, s)
  {
    hide Inv, Next, Enabled;
    if |acts| > 0 {
      var init, a := acts[..|acts| - 1], acts[|acts| - 1];
      var mid :| Reaches(hash, stale, s0, init, mid) && Steps(hash, stale, mid, a, s);
      RunInv(hash, stale, s0, init, mid);
      StepInv(hash, stale, mid, a);
    }
  }

  /** Every hit at time `now` serves something saved in L2 under a key with the same hash, less than
      the stale threshold and a minute past its expiry. */
  ghost predicate ServedFrom(hash: Hash, stale: nat, saved: set<Saved>, k: Key, now: int, msg: Message, x: Saved) {
    && x in saved && x.msg == msg && hash(x.key) == hash(k)
    && now < x.at + (x.ttl + stale + 60) * 1_000_000_000
  }

  lemma HitIsServedFrom(hash: Hash, stale: nat, s: System, k: Key, now: int) returns (x: Saved)
    requires Inv(hash, stale, s) && !Lookup(hash, s.st, stale, k, now).Missing?
    ensures ServedFrom(hash, stale, s.saved, k, now, FoundMessage(Lookup(hash, s.st, stale, k, now)), x)
  {
    var f := Lookup(hash, s.st, stale, k, now);
    if f.FromL1? {
      var slot := s.st.l1[SlotOf(hash(k))];
      assert SlotRecorded(hash, stale, slot, s.saved);
      x :| x in s.saved && SlotFrom(hash, stale, slot, x);
    } else {
      x := SavedAs(k, f.entry);
    }
  }

  /** Bounded staleness over every run: whatever lookups, stale re-insertions, refreshes, garbage
      collections, evictions and flushes came before, a hit at time `now` serves a stored message
      whose expiry is less than the stale threshold plus 60 seconds in the past. */
  lemma BoundedStaleness(hash: Hash, stale: nat, s0: System, acts: seq<Timed>, s: System, k: Key, now: int)
    requires Inv(hash, stale, s0) && Reaches(hash, stale, s0, acts, s) && |s.st.l1| == TURBO_SIZE
    requires !Lookup(hash, s.st, stale, k, now).Missing?
    ensures exists x :: ServedFrom(hash, stale, s.saved, k, now, FoundMessage(Lookup(hash, s.st, stale, k, now)), x)
  {
    hide Reaches, Inv, Lookup;
    RunInv(hash, stale, s0, acts, s);
    var x := HitIsServedFrom(hash, stale, s, k, now);
  }

  ghost predicate InjectiveOn(hash: Hash, saved: set<Saved>, k: Key) {
    forall x :: x in saved && hash(x.key) == hash(k) ==> x.key == k
  }

  /** The reply has the answers of `cached`, and its other sections or none. */
  predicate SectionsFrom(reply: Message, cached: Message) {
    && reply.answers == cached.answers
    && (reply.authorities == cached.authorities || reply.authorities == [])
    && (reply.additionals == cached.additionals || reply.additionals == [])
  }

  lemma RepliesAreFound(req: Message, id: u16, f: Found)
    requires !f.Missing?
    ensures HitReply(req, f).Some? && SectionsFrom(HitReply(req, f).value, FoundMessage(f))
    ensures RawHitReply(id, f).Some? && SectionsFrom(RawHitReply(id, f).value, FoundMessage(f))
  {
    hide CreateReply;
  }

  /** `x` was stored under `k` by time `now`, and both forms of the reply to a hit come from it. */
  ghost predicate RepliesFrom(saved: set<Saved>, k: Key, now: int, req: Message, id: u16, f: Found, x: Saved) {
    && x in saved && x.key == k && x.at <= now
    && HitReply(req, f).Some? && SectionsFrom(HitReply(req, f).value, x.msg)
    && RawHitReply(id, f).Some? && SectionsFrom(RawHitReply(id, f).value, x.msg)
  }

  /** Provenance over every run: if the hash separates `k` from the keys used, a hit for `k` answers
      with the sections of a message that was stored in L2 under `k` itself, on both lookup paths. */
  lemma Provenance(
    hash: Hash, stale: nat, s0: System, acts: seq<Timed>, s: System, k: Key, now: int, req: Message, id: u16)
    requires Inv(hash, stale, s0) && Reaches(hash, stale, s0, acts, s) && |s.st.l1| == TURBO_SIZE && s.clock <= now
    requires InjectiveOn(hash, s.saved, k)
    requires !Lookup(hash, s.st, stale, k, now).Missing?
    ensures exists x :: RepliesFrom(s.saved, k, now, req, id, Lookup(hash, s.st, stale, k, now), x)
  {
    hide Reaches, Lookup, L1Recorded, L2Recorded, HitReply, RawHitReply, FoundMessage;
    RunInv(hash, stale, s0, acts, s);
    var x := HitIsServedFrom(hash, stale, s, k, now);
    RepliesAreFound(req, id, Lookup(hash, s.st, stale, k, now));
    assert RepliesFrom(s.saved, k, now, req, id, Lookup(hash, s.st, stale, k, now), x);
  }

  /** Entry invariant over every run: an L2 entry is a conclusive response with one question that
      matches its key, its records all carry its TTL, and its expiry is its store time plus that TTL. */
  lemma EntryInvariant(hash: Hash, stale: nat, s0: System, acts: seq<Timed>, s: System, k: Key)
    requires Inv(hash, stale, s0) && Reaches(hash, stale, s0, acts, s) && k in s.st.l2
    ensures var e := s.st.l2[k];
            WellStored(SavedAs(k, e)) && SavedAs(k, e) in s.saved && Expiry(SavedAs(k, e)) == e.expires
  {
    hide Reaches, WellStored, L1Recorded;
    RunInv(hash, stale, s0, acts, s);
  }

  ghost predicate Sized(st: State) {
    |st.l1| == TURBO_SIZE && |st.l2| <= MAX_CACHE_SIZE && |st.queue| <= MAX_REFRESH_QUEUE
  }

  lemma MissSized(hash: Hash, stale: nat, s: System, a: Timed)
    requires Sized(s.st) && Enabled(stale, s, a) && a.act.MissStep?
    ensures Sized(Next(hash, stale, s, a).st)
  {
    hide IsVictim, FailureEntry, ReplyEntry, ShouldCache, TurboInsert, Stored;
    var k, c := KeyOf(a.act.req.questions[0]), a.act.c;
    if a.act.reply.None? {
      MapInsertSize(s.st.l2, k, FailureEntry(a.act.req, c, a.now));
    } else if ShouldCache(a.act.req.questions[0], a.act.reply.value) {
      StoredSize(s.st.l2, k, ReplyEntry(a.act.reply.value, c, a.now), a.act.victim, a.now);
    }
  }

  lemma StepSized(hash: Hash, stale: nat, s: System, a: Timed)
    requires Sized(s.st) && Enabled(stale, s, a)
    ensures Sized(Next(hash, stale, s, a).st)
  {
    hide IsVictim, FailureEntry, ReplyEntry, ShouldCache, TurboInsert, Stores;
    if a.act.MissStep? {
      MissSized(hash, stale, s, a);
    } else if a.act.RefreshStep? {
      if a.act.reply.Some? {
        MapInsertSize(s.st.l2, a.act.k, ReplyEntry(a.act.reply.value, a.act.c, a.now));
      }
    } else {
      LiveSize(s.st.l2, a.now);
      hide Live;
    }
  }

  /** Capacity over every run, whatever the entries it starts with: L2 never exceeds 50000 entries
      and the refresh queue never exceeds 64. */
  lemma {:induction false} Capacity(hash: Hash, stale: nat, s0: System, acts: seq<Timed>, s: System)
    requires Sized(s0.st) && Reaches(hash, stale, s0, acts, s)
    ensures Sized(s.st) && |s.st.l2| <= 50000 && |s.st.queue| <= 64
  {
    hide Next, Enabled;
    if |acts| > 0 {
      var init, a := acts[..|acts| - 1], acts[|acts| - 1];
      var mid :| Reaches(hash, stale, s0, init, mid) && Steps(hash, stale, mid, a, s);
      Capacity(hash, stale, s0, init, mid);
      StepSized(hash, stale, mid, a);
    }
  }
}
