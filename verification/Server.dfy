/** The cache and the controller together: the controller steers the two TTL settings that the cache
    reads when it stores, and a restart carries the cache over through its file. */
module Server {
  import Names
  import Messages
  import Cache
  import CacheRuns
  import CacheFile
  import Tuner

  /** `mins` and `negs` are the values the two settings have ever had: a store may use any of them,
      because it reads each setting separately and earlier than it writes the entry. */
  datatype State = State(cache: CacheRuns.System, tuner: Tuner.State, mins: set<int>, negs: set<int>)

  datatype Event = CacheEvent(a: CacheRuns.Timed) | TuneEvent(m: Tuner.Measure)

  const START: State := State(CacheRuns.START, Tuner.INITIAL, {Tuner.INITIAL.minTTL}, {Tuner.INITIAL.negTTL})

  ghost predicate ReadsSettings(s: State, a: CacheRuns.Timed) {
    a.act.MissStep? || a.act.RefreshStep? ==> a.act.c.minTTL in s.mins && a.act.c.negTTL in s.negs
  }

  ghost predicate Happens(hash: Cache.Hash, stale: nat, s: State, e: Event, s': State) {
    match e
    case CacheEvent(a) =>
      && ReadsSettings(s, a)
      && CacheRuns.Steps(hash, stale, s.cache, a, s'.cache)
      && s' == s.(cache := s'.cache)
    case TuneEvent(m) =>
      var t := Tuner.Tuned(s.tuner, m);
      s' == State(s.cache, t, s.mins + {t.minTTL}, s.negs + {t.negTTL})
  }

  ghost predicate Reaches(hash: Cache.Hash, stale: nat, events: seq<Event>, s: State) {
    if |events| == 0 then s == START
    else
      var init, e := events[..|events| - 1], events[|events| - 1];
      exists mid :: Reaches(hash, stale, init, mid) && Happens(hash, stale, mid, e, s)
  }

  // ---------------------------------------------------------------- TTLs over every run

  ghost predicate SettingsInRange(mins: set<int>, negs: set<int>) {
    (forall t :: t in mins ==> 241 <= t <= 7200) && forall t :: t in negs ==> 300 <= t <= 3600
  }

  ghost predicate SavedInRange(saved: set<CacheRuns.Saved>) {
    forall x :: x in saved ==> 30 <= x.ttl <= 7200
  }

  ghost predicate Inv(hash: Cache.Hash, stale: nat, s: State) {
    && CacheRuns.Inv(hash, stale, s.cache)
    && Tuner.Bounded(s.tuner)
    && SettingsInRange(s.mins, s.negs)
    && SavedInRange(s.cache.saved)
  }

  lemma SavedStep(hash: Cache.Hash, stale: nat, s: State, a: CacheRuns.Timed)
    requires SettingsInRange(s.mins, s.negs) && SavedInRange(s.cache.saved) && ReadsSettings(s, a)
    requires CacheRuns.Enabled(stale, s.cache, a)
    ensures SavedInRange(CacheRuns.Next(hash, stale, s.cache, a).saved)
  {
    if CacheRuns.Stores(s.cache, a).Some? {
      CacheRuns.StoresInRange(s.cache, a);
    }
    hide CacheRuns.Stores, CacheRuns.Effect;
  }

  lemma SettingsStep(s: State, t: Tuner.State)
    requires SettingsInRange(s.mins, s.negs) && Tuner.Bounded(t)
    ensures SettingsInRange(s.mins + {t.minTTL}, s.negs + {t.negTTL})
  {
  }

  lemma StepInv(hash: Cache.Hash, stale: nat, s: State, e: Event, s': State)
    requires Inv(hash, stale, s) && Happens(hash, stale, s, e, s')
    ensures Inv(hash, stale, s')
  {
    hide CacheRuns.Inv, CacheRuns.Next, CacheRuns.Enabled, Tuner.Bounded, Tuner.Tuned;
    hide SettingsInRange, SavedInRange, ReadsSettings;
    match e
    case CacheEvent(a) =>
      CacheRuns.StepInv(hash, stale, s.cache, a);
      SavedStep(hash, stale, s, a);
    case TuneEvent(m) =>
      Tuner.TunedBounded(s.tuner, m);
      SettingsStep(s, Tuner.Tuned(s.tuner, m));
  }

  /** Over every interleaving of cache steps and tuning cycles, the cache and the controller keep
      their invariants and everything ever stored was stored for 30 seconds to two hours. */
  lemma {:induction false} RunInv(hash: Cache.Hash, stale: nat, events: seq<Event>, s: State)
    requires Reaches(hash, stale, events, s)
    ensures Inv(hash, stale, s)
  {
    if |events| == 0 {
      CacheRuns.StartInv(hash, stale);
      hide CacheRuns.Inv;
    } else {
      hide Inv, Happens;
      var init, e := events[..|events| - 1], events[|events| - 1];
      var mid :| Reaches(hash, stale, init, mid) && Happens(hash, stale, mid, e, s);
      RunInv(hash, stale, init, mid);
      StepInv(hash, stale, mid, e, s);
    }
  }

  /** Entry invariant across cache and controller: in every reachable state, an L2 entry answers one
      question, the one of its key, all its records carry its TTL, that TTL is in [30, 7200], and it
      expires that long after it was stored. */
  lemma EntryTTLs(hash: Cache.Hash, stale: nat, events: seq<Event>, s: State, k: Cache.Key)
    requires Reaches(hash, stale, events, s) && k in s.cache.st.l2
    ensures var e := s.cache.st.l2[k];
            && CacheRuns.SavedAs(k, e) in s.cache.saved && CacheRuns.WellStored(CacheRuns.SavedAs(k, e))
            && 30 <= e.ttl <= 7200
            && e.expires <= s.cache.clock + e.ttl * Cache.SECOND
  {
    hide Reaches, CacheRuns.WellStored, CacheRuns.L1Recorded;
    RunInv(hash, stale, events, s);
  }

  // ---------------------------------------------------------------- restarts

  /** A server that starts at `now` with the entries of a file: L1 and the refresh queue are empty,
      and the entries count as stored now. */
  ghost function Restarted(l2: map<Cache.Key, Cache.Entry>, now: int): CacheRuns.System {
    CacheRuns.System(Cache.EmptyCache().(l2 := l2), set k | k in l2 :: CacheRuns.SavedAs(k, l2[k]), now)
  }

  type Entries = map<Cache.Key, Cache.Entry>

  /** An entry comes back well stored exactly when normalising leaves its name alone: the file keeps
      the key as it is and the message's names normalised. */
  lemma ReloadedWell(k: Cache.Key, e: Cache.Entry, saved: int, now: int)
    requires CacheRuns.WellStored(CacheRuns.SavedAs(k, e)) && CacheFile.Considered(k, e, saved)
    requires e.expires - e.ttl * Cache.SECOND <= saved
    ensures var r := CacheFile.Reloaded(e, saved, now);
            && (CacheRuns.WellStored(CacheRuns.SavedAs(k, r)) <==> Names.Normalise(k.name) == k.name)
            && r.expires == now + r.ttl * Cache.SECOND
            && 1 <= r.ttl <= e.ttl && r.ttl == CacheFile.SecondsLeft(e, saved)
  {
    hide Cache.Clobbered, CacheRuns.UniformTTL, Messages.Qr, Messages.Rcode, Names.Normalise, Messages.NormalSection;
    var m := Messages.NormalMessage(e.msg);
    var ttl := CacheFile.SecondsLeft(e, saved);
    CacheRuns.UniformClobbered(m.answers, ttl);
    CacheRuns.UniformClobbered(m.authorities, ttl);
    CacheRuns.UniformClobbered(m.additionals, ttl);
  }

  /** The entries that a restart carries over, as they come back. */
  ghost predicate CarriedOver(was: Entries, saved: int, now: int, l2: Entries) {
    l2 == map k | k in was && CacheFile.Considered(k, was[k], saved) :: CacheFile.Reloaded(was[k], saved, now)
  }

  /** Every entry that is saved has a name that normalising leaves alone. */
  ghost predicate NormalKeys(was: Entries, saved: int) {
    forall k :: k in was && CacheFile.Considered(k, was[k], saved) ==> Names.Normalise(k.name) == k.name
  }

  lemma CarriedOverSize(was: Entries, saved: int, now: int, l2: Entries)
    requires CarriedOver(was, saved, now, l2)
    ensures |l2| <= |was|
  {
    assert l2.Keys <= was.Keys;
    CacheRuns.SubsetSize(l2.Keys, was.Keys);
  }

  ghost predicate StoredNow(l2: Entries, now: int) {
    forall k :: k in l2 ==> CacheRuns.SavedAs(k, l2[k]).at == now
  }

  ghost predicate EachWell(l2: Entries) {
    forall k :: k in l2 ==> CacheRuns.WellStored(CacheRuns.SavedAs(k, l2[k]))
  }

  lemma RestartedInv(hash: Cache.Hash, stale: nat, l2: Entries, now: int)
    requires |l2| <= Cache.MAX_CACHE_SIZE && StoredNow(l2, now)
    ensures CacheRuns.Inv(hash, stale, Restarted(l2, now)) <==> EachWell(l2)
  {
    hide CacheRuns.WellStored;
    var s := Restarted(l2, now);
    forall k | k in l2 ensures CacheRuns.SavedAs(k, l2[k]) in s.saved {
    }
  }

  lemma CarriedOverWell(s: CacheRuns.System, saved: int, now: int, l2: Entries)
    requires CacheRuns.L2Recorded(s.st.l2, s.saved) && CacheRuns.AllWellStored(s.saved, s.clock)
    requires s.clock <= saved && CarriedOver(s.st.l2, saved, now, l2)
    ensures EachWell(l2) <==> NormalKeys(s.st.l2, saved)
    ensures StoredNow(l2, now) && forall k :: k in l2 ==> k in s.st.l2 && 1 <= l2[k].ttl <= s.st.l2[k].ttl
  {
    hide CacheRuns.WellStored, CacheFile.Considered, CacheFile.Reloaded, CacheFile.SecondsLeft, Names.Normalise;
    forall k | k in l2
      ensures k in s.st.l2 && 1 <= l2[k].ttl <= s.st.l2[k].ttl && CacheRuns.SavedAs(k, l2[k]).at == now
      ensures CacheRuns.WellStored(CacheRuns.SavedAs(k, l2[k])) <==> Names.Normalise(k.name) == k.name
    {
      ReloadedWell(k, s.st.l2[k], saved, now);
    }
    assert forall k :: k in l2 <==> k in s.st.l2 && CacheFile.Considered(k, s.st.l2[k], saved);
  }

  /** Restart: save any cache that satisfies the invariant and whose entries the file can carry, and
      load the file into a new server. The new state satisfies the invariant again, so that every
      result about runs holds across the restart, if and only if the names saved are their own
      normal form; and no entry comes back with a longer TTL than it had. */
  lemma RestartKeepsInv(
    hash: Cache.Hash, stale: nat, s: CacheRuns.System, order: seq<Cache.Key>, saved: int, now: int)
    requires CacheRuns.Inv(hash, stale, s) && s.clock <= saved
    requires CacheFile.Enumerates(order, s.st.l2) && CacheFile.AllStorable(order, s.st.l2, saved)
    ensures CacheFile.SaveSpec(order, s.st.l2, saved).Ok?
    ensures var l2 := CacheFile.LoadSpec(CacheFile.SaveSpec(order, s.st.l2, saved).value, map[], now).l2;
            && (CacheRuns.Inv(hash, stale, Restarted(l2, now)) <==> NormalKeys(s.st.l2, saved))
            && forall k :: k in l2 ==> k in s.st.l2 && 1 <= l2[k].ttl <= s.st.l2[k].ttl
  {
    hide CacheRuns.L1Recorded, CacheRuns.L2Recorded, CacheRuns.AllWellStored;
    hide CacheFile.SaveSpec, CacheFile.LoadSpec, CacheFile.AllStorable;
    CacheFile.LiveAtMost(order, s.st.l2, saved);
    CacheFile.SaveLoadRoundTrip(order, s.st.l2, saved, now);
    var l2 := CacheFile.LoadSpec(CacheFile.SaveSpec(order, s.st.l2, saved).value, map[], now).l2;
    assert CarriedOver(s.st.l2, saved, now, l2);
    CarriedOverSize(s.st.l2, saved, now, l2);
    CarriedOverWell(s, saved, now, l2);
    hide CarriedOver, CacheRuns.Inv, EachWell, NormalKeys, StoredNow;
    RestartedInv(hash, stale, l2, now);
  }
}
