/** What is stored, for how long it is served, and what is not stored: the invariants of CacheRuns hold
    of a cache that never keeps anything, these do not. */
module Hits {
  import opened Bytes
  import opened Messages
  import opened Cache

  // ---------------------------------------------------------------- which replies are kept

  /** The same records, up to their TTLs. */
  predicate SameButTTL(rs: seq<Record>, rs': seq<Record>) {
    |rs| == |rs'| && forall i :: 0 <= i < |rs| ==> rs[i].(ttl := 0) == rs'[i].(ttl := 0)
  }

  predicate SameAnswer(m: Message, r: Message) {
    && m.header == r.header && m.questions == r.questions && SameButTTL(m.answers, r.answers)
    && SameButTTL(m.authorities, r.authorities) && SameButTTL(m.additionals, r.additionals)
  }

  /** A complete response of a standard query to the question asked: bits 15 down to 9 of the flags. */
  predicate Responds(q: Question, r: Message) {
    && r.header.flags / 32768 == 1 && r.header.flags / 2048 % 16 == 0 && r.header.flags / 512 % 2 == 0
    && |r.questions| == 1 && r.questions[0].qname == q.qname && r.questions[0].qtype == q.qtype
  }

  /** No error, with an answer or an authority. */
  predicate Positive(q: Question, r: Message) {
    Responds(q, r) && r.header.flags % 16 == 0 && |r.answers| + |r.authorities| > 0
  }

  /** SERVFAIL, NXDOMAIN or REFUSED. */
  predicate Negative(q: Question, r: Message) {
    Responds(q, r) && r.header.flags % 16 in {2, 3, 5}
  }

  lemma ClobberedSame(rs: seq<Record>, ttl: u32)
    ensures SameButTTL(Clobbered(rs, ttl), rs)
  {
  }

  lemma WithTTLSame(m: Message, ttl: u32)
    ensures SameAnswer(WithTTL(m, ttl), m)
  {
    ClobberedSame(m.answers, ttl);
    ClobberedSame(m.authorities, ttl);
    ClobberedSame(m.additionals, ttl);
    hide Clobbered, SameButTTL;
  }

  lemma WhichAreKept(q: Question, r: Message)
    ensures ShouldCache(q, r) <==> Positive(q, r) || Negative(q, r)
    ensures Negative(q, r) ==> IsNegative(r)
    ensures Positive(q, r) ==> !IsNegative(r)
  {
    assert |r.answers| + |r.authorities| > 0 <==> r.answers != [] || r.authorities != [];
    assert r.header.flags / 32768 <= 1;
  }

  // ---------------------------------------------------------------- stored, then served

  /** At every time before `until`, a lookup of `k` hits on `r`, up to its TTLs. */
  ghost predicate ServedUntil(hash: Hash, st: State, stale: nat, k: Key, from: int, until: int, r: Message) {
    && |st.l1| == 4096
    && forall t :: from <= t < until ==>
         && !Lookup(hash, st, stale, k, t).Missing?
         && SameAnswer(FoundMessage(Lookup(hash, st, stale, k, t)), r)
  }

  /** What both levels hold after a store is served until it expires. */
  lemma PutIsServed(
    hash: Hash, st: State, stale: nat, k: Key, e: Entry, l2: map<Key, Entry>, r: Message, from: int, until: int)
    requires |st.l1| == 4096 && k in l2 && l2[k] == e && SameAnswer(e.msg, r) && until <= e.expires
    ensures ServedUntil(hash, Put(hash, st, k, e, l2), stale, k, from, until, r)
  {
    hide SameAnswer;
  }

  /** The entry that a reply becomes. */
  lemma ReplyEntryIs(q: Question, r: Message, c: Config, now: int)
    requires Positive(q, r) || Negative(q, r)
    ensures var e := ReplyEntry(r, c, now);
            && SameAnswer(e.msg, r) && e.expires == now + e.ttl * 1_000_000_000
            && (Negative(q, r) ==> e.ttl == c.negTTL)
            && (Positive(q, r) && c.minTTL <= 7200 ==> c.minTTL <= e.ttl <= 7200)
  {
    WhichAreKept(q, r);
    CacheTTLMeaning(r, c.minTTL);
    WithTTLSame(r, StoreTTL(r, c));
    hide WithTTL, SameAnswer, CacheTTL, Positive, Negative, IsNegative;
  }

  lemma ReplyEntrySame(r: Message, c: Config, now: int)
    ensures SameAnswer(ReplyEntry(r, c, now).msg, r)
  {
    WithTTLSame(r, StoreTTL(r, c));
    hide WithTTL, SameAnswer, StoreTTL;
  }

  lemma StoredHas(l2: map<Key, Entry>, k: Key, e: Entry, v: Key)
    ensures k in Stored(l2, k, e, v) && Stored(l2, k, e, v)[k] == e
  {
  }

  /** A reply without error that carries an answer or an authority is stored under the question asked,
      full cache or not, and served for at least the minimum TTL. */
  lemma PositiveIsServed(
    hash: Hash, st: State, stale: nat, req: Message, r: Message, c: Config, now: int, v: Key)
    requires |st.l1| == 4096 && |req.questions| == 1 && Positive(req.questions[0], r) && c.minTTL <= 7200
    ensures var k, st' := KeyOf(req.questions[0]), AfterMiss(hash, st, req, Some(r), c, now, v);
            && k in st'.l2 && SameAnswer(st'.l2[k].msg, r)
            && ServedUntil(hash, st', stale, k, now, now + c.minTTL * 1_000_000_000, r)
  {
    hide SameAnswer, Positive, Negative, ReplyEntry, ServedUntil, Put, ShouldCache, Stored;
    var q, k, e := req.questions[0], KeyOf(req.questions[0]), ReplyEntry(r, c, now);
    WhichAreKept(q, r);
    ReplyEntryIs(q, r, c, now);
    StoredHas(st.l2, k, e, v);
    PutIsServed(hash, st, stale, k, e, Stored(st.l2, k, e, v), r, now, now + c.minTTL * 1_000_000_000);
    PutL2(hash, st, k, e, Stored(st.l2, k, e, v));
  }

  lemma PutL2(hash: Hash, st: State, k: Key, e: Entry, l2: map<Key, Entry>)
    requires |st.l1| == 4096
    ensures Put(hash, st, k, e, l2).l2 == l2
  {
  }

  /** SERVFAIL, NXDOMAIN and REFUSED are stored in the same way and served for the negative TTL. */
  lemma NegativeIsServed(
    hash: Hash, st: State, stale: nat, req: Message, r: Message, c: Config, now: int, v: Key)
    requires |st.l1| == 4096 && |req.questions| == 1 && Negative(req.questions[0], r)
    ensures var k, st' := KeyOf(req.questions[0]), AfterMiss(hash, st, req, Some(r), c, now, v);
            && k in st'.l2 && SameAnswer(st'.l2[k].msg, r)
            && ServedUntil(hash, st', stale, k, now, now + c.negTTL * 1_000_000_000, r)
  {
    hide SameAnswer, Positive, Negative, ReplyEntry, ServedUntil, Put, ShouldCache, Stored;
    var q, k, e := req.questions[0], KeyOf(req.questions[0]), ReplyEntry(r, c, now);
    WhichAreKept(q, r);
    ReplyEntryIs(q, r, c, now);
    StoredHas(st.l2, k, e, v);
    PutIsServed(hash, st, stale, k, e, Stored(st.l2, k, e, v), r, now, now + c.negTTL * 1_000_000_000);
    PutL2(hash, st, k, e, Stored(st.l2, k, e, v));
  }

  /** Any other reply leaves the cache as it was. */
  lemma OthersAreNotStored(hash: Hash, st: State, req: Message, r: Message, c: Config, now: int, v: Key)
    requires |st.l1| == 4096 && |req.questions| == 1
    requires !Positive(req.questions[0], r) && !Negative(req.questions[0], r)
    ensures AfterMiss(hash, st, req, Some(r), c, now, v) == st
  {
    hide Positive, Negative, ShouldCache;
    WhichAreKept(req.questions[0], r);
  }

  /** What a failed backend is answered and remembered as: SERVFAIL to the question asked. */
  predicate IsFailure(m: Message, req: Message) {
    && m.header.id == req.header.id && m.questions == req.questions
    && m.header.flags / 32768 == 1 && m.header.flags % 16 == 2
    && m.answers == [] && m.authorities == [] && m.additionals == []
  }

  lemma FlagNumbers(f: u16)
    ensures Qr(f) <==> f / 32768 == 1
    ensures Ra(f) <==> f / 128 % 2 == 1
    ensures Rcode(f) == f % 16
  {
  }

  lemma ErrorReplyIs(req: Message)
    ensures IsFailure(CreateError(req, 2), req)
  {
    ReplyFlags(req, 2);
    FlagNumbers(CreateError(req, 2).header.flags);
    hide CreateReply, CreateError, Qr, Ra, Rcode, SameMiddle;
  }

  lemma SameFailure(m: Message, e: Message, req: Message)
    requires SameAnswer(m, e) && IsFailure(e, req)
    ensures IsFailure(m, req)
  {
  }

  lemma FailureEntryIs(req: Message, c: Config, now: int)
    ensures var e := FailureEntry(req, c, now);
            && IsFailure(e.msg, req) && e.expires == now + e.ttl * 1_000_000_000
            && 30 <= e.ttl <= 60 && (300 <= c.negTTL <= 600 ==> e.ttl == c.negTTL / 10)
  {
    ErrorReplyIs(req);
    WithTTLSame(CreateError(req, 2), FailureTTL(c));
    hide CreateError, WithTTL, IsFailure, SameAnswer;
    SameFailure(FailureEntry(req, c, now).msg, CreateError(req, 2), req);
  }

  /** A failure is remembered for 30 to 60 seconds, unless the cache is full; then nothing changes. */
  lemma FailureIsServed(
    hash: Hash, st: State, stale: nat, req: Message, c: Config, now: int, v: Key)
    requires |st.l1| == 4096 && |req.questions| == 1
    ensures var k, st' := KeyOf(req.questions[0]), AfterMiss(hash, st, req, None, c, now, v);
            && (|st.l2| >= 50000 ==> st' == st)
            && (|st.l2| < 50000 ==>
                  && k in st'.l2 && IsFailure(st'.l2[k].msg, req)
                  && ServedUntil(hash, st', stale, k, now, now + 30_000_000_000, st'.l2[k].msg))
  {
    hide SameAnswer, ServedUntil, Put, FailureEntry, IsFailure;
    var k, e := KeyOf(req.questions[0]), FailureEntry(req, c, now);
    FailureEntryIs(req, c, now);
    ItsOwnAnswer(e.msg);
    PutIsServed(hash, st, stale, k, e, st.l2[k := e], e.msg, now, now + 30_000_000_000);
    PutL2(hash, st, k, e, st.l2[k := e]);
  }

  lemma ItsOwnAnswer(m: Message)
    ensures SameAnswer(m, m)
  {
  }

  // ---------------------------------------------------------------- refreshing

  /** A refresh replaces an entry that is still there by the reply, with a new lifetime; L1, the queue
      and every other entry are as before. */
  lemma RefreshReplaces(st: State, k: Key, r: Message, c: Config, now: int)
    requires k in st.l2 && (Positive(QuestionOf(k), r) || Negative(QuestionOf(k), r))
    ensures var st' := AfterRefresh(st, k, Some(r), c, now);
            && k in st'.l2 && SameAnswer(st'.l2[k].msg, r)
            && st'.l2[k].expires == now + st'.l2[k].ttl * 1_000_000_000
            && (Negative(QuestionOf(k), r) ==> st'.l2[k].ttl == c.negTTL)
            && (Positive(QuestionOf(k), r) && c.minTTL <= 7200 ==> c.minTTL <= st'.l2[k].ttl <= 7200)
            && st'.l2.Keys == st.l2.Keys && (forall j :: j in st.l2 && j != k ==> st'.l2[j] == st.l2[j])
            && st'.l1 == st.l1 && st'.queue == st.queue
  {
    hide Positive, Negative, ShouldCache, ReplyEntry, SameAnswer;
    WhichAreKept(QuestionOf(k), r);
    ReplyEntryIs(QuestionOf(k), r, c, now);
  }

  /** Nothing else refreshes: no entry, no reply, or a reply that would not be stored. */
  lemma NothingToRefresh(st: State, k: Key, reply: Option<Message>, c: Config, now: int)
    requires k !in st.l2 || reply.None?
          || (!Positive(QuestionOf(k), reply.value) && !Negative(QuestionOf(k), reply.value))
    ensures AfterRefresh(st, k, reply, c, now) == st
  {
    hide Positive, Negative, ShouldCache;
    if reply.Some? {
      WhichAreKept(QuestionOf(k), reply.value);
    }
  }

  // ---------------------------------------------------------------- looking up

  /** The slot of `k` in L1 holds a message under its hash that has not expired. */
  predicate LiveSlot(hash: Hash, l1: seq<Slot>, k: Key, now: int)
    requires |l1| == 4096
  {
    var s := l1[hash(k) % 4096];
    s.keyHash == hash(k) && s.msg.Some? && now < s.expires
  }

  /** Exactly when a lookup hits, and on what: a live slot first, then an entry of L2 that expired less
      than the stale threshold ago or not at all. */
  lemma LookupExact(hash: Hash, st: State, stale: nat, k: Key, now: int)
    requires |st.l1| == 4096
    ensures var f := Lookup(hash, st, stale, k, now);
            && (f.Missing? <==>
                  && !LiveSlot(hash, st.l1, k, now)
                  && (k !in st.l2 || now >= st.l2[k].expires + stale * 1_000_000_000))
            && (LiveSlot(hash, st.l1, k, now) ==> f == FromL1(st.l1[hash(k) % 4096].msg.value))
            && (!f.Missing? && !LiveSlot(hash, st.l1, k, now) ==>
                  FoundMessage(f) == st.l2[k].msg && (f.Stale? <==> now >= st.l2[k].expires))
  {
  }

  /** A hit in L2 is answered from L1 until it expires; a stale one for another minute, and its key is
      queued for a refresh unless 64 are waiting. No lookup changes L2. */
  lemma LookupCopies(hash: Hash, st: State, stale: nat, k: Key, now: int, later: int)
    requires |st.l1| == 4096 && k in st.l2 && !LiveSlot(hash, st.l1, k, now)
    requires now < st.l2[k].expires + stale * 1_000_000_000
    ensures var e, st' := st.l2[k], AfterLookup(hash, st, stale, k, now);
            && st'.l2 == st.l2 && |st'.l1| == 4096
            && (now < e.expires && later < e.expires ==> Lookup(hash, st', stale, k, later) == FromL1(e.msg))
            && (now < e.expires ==> st'.queue == st.queue)
            && (now >= e.expires && later < now + 60_000_000_000 ==>
                  Lookup(hash, st', stale, k, later) == FromL1(e.msg))
            && (now >= e.expires ==> st'.queue == if |st.queue| < 64 then st.queue + [k] else st.queue)
  {
  }

  /** Writing a slot leaves every other slot alone. */
  lemma SlotsApart(l1: seq<Slot>, h: nat, msg: Message, expires: int, h': nat, now: int)
    requires |l1| == 4096 && h % 4096 != h' % 4096
    ensures TurboLookup(TurboInsert(l1, h, msg, expires), h', now) == TurboLookup(l1, h', now)
  {
  }

  // ---------------------------------------------------------------- replies

  lemma ReplyFlagsAre(req: Message)
    ensures var r, f := CreateReply(req), req.header.flags;
            && r.header.id == req.header.id && r.questions == req.questions
            && r.header.flags / 32768 == 1 && r.header.flags / 128 % 2 == 1 && r.header.flags % 16 == f % 16
            && SameMiddle(f, r.header.flags)
  {
    ReplyFlags(req, 0);
    FlagNumbers(CreateReply(req).header.flags);
    FlagNumbers(req.header.flags);
    hide CreateReply, CreateError, SameMiddle, Qr, Ra, Rcode;
  }

  lemma CachedSections(req: Message, m: Message)
    requires |m.answers| < 65536 && |m.authorities| < 65536 && |m.additionals| < 65536
    ensures var r, base := CachedReply(req, m), CreateReply(req);
            && r.header.id == base.header.id && r.questions == base.questions && r.header.flags == base.header.flags
            && r.answers == m.answers && r.authorities == m.authorities && r.additionals == m.additionals
            && r.header.ancount == |m.answers| && r.header.nscount == |m.authorities|
            && r.header.arcount == |m.additionals|
  {
    hide CreateReply;
  }

  /** A reply from the cache to a parsed query: the query's id and questions, the sections of the
      cached message with their counts, and the flags of a reply to the query. */
  lemma CachedReplyIs(req: Message, m: Message)
    requires |m.answers| < 65536 && |m.authorities| < 65536 && |m.additionals| < 65536
    ensures var r, f := CachedReply(req, m), req.header.flags;
            && r.header.id == req.header.id && r.questions == req.questions
            && r.answers == m.answers && r.authorities == m.authorities && r.additionals == m.additionals
            && r.header.ancount == |m.answers| && r.header.nscount == |m.authorities|
            && r.header.arcount == |m.additionals|
            && r.header.flags / 32768 == 1 && r.header.flags / 128 % 2 == 1 && r.header.flags % 16 == f % 16
            && SameMiddle(f, r.header.flags)
  {
    ReplyFlagsAre(req);
    CachedSections(req, m);
    hide CreateReply, CachedReply, SameMiddle;
  }

  /** A reply built from raw bytes is a response without error, recursion desired and available, and no
      other flag; its counts are those of its sections. */
  lemma RawReplyIs(id: u16, m: Message)
    requires |m.answers| < 65536 && |m.authorities| < 65536 && |m.additionals| < 65536
    ensures var r, s := RawReply(id, m), RawStaleReply(id, m);
            && r.header.id == s.header.id == id && r.header.flags == s.header.flags == 32768 + 256 + 128
            && r.header.qdcount == s.header.qdcount == 1 && r.questions == s.questions == m.questions
            && r.answers == s.answers == m.answers && r.header.ancount == s.header.ancount == |m.answers|
            && r.authorities == m.authorities && r.header.nscount == |m.authorities|
            && r.additionals == m.additionals && r.header.arcount == |m.additionals|
            && s.authorities == [] && s.header.nscount == 0 && s.additionals == [] && s.header.arcount == 0
  {
  }

  // ---------------------------------------------------------------- lifetimes and eviction

  /** The cache TTL is the least TTL of all records, brought into [minTTL, 7200]; without records it is
      the minimum itself. */
  lemma CacheTTLExact(m: Message, minTTL: u32, least: u32)
    requires minTTL <= 7200
    requires (forall r :: IsRecordOf(m, r) ==> least <= r.ttl) && exists r :: IsRecordOf(m, r) && r.ttl == least
    ensures CacheTTL(m, minTTL) == if least < minTTL then minTTL else if least > 7200 then 7200 else least
  {
    hide LeastTTL;
    var l1 := LeastTTL(m.answers, MAX_TTL);
    var l2 := LeastTTL(m.authorities, l1);
    var l3 := LeastTTL(m.additionals, l2);
    LeastTTLMeaning(m.answers, MAX_TTL);
    LeastTTLMeaning(m.authorities, l1);
    LeastTTLMeaning(m.additionals, l2);
    var r :| IsRecordOf(m, r) && r.ttl == least;
    LeastOfThree(m, least, l1, l2, l3);
  }

  lemma LeastOfThree(m: Message, least: u32, l1: u32, l2: u32, l3: u32)
    requires l1 == LeastTTL(m.answers, 7200) && l2 == LeastTTL(m.authorities, l1) && l3 == LeastTTL(m.additionals, l2)
    requires (forall r :: IsRecordOf(m, r) ==> least <= r.ttl) && exists r :: IsRecordOf(m, r) && r.ttl == least
    ensures l3 == (if least > 7200 then 7200 else least)
  {
    hide LeastTTL;
    LeastTTLMeaning(m.answers, 7200);
    LeastTTLMeaning(m.authorities, l1);
    LeastTTLMeaning(m.additionals, l2);
    assert forall i :: 0 <= i < |m.answers| ==> IsRecordOf(m, m.answers[i]);
    assert forall i :: 0 <= i < |m.authorities| ==> IsRecordOf(m, m.authorities[i]);
    assert forall i :: 0 <= i < |m.additionals| ==> IsRecordOf(m, m.additionals[i]);
    var r :| IsRecordOf(m, r) && r.ttl == least;
    if r in m.answers {
      var i :| 0 <= i < |m.answers| && m.answers[i] == r;
    } else if r in m.authorities {
      var i :| 0 <= i < |m.authorities| && m.authorities[i] == r;
    } else {
      var i :| 0 <= i < |m.additionals| && m.additionals[i] == r;
    }
  }

  /** The entry that is given up, by expiry alone: if some entry has a millisecond or more to live, the
      victim has, and no such entry has fewer whole milliseconds. */
  lemma VictimByExpiry(l2: map<Key, Entry>, now: int, v: Key)
    requires v in l2
    ensures IsVictim(l2, now, v) <==>
            forall k :: k in l2 && l2[k].expires >= now + 1_000_000 ==>
              && l2[v].expires >= now + 1_000_000
              && (l2[v].expires - now) / 1_000_000 <= (l2[k].expires - now) / 1_000_000
  {
    forall k | k in l2
      ensures RemainingMs(l2[k], now) > 0 <==> l2[k].expires >= now + 1_000_000
      ensures RemainingMs(l2[k], now) > 0 ==> RemainingMs(l2[k], now) == (l2[k].expires - now) / 1_000_000
    {
      MillisLeft(l2[k], now);
    }
    hide RemainingMs;
  }

  lemma MillisLeft(e: Entry, now: int)
    ensures RemainingMs(e, now) > 0 <==> e.expires >= now + 1_000_000
    ensures RemainingMs(e, now) > 0 ==> RemainingMs(e, now) == (e.expires - now) / 1_000_000
  {
  }

  /** A collection keeps an entry exactly if it expires later, and as it was. */
  lemma CollectsExpired(l2: map<Key, Entry>, now: int, k: Key)
    ensures k in Live(l2, now) <==> k in l2 && now < l2[k].expires
    ensures k in Live(l2, now) ==> Live(l2, now)[k] == l2[k]
  {
  }
}
