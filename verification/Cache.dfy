/** The two-tier cache: what each operation of the caching resolver does to a direct-mapped,
    hash-compared first level (L1), a keyed second level (L2) and the refresh queue. */
module Cache {
  import opened Bytes
  import opened Names
  import opened Messages

  /** Clock readings are steady_clock nanoseconds; TTLs are whole seconds. */
  const SECOND: int := 1_000_000_000
  const MILLI: int := 1_000_000

  const TURBO_SIZE: nat := 4096
  const MAX_CACHE_SIZE: nat := 50000
  const MAX_TTL: u32 := 7200
  const MAX_REFRESH_QUEUE: nat := 64
  const STALE_SECS: int := 60

  datatype Key = Key(name: Name, qtype: u16, qclass: u16)

  datatype Entry = Entry(msg: Message, ttl: u32, expires: int)

  datatype Slot = Slot(keyHash: nat, msg: Option<Message>, expires: int)

  /** `queue` holds the keys waiting for a background refresh. */
  datatype State = State(l1: seq<Slot>, l2: map<Key, Entry>, queue: seq<Key>)

  /** What the cache reads when it stores: the tunable TTLs and the clock. */
  datatype Config = Config(minTTL: u32, negTTL: u32)

  /** The hash is a parameter: everything holds for every hash function. */
  type Hash = Key -> nat

  function KeyOf(q: Question): Key {
    Key(q.qname, q.qtype, q.qclass)
  }

  function QuestionOf(k: Key): Question {
    Question(k.name, k.qtype, k.qclass)
  }

  // ---------------------------------------------------------------- time to live

  function LeastTTL(rs: seq<Record>, least: u32): u32 {
    if |rs| == 0 then least
    else
      var l := LeastTTL(rs[..|rs| - 1], least);
      if rs[|rs| - 1].ttl < l then rs[|rs| - 1].ttl else l
  }

  predicate HasRecords(m: Message) {
    m.answers != [] || m.authorities != [] || m.additionals != []
  }

  /** computeCacheTTL: the least record TTL, kept within [minTTL, 7200]. */
  function CacheTTL(m: Message, minTTL: u32): u32 {
    var least := LeastTTL(m.additionals, LeastTTL(m.authorities, LeastTTL(m.answers, MAX_TTL)));
    var ttl := if HasRecords(m) then least else minTTL;
    var raised := if ttl < minTTL then minTTL else ttl;
    if raised > MAX_TTL then MAX_TTL else raised
  }

  function Clobbered(rs: seq<Record>, ttl: u32): (r: seq<Record>)
    ensures |r| == |rs|
  {
    seq(|rs|, i requires 0 <= i < |rs| => rs[i].(ttl := ttl))
  }

  /** clobberTTL: every record gets the entry's TTL. */
  function WithTTL(m: Message, ttl: u32): Message {
    m.(answers := Clobbered(m.answers, ttl), authorities := Clobbered(m.authorities, ttl),
       additionals := Clobbered(m.additionals, ttl))
  }

  predicate IsNegative(m: Message) {
    var rc := Rcode(m.header.flags);
    rc == RCODE_NXDOMAIN || rc == RCODE_SERVFAIL || rc == RCODE_REFUSED
  }

  predicate ShouldCache(q: Question, reply: Message) {
    && Qr(reply.header.flags)
    && Opcode(reply.header.flags) == 0
    && |reply.questions| == 1
    && !Tc(reply.header.flags)
    && reply.questions[0].qname == q.qname
    && reply.questions[0].qtype == q.qtype
    && (IsNegative(reply) ||
        (Rcode(reply.header.flags) == RCODE_NOERROR && (reply.answers != [] || reply.authorities != [])))
  }

  function StoreTTL(reply: Message, c: Config): u32 {
    if IsNegative(reply) then c.negTTL else CacheTTL(reply, c.minTTL)
  }

  /** The TTL of a cached upstream failure: a tenth of the negative TTL, kept within [30, 60]. */
  function FailureTTL(c: Config): u32 {
    var t := c.negTTL / 10;
    if t < 30 then 30 else if t > 60 then 60 else t
  }

  // ---------------------------------------------------------------- lookup

  function SlotOf(h: nat): nat {
    h % TURBO_SIZE
  }

  function TurboLookup(l1: seq<Slot>, h: nat, now: int): Option<Message>
    requires |l1| == TURBO_SIZE
  {
    var s := l1[SlotOf(h)];
    if s.keyHash == h && s.msg.Some? && now < s.expires then s.msg else None
  }

  function TurboInsert(l1: seq<Slot>, h: nat, msg: Message, expires: int): (r: seq<Slot>)
    requires |l1| == TURBO_SIZE
    ensures |r| == TURBO_SIZE
  {
    l1[SlotOf(h) := Slot(h, Some(msg), expires)]
  }

  datatype Found = FromL1(msg: Message) | Fresh(entry: Entry) | Stale(entry: Entry) | Missing

  /** L1, then a live L2 entry, then an L2 entry expired by less than the stale threshold. */
  function Lookup(hash: Hash, st: State, stale: nat, k: Key, now: int): Found
    requires |st.l1| == TURBO_SIZE
  {
    var turbo := TurboLookup(st.l1, hash(k), now);
    if turbo.Some? then FromL1(turbo.value)
    else if k !in st.l2 then Missing
    else if now < st.l2[k].expires then Fresh(st.l2[k])
    else if now < st.l2[k].expires + stale * SECOND then Stale(st.l2[k])
    else Missing
  }

  function FoundMessage(f: Found): Message
    requires !f.Missing?
  {
    match f
    case FromL1(m) => m
    case Fresh(e) => e.msg
    case Stale(e) => e.msg
  }

  function Enqueued(queue: seq<Key>, k: Key): seq<Key> {
    if |queue| < MAX_REFRESH_QUEUE then queue + [k] else queue
  }

  /** What a lookup by query or peekCacheRaw leaves behind: hits in L2 are copied into L1, and a
      stale one stays there for another minute while its refresh is queued. */
  function AfterLookup(hash: Hash, st: State, stale: nat, k: Key, now: int): State
    requires |st.l1| == TURBO_SIZE
  {
    match Lookup(hash, st, stale, k, now)
    case Fresh(e) => st.(l1 := TurboInsert(st.l1, hash(k), e.msg, e.expires))
    case Stale(e) =>
      st.(l1 := TurboInsert(st.l1, hash(k), e.msg, now + STALE_SECS * SECOND), queue := Enqueued(st.queue, k))
    case _ => st
  }

  // ---------------------------------------------------------------- replies

  function CachedReply(req: Message, cached: Message): Message {
    var r := CreateReply(req);
    r.(answers := cached.answers, authorities := cached.authorities, additionals := cached.additionals,
       header := r.header.(ancount := |cached.answers| % 0x1_0000, nscount := |cached.authorities| % 0x1_0000,
                           arcount := |cached.additionals| % 0x1_0000))
  }

  const RAW_FLAGS: u16 := 0x8180

  /** The reply peekCacheRaw builds without the parsed query. */
  function RawReply(id: u16, cached: Message): Message {
    Message(Header(id, RAW_FLAGS, 1, |cached.answers| % 0x1_0000, |cached.authorities| % 0x1_0000,
                   |cached.additionals| % 0x1_0000),
            cached.questions, cached.answers, cached.authorities, cached.additionals)
  }

  /** Its form for a stale L2 hit: questions and answers only. */
  function RawStaleReply(id: u16, cached: Message): Message {
    Message(Header(id, RAW_FLAGS, 1, |cached.answers| % 0x1_0000, 0, 0), cached.questions, cached.answers, [], [])
  }

  /** What a client of query or peekCache gets back. */
  function HitReply(req: Message, f: Found): Option<Message> {
    if f.Missing? then None else Some(CachedReply(req, FoundMessage(f)))
  }

  function RawHitReply(id: u16, f: Found): Option<Message> {
    match f
    case FromL1(m) => Some(RawReply(id, m))
    case Fresh(e) => Some(RawReply(id, e.msg))
    case Stale(e) => Some(RawStaleReply(id, e.msg))
    case Missing => None
  }

  // ---------------------------------------------------------------- storing

  /** duration_cast to milliseconds, which truncates toward zero. */
  function RemainingMs(e: Entry, now: int): int {
    var d := e.expires - now;
    if d >= 0 then d / MILLI else -((-d) / MILLI)
  }

  /** The entry a full cache gives up: the least positive remaining time, or any entry if none is positive. */
  ghost predicate IsVictim(l2: map<Key, Entry>, now: int, v: Key) {
    && v in l2
    && ((exists k :: k in l2 && RemainingMs(l2[k], now) > 0) ==>
          && RemainingMs(l2[v], now) > 0
          && forall k :: k in l2 && RemainingMs(l2[k], now) > 0 ==> RemainingMs(l2[v], now) <= RemainingMs(l2[k], now))
  }

  /** L2 after storing `e` under `k`, giving up `v` if the cache is full. */
  function Stored(l2: map<Key, Entry>, k: Key, e: Entry, v: Key): map<Key, Entry> {
    if |l2| >= MAX_CACHE_SIZE then (l2 - {v})[k := e] else l2[k := e]
  }

  function Put(hash: Hash, st: State, k: Key, e: Entry, l2: map<Key, Entry>): State
    requires |st.l1| == TURBO_SIZE
  {
    State(TurboInsert(st.l1, hash(k), e.msg, e.expires), l2, st.queue)
  }

  function FailureEntry(req: Message, c: Config, now: int): Entry {
    var ttl := FailureTTL(c);
    Entry(WithTTL(CreateError(req, 2), ttl), ttl, now + ttl * SECOND)
  }

  function ReplyEntry(reply: Message, c: Config, now: int): Entry {
    var ttl := StoreTTL(reply, c);
    Entry(WithTTL(reply, ttl), ttl, now + ttl * SECOND)
  }

  /** The second half of a query that missed, once the backend has answered or failed. */
  function AfterMiss(hash: Hash, st: State, req: Message, reply: Option<Message>, c: Config, now: int, v: Key): State
    requires |st.l1| == TURBO_SIZE && |req.questions| == 1
  {
    var k := KeyOf(req.questions[0]);
    match reply
    case None =>
      var e := FailureEntry(req, c, now);
      if |st.l2| >= MAX_CACHE_SIZE then st else Put(hash, st, k, e, st.l2[k := e])
    case Some(r) =>
      var e := ReplyEntry(r, c, now);
      if ShouldCache(req.questions[0], r) then Put(hash, st, k, e, Stored(st.l2, k, e, v)) else st
  }

  /** refreshEntry: only an entry that is still there is replaced, and only in L2. */
  function AfterRefresh(st: State, k: Key, reply: Option<Message>, c: Config, now: int): State {
    if reply.Some? && ShouldCache(QuestionOf(k), reply.value) && k in st.l2
    then st.(l2 := st.l2[k := ReplyEntry(reply.value, c, now)])
    else st
  }

  function Live(l2: map<Key, Entry>, now: int): map<Key, Entry> {
    map k | k in l2 && now < l2[k].expires :: l2[k]
  }

  function EmptyCache(): State {
    State(seq(TURBO_SIZE, i => Slot(0, None, 0)), map[], [])
  }

  // ---------------------------------------------------------------- what the TTL functions mean

  lemma {:induction false} LeastTTLMeaning(rs: seq<Record>, least: u32)
    ensures LeastTTL(rs, least) <= least
    ensures forall i :: 0 <= i < |rs| ==> LeastTTL(rs, least) <= rs[i].ttl
    ensures LeastTTL(rs, least) == least || exists i :: 0 <= i < |rs| && rs[i].ttl == LeastTTL(rs, least)
  {
    if |rs| > 0 {
      LeastTTLMeaning(rs[..|rs| - 1], least);
      var l := LeastTTL(rs[..|rs| - 1], least);
      if rs[|rs| - 1].ttl >= l && l != least {
        var i :| 0 <= i < |rs| - 1 && rs[..|rs| - 1][i].ttl == l;
        assert rs[i].ttl == l;
      }
    }
  }

  ghost predicate IsRecordOf(m: Message, r: Record) {
    r in m.answers || r in m.authorities || r in m.additionals
  }

  /** The cache TTL never exceeds two hours and never falls below the minimum (when that is at most
      two hours), and above the minimum it never outlives any record of the message. */
  lemma CacheTTLMeaning(m: Message, minTTL: u32)
    ensures CacheTTL(m, minTTL) <= MAX_TTL
    ensures minTTL <= MAX_TTL ==> minTTL <= CacheTTL(m, minTTL)
    ensures CacheTTL(m, minTTL) > minTTL ==> forall r :: IsRecordOf(m, r) ==> CacheTTL(m, minTTL) <= r.ttl
  {
    hide LeastTTL;
    var l1 := LeastTTL(m.answers, MAX_TTL);
    var l2 := LeastTTL(m.authorities, l1);
    LeastTTLMeaning(m.answers, MAX_TTL);
    LeastTTLMeaning(m.authorities, l1);
    LeastTTLMeaning(m.additionals, l2);
  }
}
