/** The cache file: a header and one record per entry, written and read in the host's little-endian
    byte order. */
module CacheFile {
  import opened Bytes
  import opened Names
  import opened Messages
  import opened Cache
  import opened RoundTrip
  import Codec
  import Hits
  import Resolver

  const MAGIC: u32 := 0x4C594E58
  const VERSION: u32 := 1
  const MAX_COUNT: nat := 100000
  const MIN_WIRE: nat := 12
  const MAX_WIRE: nat := 4096
  const FILE_HEADER: nat := 12

  function Le16(v: u16): (bs: seq<byte>)
    ensures |bs| == 2
  {
    [v % 0x100, v / 0x100]
  }

  function Le32(v: u32): (bs: seq<byte>)
    ensures |bs| == 4
  {
    [v % 0x100, v / 0x100 % 0x100, v / 0x1_0000 % 0x100, v / 0x100_0000]
  }

  function ReadLe16(w: seq<byte>, p: nat): u16
    requires p + 2 <= |w|
  {
    (w[p + 1] as int) * 0x100 + w[p]
  }

  function ReadLe32(w: seq<byte>, p: nat): u32
    requires p + 4 <= |w|
  {
    (w[p + 3] as int) * 0x100_0000 + (w[p + 2] as int) * 0x1_0000 + (w[p + 1] as int) * 0x100 + w[p]
  }

  lemma ReadLe16Written(w: seq<byte>, p: nat, v: u16)
    requires At(w, p, Le16(v))
    ensures ReadLe16(w, p) == v
  {
    var s := w[p..p + 2];
    assert w[p] == s[0] && w[p + 1] == s[1];
  }

  lemma ReadLe32Written(w: seq<byte>, p: nat, v: u32)
    requires At(w, p, Le32(v))
    ensures ReadLe32(w, p) == v
  {
    var s := w[p..p + 4];
    assert w[p] == s[0] && w[p + 1] == s[1] && w[p + 2] == s[2] && w[p + 3] == s[3];
    U32Digits(v);
  }

  // ---------------------------------------------------------------- saving

  /** Whole seconds left, for an entry that has not expired. */
  function SecondsLeft(e: Entry, now: int): int {
    (e.expires - now) / SECOND
  }

  /** Reached the packing step of saveCache. */
  predicate Considered(k: Key, e: Entry, now: int) {
    now < e.expires && SecondsLeft(e, now) >= 1 && |k.name| <= 255
  }

  predicate Written(k: Key, e: Entry, now: int) {
    Considered(k, e, now) && |PackBytes(e.msg)| <= 65535
  }

  function RecordBytes(k: Key, e: Entry, now: int): seq<byte>
    requires Written(k, e, now)
  {
    var wire := PackBytes(e.msg);
    [|k.name|] + k.name + Le16(k.qtype) + Le16(k.qclass)
    + Le32(SecondsLeft(e, now) % 0x1_0000_0000) + Le16(|wire|) + wire
  }

  /** The records of the entries in the order the map is walked. */
  function Body(order: seq<Key>, l2: map<Key, Entry>, now: int): seq<byte>
    requires forall i :: 0 <= i < |order| ==> order[i] in l2
  {
    if |order| == 0 then []
    else
      var k := order[|order| - 1];
      var front := Body(order[..|order| - 1], l2, now);
      if Written(k, l2[k], now) then front + RecordBytes(k, l2[k], now) else front
  }

  function LiveCount(order: seq<Key>, l2: map<Key, Entry>, now: int): nat
    requires forall i :: 0 <= i < |order| ==> order[i] in l2
  {
    if |order| == 0 then 0
    else LiveCount(order[..|order| - 1], l2, now) + (if now < l2[order[|order| - 1]].expires then 1 else 0)
  }

  ghost predicate Enumerates(order: seq<Key>, l2: map<Key, Entry>) {
    && |order| == |l2|
    && (forall i :: 0 <= i < |order| ==> order[i] in l2)
    && forall k :: k in l2 ==> k in order
  }

  predicate AllPackable(order: seq<Key>, l2: map<Key, Entry>, now: int)
    requires forall i :: 0 <= i < |order| ==> order[i] in l2
  {
    forall i :: 0 <= i < |order| && Considered(order[i], l2[order[i]], now) ==> Packable(l2[order[i]].msg)
  }

  function FileBytes(order: seq<Key>, l2: map<Key, Entry>, now: int): seq<byte>
    requires forall i :: 0 <= i < |order| ==> order[i] in l2
  {
    Le32(MAGIC) + Le32(VERSION) + Le32(LiveCount(order, l2, now) % 0x1_0000_0000) + Body(order, l2, now)
  }

  function SaveSpec(order: seq<Key>, l2: map<Key, Entry>, now: int): Result<seq<byte>>
    requires forall i :: 0 <= i < |order| ==> order[i] in l2
  {
    if AllPackable(order, l2, now) then Ok(FileBytes(order, l2, now)) else Err(LabelTooLong)
  }

  // ---------------------------------------------------------------- loading

  /** The reader: its position, whether the stream is still good, the entries so far, and the
      exception that ended it, if any. */
  datatype Reader = Reader(pos: nat, good: bool, l2: map<Key, Entry>, error: Option<Error>)

  function Restored(msg: Message, ttl: u32, now: int): Entry {
    Entry(WithTTL(msg, ttl), ttl, now + ttl * SECOND)
  }

  /** One turn of the loading loop on a good stream. A record whose wire length is out of range is
      skipped without skipping its wire bytes. */
  function ReadRecord(w: seq<byte>, r: Reader, now: int): Reader {
    if r.pos + 1 > |w| then r.(good := false)
    else
      var n := w[r.pos];
      var p := r.pos + 1 + n;
      if p + 10 > |w| then r.(good := false)
      else
        var key := Key(w[r.pos + 1..p], ReadLe16(w, p), ReadLe16(w, p + 2));
        var ttl := ReadLe32(w, p + 4);
        var wireLen := ReadLe16(w, p + 8);
        var q := p + 10;
        if wireLen < MIN_WIRE || wireLen > MAX_WIRE then r.(pos := q)
        else if q + wireLen > |w| then r.(good := false)
        else
          match ParseSpec(w[q..q + wireLen])
          case Err(e) => r.(pos := q + wireLen, error := Some(e))
          case Ok(msg) =>
            if msg.questions == [] then r.(pos := q + wireLen)
            else r.(pos := q + wireLen, l2 := r.l2[key := Restored(msg, ttl, now)])
  }

  function Turn(w: seq<byte>, r: Reader, now: int): Reader {
    if r.good && r.error.None? then ReadRecord(w, r, now) else r
  }

  function ReadRecords(w: seq<byte>, start: Reader, n: nat, now: int): Reader {
    if n == 0 then start else Turn(w, ReadRecords(w, start, n - 1, now), now)
  }

  /** loadCache into `l2`: a file with a bad header or an implausible count changes nothing. */
  function LoadSpec(w: seq<byte>, l2: map<Key, Entry>, now: int): Reader {
    var start := Reader(FILE_HEADER, true, l2, None);
    if |w| < FILE_HEADER || ReadLe32(w, 0) != MAGIC || ReadLe32(w, 4) != VERSION || ReadLe32(w, 8) > MAX_COUNT
    then start
    else ReadRecords(w, start, ReadLe32(w, 8), now)
  }

  // ---------------------------------------------------------------- round trip

  /** What an entry comes back as: the same message with normalised names and fresh counts, its TTLs
      and expiry reset to the whole seconds it had left. */
  function Reloaded(e: Entry, saved: int, now: int): Entry {
    var ttl := SecondsLeft(e, saved) % 0x1_0000_0000;
    Restored(NormalMessage(e.msg), ttl, now)
  }

  /** An entry the file can carry: packable names, sound RDATA, a question, and at most 4096 bytes. */
  ghost predicate Storable(e: Entry) {
    Packable(e.msg) && SoundMessage(e.msg) && e.msg.questions != [] && |PackBytes(e.msg)| <= MAX_WIRE
  }

  ghost predicate AllStorable(order: seq<Key>, l2: map<Key, Entry>, now: int)
    requires forall i :: 0 <= i < |order| ==> order[i] in l2
  {
    forall i :: 0 <= i < |order| && Considered(order[i], l2[order[i]], now) ==> Storable(l2[order[i]])
  }

  function WrittenCount(order: seq<Key>, l2: map<Key, Entry>, now: int): nat
    requires forall i :: 0 <= i < |order| ==> order[i] in l2
  {
    if |order| == 0 then 0
    else
      var k := order[|order| - 1];
      WrittenCount(order[..|order| - 1], l2, now) + (if Written(k, l2[k], now) then 1 else 0)
  }

  function ReloadedMap(order: seq<Key>, l2: map<Key, Entry>, saved: int, now: int): map<Key, Entry>
    requires forall i :: 0 <= i < |order| ==> order[i] in l2
  {
    if |order| == 0 then map[]
    else
      var k := order[|order| - 1];
      var front := ReloadedMap(order[..|order| - 1], l2, saved, now);
      if Written(k, l2[k], saved) then front[k := Reloaded(l2[k], saved, now)] else front
  }

  lemma FrontLayout(w: seq<byte>, pos: nat, k: Key)
    requires |k.name| <= 255 && At(w, pos, [|k.name|] + k.name + Le16(k.qtype) + Le16(k.qclass))
    ensures var p := pos + 1 + |k.name|;
            && p + 4 <= |w| && w[pos] == |k.name| && w[pos + 1..p] == k.name
            && ReadLe16(w, p) == k.qtype && ReadLe16(w, p + 2) == k.qclass
  {
    hide Le16, ReadLe16;
    var n: seq<byte>, t, c := [|k.name|], Le16(k.qtype), Le16(k.qclass);
    AtSplit(w, pos, n + k.name + t, c);
    AtSplit(w, pos, n + k.name, t);
    AtSplit(w, pos, n, k.name);
    var p := pos + 1 + |k.name|;
    assert w[pos] == w[pos..pos + 1][0];
    ReadLe16Written(w, p, k.qtype);
    ReadLe16Written(w, p + 2, k.qclass);
  }

  lemma BackLayout(w: seq<byte>, pos: nat, front: seq<byte>, secs: u32, wire: seq<byte>)
    requires |wire| <= 65535 && At(w, pos, front + Le32(secs) + Le16(|wire|) + wire)
    ensures var p := pos + |front|;
            && At(w, pos, front) && p + 6 + |wire| <= |w|
            && ReadLe32(w, p) == secs && ReadLe16(w, p + 4) == |wire| && w[p + 6..p + 6 + |wire|] == wire
  {
    hide Le16, Le32, ReadLe16, ReadLe32;
    var s, l := Le32(secs), Le16(|wire|);
    AtSplit(w, pos, front + s + l, wire);
    AtSplit(w, pos, front + s, l);
    AtSplit(w, pos, front, s);
    var p := pos + |front|;
    ReadLe32Written(w, p, secs);
    ReadLe16Written(w, p + 4, |wire|);
  }

  lemma RecordLayout(w: seq<byte>, pos: nat, k: Key, e: Entry, now: int)
    requires Written(k, e, now) && At(w, pos, RecordBytes(k, e, now))
    ensures var p := pos + 1 + |k.name|;
            var wire := PackBytes(e.msg);
            && p + 10 + |wire| == pos + |RecordBytes(k, e, now)| <= |w|
            && w[pos] == |k.name| && w[pos + 1..p] == k.name
            && ReadLe16(w, p) == k.qtype && ReadLe16(w, p + 2) == k.qclass
            && ReadLe32(w, p + 4) == SecondsLeft(e, now) % 0x1_0000_0000
            && ReadLe16(w, p + 8) == |wire| && w[p + 10..p + 10 + |wire|] == wire
  {
    hide PackBytes, SecondsLeft, Le16, Le32, ReadLe16, ReadLe32, At;
    var n: seq<byte> := [|k.name|];
    var front := n + k.name + Le16(k.qtype) + Le16(k.qclass);
    BackLayout(w, pos, front, SecondsLeft(e, now) % 0x1_0000_0000, PackBytes(e.msg));
    FrontLayout(w, pos, k);
  }

  lemma StorableReload(e: Entry)
    requires Storable(e)
    ensures MIN_WIRE <= |PackBytes(e.msg)| <= MAX_WIRE
    ensures ParseSpec(PackBytes(e.msg)) == Ok(NormalMessage(e.msg)) && NormalMessage(e.msg).questions != []
  {
    PackThenParse(e.msg, MAX_JUMPS);
    hide SoundMessage, PackBytes, ParseWith, Packable, NormalMessage;
    PackSizeAtLeastHeader(e.msg);
    NormalKeepsQuestions(e.msg);
  }

  /** Canonical names come back as they were. */
  lemma CanonicalReloaded(e: Entry, saved: int, now: int)
    requires CanonicalOwners(e.msg)
    ensures Reloaded(e, saved, now) == Restored(WithCounts(e.msg), SecondsLeft(e, saved) % 0x1_0000_0000, now)
  {
    hide CanonicalOwners, NormalMessage, WithCounts, Packable;
    CanonicalIsNormal(e.msg);
  }

  lemma ReadOne(
    w: seq<byte>, r: Reader, name: Name, qtype: u16, qclass: u16, ttl: u32, msg: Message, len: nat, now: int)
    requires |name| <= 255 && MIN_WIRE <= len <= MAX_WIRE
    requires var p := r.pos + 1 + |name|;
             && p + 10 + len <= |w| && w[r.pos] == |name| && w[r.pos + 1..p] == name
             && ReadLe16(w, p) == qtype && ReadLe16(w, p + 2) == qclass && ReadLe32(w, p + 4) == ttl
             && ReadLe16(w, p + 8) == len && ParseSpec(w[p + 10..p + 10 + len]) == Ok(msg)
    requires msg.questions != []
    ensures ReadRecord(w, r, now)
         == r.(pos := r.pos + 11 + |name| + len, l2 := r.l2[Key(name, qtype, qclass) := Restored(msg, ttl, now)])
  {
    hide ParseSpec, ReadLe16, ReadLe32, Restored;
  }

  /** A storable entry's record is read back as that entry, wherever it stands in the file. */
  lemma RecordReload(w: seq<byte>, r: Reader, k: Key, e: Entry, saved: int, now: int)
    requires Written(k, e, saved) && Storable(e)
    requires At(w, r.pos, RecordBytes(k, e, saved))
    ensures ReadRecord(w, r, now)
         == r.(pos := r.pos + |RecordBytes(k, e, saved)|, l2 := r.l2[k := Reloaded(e, saved, now)])
  {
    hide Storable, PackBytes, RecordBytes, SecondsLeft, ParseSpec, ReadLe16, ReadLe32, WithTTL, NormalMessage, At;
    hide ReadRecord, Restored;
    RecordLayout(w, r.pos, k, e, saved);
    StorableReload(e);
    ReadOne(w, r, k.name, k.qtype, k.qclass, SecondsLeft(e, saved) % 0x1_0000_0000, NormalMessage(e.msg),
            |PackBytes(e.msg)|, now);
  }

  lemma NormalKeepsQuestions(m: Message)
    ensures |NormalMessage(m).questions| == |m.questions|
  {
  }

  lemma PackSizeAtLeastHeader(m: Message)
    ensures |PackBytes(m)| >= MIN_WIRE
  {
  }

  lemma BodyPrefix(w: seq<byte>, pos: nat, order: seq<Key>, l2: map<Key, Entry>, now: int)
    requires |order| > 0 && forall i :: 0 <= i < |order| ==> order[i] in l2
    requires At(w, pos, Body(order, l2, now))
    ensures At(w, pos, Body(order[..|order| - 1], l2, now))
    ensures var k, front := order[|order| - 1], Body(order[..|order| - 1], l2, now);
            Written(k, l2[k], now) ==>
              && At(w, pos + |front|, RecordBytes(k, l2[k], now))
              && Body(order, l2, now) == front + RecordBytes(k, l2[k], now)
  {
    hide At, RecordBytes, Written;
    var k, front := order[|order| - 1], Body(order[..|order| - 1], l2, now);
    if Written(k, l2[k], now) {
      AtSplit(w, pos, front, RecordBytes(k, l2[k], now));
    }
  }

  lemma StorableInit(order: seq<Key>, l2: map<Key, Entry>, now: int)
    requires |order| > 0 && (forall i :: 0 <= i < |order| ==> order[i] in l2) && AllStorable(order, l2, now)
    ensures AllStorable(order[..|order| - 1], l2, now)
    ensures var k := order[|order| - 1]; Written(k, l2[k], now) ==> Storable(l2[k])
  {
    hide Storable, PackBytes;
  }

  lemma BodyReloadStep(w: seq<byte>, r: Reader, order: seq<Key>, l2: map<Key, Entry>, saved: int, now: int, n: nat)
    requires |order| > 0 && forall i :: 0 <= i < |order| ==> order[i] in l2
    requires var k, init := order[|order| - 1], order[..|order| - 1];
             && At(w, FILE_HEADER, Body(order, l2, saved))
             && (Written(k, l2[k], saved) ==> Storable(l2[k]))
             && r == Reader(FILE_HEADER + |Body(init, l2, saved)|, true, ReloadedMap(init, l2, saved, now), None)
             && n == (if Written(k, l2[k], saved) then 1 else 0)
    ensures (if n == 1 then Turn(w, r, now) else r)
         == Reader(FILE_HEADER + |Body(order, l2, saved)|, true, ReloadedMap(order, l2, saved, now), None)
  {
    hide At, RecordBytes, Storable, Reloaded, ReadRecord, Written;
    BodyPrefix(w, FILE_HEADER, order, l2, saved);
    var k := order[|order| - 1];
    if Written(k, l2[k], saved) {
      RecordReload(w, r, k, l2[k], saved, now);
    }
  }

  /** Reading as many records as were written restores exactly those entries. */
  lemma {:induction false} BodyReload(w: seq<byte>, order: seq<Key>, l2: map<Key, Entry>, saved: int, now: int)
    requires forall i :: 0 <= i < |order| ==> order[i] in l2
    requires AllStorable(order, l2, saved)
    requires At(w, FILE_HEADER, Body(order, l2, saved))
    ensures ReadRecords(w, Reader(FILE_HEADER, true, map[], None), WrittenCount(order, l2, saved), now)
         == Reader(FILE_HEADER + |Body(order, l2, saved)|, true, ReloadedMap(order, l2, saved, now), None)
  {
    hide At, Storable, AllStorable, Written, Turn, ReloadedMap, Body, WrittenCount, ReadRecords;
    var start := Reader(FILE_HEADER, true, map[], None);
    if |order| == 0 {
      NothingWritten(w, order, l2, saved, now);
    } else {
      var init, k := order[..|order| - 1], order[|order| - 1];
      StorableInit(order, l2, saved);
      BodyPrefix(w, FILE_HEADER, order, l2, saved);
      BodyReload(w, init, l2, saved, now);
      var c := WrittenCount(init, l2, saved);
      var n := if Written(k, l2[k], saved) then 1 else 0;
      CountStep(w, start, order, l2, saved, now);
      BodyReloadStep(w, ReadRecords(w, start, c, now), order, l2, saved, now, n);
    }
  }

  lemma NothingWritten(w: seq<byte>, order: seq<Key>, l2: map<Key, Entry>, saved: int, now: int)
    requires |order| == 0
    ensures ReadRecords(w, Reader(FILE_HEADER, true, map[], None), WrittenCount(order, l2, saved), now)
         == Reader(FILE_HEADER + |Body(order, l2, saved)|, true, ReloadedMap(order, l2, saved, now), None)
  {
  }

  lemma CountStep(w: seq<byte>, start: Reader, order: seq<Key>, l2: map<Key, Entry>, saved: int, now: int)
    requires |order| > 0 && forall i :: 0 <= i < |order| ==> order[i] in l2
    ensures var k, c := order[|order| - 1], WrittenCount(order[..|order| - 1], l2, saved);
            ReadRecords(w, start, WrittenCount(order, l2, saved), now)
            == if Written(k, l2[k], saved) then Turn(w, ReadRecords(w, start, c, now), now)
               else ReadRecords(w, start, c, now)
  {
    hide Written, Turn;
  }

  lemma {:induction false} WrittenAreLive(order: seq<Key>, l2: map<Key, Entry>, now: int)
    requires forall i :: 0 <= i < |order| ==> order[i] in l2
    ensures WrittenCount(order, l2, now) <= LiveCount(order, l2, now)
  {
    if |order| > 0 {
      WrittenAreLive(order[..|order| - 1], l2, now);
    }
  }

  lemma {:induction false} LiveAtMost(order: seq<Key>, l2: map<Key, Entry>, now: int)
    requires forall i :: 0 <= i < |order| ==> order[i] in l2
    ensures LiveCount(order, l2, now) <= |order|
  {
    if |order| > 0 {
      LiveAtMost(order[..|order| - 1], l2, now);
    }
  }

  /** Turns past the last record only mark the stream as ended. */
  lemma {:induction false} ExtraTurns(w: seq<byte>, start: Reader, n: nat, extra: nat, now: int)
    requires ReadRecords(w, start, n, now).pos >= |w| && ReadRecords(w, start, n, now).error.None?
    ensures var r := ReadRecords(w, start, n, now);
            var r' := ReadRecords(w, start, n + extra, now);
            r'.l2 == r.l2 && r'.error == r.error && r'.pos == r.pos
    decreases extra
  {
    if extra > 0 {
      ExtraTurns(w, start, n, extra - 1, now);
      assert ReadRecords(w, start, n + extra, now) == Turn(w, ReadRecords(w, start, n + extra - 1, now), now);
    }
  }

  lemma {:induction false} ReloadedMapMeaning(order: seq<Key>, l2: map<Key, Entry>, saved: int, now: int)
    requires forall i :: 0 <= i < |order| ==> order[i] in l2
    ensures ReloadedMap(order, l2, saved, now)
         == map k | k in order && k in l2 && Written(k, l2[k], saved) :: Reloaded(l2[k], saved, now)
  {
    hide Written, Reloaded;
    if |order| > 0 {
      ReloadedMapMeaning(order[..|order| - 1], l2, saved, now);
      assert order == order[..|order| - 1] + [order[|order| - 1]];
    }
  }

  lemma FileLayout(order: seq<Key>, l2: map<Key, Entry>, now: int)
    requires forall i :: 0 <= i < |order| ==> order[i] in l2
    ensures var w := FileBytes(order, l2, now);
            && |w| == FILE_HEADER + |Body(order, l2, now)|
            && ReadLe32(w, 0) == MAGIC && ReadLe32(w, 4) == VERSION
            && ReadLe32(w, 8) == LiveCount(order, l2, now) % 0x1_0000_0000
            && At(w, FILE_HEADER, Body(order, l2, now))
  {
    hide Body, LiveCount, Le32, ReadLe32;
    var w := FileBytes(order, l2, now);
    var m, v, c, b := Le32(MAGIC), Le32(VERSION), Le32(LiveCount(order, l2, now) % 0x1_0000_0000), Body(order, l2, now);
    assert At(w, 0, w);
    AtSplit(w, 0, m + v + c, b);
    AtSplit(w, 0, m + v, c);
    AtSplit(w, 0, m, v);
    ReadLe32Written(w, 0, MAGIC);
    ReadLe32Written(w, 4, VERSION);
    ReadLe32Written(w, 8, LiveCount(order, l2, now) % 0x1_0000_0000);
  }

  /** Save/load round trip: loading a saved file into an empty cache yields exactly the entries that
      had at least one whole second left and a key of at most 255 bytes, each under the same key, with
      the same message, and with record TTLs and expiry reset to the seconds it had left, even though
      the header may announce more records than were written. */
  lemma SaveLoadRoundTrip(order: seq<Key>, l2: map<Key, Entry>, saved: int, now: int)
    requires Enumerates(order, l2) && AllStorable(order, l2, saved) && LiveCount(order, l2, saved) <= MAX_COUNT
    ensures SaveSpec(order, l2, saved).Ok?
    ensures var r := LoadSpec(SaveSpec(order, l2, saved).value, map[], now);
            && r.error.None?
            && r.l2 == map k | k in l2 && Considered(k, l2[k], saved) :: Reloaded(l2[k], saved, now)
  {
    hide Body, LiveCount, WrittenCount, ReloadedMap, FileBytes, ReadRecords, At, Reloaded, AllPackable, Considered;
    hide AllStorable, ReadLe32, Written;
    StorableArePackable(order, l2, saved);
    FileReload(order, l2, saved, now);
    ReloadedMapMeaning(order, l2, saved, now);
    WrittenIsConsidered(order, l2, saved);
    assert ReloadedMap(order, l2, saved, now)
        == map k | k in l2 && Considered(k, l2[k], saved) :: Reloaded(l2[k], saved, now);
  }

  lemma ConsideredIs(k: Key, e: Entry, now: int)
    ensures Considered(k, e, now) <==> |k.name| <= 255 && e.expires >= now + 1_000_000_000
    ensures Considered(k, e, now) ==> (e.expires - now) / 1_000_000_000 >= 1
  {
  }

  lemma ReloadedIs(e: Entry, saved: int, now: int)
    requires 0 <= (e.expires - saved) / 1_000_000_000 < 0x1_0000_0000
    ensures var r, left := Reloaded(e, saved, now), (e.expires - saved) / 1_000_000_000;
            && r.ttl == left && r.expires == now + left * 1_000_000_000
            && Hits.SameAnswer(r.msg, NormalMessage(e.msg))
            && forall x :: IsRecordOf(r.msg, x) ==> x.ttl == left
  {
    hide NormalMessage;
    Hits.WithTTLSame(NormalMessage(e.msg), SecondsLeft(e, saved) % 0x1_0000_0000);
    hide Hits.SameAnswer;
  }

  /** The round trip in plain numbers: what comes back is what had a second to live and a key of at most
      255 bytes; its TTLs, its own and its records', are the whole seconds it had left. */
  lemma SaveLoadExact(order: seq<Key>, l2: map<Key, Entry>, saved: int, now: int, k: Key)
    requires Enumerates(order, l2) && AllStorable(order, l2, saved) && LiveCount(order, l2, saved) <= 100_000
    ensures SaveSpec(order, l2, saved).Ok?
    ensures var loaded := LoadSpec(SaveSpec(order, l2, saved).value, map[], now).l2;
            && (k in loaded <==> k in l2 && |k.name| <= 255 && l2[k].expires >= saved + 1_000_000_000)
            && (k in loaded && (l2[k].expires - saved) / 1_000_000_000 < 0x1_0000_0000 ==>
                  var left := (l2[k].expires - saved) / 1_000_000_000;
                  && loaded[k].ttl == left && loaded[k].expires == now + left * 1_000_000_000
                  && Hits.SameAnswer(loaded[k].msg, NormalMessage(l2[k].msg))
                  && forall x :: IsRecordOf(loaded[k].msg, x) ==> x.ttl == left)
  {
    SaveLoadRoundTrip(order, l2, saved, now);
    hide SaveSpec, LoadSpec, AllStorable, Enumerates, Reloaded, Hits.SameAnswer, IsRecordOf, LiveCount;
    if k in l2 {
      ConsideredIs(k, l2[k], saved);
    }
    hide Considered, SecondsLeft;
    if k in l2 && Considered(k, l2[k], saved) && (l2[k].expires - saved) / 1_000_000_000 < 0x1_0000_0000 {
      ReloadedIs(l2[k], saved, now);
    }
  }

  lemma OneRecordFile(k: Key, e: Entry, saved: int)
    requires Written(k, e, saved)
    ensures Body([k], map[k := e], saved) == RecordBytes(k, e, saved) && LiveCount([k], map[k := e], saved) == 1
  {
    hide RecordBytes;
    var order, l2 := [k], map[k := e];
    assert order[..0] == [];
    assert Body(order[..0], l2, saved) == [] && LiveCount(order[..0], l2, saved) == 0;
  }

  lemma SkipOne(w: seq<byte>, r: Reader, n: nat, now: int)
    requires r.pos + 11 + n <= |w| && w[r.pos] == n
    requires ReadLe16(w, r.pos + 9 + n) < MIN_WIRE || ReadLe16(w, r.pos + 9 + n) > MAX_WIRE
    ensures ReadRecord(w, r, now) == r.(pos := r.pos + 11 + n)
  {
    hide ParseSpec, ReadLe16, ReadLe32, Restored;
  }

  lemma SkipOversized(w: seq<byte>, r: Reader, k: Key, e: Entry, saved: int, now: int)
    requires Written(k, e, saved) && At(w, r.pos, RecordBytes(k, e, saved)) && |PackBytes(e.msg)| > MAX_WIRE
    ensures var q := r.pos + 11 + |k.name|;
            && ReadRecord(w, r, now) == r.(pos := q)
            && q + |PackBytes(e.msg)| <= |w| && w[q..q + |PackBytes(e.msg)|] == PackBytes(e.msg)
  {
    hide PackBytes, RecordBytes, SecondsLeft, ParseSpec, ReadLe16, ReadLe32, At, ReadRecord;
    RecordLayout(w, r.pos, k, e, saved);
    SkipOne(w, r, |k.name|, now);
  }

  /** The 4096-byte limit is needed: an entry whose message packs to more is written by saveCache (up
      to 65535 bytes) and lost by loadCache. */
  lemma OversizedEntryLost(k: Key, e: Entry, saved: int, now: int)
    requires Written(k, e, saved) && Packable(e.msg) && |PackBytes(e.msg)| > MAX_WIRE
    ensures SaveSpec([k], map[k := e], saved).Ok?
    ensures LoadSpec(SaveSpec([k], map[k := e], saved).value, map[], now).l2 == map[]
  {
    hide Body, LiveCount, RecordBytes, At, ReadLe32, ReadRecord, PackBytes, FileBytes, Packable;
    var order, l2, start := [k], map[k := e], Reader(FILE_HEADER, true, map[], None);
    var w := FileBytes(order, l2, saved);
    FileLayout(order, l2, saved);
    OneRecordFile(k, e, saved);
    SkipOversized(w, start, k, e, saved, now);
    assert ReadRecords(w, start, 0, now) == start;
    assert ReadRecords(w, start, 1, now) == Turn(w, start, now);
  }

  lemma HeaderBytes(m: Message)
    ensures var b := PackBytes(m);
            && |b| >= MIN_WIRE && b[0] == m.header.id / 0x100
            && b[9] == |m.authorities| % 0x100 && b[10] == |m.additionals| % 0x1_0000 / 0x100
  {
    hide QuestionsWire, SectionWire, U16Bytes;
    var id, ns, ar := U16Bytes(m.header.id), U16Bytes(|m.authorities| % 0x1_0000), U16Bytes(|m.additionals| % 0x1_0000);
    SixPairs(id, U16Bytes(m.header.flags), U16Bytes(|m.questions| % 0x1_0000), U16Bytes(|m.answers| % 0x1_0000),
             ns, ar);
    PrefixBytes(HeaderWire(m), QuestionsWire(m.questions) + SectionWire(m.answers) + SectionWire(m.authorities)
                               + SectionWire(m.additionals));
    Regroup(HeaderWire(m), QuestionsWire(m.questions), SectionWire(m.answers), SectionWire(m.authorities),
            SectionWire(m.additionals));
    Halves(m.header.id);
    Halves(|m.authorities| % 0x1_0000);
    Halves(|m.additionals| % 0x1_0000);
  }

  lemma Halves(v: u16)
    ensures U16Bytes(v)[0] == v / 0x100 && U16Bytes(v)[1] == v % 0x100
  {
  }

  lemma SixPairs(a: seq<byte>, b: seq<byte>, c: seq<byte>, d: seq<byte>, e: seq<byte>, f: seq<byte>)
    requires |a| == |b| == |c| == |d| == |e| == |f| == 2
    ensures var s := a + b + c + d + e + f; |s| == 12 && s[0] == a[0] && s[9] == e[1] && s[10] == f[0]
  {
  }

  lemma PrefixBytes(hd: seq<byte>, rest: seq<byte>)
    ensures forall i :: 0 <= i < |hd| ==> (hd + rest)[i] == hd[i]
  {
  }

  lemma Regroup(hd: seq<byte>, a: seq<byte>, b: seq<byte>, c: seq<byte>, d: seq<byte>)
    ensures hd + a + b + c + d == hd + (a + b + c + d)
  {
  }

  /** The second turn of the loop starts inside the oversized message and takes its header for a
      record: an empty name and, where the wire length should be, a byte of each of two counts. */
  lemma SkipHeader(w: seq<byte>, r: Reader, m: Message, now: int)
    requires m.header.id < 0x100 && |m.authorities| < MIN_WIRE && |m.additionals| < 0x100
    requires r.pos + |PackBytes(m)| <= |w| && w[r.pos..r.pos + |PackBytes(m)|] == PackBytes(m)
    ensures ReadRecord(w, r, now).l2 == r.l2
  {
    var b := PackBytes(m);
    HeaderBytes(m);
    hide PackBytes;
    assert w[r.pos] == b[0] && w[r.pos + 9] == b[9] && w[r.pos + 10] == b[10];
    SkipOne(w, r, 0, now);
  }

  lemma TwoRecordFile(k: Key, e: Entry, k': Key, e': Entry, saved: int)
    requires k != k' && Written(k, e, saved) && Written(k', e', saved)
    ensures var order, l2 := [k, k'], map[k := e, k' := e'];
            && Body(order, l2, saved) == RecordBytes(k, e, saved) + RecordBytes(k', e', saved)
            && LiveCount(order, l2, saved) == 2
  {
    assert saved < e.expires && saved < e'.expires;
    hide RecordBytes, Written;
    var order, l2 := [k, k'], map[k := e, k' := e'];
    assert order[..1] == [k] && [k][..0] == [];
    assert Body([], l2, saved) == [] && LiveCount([], l2, saved) == 0;
    assert LiveCount([k], l2, saved) == 1;
    assert Body([k], l2, saved) == RecordBytes(k, e, saved);
  }

  /** The loader does not skip the oversized message itself, so what follows it is misread. Whatever
      entry comes second is lost as well when the oversized message has an id below 256 (a refreshed
      one has the id zero of its query), fewer than 12 authorities and fewer than 256 additionals. */
  lemma OversizedEntryHidesNext(k: Key, e: Entry, k': Key, e': Entry, saved: int, now: int)
    requires k != k' && Written(k, e, saved) && Written(k', e', saved) && Packable(e.msg) && Packable(e'.msg)
    requires |PackBytes(e.msg)| > MAX_WIRE
    requires e.msg.header.id < 0x100 && |e.msg.authorities| < MIN_WIRE && |e.msg.additionals| < 0x100
    ensures SaveSpec([k, k'], map[k := e, k' := e'], saved).Ok?
    ensures LoadSpec(SaveSpec([k, k'], map[k := e, k' := e'], saved).value, map[], now).l2 == map[]
  {
    hide Body, LiveCount, RecordBytes, At, ReadLe32, ReadRecord, PackBytes, FileBytes, Packable, Written;
    var order, l2, start := [k, k'], map[k := e, k' := e'], Reader(FILE_HEADER, true, map[], None);
    var w := FileBytes(order, l2, saved);
    FileLayout(order, l2, saved);
    TwoRecordFile(k, e, k', e', saved);
    AtSplit(w, FILE_HEADER, RecordBytes(k, e, saved), RecordBytes(k', e', saved));
    SkipOversized(w, start, k, e, saved, now);
    var next := Turn(w, start, now);
    SkipHeader(w, next, e.msg, now);
    assert ReadRecords(w, start, 0, now) == start;
    assert ReadRecords(w, start, 1, now) == next;
    assert ReadRecords(w, start, 2, now) == Turn(w, next, now);
  }

  lemma FileReload(order: seq<Key>, l2: map<Key, Entry>, saved: int, now: int)
    requires (forall i :: 0 <= i < |order| ==> order[i] in l2) && AllStorable(order, l2, saved)
    requires LiveCount(order, l2, saved) <= MAX_COUNT
    ensures var r := LoadSpec(FileBytes(order, l2, saved), map[], now);
            r.error.None? && r.l2 == ReloadedMap(order, l2, saved, now)
  {
    hide Body, LiveCount, WrittenCount, ReloadedMap, FileBytes, ReadRecords, At, AllStorable, ReadLe32;
    var w := FileBytes(order, l2, saved);
    FileLayout(order, l2, saved);
    BodyReload(w, order, l2, saved, now);
    WrittenAreLive(order, l2, saved);
    var n, count := WrittenCount(order, l2, saved), LiveCount(order, l2, saved);
    ExtraTurns(w, Reader(FILE_HEADER, true, map[], None), n, count - n, now);
    assert n + (count - n) == count;
  }

  lemma StorableArePackable(order: seq<Key>, l2: map<Key, Entry>, now: int)
    requires (forall i :: 0 <= i < |order| ==> order[i] in l2) && AllStorable(order, l2, now)
    ensures AllPackable(order, l2, now)
  {
    hide Packable, PackBytes, SoundMessage;
  }

  lemma WrittenIsConsidered(order: seq<Key>, l2: map<Key, Entry>, now: int)
    requires Enumerates(order, l2) && AllStorable(order, l2, now)
    ensures forall k :: k in l2 ==> (Written(k, l2[k], now) <==> Considered(k, l2[k], now))
  {
    forall k | k in l2 ensures Written(k, l2[k], now) <==> Considered(k, l2[k], now) {
      var i :| 0 <= i < |order| && order[i] == k;
      if Considered(k, l2[k], now) {
        assert Storable(l2[order[i]]);
      }
    }
  }

  // ---------------------------------------------------------------- the loops

  /** The order in which the map is walked; any order will do. */
  method WalkOrder(l2: map<Key, Entry>) returns (order: seq<Key>)
    ensures Enumerates(order, l2)
  {
    order := [];
    var todo := l2.Keys;
    while todo != {}
      invariant todo <= l2.Keys
      invariant forall i :: 0 <= i < |order| ==> order[i] in l2
      invariant forall k :: k in l2.Keys - todo ==> k in order
      invariant |order| + |todo| == |l2|
      decreases todo
    {
      var k :| k in todo;
      todo := todo - {k};
      order := order + [k];
    }
  }

  method CountLive(order: seq<Key>, l2: map<Key, Entry>, now: int) returns (count: nat)
    requires forall i :: 0 <= i < |order| ==> order[i] in l2
    ensures count == LiveCount(order, l2, now)
  {
    count := 0;
    for i := 0 to |order|
      invariant count == LiveCount(order[..i], l2, now)
    {
      assert order[..i + 1][..i] == order[..i];
      if now < l2[order[i]].expires {
        count := count + 1;
      }
    }
    assert order[..|order|] == order;
  }

  /** saveCache: a counting pass, then a writing pass over the same entries. */
  method SaveCache(l2: map<Key, Entry>, now: int) returns (r: Result<seq<byte>>, ghost order: seq<Key>)
    ensures Enumerates(order, l2) && r == SaveSpec(order, l2, now)
    ensures r.Ok? <==> forall k :: k in l2 && Considered(k, l2[k], now) ==> Packable(l2[k].msg)
  {
    var walk := WalkOrder(l2);
    order := walk;
    var count := CountLive(walk, l2, now);
    var body := WriteBody(walk, l2, now);
    EveryKeyPackable(walk, l2, now);
    if body.Err? {
      return Err(body.error), order;
    }
    hide Body, LiveCount, AllPackable;
    r := Ok(Le32(MAGIC) + Le32(VERSION) + Le32(count % 0x1_0000_0000) + body.value);
  }

  lemma EveryKeyPackable(order: seq<Key>, l2: map<Key, Entry>, now: int)
    requires Enumerates(order, l2)
    ensures AllPackable(order, l2, now) <==> forall k :: k in l2 && Considered(k, l2[k], now) ==> Packable(l2[k].msg)
  {
    hide Considered, Packable;
    if AllPackable(order, l2, now) {
      forall k | k in l2 && Considered(k, l2[k], now) ensures Packable(l2[k].msg) {
        var i :| 0 <= i < |order| && order[i] == k;
        assert Considered(order[i], l2[order[i]], now);
      }
    }
  }

  method WriteBody(order: seq<Key>, l2: map<Key, Entry>, now: int) returns (r: Result<seq<byte>>)
    requires forall i :: 0 <= i < |order| ==> order[i] in l2
    ensures r == if AllPackable(order, l2, now) then Ok(Body(order, l2, now)) else Err(LabelTooLong)
  {
    hide Packable, PackBytes, SecondsLeft;
    var out: seq<byte> := [];
    for i := 0 to |order|
      invariant AllPackable(order[..i], l2, now)
      invariant out == Body(order[..i], l2, now)
    {
      var k := order[i];
      var e := l2[k];
      assert order[..i + 1][..i] == order[..i];
      hide Body;
      BodyStep(order[..i + 1], l2, now);
      if now < e.expires && SecondsLeft(e, now) >= 1 && |k.name| <= 255 {
        var wire := Codec.Pack(e.msg);
        if wire.Err? {
          return Err(wire.error);
        }
        if |wire.value| <= 65535 {
          var len: byte := |k.name|;
          out := out + ([len] + k.name + Le16(k.qtype) + Le16(k.qclass)
                        + Le32(SecondsLeft(e, now) % 0x1_0000_0000) + Le16(|wire.value|) + wire.value);
        }
      }
    }
    assert order[..|order|] == order;
    r := Ok(out);
  }

  lemma BodyStep(order: seq<Key>, l2: map<Key, Entry>, now: int)
    requires |order| > 0 && forall i :: 0 <= i < |order| ==> order[i] in l2
    ensures var k, front := order[|order| - 1], Body(order[..|order| - 1], l2, now);
            Body(order, l2, now) == if Written(k, l2[k], now) then front + RecordBytes(k, l2[k], now) else front
  {
  }

  /** loadCache into an existing map. */
  method LoadCache(w: seq<byte>, l2: map<Key, Entry>, now: int) returns (r: Reader)
    ensures r == LoadSpec(w, l2, now)
  {
    hide ReadLe32, ReadRecord;
    r := Reader(FILE_HEADER, true, l2, None);
    if |w| < FILE_HEADER || ReadLe32(w, 0) != MAGIC || ReadLe32(w, 4) != VERSION {
      return;
    }
    var count := ReadLe32(w, 8);
    if count > MAX_COUNT {
      return;
    }
    ghost var start := r;
    var i := 0;
    while i < count && r.good && r.error.None?
      invariant 0 <= i <= count
      invariant r == ReadRecords(w, start, i, now)
    {
      r := LoadRecord(w, r, now);
      i := i + 1;
    }
    StoppedReader(w, start, i, count, now);
  }

  lemma {:induction false} StoppedReader(w: seq<byte>, start: Reader, i: nat, n: nat, now: int)
    requires i <= n && (i == n || !ReadRecords(w, start, i, now).good || ReadRecords(w, start, i, now).error.Some?)
    ensures ReadRecords(w, start, n, now) == ReadRecords(w, start, i, now)
    decreases n
  {
    hide ReadRecord;
    if i < n {
      StoppedReader(w, start, i, n - 1, now);
    }
  }

  /** One turn of the loading loop. */
  method LoadRecord(w: seq<byte>, r: Reader, now: int) returns (r': Reader)
    ensures r' == ReadRecord(w, r, now)
  {
    hide ParseSpec, ReadLe16, ReadLe32, WithTTL;
    if r.pos + 1 > |w| {
      return r.(good := false);
    }
    var nameLen := w[r.pos];
    var p := r.pos + 1 + nameLen;
    if p + 10 > |w| {
      return r.(good := false);
    }
    var key := Key(w[r.pos + 1..p], ReadLe16(w, p), ReadLe16(w, p + 2));
    var ttl := ReadLe32(w, p + 4);
    var wireLen := ReadLe16(w, p + 8);
    p := p + 10;
    if wireLen < MIN_WIRE || wireLen > MAX_WIRE {
      return r.(pos := p);
    }
    if p + wireLen > |w| {
      return r.(good := false);
    }
    var msg := Codec.Parse(w[p..p + wireLen]);
    if msg.Err? {
      return r.(pos := p + wireLen, error := Some(msg.error));
    }
    if msg.value.questions == [] {
      return r.(pos := p + wireLen);
    }
    var restored := Resolver.ClobberTTL(msg.value, ttl);
    return r.(pos := p + wireLen, l2 := r.l2[key := Entry(restored, ttl, now + ttl * SECOND)]);
  }
}
