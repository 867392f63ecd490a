/** DNS messages (section 4 of RFC 1035): what parse and pack compute. */
module Messages {
  import opened Bytes
  import opened Names

  datatype Header = Header(id: u16, flags: u16, qdcount: u16, ancount: u16, nscount: u16, arcount: u16)

  datatype Question = Question(qname: Name, qtype: u16, qclass: u16)

  datatype Record = Record(name: Name, rtype: u16, rclass: u16, ttl: u32, rdata: seq<byte>)

  datatype Message = Message(
    header: Header,
    questions: seq<Question>,
    answers: seq<Record>,
    authorities: seq<Record>,
    additionals: seq<Record>)

  const TYPE_NS: u16 := 2
  const TYPE_CNAME: u16 := 5
  const TYPE_SOA: u16 := 6
  const TYPE_PTR: u16 := 12
  const TYPE_MX: u16 := 15

  const HEADER_SIZE: nat := 12
  const SOA_TAIL: nat := 20

  /** The types whose RDATA is a single name. */
  predicate IsNameType(t: u16) {
    t == TYPE_CNAME || t == TYPE_NS || t == TYPE_PTR
  }

  /** A signed difference stored in a 64-bit size_t. */
  function SizeT(x: int): nat {
    x % 0x1_0000_0000_0000_0000
  }

  // ---------------------------------------------------------------- parsing

  function QuestionAt(w: seq<byte>, pos: nat, h: nat): Result<(Question, nat)> {
    var (name, p) :- NameAt(w, pos, h);
    if p + 4 > |w| then Err(TruncatedQuestion)
    else Ok((Question(name, ReadU16(w, p), ReadU16(w, p + 2)), p + 4))
  }

  /** RDATA as stored after parsing: names in it are decompressed. */
  function RdataAt(w: seq<byte>, start: nat, rdlen: u16, t: u16, h: nat): Result<seq<byte>>
    requires start + rdlen <= |w|
  {
    if IsNameType(t) then
      var (name, _) :- NameAt(w, start, h);
      NameToWireSpec(name)
    else if t == TYPE_MX then
      if rdlen < 2 then Err(TruncatedMx)
      else
        var (name, _) :- NameAt(w, start + 2, h);
        var wire :- NameToWireSpec(name);
        Ok(U16Bytes(ReadU16(w, start)) + wire)
    else if t == TYPE_SOA then
      var (mname, p1) :- NameAt(w, start, h);
      var (rname, p2) :- NameAt(w, p1, h);
      if SizeT(rdlen - (p2 - start)) < SOA_TAIL then Err(TruncatedSoa)
      else
        var mwire :- NameToWireSpec(mname);
        var rwire :- NameToWireSpec(rname);
        if p2 + SOA_TAIL > |w| then Err(SoaReadsPastMessage)
        else Ok(mwire + rwire + w[p2..p2 + SOA_TAIL])
    else Ok(w[start..start + rdlen])
  }

  lemma SizeTBelow(rdlen: u16, used: nat)
    requires used < 0x8000_0000_0000_0000
    ensures SizeT(rdlen - used) < SOA_TAIL <==> used <= rdlen && rdlen - used < SOA_TAIL
  {
    if used <= rdlen {
      assert SizeT(rdlen - used) == rdlen - used;
    } else {
      assert SizeT(rdlen - used) == 0x1_0000_0000_0000_0000 + rdlen - used;
    }
  }

  /** The SOA length check, computed in size_t: a record whose two names decode and end at `p2` is
      called truncated exactly when they end inside RDATA with fewer than 20 bytes left. Names that
      run past RDATA pass, and an accepted record ends in the 20 bytes after its names, inside RDATA
      or not. */
  lemma SoaLengthCheck(w: seq<byte>, start: nat, rdlen: u16, h: nat)
    requires start + rdlen <= |w| < 0x8000_0000_0000_0000
    requires NameAt(w, start, h).Ok? && NameAt(w, NameAt(w, start, h).value.1, h).Ok?
    ensures var p2 := NameAt(w, NameAt(w, start, h).value.1, h).value.1;
            var r := RdataAt(w, start, rdlen, TYPE_SOA, h);
            && (r == Err(TruncatedSoa) <==> p2 <= start + rdlen < p2 + SOA_TAIL)
            && (r.Ok? ==>
                  && p2 + SOA_TAIL <= |w| && |r.value| >= SOA_TAIL
                  && r.value[|r.value| - SOA_TAIL..] == w[p2..p2 + SOA_TAIL])
  {
    hide DecodeLabels, Join, AfterName, SizeT, NameToWireSpec;
    var p1 := NameAt(w, start, h).value.1;
    var p2 := NameAt(w, p1, h).value.1;
    DecodedCursor(w, start, h);
    DecodedCursor(w, p1, h);
    SizeTBelow(rdlen, p2 - start);
    OnlyLabelErrors(NameAt(w, start, h).value.0);
    OnlyLabelErrors(NameAt(w, p1, h).value.0);
    var r := RdataAt(w, start, rdlen, TYPE_SOA, h);
    if r.Ok? {
      var m, n := NameToWireSpec(NameAt(w, start, h).value.0), NameToWireSpec(NameAt(w, p1, h).value.0);
      TailOf(m.value + n.value, w[p2..p2 + SOA_TAIL]);
    }
  }

  lemma OnlyLabelErrors(name: Name)
    ensures NameToWireSpec(name) != Err(TruncatedSoa)
  {
  }

  lemma TailOf(a: seq<byte>, t: seq<byte>)
    ensures (a + t)[|a + t| - |t|..] == t
  {
  }

  function RecordAt(w: seq<byte>, pos: nat, h: nat): Result<(Record, nat)> {
    var (name, p) :- NameAt(w, pos, h);
    if p + 10 > |w| then Err(TruncatedRecord)
    else
      var rdlen := ReadU16(w, p + 8);
      if p + 10 + rdlen > |w| then Err(TruncatedRdlen)
      else
        var rdata :- RdataAt(w, p + 10, rdlen, ReadU16(w, p), h);
        Ok((Record(name, ReadU16(w, p), ReadU16(w, p + 2), ReadU32(w, p + 4), rdata), p + 10 + rdlen))
  }

  function QuestionsAt(w: seq<byte>, pos: nat, n: nat, h: nat): Result<(seq<Question>, nat)> {
    if n == 0 then Ok(([], pos))
    else
      var (qs, p) :- QuestionsAt(w, pos, n - 1, h);
      var (q, p') :- QuestionAt(w, p, h);
      Ok((qs + [q], p'))
  }

  function SectionAt(w: seq<byte>, pos: nat, n: nat, h: nat): Result<(seq<Record>, nat)> {
    if n == 0 then Ok(([], pos))
    else
      var (rs, p) :- SectionAt(w, pos, n - 1, h);
      var (r, p') :- RecordAt(w, p, h);
      Ok((rs + [r], p'))
  }

  function HeaderAt(w: seq<byte>): Header
    requires |w| >= HEADER_SIZE
  {
    Header(ReadU16(w, 0), ReadU16(w, 2), ReadU16(w, 4), ReadU16(w, 6), ReadU16(w, 8), ReadU16(w, 10))
  }

  /** Parsing with a hop budget of `h` pointers per name. Success under budget 0 means that
      no name the parser reads contains a compression pointer. */
  function ParseWith(w: seq<byte>, h: nat): Result<Message> {
    if |w| < HEADER_SIZE then Err(TruncatedHeader)
    else
      var hd := HeaderAt(w);
      var (qs, p1) :- QuestionsAt(w, HEADER_SIZE, hd.qdcount, h);
      var (an, p2) :- SectionAt(w, p1, hd.ancount, h);
      var (ns, p3) :- SectionAt(w, p2, hd.nscount, h);
      var (ar, _) :- SectionAt(w, p3, hd.arcount, h);
      Ok(Message(hd, qs, an, ns, ar))
  }

  function ParseSpec(w: seq<byte>): Result<Message> {
    ParseWith(w, MAX_JUMPS)
  }

  // ---------------------------------------------------------------- packing

  function QuestionWire(q: Question): seq<byte> {
    NameWire(q.qname) + U16Bytes(q.qtype) + U16Bytes(q.qclass)
  }

  function RecordTail(r: Record): seq<byte> {
    U16Bytes(r.rtype) + U16Bytes(r.rclass) + U32Bytes(r.ttl) + U16Bytes(|r.rdata| % 0x1_0000) + r.rdata
  }

  function RecordWire(r: Record): seq<byte> {
    NameWire(r.name) + RecordTail(r)
  }

  function QuestionsWire(qs: seq<Question>): seq<byte> {
    if |qs| == 0 then [] else QuestionsWire(qs[..|qs| - 1]) + QuestionWire(qs[|qs| - 1])
  }

  function SectionWire(rs: seq<Record>): seq<byte> {
    if |rs| == 0 then [] else SectionWire(rs[..|rs| - 1]) + RecordWire(rs[|rs| - 1])
  }

  function HeaderWire(m: Message): (bs: seq<byte>)
    ensures |bs| == HEADER_SIZE
  {
    U16Bytes(m.header.id) + U16Bytes(m.header.flags)
    + U16Bytes(|m.questions| % 0x1_0000) + U16Bytes(|m.answers| % 0x1_0000)
    + U16Bytes(|m.authorities| % 0x1_0000) + U16Bytes(|m.additionals| % 0x1_0000)
  }

  function PackBytes(m: Message): seq<byte> {
    HeaderWire(m) + QuestionsWire(m.questions)
    + SectionWire(m.answers) + SectionWire(m.authorities) + SectionWire(m.additionals)
  }

  predicate QuestionsFit(qs: seq<Question>) {
    forall i :: 0 <= i < |qs| ==> LabelsFit(qs[i].qname)
  }

  predicate OwnersFit(rs: seq<Record>) {
    forall i :: 0 <= i < |rs| ==> LabelsFit(rs[i].name)
  }

  predicate Packable(m: Message) {
    QuestionsFit(m.questions) && OwnersFit(m.answers) && OwnersFit(m.authorities) && OwnersFit(m.additionals)
  }

  function PackSpec(m: Message): Result<seq<byte>> {
    if Packable(m) then Ok(PackBytes(m)) else Err(LabelTooLong)
  }

  // ---------------------------------------------------------------- well-formed messages

  /** RDATA of the types whose names the parser understands is uncompressed. */
  ghost predicate WellFormedRdata(t: u16, rdata: seq<byte>) {
    if IsNameType(t) then IsNameWire(rdata)
    else if t == TYPE_MX then |rdata| >= 2 && IsNameWire(rdata[2..])
    else if t == TYPE_SOA then exists i: nat, j: nat :: IsSoaWire(rdata, i, j)
    else true
  }

  ghost predicate IsNameWire(bs: seq<byte>) {
    exists s: Name :: LabelsFit(s) && bs == NameWire(s)
  }

  ghost predicate IsSoaWire(bs: seq<byte>, i: nat, j: nat) {
    i <= j && j + SOA_TAIL == |bs| && IsNameWire(bs[..i]) && IsNameWire(bs[i..j])
  }

  ghost predicate SoundRecord(r: Record) {
    |r.rdata| < 0x1_0000 && WellFormedRdata(r.rtype, r.rdata)
  }

  ghost predicate SoundSection(rs: seq<Record>) {
    |rs| < 0x1_0000 && forall i :: 0 <= i < |rs| ==> SoundRecord(rs[i])
  }

  /** Sizes fit their 16-bit fields and RDATA is well formed. */
  ghost predicate SoundMessage(m: Message) {
    |m.questions| < 0x1_0000 && SoundSection(m.answers) && SoundSection(m.authorities) && SoundSection(m.additionals)
  }

  function NormalQuestions(qs: seq<Question>): (r: seq<Question>)
    ensures |r| == |qs|
  {
    seq(|qs|, i requires 0 <= i < |qs| => qs[i].(qname := Normalise(qs[i].qname)))
  }

  function NormalRecord(r: Record): Record {
    r.(name := Normalise(r.name))
  }

  function NormalSection(rs: seq<Record>): (r: seq<Record>)
    ensures |r| == |rs|
  {
    seq(|rs|, i requires 0 <= i < |rs| => NormalRecord(rs[i]))
  }

  /** The message with its header counts equal to its section sizes. */
  function WithCounts(m: Message): Message {
    m.(header := Header(m.header.id, m.header.flags, |m.questions| % 0x1_0000, |m.answers| % 0x1_0000,
                        |m.authorities| % 0x1_0000, |m.additionals| % 0x1_0000))
  }

  function NormalMessage(m: Message): Message {
    WithCounts(Message(m.header, NormalQuestions(m.questions), NormalSection(m.answers),
                       NormalSection(m.authorities), NormalSection(m.additionals)))
  }

  /** Every question and owner name is canonical. */
  predicate CanonicalOwners(m: Message) {
    && (forall i :: 0 <= i < |m.questions| ==> CanonicalName(m.questions[i].qname))
    && CanonicalSection(m.answers)
    && CanonicalSection(m.authorities)
    && CanonicalSection(m.additionals)
  }

  predicate CanonicalSection(rs: seq<Record>) {
    forall i :: 0 <= i < |rs| ==> CanonicalName(rs[i].name)
  }

  // ---------------------------------------------------------------- header flags

  predicate Qr(f: u16) { f / 0x8000 % 2 == 1 }
  function Opcode(f: u16): nat { f / 0x800 % 16 }
  predicate Aa(f: u16) { f / 0x400 % 2 == 1 }
  predicate Tc(f: u16) { f / 0x200 % 2 == 1 }
  predicate Rd(f: u16) { f / 0x100 % 2 == 1 }
  predicate Ra(f: u16) { f / 0x80 % 2 == 1 }
  function Rcode(f: u16): nat { f % 16 }

  function SetQr(f: u16): u16 { if Qr(f) then f else f + 0x8000 }
  function SetRa(f: u16): u16 { if Ra(f) then f else f + 0x80 }
  function SetRcode(f: u16, v: byte): u16 { f - f % 16 + v % 16 }

  const RCODE_NOERROR: nat := 0
  const RCODE_SERVFAIL: nat := 2
  const RCODE_NXDOMAIN: nat := 3
  const RCODE_REFUSED: nat := 5

  /** createReply: the query with its answer sections emptied and QR and RA set. */
  function CreateReply(query: Message): Message {
    Message(query.header.(flags := SetRa(SetQr(query.header.flags)), ancount := 0, nscount := 0, arcount := 0),
            query.questions, [], [], [])
  }

  function CreateError(query: Message, rcode: byte): Message {
    var r := CreateReply(query);
    r.(header := r.header.(flags := SetRcode(r.header.flags, rcode)))
  }

  /** The flags that no setter used here touches. */
  predicate SameMiddle(f: u16, g: u16) {
    Opcode(f) == Opcode(g) && Aa(f) == Aa(g) && Tc(f) == Tc(g) && Rd(f) == Rd(g)
  }

  lemma SetQrLaws(f: u16)
    ensures var g := SetQr(f); Qr(g) && SameMiddle(f, g) && Ra(g) == Ra(f) && Rcode(g) == Rcode(f)
  {
    if !Qr(f) {
      assert f < 0x8000;
      TopBitAboveOpcode(f);
      TopBitAboveAa(f);
      TopBitAboveTc(f);
      TopBitAboveRd(f);
      TopBitAboveRa(f);
      hide Opcode, Aa, Tc, Rd, Ra, Rcode;
    }
  }

  lemma TopBitAboveOpcode(f: nat)
    requires f < 0x8000
    ensures Opcode(f + 0x8000) == Opcode(f) && Rcode(f + 0x8000) == Rcode(f)
  {
    assert (f + 0x8000) / 0x800 == f / 0x800 + 0x10;
  }

  lemma TopBitAboveAa(f: nat)
    requires f < 0x8000
    ensures Aa(f + 0x8000) == Aa(f)
  {
    assert (f + 0x8000) / 0x400 == f / 0x400 + 0x20;
  }

  lemma TopBitAboveTc(f: nat)
    requires f < 0x8000
    ensures Tc(f + 0x8000) == Tc(f)
  {
    assert (f + 0x8000) / 0x200 == f / 0x200 + 0x40;
  }

  lemma TopBitAboveRd(f: nat)
    requires f < 0x8000
    ensures Rd(f + 0x8000) == Rd(f)
  {
    assert (f + 0x8000) / 0x100 == f / 0x100 + 0x80;
  }

  lemma TopBitAboveRa(f: nat)
    requires f < 0x8000
    ensures Ra(f + 0x8000) == Ra(f)
  {
    assert (f + 0x8000) / 0x80 == f / 0x80 + 0x100;
  }

  /** The upper byte of the flags holds all fields but RA and the response code. */
  lemma UpperByte(f: u16, g: u16)
    requires f / 0x100 == g / 0x100
    ensures SameMiddle(f, g) && Qr(f) == Qr(g)
  {
    var hi := f / 0x100;
    assert f / 0x200 == hi / 2 == g / 0x200;
    assert f / 0x400 == hi / 4 == g / 0x400;
    assert f / 0x800 == hi / 8 == g / 0x800;
    assert f / 0x8000 == hi / 128 == g / 0x8000;
  }

  lemma SetRaLaws(f: u16)
    ensures var g := SetRa(f); Ra(g) && SameMiddle(f, g) && Qr(g) == Qr(f) && Rcode(g) == Rcode(f)
  {
    hide SameMiddle, Qr;
    if Ra(f) {
      UpperByte(f, f);
    } else {
      RaBelowUpperByte(f);
      UpperByte(f, f + 0x80);
      hide Rcode;
    }
  }

  lemma RaBelowUpperByte(f: u16)
    requires !Ra(f)
    ensures f + 0x80 < 0x1_0000 && (f + 0x80) / 0x100 == f / 0x100 && Ra(f + 0x80) && Rcode(f + 0x80) == Rcode(f)
  {
    var hi, lo := f / 0x100, f % 0x100;
    assert f / 0x80 == hi * 2 + lo / 0x80;
    assert lo < 0x80;
    assert f + 0x80 == hi * 0x100 + (lo + 0x80);
    assert (f + 0x80) / 0x80 == hi * 2 + 1;
  }

  lemma SetRcodeLaws(f: u16, v: byte)
    ensures var g := SetRcode(f, v); Rcode(g) == v % 16 && SameMiddle(f, g) && Ra(g) == Ra(f) && Qr(g) == Qr(f)
  {
    hide SameMiddle, Qr;
    var g := SetRcode(f, v);
    assert g / 16 == f / 16;
    assert g / 0x80 == f / 16 / 8 == f / 0x80;
    assert g / 0x100 == f / 16 / 16 == f / 0x100;
    UpperByte(f, g);
  }

  /** A reply is a response with the query's id, questions, response code and all other flags; an
      error reply differs from it in the response code alone. */
  lemma ReplyFlags(query: Message, rcode: byte)
    ensures var f, r := query.header.flags, CreateReply(query).header.flags;
            Qr(r) && Ra(r) && SameMiddle(f, r) && Rcode(r) == Rcode(f)
    ensures var f, e := query.header.flags, CreateError(query, rcode).header.flags;
            Qr(e) && Ra(e) && SameMiddle(f, e) && Rcode(e) == rcode % 16
    ensures var r := CreateReply(query);
            && r.header.id == query.header.id && r.questions == query.questions
            && r.answers == [] && r.authorities == [] && r.additionals == []
            && CreateError(query, rcode).(header := r.header) == r
            && CreateError(query, rcode).header.(flags := r.header.flags) == r.header
  {
    hide Qr, Ra, Opcode, Aa, Tc, Rd, Rcode, SetQr, SetRa, SetRcode;
    var f := query.header.flags;
    SetQrLaws(f);
    SetRaLaws(SetQr(f));
    SetRcodeLaws(SetRa(SetQr(f)), rcode);
  }
}

/** Round trips between the wire form and the message. */
module RoundTrip {
  import opened Bytes
  import opened Names
  import opened Messages

  lemma QuestionRoundTrip(w: seq<byte>, pos: nat, q: Question, h: nat)
    requires LabelsFit(q.qname)
    requires At(w, pos, QuestionWire(q))
    ensures QuestionAt(w, pos, h) == Ok((q.(qname := Normalise(q.qname)), pos + |QuestionWire(q)|))
  {
    hide NameWire, NameAt, Normalise, LabelsFit;
    var name := NameWire(q.qname);
    AtSplit(w, pos, name + U16Bytes(q.qtype), U16Bytes(q.qclass));
    AtSplit(w, pos, name, U16Bytes(q.qtype));
    NameRoundTrip(w, pos, q.qname, h);
    ReadU16Written(w, pos + |name|, q.qtype);
    ReadU16Written(w, pos + |name| + 2, q.qclass);
  }

  lemma NameRdataRoundTrip(w: seq<byte>, start: nat, bs: seq<byte>, h: nat)
    requires At(w, start, bs) && IsNameWire(bs)
    ensures NameAt(w, start, h).Ok?
    ensures NameAt(w, start, h).value.1 == start + |bs|
    ensures NameToWireSpec(NameAt(w, start, h).value.0) == Ok(bs)
  {
    var s: Name :| LabelsFit(s) && bs == NameWire(s);
    NameRoundTrip(w, start, s, h);
    NormaliseIdempotent(s);
  }

  lemma SoaRoundTrip(w: seq<byte>, start: nat, rdata: seq<byte>, h: nat)
    requires At(w, start, rdata) && |rdata| < 0x1_0000
    requires WellFormedRdata(TYPE_SOA, rdata)
    ensures RdataAt(w, start, |rdata|, TYPE_SOA, h) == Ok(rdata)
  {
    hide NameAt, NameToWireSpec, IsNameWire;
    var i: nat, j: nat :| IsSoaWire(rdata, i, j);
    var m, r, tail := rdata[..i], rdata[i..j], rdata[j..];
    assert rdata == m + r + tail;
    AtSplit(w, start, m + r, tail);
    AtSplit(w, start, m, r);
    NameRdataRoundTrip(w, start, m, h);
    NameRdataRoundTrip(w, start + i, r, h);
    assert w[start + j..start + j + SOA_TAIL] == tail;
  }

  lemma RdataRoundTrip(w: seq<byte>, start: nat, t: u16, rdata: seq<byte>, h: nat)
    requires At(w, start, rdata) && |rdata| < 0x1_0000
    requires WellFormedRdata(t, rdata)
    ensures RdataAt(w, start, |rdata|, t, h) == Ok(rdata)
  {
    hide NameAt, NameToWireSpec, IsNameWire;
    if IsNameType(t) {
      NameRdataRoundTrip(w, start, rdata, h);
    } else if t == TYPE_MX {
      assert rdata == rdata[..2] + rdata[2..];
      AtSplit(w, start, rdata[..2], rdata[2..]);
      NameRdataRoundTrip(w, start + 2, rdata[2..], h);
      var s := w[start..start + 2];
      assert s[0] == w[start] && s[1] == w[start + 1];
      assert U16Bytes(ReadU16(w, start)) == s;
    } else if t == TYPE_SOA {
      SoaRoundTrip(w, start, rdata, h);
    }
  }

  lemma RecordTailRoundTrip(w: seq<byte>, p: nat, r: Record)
    requires |r.rdata| < 0x1_0000
    requires At(w, p, RecordTail(r))
    ensures p + 10 + |r.rdata| <= |w|
    ensures ReadU16(w, p) == r.rtype && ReadU16(w, p + 2) == r.rclass
    ensures ReadU32(w, p + 4) == r.ttl && ReadU16(w, p + 8) == |r.rdata|
    ensures At(w, p + 10, r.rdata) && |RecordTail(r)| == 10 + |r.rdata|
  {
    hide At;
    var t, c, l, n := U16Bytes(r.rtype), U16Bytes(r.rclass), U32Bytes(r.ttl), U16Bytes(|r.rdata| % 0x1_0000);
    AtSplit(w, p, t + c + l + n, r.rdata);
    AtSplit(w, p, t + c + l, n);
    AtSplit(w, p, t + c, l);
    AtSplit(w, p, t, c);
    ReadU16Written(w, p, r.rtype);
    ReadU16Written(w, p + 2, r.rclass);
    ReadU32Written(w, p + 4, r.ttl);
    ReadU16Written(w, p + 8, |r.rdata|);
  }

  lemma RecordRoundTrip(w: seq<byte>, pos: nat, r: Record, h: nat)
    requires LabelsFit(r.name) && SoundRecord(r)
    requires At(w, pos, RecordWire(r))
    ensures RecordAt(w, pos, h) == Ok((NormalRecord(r), pos + |RecordWire(r)|))
  {
    hide NameWire, NameAt, Normalise, LabelsFit, RdataAt, RecordTail, WellFormedRdata;
    AtSplit(w, pos, NameWire(r.name), RecordTail(r));
    NameRoundTrip(w, pos, r.name, h);
    var p := pos + |NameWire(r.name)|;
    RecordTailRoundTrip(w, p, r);
    RdataRoundTrip(w, p + 10, r.rtype, r.rdata, h);
  }

  lemma {:induction false} QuestionsRoundTrip(w: seq<byte>, pos: nat, qs: seq<Question>, h: nat)
    requires QuestionsFit(qs)
    requires At(w, pos, QuestionsWire(qs))
    ensures QuestionsAt(w, pos, |qs|, h) == Ok((NormalQuestions(qs), pos + |QuestionsWire(qs)|))
  {
    hide QuestionWire, QuestionAt, LabelsFit, Normalise;
    if |qs| == 0 {
      assert NormalQuestions(qs) == [];
    } else {
      var init, last := qs[..|qs| - 1], qs[|qs| - 1];
      AtSplit(w, pos, QuestionsWire(init), QuestionWire(last));
      QuestionsRoundTrip(w, pos, init, h);
      QuestionRoundTrip(w, pos + |QuestionsWire(init)|, last, h);
      assert NormalQuestions(qs) == NormalQuestions(init) + [last.(qname := Normalise(last.qname))];
    }
  }

  lemma {:induction false} SectionRoundTrip(w: seq<byte>, pos: nat, rs: seq<Record>, h: nat)
    requires OwnersFit(rs) && SoundSection(rs)
    requires At(w, pos, SectionWire(rs))
    ensures SectionAt(w, pos, |rs|, h) == Ok((NormalSection(rs), pos + |SectionWire(rs)|))
  {
    hide RecordWire, RecordAt, LabelsFit, SoundRecord, NormalRecord;
    if |rs| == 0 {
      assert NormalSection(rs) == [];
    } else {
      var init, last := rs[..|rs| - 1], rs[|rs| - 1];
      AtSplit(w, pos, SectionWire(init), RecordWire(last));
      SectionRoundTrip(w, pos, init, h);
      RecordRoundTrip(w, pos + |SectionWire(init)|, last, h);
      assert NormalSection(rs) == NormalSection(init) + [NormalRecord(last)];
    }
  }

  lemma HeaderRoundTrip(w: seq<byte>, m: Message)
    requires At(w, 0, HeaderWire(m))
    ensures |w| >= HEADER_SIZE && HeaderAt(w) == WithCounts(m).header
  {
    hide At;
    var a, b := U16Bytes(m.header.id), U16Bytes(m.header.flags);
    var c, d := U16Bytes(|m.questions| % 0x1_0000), U16Bytes(|m.answers| % 0x1_0000);
    var e, f := U16Bytes(|m.authorities| % 0x1_0000), U16Bytes(|m.additionals| % 0x1_0000);
    AtSplit(w, 0, a + b + c + d + e, f);
    AtSplit(w, 0, a + b + c + d, e);
    AtSplit(w, 0, a + b + c, d);
    AtSplit(w, 0, a + b, c);
    AtSplit(w, 0, a, b);
    ReadU16Written(w, 0, m.header.id);
    ReadU16Written(w, 2, m.header.flags);
    ReadU16Written(w, 4, |m.questions| % 0x1_0000);
    ReadU16Written(w, 6, |m.answers| % 0x1_0000);
    ReadU16Written(w, 8, |m.authorities| % 0x1_0000);
    ReadU16Written(w, 10, |m.additionals| % 0x1_0000);
  }

  /** Packing then parsing normalises names and refreshes the header counts, and changes
      nothing else. It succeeds under every hop budget, so the packed form has no
      compression pointer in any name the parser reads. */
  lemma PackThenParse(m: Message, h: nat)
    requires Packable(m) && SoundMessage(m)
    ensures ParseWith(PackBytes(m), h) == Ok(NormalMessage(m))
  {
    hide QuestionsWire, SectionWire, HeaderWire, QuestionsAt, SectionAt, HeaderAt, QuestionsFit, OwnersFit, SoundRecord;
    hide NormalQuestions, NormalSection;
    var w := PackBytes(m);
    var hd, qs := HeaderWire(m), QuestionsWire(m.questions);
    var an, ns, ar := SectionWire(m.answers), SectionWire(m.authorities), SectionWire(m.additionals);
    assert At(w, 0, w);
    AtSplit(w, 0, hd + qs + an + ns, ar);
    AtSplit(w, 0, hd + qs + an, ns);
    AtSplit(w, 0, hd + qs, an);
    AtSplit(w, 0, hd, qs);
    HeaderRoundTrip(w, m);
    QuestionsRoundTrip(w, |hd|, m.questions, h);
    SectionRoundTrip(w, |hd + qs|, m.answers, h);
    SectionRoundTrip(w, |hd + qs + an|, m.authorities, h);
    SectionRoundTrip(w, |hd + qs + an + ns|, m.additionals, h);
  }

  lemma CanonicalIsNormal(m: Message)
    ensures CanonicalOwners(m) ==> NormalMessage(m) == WithCounts(m) && Packable(m)
    ensures Packable(m) && NormalMessage(m) == WithCounts(m) ==> CanonicalOwners(m)
  {
    if CanonicalOwners(m) {
      assert NormalQuestions(m.questions) == m.questions;
      CanonicalSectionIsNormal(m.answers);
      CanonicalSectionIsNormal(m.authorities);
      CanonicalSectionIsNormal(m.additionals);
    }
    if Packable(m) && NormalMessage(m) == WithCounts(m) {
      assert NormalQuestions(m.questions) == m.questions;
      forall i | 0 <= i < |m.questions| ensures CanonicalName(m.questions[i].qname) {
        assert NormalQuestions(m.questions)[i] == m.questions[i];
      }
      NormalSectionIsCanonical(m.answers);
      NormalSectionIsCanonical(m.authorities);
      NormalSectionIsCanonical(m.additionals);
    }
  }

  lemma CanonicalSectionIsNormal(rs: seq<Record>)
    requires CanonicalSection(rs)
    ensures NormalSection(rs) == rs && OwnersFit(rs)
  {
  }

  lemma NormalSectionIsCanonical(rs: seq<Record>)
    requires OwnersFit(rs) && NormalSection(rs) == rs
    ensures CanonicalSection(rs)
  {
    forall i | 0 <= i < |rs| ensures CanonicalName(rs[i].name) {
      assert NormalSection(rs)[i] == rs[i];
    }
  }

  /** Round trip: a message with canonical names and sound RDATA comes back unchanged,
      with the header counts equal to its section sizes. */
  lemma RoundTripCanonical(m: Message)
    requires CanonicalOwners(m) && SoundMessage(m)
    ensures PackSpec(m).Ok?
    ensures ParseSpec(PackSpec(m).value) == Ok(WithCounts(m))
  {
    CanonicalIsNormal(m);
    PackThenParse(m, MAX_JUMPS);
  }

  // ---------------------------------------------------------------- what parse produces

  lemma IsWire(s: Name)
    requires LabelsFit(s)
    ensures IsNameWire(NameWire(s))
  {
  }

  lemma ParsedRdataWellFormed(w: seq<byte>, start: nat, rdlen: u16, t: u16, h: nat)
    requires start + rdlen <= |w| && RdataAt(w, start, rdlen, t, h).Ok?
    ensures WellFormedRdata(t, RdataAt(w, start, rdlen, t, h).value)
  {
    hide NameAt, NameWire, LabelsFit, IsNameWire;
    var rdata := RdataAt(w, start, rdlen, t, h).value;
    if IsNameType(t) {
      IsWire(NameAt(w, start, h).value.0);
    } else if t == TYPE_MX {
      var name := NameAt(w, start + 2, h).value.0;
      IsWire(name);
      assert rdata[2..] == NameWire(name);
    } else if t == TYPE_SOA {
      var (mname, p1) := NameAt(w, start, h).value;
      var (rname, p2) := NameAt(w, p1, h).value;
      var mwire, rwire := NameWire(mname), NameWire(rname);
      IsWire(mname);
      IsWire(rname);
      assert rdata[..|mwire|] == mwire;
      assert rdata[|mwire|..|mwire| + |rwire|] == rwire;
      assert IsSoaWire(rdata, |mwire|, |mwire| + |rwire|);
    }
  }

  ghost predicate WellFormedSection(rs: seq<Record>) {
    forall i :: 0 <= i < |rs| ==> WellFormedRdata(rs[i].rtype, rs[i].rdata)
  }

  lemma ParsedRecord(w: seq<byte>, pos: nat, h: nat)
    requires RecordAt(w, pos, h).Ok?
    ensures var r := RecordAt(w, pos, h).value.0; WellFormedRdata(r.rtype, r.rdata)
  {
    hide NameAt, WellFormedRdata;
    var p := NameAt(w, pos, h).value.1;
    ParsedRdataWellFormed(w, p + 10, ReadU16(w, p + 8), ReadU16(w, p), h);
  }

  lemma {:induction false} ParsedSection(w: seq<byte>, pos: nat, n: nat, h: nat)
    requires SectionAt(w, pos, n, h).Ok?
    ensures |SectionAt(w, pos, n, h).value.0| == n
    ensures WellFormedSection(SectionAt(w, pos, n, h).value.0)
  {
    hide RecordAt, WellFormedRdata;
    if n > 0 {
      ParsedSection(w, pos, n - 1, h);
      var (init, p) := SectionAt(w, pos, n - 1, h).value;
      ParsedRecord(w, p, h);
    }
  }

  lemma {:induction false} ParsedQuestions(w: seq<byte>, pos: nat, n: nat, h: nat)
    requires QuestionsAt(w, pos, n, h).Ok?
    ensures |QuestionsAt(w, pos, n, h).value.0| == n
  {
    if n > 0 {
      ParsedQuestions(w, pos, n - 1, h);
    }
  }

  predicate RdataFits(rs: seq<Record>) {
    forall i :: 0 <= i < |rs| ==> |rs[i].rdata| < 0x1_0000
  }

  predicate AllRdataFits(m: Message) {
    RdataFits(m.answers) && RdataFits(m.authorities) && RdataFits(m.additionals)
  }

  /** Whatever the bytes, an accepted message has matching header counts and uncompressed RDATA. */
  lemma ParsedMessageSound(w: seq<byte>, h: nat)
    requires ParseWith(w, h).Ok?
    ensures var m := ParseWith(w, h).value;
            WithCounts(m) == m && (AllRdataFits(m) ==> SoundMessage(m))
  {
    hide QuestionsAt, SectionAt, WellFormedRdata;
    var hd := HeaderAt(w);
    var (_, p1) := QuestionsAt(w, HEADER_SIZE, hd.qdcount, h).value;
    ParsedQuestions(w, HEADER_SIZE, hd.qdcount, h);
    var (_, p2) := SectionAt(w, p1, hd.ancount, h).value;
    ParsedSection(w, p1, hd.ancount, h);
    var (_, p3) := SectionAt(w, p2, hd.nscount, h).value;
    ParsedSection(w, p2, hd.nscount, h);
    ParsedSection(w, p3, hd.arcount, h);
  }

  /** Decompression normal form: re-packing an accepted message gives bytes that parse to the
      same message under every hop budget (no pointer left) exactly when all question and owner
      names are canonical. */
  lemma NormalForm(w: seq<byte>, h: nat)
    requires ParseSpec(w).Ok? && AllRdataFits(ParseSpec(w).value)
    ensures var m := ParseSpec(w).value;
            (PackSpec(m).Ok? && ParseWith(PackSpec(m).value, h) == Ok(m)) <==> CanonicalOwners(m)
  {
    var m := ParseSpec(w).value;
    ParsedMessageSound(w, MAX_JUMPS);
    CanonicalIsNormal(m);
    if Packable(m) {
      PackThenParse(m, h);
    }
  }
}
