/** The cursor loops of DnsMessage::parse and the buffer-filling loops of DnsMessage::pack. */
module Codec {
  import opened Bytes
  import opened Names
  import opened Messages

  // ---------------------------------------------------------------- parse

  lemma {:induction false} SectionFails(w: seq<byte>, pos: nat, i: nat, n: nat, h: nat)
    requires i <= n && SectionAt(w, pos, i, h).Err?
    ensures SectionAt(w, pos, n, h) == Err(SectionAt(w, pos, i, h).error)
    decreases n
  {
    hide RecordAt;
    if i < n {
      SectionFails(w, pos, i, n - 1, h);
    }
  }

  lemma {:induction false} QuestionsFail(w: seq<byte>, pos: nat, i: nat, n: nat, h: nat)
    requires i <= n && QuestionsAt(w, pos, i, h).Err?
    ensures QuestionsAt(w, pos, n, h) == Err(QuestionsAt(w, pos, i, h).error)
    decreases n
  {
    hide QuestionAt;
    if i < n {
      QuestionsFail(w, pos, i, n - 1, h);
    }
  }

  method ReadQuestion(w: seq<byte>, pos: nat) returns (r: Result<(Question, nat)>)
    ensures r == QuestionAt(w, pos, MAX_JUMPS)
  {
    hide NameAt;
    var n := WireToName(w, pos);
    if n.Err? {
      return Err(n.error);
    }
    var (name, p) := n.value;
    if p + 4 > |w| {
      return Err(TruncatedQuestion);
    }
    var qtype := ReadU16(w, p);
    p := p + 2;
    var qclass := ReadU16(w, p);
    p := p + 2;
    r := Ok((Question(name, qtype, qclass), p));
  }

  method ReadRdata(w: seq<byte>, start: nat, rdlen: u16, t: u16) returns (r: Result<seq<byte>>)
    requires start + rdlen <= |w|
    ensures r == RdataAt(w, start, rdlen, t, MAX_JUMPS)
  {
    hide NameAt, NameToWireSpec;
    if IsNameType(t) {
      var n := WireToName(w, start);
      if n.Err? {
        return Err(n.error);
      }
      r := NameToWire(n.value.0);
    } else if t == TYPE_MX {
      if rdlen < 2 {
        return Err(TruncatedMx);
      }
      var pref := ReadU16(w, start);
      var n := WireToName(w, start + 2);
      if n.Err? {
        return Err(n.error);
      }
      var wire := NameToWire(n.value.0);
      if wire.Err? {
        return Err(wire.error);
      }
      r := Ok(U16Bytes(pref) + wire.value);
    } else if t == TYPE_SOA {
      var m := WireToName(w, start);
      if m.Err? {
        return Err(m.error);
      }
      var n := WireToName(w, m.value.1);
      if n.Err? {
        return Err(n.error);
      }
      var np := n.value.1;
      var remaining := SizeT(rdlen - (np - start));
      if remaining < SOA_TAIL {
        return Err(TruncatedSoa);
      }
      var mwire := NameToWire(m.value.0);
      if mwire.Err? {
        return Err(mwire.error);
      }
      var rwire := NameToWire(n.value.0);
      if rwire.Err? {
        return Err(rwire.error);
      }
      if np + SOA_TAIL > |w| {
        return Err(SoaReadsPastMessage);
      }
      r := Ok(mwire.value + rwire.value + w[np..np + SOA_TAIL]);
    } else {
      r := Ok(w[start..start + rdlen]);
    }
  }

  method ReadRecord(w: seq<byte>, pos: nat) returns (r: Result<(Record, nat)>)
    ensures r == RecordAt(w, pos, MAX_JUMPS)
  {
    hide NameAt, RdataAt;
    var n := WireToName(w, pos);
    if n.Err? {
      return Err(n.error);
    }
    var (name, p) := n.value;
    if p + 10 > |w| {
      return Err(TruncatedRecord);
    }
    var rtype := ReadU16(w, p);
    p := p + 2;
    var rclass := ReadU16(w, p);
    p := p + 2;
    var ttl := ReadU32(w, p);
    p := p + 4;
    var rdlen := ReadU16(w, p);
    p := p + 2;
    if p + rdlen > |w| {
      return Err(TruncatedRdlen);
    }
    var rdata := ReadRdata(w, p, rdlen, rtype);
    if rdata.Err? {
      return Err(rdata.error);
    }
    p := p + rdlen;
    r := Ok((Record(name, rtype, rclass, ttl, rdata.value), p));
  }

  method ReadQuestions(w: seq<byte>, pos: nat, n: nat) returns (r: Result<(seq<Question>, nat)>)
    ensures r == QuestionsAt(w, pos, n, MAX_JUMPS)
  {
    hide QuestionAt;
    var qs: seq<Question> := [];
    var p: nat := pos;
    for i := 0 to n
      invariant QuestionsAt(w, pos, i, MAX_JUMPS) == Ok((qs, p))
    {
      var q := ReadQuestion(w, p);
      if q.Err? {
        QuestionsFail(w, pos, i + 1, n, MAX_JUMPS);
        return Err(q.error);
      }
      qs := qs + [q.value.0];
      p := q.value.1;
    }
    r := Ok((qs, p));
  }

  method ReadSection(w: seq<byte>, pos: nat, n: nat) returns (r: Result<(seq<Record>, nat)>)
    ensures r == SectionAt(w, pos, n, MAX_JUMPS)
  {
    hide RecordAt;
    var rs: seq<Record> := [];
    var p: nat := pos;
    for i := 0 to n
      invariant SectionAt(w, pos, i, MAX_JUMPS) == Ok((rs, p))
    {
      var rr := ReadRecord(w, p);
      if rr.Err? {
        SectionFails(w, pos, i + 1, n, MAX_JUMPS);
        return Err(rr.error);
      }
      rs := rs + [rr.value.0];
      p := rr.value.1;
    }
    r := Ok((rs, p));
  }

  /** DnsMessage::parse. */
  method Parse(w: seq<byte>) returns (r: Result<Message>)
    ensures r == ParseSpec(w)
  {
    hide QuestionsAt, SectionAt;
    if |w| < HEADER_SIZE {
      return Err(TruncatedHeader);
    }
    var hd := Header(ReadU16(w, 0), ReadU16(w, 2), ReadU16(w, 4), ReadU16(w, 6), ReadU16(w, 8), ReadU16(w, 10));
    var qs := ReadQuestions(w, HEADER_SIZE, hd.qdcount);
    if qs.Err? {
      return Err(qs.error);
    }
    var an := ReadSection(w, qs.value.1, hd.ancount);
    if an.Err? {
      return Err(an.error);
    }
    var ns := ReadSection(w, an.value.1, hd.nscount);
    if ns.Err? {
      return Err(ns.error);
    }
    var ar := ReadSection(w, ns.value.1, hd.arcount);
    if ar.Err? {
      return Err(ar.error);
    }
    r := Ok(Message(hd, qs.value.0, an.value.0, ns.value.0, ar.value.0));
  }

  // ---------------------------------------------------------------- pack: the size pre-pass

  lemma {:induction false} SectionPrefixSize(rs: seq<Record>, i: nat)
    requires i <= |rs|
    ensures |SectionWire(rs[..i])| <= |SectionWire(rs)|
  {
    hide RecordWire;
    if i < |rs| {
      SectionPrefixSize(rs[..|rs| - 1], i);
      assert rs[..|rs| - 1][..i] == rs[..i];
    } else {
      assert rs[..i] == rs;
    }
  }

  lemma {:induction false} QuestionsPrefixSize(qs: seq<Question>, i: nat)
    requires i <= |qs|
    ensures |QuestionsWire(qs[..i])| <= |QuestionsWire(qs)|
  {
    hide QuestionWire;
    if i < |qs| {
      QuestionsPrefixSize(qs[..|qs| - 1], i);
      assert qs[..|qs| - 1][..i] == qs[..i];
    } else {
      assert qs[..i] == qs;
    }
  }

  lemma SectionWireStep(rs: seq<Record>, i: nat)
    requires i < |rs|
    ensures SectionWire(rs[..i + 1]) == SectionWire(rs[..i]) + RecordWire(rs[i])
    ensures |RecordWire(rs[i])| == |NameWire(rs[i].name)| + 10 + |rs[i].rdata|
    ensures |SectionWire(rs[..i + 1])| <= |SectionWire(rs)|
  {
    hide NameWire;
    assert rs[..i + 1][..i] == rs[..i];
    SectionPrefixSize(rs, i + 1);
  }

  lemma QuestionsWireStep(qs: seq<Question>, i: nat)
    requires i < |qs|
    ensures QuestionsWire(qs[..i + 1]) == QuestionsWire(qs[..i]) + QuestionWire(qs[i])
    ensures |QuestionWire(qs[i])| == |NameWire(qs[i].qname)| + 4
    ensures |QuestionsWire(qs[..i + 1])| <= |QuestionsWire(qs)|
  {
    hide NameWire;
    assert qs[..i + 1][..i] == qs[..i];
    QuestionsPrefixSize(qs, i + 1);
  }

  method QuestionsSize(qs: seq<Question>) returns (r: Result<nat>)
    ensures r == if QuestionsFit(qs) then Ok(|QuestionsWire(qs)|) else Err(LabelTooLong)
  {
    hide NameWire, LabelsFit, QuestionWire;
    var size: nat := 0;
    for i := 0 to |qs|
      invariant QuestionsFit(qs[..i])
      invariant size == |QuestionsWire(qs[..i])|
    {
      var wire := NameToWire(qs[i].qname);
      if wire.Err? {
        return Err(wire.error);
      }
      QuestionsWireStep(qs, i);
      size := size + |wire.value| + 4;
    }
    assert qs[..|qs|] == qs;
    r := Ok(size);
  }

  method SectionSize(rs: seq<Record>) returns (r: Result<nat>)
    ensures r == if OwnersFit(rs) then Ok(|SectionWire(rs)|) else Err(LabelTooLong)
  {
    hide NameWire, LabelsFit, RecordWire;
    var size: nat := 0;
    for i := 0 to |rs|
      invariant OwnersFit(rs[..i])
      invariant size == |SectionWire(rs[..i])|
    {
      var wire := NameToWire(rs[i].name);
      if wire.Err? {
        return Err(wire.error);
      }
      SectionWireStep(rs, i);
      size := size + |wire.value| + 10 + |rs[i].rdata|;
    }
    assert rs[..|rs|] == rs;
    r := Ok(size);
  }

  // ---------------------------------------------------------------- pack: filling the buffer

  /** memcpy to the write position. */
  method Put(buf: array<byte>, p: nat, bs: seq<byte>) returns (q: nat)
    requires p + |bs| <= buf.Length
    modifies buf
    ensures q == p + |bs|
    ensures buf[..q] == old(buf[..p]) + bs
  {
    for i := 0 to |bs|
      invariant buf[..p + i] == old(buf[..p]) + bs[..i]
    {
      buf[p + i] := bs[i];
    }
    q := p + |bs|;
  }

  method PutQuestion(buf: array<byte>, p: nat, qn: Question) returns (q: nat)
    requires LabelsFit(qn.qname) && p + |QuestionWire(qn)| <= buf.Length
    modifies buf
    ensures q == p + |QuestionWire(qn)|
    ensures buf[..q] == old(buf[..p]) + QuestionWire(qn)
  {
    hide NameWire, LabelsFit;
    var wire := NameToWire(qn.qname);
    q := Put(buf, p, wire.value);
    q := Put(buf, q, U16Bytes(qn.qtype));
    q := Put(buf, q, U16Bytes(qn.qclass));
  }

  method PutRecord(buf: array<byte>, p: nat, rr: Record) returns (q: nat)
    requires LabelsFit(rr.name) && p + |RecordWire(rr)| <= buf.Length
    modifies buf
    ensures q == p + |RecordWire(rr)|
    ensures buf[..q] == old(buf[..p]) + RecordWire(rr)
  {
    hide NameWire, LabelsFit;
    var wire := NameToWire(rr.name);
    ghost var start := buf[..p];
    q := Put(buf, p, wire.value);
    q := Put(buf, q, U16Bytes(rr.rtype));
    q := Put(buf, q, U16Bytes(rr.rclass));
    q := Put(buf, q, U32Bytes(rr.ttl));
    q := Put(buf, q, U16Bytes(|rr.rdata| % 0x1_0000));
    q := Put(buf, q, rr.rdata);
    assert buf[..q] == start + (wire.value + RecordTail(rr));
  }

  method PutQuestions(buf: array<byte>, p: nat, qs: seq<Question>) returns (q: nat)
    requires QuestionsFit(qs) && p + |QuestionsWire(qs)| <= buf.Length
    modifies buf
    ensures q == p + |QuestionsWire(qs)|
    ensures buf[..q] == old(buf[..p]) + QuestionsWire(qs)
  {
    hide QuestionWire, LabelsFit, NameWire;
    q := p;
    for i := 0 to |qs|
      invariant q == p + |QuestionsWire(qs[..i])| <= buf.Length
      invariant buf[..q] == old(buf[..p]) + QuestionsWire(qs[..i])
    {
      QuestionsWireStep(qs, i);
      q := PutQuestion(buf, q, qs[i]);
    }
    assert qs[..|qs|] == qs;
  }

  method PutSection(buf: array<byte>, p: nat, rs: seq<Record>) returns (q: nat)
    requires OwnersFit(rs) && p + |SectionWire(rs)| <= buf.Length
    modifies buf
    ensures q == p + |SectionWire(rs)|
    ensures buf[..q] == old(buf[..p]) + SectionWire(rs)
  {
    hide RecordWire, LabelsFit, NameWire;
    q := p;
    for i := 0 to |rs|
      invariant q == p + |SectionWire(rs[..i])| <= buf.Length
      invariant buf[..q] == old(buf[..p]) + SectionWire(rs[..i])
    {
      SectionWireStep(rs, i);
      q := PutRecord(buf, q, rs[i]);
    }
    assert rs[..|rs|] == rs;
  }

  method PutHeader(buf: array<byte>, m: Message) returns (q: nat)
    requires HEADER_SIZE <= buf.Length
    modifies buf
    ensures q == HEADER_SIZE && buf[..q] == HeaderWire(m)
  {
    q := Put(buf, 0, U16Bytes(m.header.id));
    q := Put(buf, q, U16Bytes(m.header.flags));
    q := Put(buf, q, U16Bytes(|m.questions| % 0x1_0000));
    q := Put(buf, q, U16Bytes(|m.answers| % 0x1_0000));
    q := Put(buf, q, U16Bytes(|m.authorities| % 0x1_0000));
    q := Put(buf, q, U16Bytes(|m.additionals| % 0x1_0000));
  }

  /** DnsMessage::pack. The size computed before writing is exactly the number of bytes
      written: the write position ends at the end of the buffer. */
  method Pack(m: Message) returns (r: Result<seq<byte>>)
    ensures r == PackSpec(m)
  {
    hide QuestionsWire, SectionWire, HeaderWire, LabelsFit;
    var qsize := QuestionsSize(m.questions);
    if qsize.Err? {
      return Err(qsize.error);
    }
    var an := SectionSize(m.answers);
    if an.Err? {
      return Err(an.error);
    }
    var ns := SectionSize(m.authorities);
    if ns.Err? {
      return Err(ns.error);
    }
    var ar := SectionSize(m.additionals);
    if ar.Err? {
      return Err(ar.error);
    }
    var size := HEADER_SIZE + qsize.value + an.value + ns.value + ar.value;
    var buf := new byte[size];
    var p := PutHeader(buf, m);
    p := PutQuestions(buf, p, m.questions);
    p := PutSection(buf, p, m.answers);
    p := PutSection(buf, p, m.authorities);
    p := PutSection(buf, p, m.additionals);
    assert p == buf.Length;
    assert buf[..p] == buf[..];
    r := Ok(buf[..]);
  }
}
