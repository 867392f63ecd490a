/** Where the records of a section stand and what compressed RDATA is stored as: the cursor moves by
    RDLENGTH, however long the decompressed form is. */
module Records {
  import opened Bytes
  import opened Names
  import opened Messages
  import opened Compression

  /** At `pos` stand the labels `ls` and a pointer to `t`, where `rest` is found with the hops left. */
  ghost predicate Compressed(w: seq<byte>, pos: nat, ls: seq<Label>, t: nat, hops: nat, rest: seq<Label>) {
    && AllFit(ls) && AllNonEmpty(ls) && t < 0x4000 && hops > 0
    && At(w, pos, EncodeLabels(ls) + [0xC0 + t / 0x100, t % 0x100])
    && DecodeLabels(w, t, hops - 1) == Ok(rest)
  }

  lemma CompressedAt(w: seq<byte>, pos: nat, ls: seq<Label>, t: nat, hops: nat, rest: seq<Label>)
    requires Compressed(w, pos, ls, t, hops, rest) && LabelsFit(Join(ls + rest))
    ensures NameAt(w, pos, hops) == Ok((Join(ls + rest), pos + |EncodeLabels(ls)| + 2))
    ensures pos + |EncodeLabels(ls)| + 2 <= |w|
  {
    AtInside(w, pos, EncodeLabels(ls) + [0xC0 + t / 0x100, t % 0x100]);
    CompressedName(w, pos, ls, t, hops, rest);
  }

  lemma PreferenceBytes(w: seq<byte>, pos: nat)
    requires pos + 2 <= |w|
    ensures U16Bytes(ReadU16(w, pos)) == w[pos..pos + 2]
  {
  }

  /** A record whose owner ends at `p`, given what its RDATA is stored as. */
  lemma RecordIs(w: seq<byte>, pos: nat, h: nat, owner: Name, p: nat, rdlen: nat, rdata: seq<byte>)
    requires NameAt(w, pos, h) == Ok((owner, p)) && p + 10 + rdlen <= |w| && ReadU16(w, p + 8) == rdlen
    requires RdataAt(w, p + 10, rdlen, ReadU16(w, p), h) == Ok(rdata)
    ensures RecordAt(w, pos, h)
         == Ok((Record(owner, ReadU16(w, p), ReadU16(w, p + 2), ReadU32(w, p + 4), rdata), p + 10 + rdlen))
  {
    hide NameAt, RdataAt, ReadU16, ReadU32;
  }

  lemma NameRdataIs(w: seq<byte>, start: nat, rdlen: u16, t: u16, h: nat, name: Name, end: nat)
    requires start + rdlen <= |w| && (t == 5 || t == 2 || t == 12)
    requires NameAt(w, start, h) == Ok((name, end)) && LabelsFit(name)
    ensures RdataAt(w, start, rdlen, t, h) == Ok(NameWire(name))
  {
    hide NameAt, LabelsFit, NameWire;
  }

  lemma MxRdataIs(w: seq<byte>, start: nat, rdlen: u16, h: nat, name: Name, end: nat)
    requires start + rdlen <= |w| && rdlen >= 2
    requires NameAt(w, start + 2, h) == Ok((name, end)) && LabelsFit(name)
    ensures RdataAt(w, start, rdlen, 15, h) == Ok(w[start..start + 2] + NameWire(name))
  {
    PreferenceBytes(w, start);
    hide NameAt, LabelsFit, NameWire, U16Bytes, ReadU16;
  }

  lemma WireOk(name: Name)
    requires LabelsFit(name)
    ensures NameToWireSpec(name) == Ok(NameWire(name))
  {
  }

  lemma SoaRdataIs(w: seq<byte>, start: nat, rdlen: u16, h: nat, m: Name, p1: nat, n: Name, p2: nat)
    requires start + rdlen <= |w| && start <= p2 && p2 + 20 == start + rdlen
    requires NameAt(w, start, h) == Ok((m, p1)) && NameAt(w, p1, h) == Ok((n, p2)) && LabelsFit(m) && LabelsFit(n)
    ensures RdataAt(w, start, rdlen, 6, h) == Ok(NameWire(m) + NameWire(n) + w[p2..p2 + 20])
  {
    WireOk(m);
    WireOk(n);
    hide NameAt, LabelsFit, NameWire, NameToWireSpec, SizeT;
    var left := SizeT(rdlen - (p2 - start));
    assert left >= 20 by {
      SizeTBelow(rdlen, p2 - start);
    }
  }

  /** CNAME, NS and PTR: compressed RDATA is stored as the whole name without pointers, and the next
      record is looked for where RDLENGTH says. */
  lemma CompressedRecord(
    w: seq<byte>, pos: nat, h: nat, owner: Name, p: nat, ls: seq<Label>, t: nat, rest: seq<Label>)
    requires NameAt(w, pos, h) == Ok((owner, p)) && p + 10 <= |w|
    requires ReadU16(w, p) == 5 || ReadU16(w, p) == 2 || ReadU16(w, p) == 12
    requires ReadU16(w, p + 8) == |EncodeLabels(ls)| + 2
    requires Compressed(w, p + 10, ls, t, h, rest) && LabelsFit(Join(ls + rest))
    ensures RecordAt(w, pos, h)
         == Ok((Record(owner, ReadU16(w, p), ReadU16(w, p + 2), ReadU32(w, p + 4), NameWire(Join(ls + rest))),
                p + 10 + |EncodeLabels(ls)| + 2))
  {
    hide Compressed, LabelsFit, Join, EncodeLabels, NameAt, NameWire, ReadU16, ReadU32, RdataAt, RecordAt;
    CompressedAt(w, p + 10, ls, t, h, rest);
    NameRdataIs(w, p + 10, |EncodeLabels(ls)| + 2, ReadU16(w, p), h, Join(ls + rest), p + 10 + |EncodeLabels(ls)| + 2);
    RecordIs(w, pos, h, owner, p, |EncodeLabels(ls)| + 2, NameWire(Join(ls + rest)));
  }

  /** MX: the preference is kept and the exchange stored without pointers. */
  lemma CompressedMx(w: seq<byte>, pos: nat, h: nat, owner: Name, p: nat, ls: seq<Label>, t: nat, rest: seq<Label>)
    requires NameAt(w, pos, h) == Ok((owner, p)) && p + 12 <= |w|
    requires ReadU16(w, p) == 15 && ReadU16(w, p + 8) == 2 + |EncodeLabels(ls)| + 2
    requires Compressed(w, p + 12, ls, t, h, rest) && LabelsFit(Join(ls + rest))
    ensures RecordAt(w, pos, h)
         == Ok((Record(owner, 15, ReadU16(w, p + 2), ReadU32(w, p + 4),
                       w[p + 10..p + 12] + NameWire(Join(ls + rest))),
                p + 10 + 2 + |EncodeLabels(ls)| + 2))
  {
    hide Compressed, LabelsFit, Join, EncodeLabels, NameAt, NameWire, ReadU16, ReadU32, RdataAt, RecordAt;
    CompressedAt(w, p + 12, ls, t, h, rest);
    MxRdataIs(w, p + 10, 2 + |EncodeLabels(ls)| + 2, h, Join(ls + rest), p + 12 + |EncodeLabels(ls)| + 2);
    RecordIs(w, pos, h, owner, p, 2 + |EncodeLabels(ls)| + 2, w[p + 10..p + 12] + NameWire(Join(ls + rest)));
  }

  lemma CompressedSoaRdata(
    w: seq<byte>, start: nat, rdlen: u16, h: nat,
    ls: seq<Label>, t: nat, rest: seq<Label>, ls': seq<Label>, t': nat, rest': seq<Label>)
    requires start + rdlen <= |w| && rdlen == |EncodeLabels(ls)| + 2 + |EncodeLabels(ls')| + 2 + 20
    requires Compressed(w, start, ls, t, h, rest) && LabelsFit(Join(ls + rest))
    requires Compressed(w, start + |EncodeLabels(ls)| + 2, ls', t', h, rest') && LabelsFit(Join(ls' + rest'))
    ensures RdataAt(w, start, rdlen, 6, h)
         == Ok(NameWire(Join(ls + rest)) + NameWire(Join(ls' + rest')) + w[start + rdlen - 20..start + rdlen])
  {
    hide Compressed, LabelsFit, Join, EncodeLabels, NameAt, NameWire, RdataAt;
    var p1 := start + |EncodeLabels(ls)| + 2;
    var p2 := p1 + |EncodeLabels(ls')| + 2;
    CompressedAt(w, start, ls, t, h, rest);
    CompressedAt(w, p1, ls', t', h, rest');
    SoaRdataIs(w, start, rdlen, h, Join(ls + rest), p1, Join(ls' + rest'), p2);
  }

  /** SOA: both names are stored without pointers, and the twenty bytes after them are kept. */
  lemma CompressedSoa(
    w: seq<byte>, pos: nat, h: nat, owner: Name, p: nat,
    ls: seq<Label>, t: nat, rest: seq<Label>, ls': seq<Label>, t': nat, rest': seq<Label>)
    requires NameAt(w, pos, h) == Ok((owner, p)) && p + 10 <= |w| && ReadU16(w, p) == 6
    requires ReadU16(w, p + 8) == |EncodeLabels(ls)| + 2 + |EncodeLabels(ls')| + 2 + 20
    requires p + 10 + ReadU16(w, p + 8) <= |w|
    requires Compressed(w, p + 10, ls, t, h, rest) && LabelsFit(Join(ls + rest))
    requires Compressed(w, p + 10 + |EncodeLabels(ls)| + 2, ls', t', h, rest') && LabelsFit(Join(ls' + rest'))
    ensures var next := p + 10 + |EncodeLabels(ls)| + 2 + |EncodeLabels(ls')| + 2 + 20;
            RecordAt(w, pos, h)
            == Ok((Record(owner, 6, ReadU16(w, p + 2), ReadU32(w, p + 4),
                          NameWire(Join(ls + rest)) + NameWire(Join(ls' + rest')) + w[next - 20..next]),
                   next))
  {
    hide Compressed, LabelsFit, Join, EncodeLabels, NameAt, NameWire, ReadU16, ReadU32, RdataAt;
    var rdlen := ReadU16(w, p + 8);
    CompressedSoaRdata(w, p + 10, rdlen, h, ls, t, rest, ls', t', rest');
    RecordIs(w, pos, h, owner, p, rdlen,
             NameWire(Join(ls + rest)) + NameWire(Join(ls' + rest')) + w[p + 10 + rdlen - 20..p + 10 + rdlen]);
  }

  // ---------------------------------------------------------------- records in a row

  /** Where the record after the one at `pos` stands: ten bytes and RDLENGTH after its owner. */
  function NextRecord(w: seq<byte>, pos: nat): nat
    requires AfterName(w, pos) + 10 <= |w|
  {
    var p := AfterName(w, pos);
    p + 10 + (w[p + 8] as int) * 256 + w[p + 9]
  }

  /** Whatever its type and whatever its RDATA, a record moves the cursor by RDLENGTH. */
  lemma RecordCursor(w: seq<byte>, pos: nat, h: nat)
    requires RecordAt(w, pos, h).Ok?
    ensures AfterName(w, pos) + 10 <= |w| && RecordAt(w, pos, h).value.1 == NextRecord(w, pos) <= |w|
  {
    hide DecodeLabels, AfterName, Join, RdataAt;
  }

  /** Decodable records stand at all but the last of these places, one after the other. */
  ghost predicate InARow(w: seq<byte>, places: seq<nat>, h: nat) {
    && places != []
    && forall i :: 0 <= i < |places| - 1 ==>
         && RecordAt(w, places[i], h).Ok? && AfterName(w, places[i]) + 10 <= |w|
         && places[i + 1] == NextRecord(w, places[i])
  }

  /** A section is read exactly from the places its RDLENGTHs lead to. */
  lemma {:induction false} SectionInARow(w: seq<byte>, places: seq<nat>, h: nat)
    requires InARow(w, places, h)
    ensures var r := SectionAt(w, places[0], |places| - 1, h);
            && r.Ok? && r.value.1 == places[|places| - 1] && |r.value.0| == |places| - 1
            && forall i :: 0 <= i < |places| - 1 ==> r.value.0[i] == RecordAt(w, places[i], h).value.0
  {
    hide RecordAt, AfterName;
    if |places| > 1 {
      var init := places[..|places| - 1];
      SectionInARow(w, init, h);
      RecordCursor(w, init[|init| - 1], h);
      assert places[0] == init[0];
      assert forall i :: 0 <= i < |init| - 1 ==> init[i] == places[i];
    }
  }

  /** The record read at each of these places. */
  ghost predicate ReadFrom(rs: seq<Record>, w: seq<byte>, places: seq<nat>) {
    && |rs| == |places| - 1
    && forall i :: 0 <= i < |rs| ==> RecordAt(w, places[i], 10).Ok? && rs[i] == RecordAt(w, places[i], 10).value.0
  }

  /** A message is accepted, with every record read from its own place, when its questions decode and
      the records of its three sections follow in a row, as many as the header announces. */
  lemma MessageInARow(w: seq<byte>, an: seq<nat>, ns: seq<nat>, ar: seq<nat>)
    requires |w| >= 12 && InARow(w, an, 10) && InARow(w, ns, 10) && InARow(w, ar, 10)
    requires an[|an| - 1] == ns[0] && ns[|ns| - 1] == ar[0]
    requires |an| - 1 == ReadU16(w, 6) && |ns| - 1 == ReadU16(w, 8) && |ar| - 1 == ReadU16(w, 10)
    requires QuestionsAt(w, 12, ReadU16(w, 4), 10).Ok? && QuestionsAt(w, 12, ReadU16(w, 4), 10).value.1 == an[0]
    ensures ParseSpec(w).Ok?
    ensures var m := ParseSpec(w).value;
            ReadFrom(m.answers, w, an) && ReadFrom(m.authorities, w, ns) && ReadFrom(m.additionals, w, ar)
  {
    SectionFromPlaces(w, an);
    SectionFromPlaces(w, ns);
    SectionFromPlaces(w, ar);
    hide InARow, ReadFrom, SectionAt, QuestionsAt, ReadU16, ParseWith;
    SectionsParse(w, QuestionsAt(w, 12, ReadU16(w, 4), 10).value.0, an[0],
                  SectionAt(w, an[0], |an| - 1, 10).value.0, ns[0],
                  SectionAt(w, ns[0], |ns| - 1, 10).value.0, ar[0],
                  SectionAt(w, ar[0], |ar| - 1, 10).value.0, ar[|ar| - 1]);
  }

  /** The parts of a message one after the other. */
  lemma SectionsParse(
    w: seq<byte>, qs: seq<Question>, p1: nat, an: seq<Record>, p2: nat, ns: seq<Record>, p3: nat,
    ar: seq<Record>, p4: nat)
    requires |w| >= 12 && QuestionsAt(w, 12, ReadU16(w, 4), 10) == Ok((qs, p1))
    requires SectionAt(w, p1, ReadU16(w, 6), 10) == Ok((an, p2))
    requires SectionAt(w, p2, ReadU16(w, 8), 10) == Ok((ns, p3))
    requires SectionAt(w, p3, ReadU16(w, 10), 10) == Ok((ar, p4))
    ensures ParseSpec(w) == Ok(Message(HeaderAt(w), qs, an, ns, ar))
  {
    hide SectionAt, QuestionsAt, ReadU16;
  }

  lemma SectionFromPlaces(w: seq<byte>, places: seq<nat>)
    requires InARow(w, places, 10)
    ensures var r := SectionAt(w, places[0], |places| - 1, 10);
            r.Ok? && r.value.1 == places[|places| - 1] && ReadFrom(r.value.0, w, places)
  {
    SectionInARow(w, places, 10);
    hide RecordAt, SectionAt, NextRecord, AfterName;
    assert forall i :: 0 <= i < |places| - 1 ==> RecordAt(w, places[i], 10).Ok?;
  }
}
