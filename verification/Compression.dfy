/** What compressed names mean, which never decode, and how large a name can grow. */
module Compression {
  import opened Bytes
  import opened Names
  import opened Messages
  import opened RoundTrip

  lemma {:induction false} CompressedDecode(w: seq<byte>, pos: nat, ls: seq<Label>, t: nat, hops: nat, rest: seq<Label>)
    requires AllFit(ls) && AllNonEmpty(ls) && t < 0x4000 && hops > 0
    requires At(w, pos, EncodeLabels(ls) + [0xC0 + t / 0x100, t % 0x100])
    requires DecodeLabels(w, t, hops - 1) == Ok(rest)
    ensures DecodeLabels(w, pos, hops) == Ok(ls + rest)
    ensures AfterName(w, pos) == pos + |EncodeLabels(ls)| + 2
    decreases |ls|
  {
    hide At, DecodeLabels, AfterName;
    var hi: byte, lo: byte := 0xC0 + t / 0x100, t % 0x100;
    if |ls| == 0 {
      assert EncodeLabels(ls) + [hi, lo] == [hi, lo];
      PointerAt(w, pos, hi, lo);
      DecodeCases(w, pos, hops);
      assert ls + rest == rest;
    } else {
      EncodeCons(ls);
      var tail := EncodeLabels(ls[1..]) + [hi, lo];
      var next := pos + 1 + |ls[0]|;
      assert EncodeLabels(ls) + [hi, lo] == [|ls[0]|] + ls[0] + tail;
      HeadAt(w, pos, ls[0], tail);
      AtInside(w, next, tail);
      CompressedDecode(w, next, ls[1..], t, hops, rest);
      DecodeCases(w, pos, hops);
      assert [ls[0]] + (ls[1..] + rest) == ls + rest;
    }
  }

  lemma PointerAt(w: seq<byte>, pos: nat, hi: byte, lo: byte)
    requires At(w, pos, [hi, lo])
    ensures pos + 2 <= |w| && w[pos] == hi && w[pos + 1] == lo
  {
    assert w[pos] == w[pos..pos + 2][0] && w[pos + 1] == w[pos..pos + 2][1];
  }

  lemma AtInside(w: seq<byte>, pos: nat, x: seq<byte>)
    requires At(w, pos, x)
    ensures pos + |x| <= |w|
  {
  }

  /** Section 4.1.4 of RFC 1035: a sequence of labels ending in a pointer denotes those labels
      followed by the labels of the name the pointer refers to, and the cursor stops after the
      two pointer octets. */
  lemma CompressedName(w: seq<byte>, pos: nat, ls: seq<Label>, t: nat, hops: nat, rest: seq<Label>)
    requires AllFit(ls) && AllNonEmpty(ls) && t < 0x4000 && hops > 0
    requires At(w, pos, EncodeLabels(ls) + [0xC0 + t / 0x100, t % 0x100])
    requires DecodeLabels(w, t, hops - 1) == Ok(rest)
    ensures NameAt(w, pos, hops) == Ok((Join(ls + rest), pos + |EncodeLabels(ls)| + 2))
  {
    hide DecodeLabels, Join, AfterName, EncodeLabels, At;
    CompressedDecode(w, pos, ls, t, hops, rest);
  }

  /** Pointer follows pointer, `n` in all, down to an empty name. */
  predicate Chain(w: seq<byte>, pos: nat, n: nat)
    decreases n
  {
    if n == 0 then pos < |w| && w[pos] == 0
    else pos + 1 < |w| && w[pos] >= 192 && Chain(w, PointerTarget(w[pos], w[pos + 1]), n - 1)
  }

  /** The hop budget is exact: a chain of pointers decodes if and only if it is no longer than that. */
  lemma {:induction false} ChainDecodes(w: seq<byte>, pos: nat, n: nat, hops: nat)
    requires Chain(w, pos, n)
    ensures DecodeLabels(w, pos, hops) == if n <= hops then Ok([]) else Err(PointerCycle)
    decreases n
  {
    hide DecodeLabels;
    DecodeCases(w, pos, hops);
    if n > 0 && hops > 0 {
      ChainDecodes(w, PointerTarget(w[pos], w[pos + 1]), n - 1, hops - 1);
    }
  }

  /** Any length byte below 192 counts as a label length, those above 63 included. */
  lemma AnyLengthDecodes(w: seq<byte>, pos: nat, hops: nat)
    requires pos < |w| && 1 <= w[pos] <= 191 && pos + 1 + w[pos] < |w| && w[pos + 1 + w[pos]] == 0
    ensures NameAt(w, pos, hops) == Ok((w[pos + 1..pos + 1 + w[pos]], pos + w[pos] + 2))
  {
    hide DecodeLabels, AfterName;
    var text := w[pos + 1..pos + 1 + w[pos]];
    DecodeCases(w, pos, hops);
    DecodeCases(w, pos + 1 + w[pos], hops);
    assert [text] + [] == [text];
    assert Join([text]) == text;
  }

  /** Every position of `s` holds a label or pointer that leads to another position of `s`. */
  ghost predicate Cyclic(w: seq<byte>, s: set<nat>) {
    forall p :: p in s ==>
      && p < |w| && w[p] != 0
      && (IsPointer(w[p]) && p + 1 < |w| ==> PointerTarget(w[p], w[p + 1]) in s)
      && (!IsPointer(w[p]) ==> p + 1 + w[p] in s)
  }

  /** A name that runs into a compression cycle decodes under no hop budget. */
  lemma {:induction false} CyclesRejected(w: seq<byte>, s: set<nat>, pos: nat, hops: nat)
    requires Cyclic(w, s) && pos in s
    ensures NameAt(w, pos, hops).Err?
    decreases hops, |w| - pos
  {
    hide Join;
    DecodeCases(w, pos, hops);
    if IsPointer(w[pos]) {
      if pos + 1 < |w| && hops > 0 {
        CyclesRejected(w, s, PointerTarget(w[pos], w[pos + 1]), hops - 1);
      }
    } else {
      CyclesRejected(w, s, pos + 1 + w[pos], hops);
    }
  }

  // ---------------------------------------------------------------- growth

  lemma {:induction false} JoinSize(ls: seq<Label>)
    ensures |Join(ls)| <= |EncodeLabels(ls)|
  {
    if |ls| > 1 {
      JoinSize(ls[..|ls| - 1]);
    } else if |ls| == 1 {
      assert EncodeLabels(ls[..0]) == [];
    }
  }

  lemma {:induction false} PiecesSize(s: Name)
    ensures |EncodeLabels(NonEmpty(Pieces(s)))| <= |EncodeLabels(Pieces(s))| == |s| + 1
    decreases |s|
  {
    if |s| == 0 {
      var one: seq<Label> := [[]];
      assert Pieces(s) == one && one[..0] == [];
    } else {
      PiecesSize(s[..|s| - 1]);
      var ps := Pieces(s[..|s| - 1]);
      var c := s[|s| - 1];
      if c == DOT {
        assert (ps + [[]])[..|ps|] == ps;
      } else {
        assert Pieces(s)[..|ps| - 1] == ps[..|ps| - 1];
      }
    }
    NonEmptySize(Pieces(s));
  }

  lemma {:induction false} NonEmptySize(ps: seq<Label>)
    ensures |EncodeLabels(NonEmpty(ps))| <= |EncodeLabels(ps)|
  {
    if |ps| > 0 {
      var init, last := ps[..|ps| - 1], ps[|ps| - 1];
      NonEmptySize(init);
      if last == [] {
        assert NonEmpty(ps) == NonEmpty(init);
      } else {
        EncodeSnoc(NonEmpty(init), last, |last| % 0x100);
      }
    }
  }

  /** The wire form of a name is at most two bytes longer than its text. */
  lemma NameWireSize(s: Name)
    ensures |NameWire(s)| <= |s| + 2
  {
    hide Pieces, NonEmpty, EncodeLabels;
    PiecesSize(s);
  }

  lemma {:induction false} DecodedSize(w: seq<byte>, pos: nat, hops: nat)
    requires DecodeLabels(w, pos, hops).Ok?
    ensures |EncodeLabels(DecodeLabels(w, pos, hops).value)| <= hops * |w| + |w| - pos
    decreases hops, |w| - pos
  {
    hide DecodeLabels, EncodeLabels;
    DecodeCases(w, pos, hops);
    NothingYet();
    if w[pos] == 0 {
    } else if IsPointer(w[pos]) {
      var t := PointerTarget(w[pos], w[pos + 1]);
      DecodedSize(w, t, hops - 1);
      assert (hops - 1) * |w| + |w| == hops * |w|;
    } else {
      var next := pos + 1 + w[pos];
      DecodedSize(w, next, hops);
      var rest := DecodeLabels(w, next, hops).value;
      var ls := [w[pos + 1..next]] + rest;
      EncodeCons(ls);
      assert ls[1..] == rest;
    }
  }

  /** Text decoded from a message of `|w|` bytes is at most eleven times as long. */
  lemma NameSize(w: seq<byte>, pos: nat)
    requires NameAt(w, pos, MAX_JUMPS).Ok?
    ensures |NameAt(w, pos, MAX_JUMPS).value.0| <= 11 * |w|
  {
    hide DecodeLabels, EncodeLabels, Join;
    DecodedSize(w, pos, MAX_JUMPS);
    JoinSize(DecodeLabels(w, pos, MAX_JUMPS).value);
  }

  const SMALL_MESSAGE: nat := 2976

  lemma SmallRdata(w: seq<byte>, start: nat, rdlen: u16, t: u16)
    requires |w| <= SMALL_MESSAGE && start + rdlen <= |w|
    requires RdataAt(w, start, rdlen, t, MAX_JUMPS).Ok?
    ensures |RdataAt(w, start, rdlen, t, MAX_JUMPS).value| < 0x1_0000
  {
    hide NameAt, NameWire, LabelsFit;
    if IsNameType(t) {
      NameSize(w, start);
      NameWireSize(NameAt(w, start, MAX_JUMPS).value.0);
    } else if t == TYPE_MX {
      NameSize(w, start + 2);
      NameWireSize(NameAt(w, start + 2, MAX_JUMPS).value.0);
    } else if t == TYPE_SOA {
      var (mname, p1) := NameAt(w, start, MAX_JUMPS).value;
      var rname := NameAt(w, p1, MAX_JUMPS).value.0;
      NameSize(w, start);
      NameSize(w, p1);
      NameWireSize(mname);
      NameWireSize(rname);
    }
  }

  lemma SmallRecord(w: seq<byte>, pos: nat)
    requires |w| <= SMALL_MESSAGE && RecordAt(w, pos, MAX_JUMPS).Ok?
    ensures |RecordAt(w, pos, MAX_JUMPS).value.0.rdata| < 0x1_0000
  {
    hide NameAt, RdataAt;
    var p := NameAt(w, pos, MAX_JUMPS).value.1;
    SmallRdata(w, p + 10, ReadU16(w, p + 8), ReadU16(w, p));
  }

  lemma {:induction false} SmallSection(w: seq<byte>, pos: nat, n: nat)
    requires |w| <= SMALL_MESSAGE && SectionAt(w, pos, n, MAX_JUMPS).Ok?
    ensures RdataFits(SectionAt(w, pos, n, MAX_JUMPS).value.0)
  {
    hide RecordAt;
    if n > 0 {
      SmallSection(w, pos, n - 1);
      SmallRecord(w, SectionAt(w, pos, n - 1, MAX_JUMPS).value.1);
    }
  }

  /** For messages of at most 2976 bytes the normal form needs no size condition: expanded
      RDATA always fits its 16-bit length. */
  lemma SmallMessageNormalForm(w: seq<byte>, h: nat)
    requires |w| <= SMALL_MESSAGE && ParseSpec(w).Ok?
    ensures var m := ParseSpec(w).value;
            (PackSpec(m).Ok? && ParseWith(PackSpec(m).value, h) == Ok(m)) <==> CanonicalOwners(m)
  {
    hide QuestionsAt, SectionAt, RdataFits, PackSpec, CanonicalOwners;
    var hd := HeaderAt(w);
    var (_, p1) := QuestionsAt(w, HEADER_SIZE, hd.qdcount, MAX_JUMPS).value;
    var (_, p2) := SectionAt(w, p1, hd.ancount, MAX_JUMPS).value;
    var (_, p3) := SectionAt(w, p2, hd.nscount, MAX_JUMPS).value;
    SmallSection(w, p1, hd.ancount);
    SmallSection(w, p2, hd.nscount);
    SmallSection(w, p3, hd.arcount);
    NormalForm(w, h);
  }
}
