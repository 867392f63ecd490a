/** Domain names: dotted text, label sequences, and the compressed wire form
    (sections 3.1 and 4.1.4 of RFC 1035). */
module Names {
  import opened Bytes

  /** Dotted text, as the bytes of a std::string. */
  type Name = seq<byte>
  type Label = seq<byte>

  const DOT: byte := 46
  const MAX_JUMPS: nat := 10
  const MAX_LABEL: nat := 63

  // ---------------------------------------------------------------- dotted text

  function Join(ls: seq<Label>): Name {
    if |ls| == 0 then []
    else if |ls| == 1 then ls[0]
    else Join(ls[..|ls| - 1]) + [DOT] + ls[|ls| - 1]
  }

  /** The text between dots, empty pieces included. */
  function Pieces(s: Name): (ps: seq<Label>)
    ensures |ps| > 0
  {
    if |s| == 0 then [[]]
    else
      var ps := Pieces(s[..|s| - 1]);
      if s[|s| - 1] == DOT then ps + [[]]
      else ps[..|ps| - 1] + [ps[|ps| - 1] + [s[|s| - 1]]]
  }

  function NonEmpty(ps: seq<Label>): seq<Label> {
    if |ps| == 0 then []
    else NonEmpty(ps[..|ps| - 1]) + (if ps[|ps| - 1] == [] then [] else [ps[|ps| - 1]])
  }

  /** The labels a name denotes: empty pieces are dropped. */
  function Labels(s: Name): seq<Label> {
    NonEmpty(Pieces(s))
  }

  /** The text that survives a trip through the wire form. */
  function Normalise(s: Name): Name {
    Join(Labels(s))
  }

  predicate AllFit(ls: seq<Label>) {
    forall i :: 0 <= i < |ls| ==> |ls[i]| <= MAX_LABEL
  }

  predicate LabelsFit(s: Name) {
    AllFit(Labels(s))
  }

  /** Non-empty labels of at most 63 bytes, joined by single dots. */
  predicate CanonicalName(s: Name) {
    LabelsFit(s) && Normalise(s) == s
  }

  ghost predicate AllNonEmpty(ls: seq<Label>) {
    forall i :: 0 <= i < |ls| ==> ls[i] != []
  }

  ghost predicate DotFree(ls: seq<Label>) {
    forall i :: 0 <= i < |ls| ==> ls[i] != [] && DOT !in ls[i]
  }

  lemma {:induction false} PiecesDotFree(b: Name)
    requires DOT !in b
    ensures Pieces(b) == [b]
  {
    if |b| > 0 {
      var b' := b[..|b| - 1];
      PiecesDotFree(b');
      assert b == b' + [b[|b| - 1]];
    }
  }

  lemma {:induction false} PiecesAppend(a: Name, b: Name)
    requires DOT !in b
    ensures Pieces(a + [DOT] + b) == Pieces(a) + [b]
  {
    var s := a + [DOT] + b;
    if |b| == 0 {
      assert s[..|s| - 1] == a;
    } else {
      var b' := b[..|b| - 1];
      PiecesAppend(a, b');
      assert s[..|s| - 1] == a + [DOT] + b';
      assert b == b' + [b[|b| - 1]];
      assert (Pieces(a) + [b'])[..|Pieces(a)|] == Pieces(a);
    }
  }

  lemma {:induction false} PiecesHaveNoDots(s: Name)
    ensures forall p :: p in Pieces(s) ==> DOT !in p
  {
    if |s| > 0 {
      PiecesHaveNoDots(s[..|s| - 1]);
    }
  }

  lemma {:induction false} NonEmptyKeeps(ps: seq<Label>)
    ensures forall p :: p in NonEmpty(ps) <==> p in ps && p != []
  {
    if |ps| > 0 {
      NonEmptyKeeps(ps[..|ps| - 1]);
      assert ps == ps[..|ps| - 1] + [ps[|ps| - 1]];
    }
  }

  lemma {:induction false} NonEmptyId(ls: seq<Label>)
    requires AllNonEmpty(ls)
    ensures NonEmpty(ls) == ls
  {
    if |ls| > 0 {
      NonEmptyId(ls[..|ls| - 1]);
      assert ls == ls[..|ls| - 1] + [ls[|ls| - 1]];
    }
  }

  lemma LabelsDotFree(s: Name)
    ensures DotFree(Labels(s))
  {
    PiecesHaveNoDots(s);
    NonEmptyKeeps(Pieces(s));
    var ls := Labels(s);
    forall i | 0 <= i < |ls| ensures ls[i] != [] && DOT !in ls[i] {
      assert ls[i] in ls;
    }
  }

  lemma {:induction false} PiecesOfJoin(ls: seq<Label>)
    requires DotFree(ls) && |ls| > 0
    ensures Pieces(Join(ls)) == ls
  {
    if |ls| == 1 {
      PiecesDotFree(ls[0]);
    } else {
      PiecesOfJoin(ls[..|ls| - 1]);
      PiecesAppend(Join(ls[..|ls| - 1]), ls[|ls| - 1]);
      assert ls == ls[..|ls| - 1] + [ls[|ls| - 1]];
    }
  }

  /** Splitting undoes joining on every sequence of dot-free labels. */
  lemma LabelsOfJoin(ls: seq<Label>)
    requires DotFree(ls)
    ensures Labels(Join(ls)) == ls
  {
    if |ls| > 0 {
      PiecesOfJoin(ls);
      NonEmptyId(ls);
    } else {
      assert Pieces([]) == [[]];
      assert NonEmpty([[]]) == [];
    }
  }

  /** Normalising changes neither the labels nor, a second time, the text. */
  lemma NormaliseIdempotent(s: Name)
    ensures Labels(Normalise(s)) == Labels(s)
    ensures Normalise(Normalise(s)) == Normalise(s)
    ensures LabelsFit(s) ==> CanonicalName(Normalise(s))
  {
    LabelsDotFree(s);
    LabelsOfJoin(Labels(s));
  }

  // ---------------------------------------------------------------- wire form

  /** Length-prefixed labels without the terminator. */
  function EncodeLabels(ls: seq<Label>): seq<byte> {
    if |ls| == 0 then []
    else EncodeLabels(ls[..|ls| - 1]) + [|ls[|ls| - 1]| % 0x100] + ls[|ls| - 1]
  }

  function NameWire(s: Name): seq<byte> {
    EncodeLabels(Labels(s)) + [0]
  }

  /** What nameToWire returns or throws. */
  function NameToWireSpec(s: Name): Result<seq<byte>> {
    if LabelsFit(s) then Ok(NameWire(s)) else Err(LabelTooLong)
  }

  predicate IsPointer(b: byte) {
    b >= 0xC0
  }

  function PointerTarget(hi: byte, lo: byte): nat
    requires IsPointer(hi)
  {
    (hi - 0xC0) * 0x100 + lo
  }

  /** Recursive decompression: the labels of the name at `pos`, following at most `hops` pointers. */
  function DecodeLabels(w: seq<byte>, pos: nat, hops: nat): Result<seq<Label>>
    decreases hops, |w| - pos
  {
    if pos >= |w| then Err(TruncatedName)
    else if w[pos] == 0 then Ok([])
    else if IsPointer(w[pos]) then
      if pos + 1 >= |w| then Err(TruncatedPointer)
      else if hops == 0 then Err(PointerCycle)
      else DecodeLabels(w, PointerTarget(w[pos], w[pos + 1]), hops - 1)
    else
      var next := pos + 1 + w[pos];
      if next > |w| then Err(TruncatedLabel)
      else
        Prepend([w[pos + 1..next]], DecodeLabels(w, next, hops))
  }

  function Prepend(ls: seq<Label>, r: Result<seq<Label>>): Result<seq<Label>> {
    match r
    case Ok(more) => Ok(ls + more)
    case Err(e) => Err(e)
  }

  /** Just past the terminator or the first pointer of the name at `pos`. */
  function AfterName(w: seq<byte>, pos: nat): nat
    decreases |w| - pos
  {
    if pos >= |w| then pos
    else if w[pos] == 0 then pos + 1
    else if IsPointer(w[pos]) then pos + 2
    else AfterName(w, pos + 1 + w[pos])
  }

  /** The decompressed text of the name at `pos` and the cursor after it. */
  function NameAt(w: seq<byte>, pos: nat, hops: nat): Result<(Name, nat)> {
    var ls :- DecodeLabels(w, pos, hops);
    Ok((Join(ls), AfterName(w, pos)))
  }

  /** One unrolling of the two recursions above. */
  lemma DecodeCases(w: seq<byte>, pos: nat, hops: nat)
    ensures pos >= |w| ==> DecodeLabels(w, pos, hops) == Err(TruncatedName)
    ensures pos < |w| && w[pos] == 0 ==> DecodeLabels(w, pos, hops) == Ok([]) && AfterName(w, pos) == pos + 1
    ensures pos < |w| && IsPointer(w[pos]) ==> AfterName(w, pos) == pos + 2
    ensures pos + 1 == |w| && IsPointer(w[pos]) ==> DecodeLabels(w, pos, hops) == Err(TruncatedPointer)
    ensures pos + 1 < |w| && IsPointer(w[pos]) ==>
              DecodeLabels(w, pos, hops) ==
              if hops == 0 then Err(PointerCycle)
              else DecodeLabels(w, PointerTarget(w[pos], w[pos + 1]), hops - 1)
    ensures pos < |w| && w[pos] != 0 && !IsPointer(w[pos]) ==>
              AfterName(w, pos) == AfterName(w, pos + 1 + w[pos])
    ensures pos < |w| && w[pos] != 0 && !IsPointer(w[pos]) ==>
              DecodeLabels(w, pos, hops) ==
              if pos + 1 + w[pos] > |w| then Err(TruncatedLabel)
              else Prepend([w[pos + 1..pos + 1 + w[pos]]], DecodeLabels(w, pos + 1 + w[pos], hops))
  {
  }

  /** A decoded name leaves the cursor strictly advanced and inside the message, right after
      a terminator or a two-byte pointer, and every label is 1 to 191 bytes long. */
  lemma {:induction false} DecodedCursor(w: seq<byte>, pos: nat, hops: nat)
    requires DecodeLabels(w, pos, hops).Ok?
    ensures pos < AfterName(w, pos) <= |w|
    ensures var c := AfterName(w, pos);
            w[c - 1] == 0 || (c >= pos + 2 && IsPointer(w[c - 2]))
    ensures forall l :: l in DecodeLabels(w, pos, hops).value ==> 1 <= |l| <= 191
    decreases hops, |w| - pos
  {
    if w[pos] == 0 {
    } else if IsPointer(w[pos]) {
      var t := PointerTarget(w[pos], w[pos + 1]);
      DecodedCursor(w, t, hops - 1);
    } else {
      DecodedCursor(w, pos + 1 + w[pos], hops);
    }
  }

  /** A larger hop budget never changes a name that already decodes. */
  lemma {:induction false} MoreHops(w: seq<byte>, pos: nat, hops: nat, more: nat)
    requires hops <= more && DecodeLabels(w, pos, hops).Ok?
    ensures DecodeLabels(w, pos, more) == DecodeLabels(w, pos, hops)
    decreases hops, |w| - pos
  {
    if w[pos] == 0 {
    } else if IsPointer(w[pos]) {
      MoreHops(w, PointerTarget(w[pos], w[pos + 1]), hops - 1, more - 1);
    } else {
      MoreHops(w, pos + 1 + w[pos], hops, more);
    }
  }

  lemma {:induction false} EncodeCons(ls: seq<Label>)
    requires |ls| > 0
    ensures EncodeLabels(ls) == [|ls[0]| % 0x100] + ls[0] + EncodeLabels(ls[1..])
  {
    if |ls| > 1 {
      var init, last := ls[..|ls| - 1], ls[|ls| - 1];
      EncodeCons(init);
      assert ls[1..][..|ls| - 2] == init[1..];
      assert ls[1..][|ls| - 2] == last;
      var head := [|ls[0]| % 0x100] + ls[0];
      assert EncodeLabels(ls) == (head + EncodeLabels(init[1..])) + [|last| % 0x100] + last;
      assert (head + EncodeLabels(init[1..])) + [|last| % 0x100] + last
          == head + (EncodeLabels(init[1..]) + [|last| % 0x100] + last);
    }
  }

  lemma HeadAt(w: seq<byte>, pos: nat, l: Label, tail: seq<byte>)
    requires 1 <= |l| <= MAX_LABEL
    requires At(w, pos, [|l|] + l + tail)
    ensures w[pos] == |l| && w[pos + 1..pos + 1 + |l|] == l
    ensures At(w, pos + 1 + |l|, tail)
  {
    AtSplit(w, pos, [|l|] + l, tail);
    AtSplit(w, pos, [|l|], l);
    assert w[pos] == w[pos..pos + 1][0];
  }

  lemma DecodeStep(w: seq<byte>, pos: nat, ls: seq<Label>, hops: nat, next: nat)
    requires |ls| > 0 && 1 <= |ls[0]| <= MAX_LABEL && next == pos + 1 + |ls[0]| <= |w|
    requires w[pos] == |ls[0]| && w[pos + 1..next] == ls[0]
    requires DecodeLabels(w, next, hops) == Ok(ls[1..])
    ensures DecodeLabels(w, pos, hops) == Ok(ls)
    ensures AfterName(w, pos) == AfterName(w, next)
  {
    assert ls == [ls[0]] + ls[1..];
  }

  lemma DecodeEnd(w: seq<byte>, pos: nat, hops: nat)
    requires At(w, pos, [0])
    ensures DecodeLabels(w, pos, hops) == Ok([]) && AfterName(w, pos) == pos + 1
  {
    assert w[pos] == w[pos..pos + 1][0];
  }

  /** No compression pointer in the name at `pos`. */
  predicate PointerFree(w: seq<byte>, pos: nat)
    decreases |w| - pos
  {
    pos < |w| ==> w[pos] == 0 || (!IsPointer(w[pos]) && PointerFree(w, pos + 1 + w[pos]))
  }

  /** Decoding under budget zero succeeds exactly on names that decode and have no pointer. */
  lemma {:induction false} BudgetZero(w: seq<byte>, pos: nat, hops: nat)
    ensures DecodeLabels(w, pos, 0).Ok? <==> PointerFree(w, pos) && DecodeLabels(w, pos, hops).Ok?
    decreases |w| - pos
  {
    hide DecodeLabels;
    DecodeCases(w, pos, 0);
    DecodeCases(w, pos, hops);
    if pos < |w| && w[pos] != 0 && !IsPointer(w[pos]) {
      BudgetZero(w, pos + 1 + w[pos], hops);
    }
  }

  /** Labels written without pointers decode to themselves under every hop budget, even none. */
  lemma {:induction false} DecodeEncoded(w: seq<byte>, pos: nat, ls: seq<Label>, hops: nat)
    requires AllFit(ls) && AllNonEmpty(ls)
    requires At(w, pos, EncodeLabels(ls) + [0])
    ensures DecodeLabels(w, pos, hops) == Ok(ls)
    ensures AfterName(w, pos) == pos + |EncodeLabels(ls)| + 1
    decreases |ls|
  {
    if |ls| == 0 {
      assert ls == [];
      assert EncodeLabels(ls) + [0] == [0];
      DecodeEnd(w, pos, hops);
    } else {
      EncodeCons(ls);
      var tail := EncodeLabels(ls[1..]) + [0];
      var next := pos + 1 + |ls[0]|;
      assert EncodeLabels(ls) + [0] == [|ls[0]|] + ls[0] + tail;
      HeadAt(w, pos, ls[0], tail);
      DecodeEncoded(w, next, ls[1..], hops);
      DecodeStep(w, pos, ls, hops, next);
    }
  }

  /** Name round trip: the wire form of any packable name reads back as its normalised text,
      with the cursor exactly past the written bytes and without following a pointer. */
  lemma NameRoundTrip(w: seq<byte>, pos: nat, s: Name, hops: nat)
    requires LabelsFit(s)
    requires At(w, pos, NameWire(s))
    ensures NameAt(w, pos, hops) == Ok((Normalise(s), pos + |NameWire(s)|))
  {
    hide Pieces, NonEmpty, EncodeLabels, Join, DecodeLabels, AfterName;
    LabelsDotFree(s);
    DecodeEncoded(w, pos, Labels(s), hops);
  }

  // ---------------------------------------------------------------- the loops

  lemma NothingYet()
    ensures NonEmpty([]) == [] && EncodeLabels([]) == [] && Join([]) == []
  {
  }

  lemma PrependNothing(r: Result<seq<Label>>)
    ensures Prepend([], r) == r
  {
    if r.Ok? {
      assert [] + r.value == r.value;
    }
  }

  lemma PrependSnoc(ls: seq<Label>, l: Label, r: Result<seq<Label>>)
    ensures Prepend(ls, Prepend([l], r)) == Prepend(ls + [l], r)
  {
    if r.Ok? {
      assert ls + ([l] + r.value) == ls + [l] + r.value;
    }
  }

  lemma JoinSnoc(ls: seq<Label>, l: Label)
    requires AllNonEmpty(ls)
    ensures Join(ls + [l]) == if Join(ls) == [] then l else Join(ls) + [DOT] + l
  {
    assert (ls + [l])[..|ls|] == ls;
    if |ls| > 0 {
      assert ls[|ls| - 1] in ls;
      assert Join(ls) != [];
    }
  }

  /** wireToName: a cursor loop with a saved return position and a jump counter. */
  method WireToName(w: seq<byte>, start: nat) returns (r: Result<(Name, nat)>)
    ensures r == NameAt(w, start, 10)
    ensures r.Ok? ==> start < r.value.1 <= |w|
  {
    hide Join, DecodeLabels, AfterName;
    var p: nat := start;
    var name: Name := [];
    var jumped := false;
    var saved: nat := 0;
    var jumpCount: nat := 0;
    ghost var done: seq<Label> := [];
    NothingYet();
    PrependNothing(DecodeLabels(w, start, MAX_JUMPS));
    while true
      invariant jumpCount <= MAX_JUMPS
      invariant AllNonEmpty(done) && name == Join(done)
      invariant DecodeLabels(w, start, MAX_JUMPS) == Prepend(done, DecodeLabels(w, p, MAX_JUMPS - jumpCount))
      invariant if jumped then saved == AfterName(w, start) else AfterName(w, p) == AfterName(w, start)
      decreases MAX_JUMPS - jumpCount, |w| - p
    {
      DecodeCases(w, p, MAX_JUMPS - jumpCount);
      if p >= |w| {
        return Err(TruncatedName);
      }
      var len := w[p];
      if len == 0 {
        if !jumped {
          p := p + 1;
        }
        assert done + [] == done;
        break;
      }
      if IsPointer(len) {
        if p + 1 >= |w| {
          return Err(TruncatedPointer);
        }
        jumpCount := jumpCount + 1;
        if jumpCount > MAX_JUMPS {
          return Err(PointerCycle);
        }
        var offset := PointerTarget(len, w[p + 1]);
        if !jumped {
          p := p + 2;
          saved := p;
        }
        p := offset;
        jumped := true;
        continue;
      }
      p := p + 1;
      if p + len > |w| {
        return Err(TruncatedLabel);
      }
      ghost var piece := w[p..p + len];
      JoinSnoc(done, piece);
      PrependSnoc(done, piece, DecodeLabels(w, p + len, MAX_JUMPS - jumpCount));
      done := done + [piece];
      if name != [] {
        name := name + [DOT];
      }
      name := name + w[p..p + len];
      p := p + len;
    }
    if jumped {
      p := saved;
    }
    DecodedCursor(w, start, MAX_JUMPS);
    r := Ok((name, p));
  }

  /** std::string::find for a dot: the first dot at or after `from`, or the length. */
  method FindDot(s: Name, from: nat) returns (d: nat)
    requires from <= |s|
    ensures from <= d <= |s|
    ensures DOT !in s[from..d]
    ensures d < |s| ==> s[d] == DOT
  {
    d := from;
    while d < |s| && s[d] != DOT
      invariant from <= d <= |s|
      invariant DOT !in s[from..d]
    {
      d := d + 1;
      assert s[from..d] == s[from..d - 1] + [s[d - 1]];
    }
  }

  /** The pieces before `start`, when `start` is 0 or follows a dot. */
  ghost function PiecesBefore(s: Name, start: nat): seq<Label>
    requires start <= |s| + 1
  {
    if start == 0 then [] else Pieces(s[..start - 1])
  }

  lemma PiecesStep(s: Name, start: nat, end: nat)
    requires start <= end <= |s| && DOT !in s[start..end]
    requires start == 0 || s[start - 1] == DOT
    ensures Pieces(s[..end]) == PiecesBefore(s, start) + [s[start..end]]
  {
    if start == 0 {
      assert s[..end] == s[0..end];
      PiecesDotFree(s[..end]);
    } else {
      assert s[..end] == s[..start - 1] + [DOT] + s[start..end];
      PiecesAppend(s[..start - 1], s[start..end]);
    }
  }

  /** One more character starts a new piece or extends the last one. */
  lemma PiecesLast(s: Name)
    requires |s| > 0
    ensures var ps, c := Pieces(s[..|s| - 1]), s[|s| - 1];
            && (c == DOT ==> Pieces(s) == ps + [[]])
            && (c != DOT ==> Pieces(s) == ps[..|ps| - 1] + [ps[|ps| - 1] + [c]])
  {
  }

  lemma {:induction false} PiecesGrow(s: Name, k: nat)
    requires k < |s| && s[k] == DOT
    ensures |Pieces(s)| > |Pieces(s[..k])| && Pieces(s)[..|Pieces(s[..k])|] == Pieces(s[..k])
    decreases |s|
  {
    hide Pieces;
    PiecesLast(s);
    var init := s[..|s| - 1];
    if k < |s| - 1 {
      PiecesGrow(init, k);
      assert init[..k] == s[..k];
    }
  }

  /** A piece between dots is a piece of the whole name. */
  lemma PieceOfWhole(s: Name, end: nat, l: Label)
    requires end <= |s| && (end < |s| ==> s[end] == DOT)
    requires l in Pieces(s[..end]) && l != []
    ensures l in Labels(s)
    ensures |l| > MAX_LABEL ==> !LabelsFit(s)
  {
    NonEmptyKeeps(Pieces(s));
    if end == |s| {
      assert s[..end] == s;
    } else {
      PiecesGrow(s, end);
      var n := |Pieces(s[..end])|;
      assert l in Pieces(s)[..n];
    }
  }

  lemma NoLabels(s: Name)
    requires s == [DOT] || s == []
    ensures Labels(s) == []
  {
    assert Pieces([]) == [[]];
    if s == [DOT] {
      assert s[..0] == [];
      var two: seq<Label> := [[]] + [[]];
      assert two[..1] == [[]];
      assert NonEmpty(two) == NonEmpty([[]]);
    }
  }

  lemma KeepPiece(ps: seq<Label>, p: Label)
    requires p != []
    ensures NonEmpty(ps + [p]) == NonEmpty(ps) + [p]
  {
    assert (ps + [p])[..|ps|] == ps;
  }

  lemma EncodeSnoc(ls: seq<Label>, l: Label, size: byte)
    requires size == |l| % 0x100
    ensures EncodeLabels(ls) + [size] + l == EncodeLabels(ls + [l])
  {
    assert (ls + [l])[..|ls|] == ls;
  }

  lemma DropPiece(ps: seq<Label>)
    ensures NonEmpty(ps + [[]]) == NonEmpty(ps)
  {
    assert (ps + [[]])[..|ps|] == ps;
  }

  /** nameToWire: split at dots, drop empty labels, refuse labels over 63 bytes. */
  method NameToWire(s: Name) returns (r: Result<seq<byte>>)
    ensures r == NameToWireSpec(s)
    ensures r.Err? <==> exists i :: 0 <= i < |Labels(s)| && |Labels(s)[i]| > 63
  {
    hide Pieces, NonEmpty, EncodeLabels, Join;
    if s == [DOT] || s == [] {
      NoLabels(s);
      NothingYet();
      assert NameWire(s) == [0];
      return Ok([0]);
    }
    var out: seq<byte> := [];
    var start: nat := 0;
    ghost var kept: seq<Label> := [];
    NothingYet();
    while start <= |s|
      invariant start <= |s|
      invariant start == 0 || s[start - 1] == DOT
      invariant kept == NonEmpty(PiecesBefore(s, start))
      invariant out == EncodeLabels(kept) && AllFit(kept)
      decreases |s| - start
    {
      var end := FindDot(s, start);
      var len := end - start;
      var piece := s[start..end];
      ghost var before := PiecesBefore(s, start);
      PiecesStep(s, start, end);
      if len > 0 {
        if len > MAX_LABEL {
          PieceOfWhole(s, end, piece);
          assert !LabelsFit(s);
          return Err(LabelTooLong);
        }
        KeepPiece(before, piece);
        var size: byte := len;
        EncodeSnoc(kept, piece, size);
        kept := kept + [piece];
        out := out + [size] + piece;
      } else {
        DropPiece(before);
        assert piece == [];
      }
      assert kept == NonEmpty(Pieces(s[..end]));
      if end == |s| {
        assert s[..end] == s;
        break;
      }
      start := end + 1;
      assert PiecesBefore(s, start) == Pieces(s[..end]);
    }
    assert kept == Labels(s);
    assert out + [0] == NameWire(s);
    r := Ok(out + [0]);
  }
}
