/** The override map: domain suffixes to addresses, looked up by most specific match. */
module Domains {
  import opened Bytes
  import opened Names

  function ToLower(c: byte): byte {
    if 65 <= c <= 90 then c + 32 else c
  }

  function LowerAll(s: Name): (r: Name)
    ensures |r| == |s|
  {
    seq(|s|, i requires 0 <= i < |s| => ToLower(s[i]))
  }

  function Dotted(s: Name): Name {
    if s == [] || s[|s| - 1] != DOT then s + [DOT] else s
  }

  /** Lower case, ending in a dot. */
  function Canonical(s: Name): Name {
    LowerAll(Dotted(s))
  }

  predicate EndsInDot(s: Name) {
    s != [] && s[|s| - 1] == DOT
  }

  /** The labels of a dot-terminated name, the empty ones included. */
  function DottedLabels(s: Name): seq<Label> {
    var ps := Pieces(s);
    ps[..|ps| - 1]
  }

  /** `a` is the tail of `b`. */
  predicate IsSuffix(a: seq<Label>, b: seq<Label>) {
    |a| <= |b| && b[|b| - |a|..] == a
  }

  /** What it means for an override to apply: its labels are the last labels of the name. */
  predicate Covers(key: Name, d: Name) {
    IsSuffix(DottedLabels(key), DottedLabels(d))
  }

  /** The string test the code performs. */
  predicate IsSubDomain(sub: Name, domain: Name) {
    sub == domain ||
    (|sub| > |domain| &&
     sub[|sub| - |domain|..] == domain &&
     sub[|sub| - |domain| - 1] == DOT)
  }

  // ---------------------------------------------------------------- text and labels

  lemma {:induction false} JoinConcat(ps: seq<Label>, qs: seq<Label>)
    requires |ps| > 0 && |qs| > 0
    ensures Join(ps + qs) == Join(ps) + [DOT] + Join(qs)
  {
    var all := ps + qs;
    assert all[..|all| - 1] == ps + qs[..|qs| - 1];
    if |qs| == 1 {
      assert ps + qs[..0] == ps;
    } else {
      JoinConcat(ps, qs[..|qs| - 1]);
    }
  }

  /** `ps` with one more character on its last piece. */
  function Extend(ps: seq<Label>, c: byte): (r: seq<Label>)
    requires |ps| > 0
    ensures |r| >= |ps|
  {
    if c == DOT then ps + [[]] else ps[..|ps| - 1] + [ps[|ps| - 1] + [c]]
  }

  lemma PiecesSnoc(s: Name, c: byte)
    ensures Pieces(s + [c]) == Extend(Pieces(s), c)
  {
    assert (s + [c])[..|s|] == s;
  }

  lemma SplitLast(ps: seq<Label>)
    requires |ps| > 0
    ensures ps == ps[..|ps| - 1] + [ps[|ps| - 1]]
  {
  }

  lemma JoinOne(l: Label)
    ensures Join([l]) == l
  {
  }

  lemma JoinLonger(init: seq<Label>, last: Label, c: byte)
    ensures Join(init + [last + [c]]) == Join(init + [last]) + [c]
  {
    hide Join;
    JoinOne(last);
    JoinOne(last + [c]);
    if |init| == 0 {
      assert init + [last] == [last];
      assert init + [last + [c]] == [last + [c]];
    } else {
      JoinConcat(init, [last]);
      JoinConcat(init, [last + [c]]);
      var front := Join(init) + [DOT];
      assert front + (last + [c]) == front + last + [c];
    }
  }

  lemma JoinExtend(ps: seq<Label>, c: byte)
    requires |ps| > 0
    ensures Join(Extend(ps, c)) == Join(ps) + [c]
  {
    hide Join;
    if c == DOT {
      JoinOne([]);
      JoinConcat(ps, [[]]);
      assert Join(ps) + [DOT] + [] == Join(ps) + [DOT];
    } else {
      SplitLast(ps);
      JoinLonger(ps[..|ps| - 1], ps[|ps| - 1], c);
    }
  }

  lemma ExtendTail(ps: seq<Label>, qs: seq<Label>, c: byte)
    requires |qs| > 0
    ensures Extend(ps + qs, c) == ps + Extend(qs, c)
  {
  }

  lemma {:induction false} JoinPieces(s: Name)
    ensures Join(Pieces(s)) == s
  {
    hide Extend;
    if |s| == 0 {
      assert Pieces(s) == [[]];
    } else {
      hide Pieces, Join;
      var init, c := s[..|s| - 1], s[|s| - 1];
      assert s == init + [c];
      JoinPieces(init);
      PiecesSnoc(init, c);
      JoinExtend(Pieces(init), c);
    }
  }

  lemma {:induction false} PiecesConcat(a: Name, b: Name)
    ensures Pieces(a + [DOT] + b) == Pieces(a) + Pieces(b)
    decreases |b|
  {
    if |b| == 0 {
      PiecesSnoc(a, DOT);
      assert a + [DOT] + b == a + [DOT];
      assert Pieces(b) == [[]];
    } else {
      hide Pieces, Extend;
      var init, c := b[..|b| - 1], b[|b| - 1];
      assert b == init + [c];
      PiecesConcat(a, init);
      assert a + [DOT] + b == (a + [DOT] + init) + [c];
      PiecesSnoc(a + [DOT] + init, c);
      PiecesSnoc(init, c);
      ExtendTail(Pieces(a), Pieces(init), c);
    }
  }

  lemma LastPieceEmpty(s: Name)
    requires EndsInDot(s)
    ensures Pieces(s) == DottedLabels(s) + [[]]
  {
  }

  /** The string test is exactly the label-suffix relation on dot-terminated names. */
  lemma SubDomainIsLabelSuffix(sub: Name, domain: Name)
    requires EndsInDot(sub) && EndsInDot(domain)
    ensures IsSubDomain(sub, domain) <==> Covers(domain, sub)
  {
    hide Pieces, Join;
    LastPieceEmpty(sub);
    LastPieceEmpty(domain);
    var ps, pd := Pieces(sub), Pieces(domain);
    if IsSubDomain(sub, domain) && sub != domain {
      var x := sub[..|sub| - |domain| - 1];
      assert sub == x + [DOT] + domain;
      PiecesConcat(x, domain);
      var dd := DottedLabels(domain);
      assert DottedLabels(sub) == Pieces(x) + dd;
    }
    if Covers(domain, sub) {
      JoinPieces(sub);
      JoinPieces(domain);
      var front := ps[..|ps| - |pd|];
      assert ps == front + pd;
      if |front| > 0 {
        JoinConcat(front, pd);
        assert sub == Join(front) + [DOT] + domain;
      } else {
        assert ps == pd;
      }
    }
  }

  lemma {:induction false} DotsArePieces(s: Name)
    ensures DotCount(s) == |Pieces(s)| - 1
  {
    if |s| > 0 {
      DotsArePieces(s[..|s| - 1]);
    }
  }

  function DotCount(s: Name): nat {
    if |s| == 0 then 0 else DotCount(s[..|s| - 1]) + (if s[|s| - 1] == DOT then 1 else 0)
  }

  lemma SuffixesOfSameLength(a: seq<Label>, b: seq<Label>, d: seq<Label>)
    requires IsSuffix(a, d) && IsSuffix(b, d) && |a| == |b|
    ensures a == b
  {
  }

  /** Two dot-terminated keys that cover the same name and have equally many labels are equal. */
  lemma CoveringKeysDiffer(k1: Name, k2: Name, d: Name)
    requires EndsInDot(k1) && EndsInDot(k2) && EndsInDot(d)
    requires Covers(k1, d) && Covers(k2, d)
    requires DotCount(k1) == DotCount(k2)
    ensures k1 == k2
  {
    hide Pieces, DotCount, Join;
    DotsArePieces(k1);
    DotsArePieces(k2);
    LastPieceEmpty(k1);
    LastPieceEmpty(k2);
    SuffixesOfSameLength(DottedLabels(k1), DottedLabels(k2), DottedLabels(d));
    JoinPieces(k1);
    JoinPieces(k2);
  }

  /** The same letter, in either case, or the same other byte. */
  predicate SameLetter(c: byte, d: byte) {
    c == d || (65 <= c <= 90 && d == c + 32) || (65 <= d <= 90 && c == d + 32)
  }

  predicate EqualUpToCase(a: Name, b: Name) {
    |a| == |b| && forall i :: 0 <= i < |a| ==> SameLetter(a[i], b[i])
  }

  lemma LowerEqual(a: Name, b: Name)
    ensures LowerAll(a) == LowerAll(b) <==> EqualUpToCase(a, b)
  {
    if LowerAll(a) == LowerAll(b) {
      assert |a| == |LowerAll(a)| == |b|;
      forall i | 0 <= i < |a| ensures SameLetter(a[i], b[i]) {
        assert LowerAll(a)[i] == LowerAll(b)[i];
      }
    }
  }

  lemma UpToCaseSnoc(a: Name, b: Name)
    ensures EqualUpToCase(a + [DOT], b + [DOT]) <==> EqualUpToCase(a, b)
  {
    if EqualUpToCase(a + [DOT], b + [DOT]) {
      forall i | 0 <= i < |a| ensures SameLetter(a[i], b[i]) {
        assert SameLetter((a + [DOT])[i], (b + [DOT])[i]);
      }
    }
  }

  lemma UpToCaseLast(a: Name, b: Name)
    requires EqualUpToCase(a, b)
    ensures EndsInDot(a) <==> EndsInDot(b)
  {
    if a != [] {
      assert SameLetter(a[|a| - 1], b[|b| - 1]);
    }
  }

  /** Two names get the same key exactly when they are equal up to letter case, or become so once the
      final dot that one of them lacks is added. */
  lemma CanonicalCollision(a: Name, b: Name)
    ensures Canonical(a) == Canonical(b) <==>
            || EqualUpToCase(a, b)
            || (!EndsInDot(a) && EqualUpToCase(a + [DOT], b))
            || (!EndsInDot(b) && EqualUpToCase(a, b + [DOT]))
  {
    LowerEqual(Dotted(a), Dotted(b));
    hide EqualUpToCase, LowerAll;
    UpToCaseSnoc(a, b);
    if EqualUpToCase(a, b) {
      UpToCaseLast(a, b);
    }
    if EqualUpToCase(a + [DOT], b) {
      UpToCaseLast(a + [DOT], b);
    }
    if EqualUpToCase(a, b + [DOT]) {
      UpToCaseLast(a, b + [DOT]);
    }
  }

  /** Canonical names end in a dot and are their own canonical form. */
  lemma CanonicalLaws(a: Name)
    ensures EndsInDot(Canonical(a)) && Canonical(Canonical(a)) == Canonical(a)
    ensures Canonical(a) == Canonical(LowerAll(a)) == Canonical(Dotted(a))
  {
    assert LowerAll(Canonical(a)) == Canonical(a);
    assert Dotted(LowerAll(a)) == LowerAll(a) + [DOT] || Dotted(LowerAll(a)) == LowerAll(a);
    assert Canonical(LowerAll(a)) == Canonical(a);
  }

  method Canonicalize(domain: Name) returns (d: Name)
    ensures d == Canonical(domain) && EndsInDot(d)
  {
    d := domain;
    if d == [] {
      return [DOT];
    }
    if d[|d| - 1] != DOT {
      d := d + [DOT];
    }
    ghost var before := d;
    for i := 0 to |d|
      invariant |d| == |before|
      invariant forall k :: 0 <= k < i ==> d[k] == ToLower(before[k])
      invariant forall k :: i <= k < |d| ==> d[k] == before[k]
    {
      d := d[i := ToLower(d[i])];
    }
    assert d == LowerAll(before);
  }

  method CountLabels(domain: Name) returns (count: nat)
    ensures count == DotCount(domain)
    ensures count == |DottedLabels(domain)|
  {
    count := 0;
    for i := 0 to |domain|
      invariant count == DotCount(domain[..i])
    {
      assert domain[..i + 1][..i] == domain[..i];
      if domain[i] == DOT {
        count := count + 1;
      }
    }
    assert domain[..|domain|] == domain;
    DotsArePieces(domain);
  }

  // ---------------------------------------------------------------- lookup

  /** The key whose labels are the longest suffix of the name. */
  ghost predicate IsMostSpecific(m: map<Name, Name>, d: Name, k: Name) {
    k in m && Covers(k, d) && forall k' :: k' in m && Covers(k', d) ==> |DottedLabels(k')| <= |DottedLabels(k)|
  }

  ghost predicate CanonicalKeys(m: map<Name, Name>) {
    forall k :: k in m ==> EndsInDot(k)
  }

  /** At most one key is most specific, so the scan order does not matter. */
  lemma MostSpecificUnique(m: map<Name, Name>, d: Name, k1: Name, k2: Name)
    requires CanonicalKeys(m) && EndsInDot(d)
    requires IsMostSpecific(m, d, k1) && IsMostSpecific(m, d, k2)
    ensures k1 == k2
  {
    hide Pieces, DotCount;
    DotsArePieces(k1);
    DotsArePieces(k2);
    CoveringKeysDiffer(k1, k2, d);
  }

  /** An exact entry is always the most specific one. */
  lemma ExactWins(m: map<Name, Name>, d: Name)
    requires CanonicalKeys(m) && EndsInDot(d) && d in m
    ensures IsMostSpecific(m, d, d)
  {
  }

  /** The root key "." applies to no name whose last label is non-empty. */
  lemma RootCoversOnlyEmptyLabels(d: Name)
    requires EndsInDot(d)
    ensures Covers([DOT], d) <==> DottedLabels(d)[|DottedLabels(d)| - 1] == []
  {
    var root: Name := [DOT];
    assert root[..0] == [];
    assert Pieces([]) == [[]];
    assert DottedLabels(root) == [[]];
  }

  class DomainMap {
    var entries: map<Name, Name>

    ghost predicate Valid()
      reads this
    {
      CanonicalKeys(entries)
    }

    constructor ()
      ensures Valid() && entries == map[]
    {
      entries := map[];
    }

    method Set(domain: Name, value: Name)
      requires Valid()
      modifies this
      ensures Valid() && entries == old(entries)[Canonical(domain) := value]
    {
      var key := Canonicalize(domain);
      entries := entries[key := value];
    }

    method GetExact(domain: Name) returns (r: Option<Name>)
      ensures r == if Canonical(domain) in entries then Some(entries[Canonical(domain)]) else None
    {
      var key := Canonicalize(domain);
      r := if key in entries then Some(entries[key]) else None;
    }

    /** One scan over the keys in any order, keeping the match with the most labels. */
    method GetMostSpecific(domain: Name) returns (r: Option<Name>, ghost winner: Name)
      requires Valid()
      ensures r.None? <==> forall k :: k in entries ==> !Covers(k, Canonical(domain))
      ensures r.Some? ==> IsMostSpecific(entries, Canonical(domain), winner) && r.value == entries[winner]
      ensures Canonical(domain) in entries ==> r == Some(entries[Canonical(domain)])
    {
      hide Canonical, Covers, DottedLabels, IsSubDomain;
      var d := Canonicalize(domain);
      var bestCount: nat := 0;
      r := None;
      winner := [];
      var todo := entries.Keys;
      while todo != {}
        invariant todo <= entries.Keys
        invariant bestCount == 0 <==> r.None?
        invariant r.None? ==> forall k :: k in entries.Keys - todo ==> !Covers(k, d)
        invariant r.Some? ==> winner in entries && Covers(winner, d) && r.value == entries[winner]
        invariant r.Some? ==> bestCount == |DottedLabels(winner)|
        invariant forall k :: k in entries.Keys - todo && Covers(k, d) ==> |DottedLabels(k)| <= bestCount
        decreases todo
      {
        var key :| key in todo;
        todo := todo - {key};
        SubDomainIsLabelSuffix(d, key);
        if IsSubDomain(d, key) {
          var c := CountLabels(key);
          HasLabel(key);
          if c > bestCount {
            bestCount := c;
            r := Some(entries[key]);
            winner := key;
          }
        }
      }
      if d in entries {
        ExactWins(entries, d);
        MostSpecificUnique(entries, d, d, winner);
      }
    }
  }

  lemma HasLabel(s: Name)
    requires EndsInDot(s)
    ensures |DottedLabels(s)| > 0
  {
  }
}
