/** Case-insensitive name comparison (section 2.3.3 of RFC 1035): the 16-byte SIMD loop with its
    scalar tail, and the plain loop it replaces. */
module NameCompare {
  /** One 128-bit register: sixteen 8-bit lanes. */
  type Vec = v: seq<bv8> | |v| == LANES witness seq(16, i => 0)

  const LANES: nat := 16
  const CASE_BIT: bv8 := 0x20

  // ---------------------------------------------------------------- the reference

  function Lower(c: bv8): bv8 {
    if 0x41 <= c <= 0x5A then c | CASE_BIT else c
  }

  /** Equal up to ASCII letter case. */
  predicate EqualsIgnoringCase(a: seq<bv8>, b: seq<bv8>) {
    |a| == |b| && forall i :: 0 <= i < |a| ==> Lower(a[i]) == Lower(b[i])
  }

  lemma EquivalenceRelation(a: seq<bv8>, b: seq<bv8>, c: seq<bv8>)
    ensures EqualsIgnoringCase(a, a)
    ensures EqualsIgnoringCase(a, b) ==> EqualsIgnoringCase(b, a)
    ensures EqualsIgnoringCase(a, b) && EqualsIgnoringCase(b, c) ==> EqualsIgnoringCase(a, c)
  {
    hide Lower;
    if EqualsIgnoringCase(a, b) && EqualsIgnoringCase(b, c) {
      forall i | 0 <= i < |a| ensures Lower(a[i]) == Lower(c[i]) {
        assert Lower(a[i]) == Lower(b[i]);
      }
    }
  }

  // ---------------------------------------------------------------- the intrinsics, lane by lane

  function Xor(a: Vec, b: Vec): Vec {
    seq(LANES, i requires 0 <= i < LANES => a[i] ^ b[i])
  }

  function And(a: Vec, b: Vec): Vec {
    seq(LANES, i requires 0 <= i < LANES => a[i] & b[i])
  }

  function Or(a: Vec, b: Vec): Vec {
    seq(LANES, i requires 0 <= i < LANES => a[i] | b[i])
  }

  function MaxU(a: Vec, b: Vec): Vec {
    seq(LANES, i requires 0 <= i < LANES => if a[i] >= b[i] then a[i] else b[i])
  }

  function MinU(a: Vec, b: Vec): Vec {
    seq(LANES, i requires 0 <= i < LANES => if a[i] <= b[i] then a[i] else b[i])
  }

  function CmpEq(a: Vec, b: Vec): Vec {
    seq(LANES, i requires 0 <= i < LANES => if a[i] == b[i] then 0xFF else 0)
  }

  function Splat(c: bv8): Vec {
    seq(LANES, i => c)
  }

  predicate TestZ(a: Vec) {
    forall i :: 0 <= i < LANES ==> a[i] == 0
  }

  /** movemask == 0xFFFF: the top bit of every lane is set. */
  predicate MaskFull(a: Vec) {
    forall i :: 0 <= i < LANES ==> a[i] & 0x80 != 0
  }

  function Letter(va: Vec): Vec {
    var low := Or(va, Splat(CASE_BIT));
    And(CmpEq(MaxU(low, Splat(0x61)), low), CmpEq(MinU(low, Splat(0x7A)), low))
  }

  /** The body of one 16-byte step: true to go on, false to report a difference. */
  predicate ChunkPasses(va: Vec, vb: Vec) {
    var diff := Xor(va, vb);
    TestZ(diff) ||
    (TestZ(And(diff, Splat(!CASE_BIT))) &&
     MaskFull(Or(CmpEq(diff, Splat(0)), Letter(va))))
  }

  /** What one lane contributes to ChunkPasses. */
  predicate LanePasses(x: bv8, y: bv8) {
    (x ^ y) & !CASE_BIT == 0 &&
    (x ^ y == 0 || 0x61 <= x | CASE_BIT <= 0x7A)
  }

  lemma LaneIsCaseEquality(x: bv8, y: bv8)
    ensures LanePasses(x, y) <==> Lower(x) == Lower(y)
  {
  }

  lemma XorZero(x: bv8, y: bv8)
    ensures x ^ y == 0 <==> x == y
  {
  }

  lemma LetterLane(va: Vec, i: nat)
    requires i < LANES
    ensures Letter(va)[i] == if 0x61 <= va[i] | CASE_BIT <= 0x7A then 0xFF else 0
  {
    var x := va[i] | CASE_BIT;
    var low := Or(va, Splat(CASE_BIT));
    assert low[i] == x;
    assert CmpEq(MaxU(low, Splat(0x61)), low)[i] == if 0x61 <= x then 0xFF else 0;
    assert CmpEq(MinU(low, Splat(0x7A)), low)[i] == if x <= 0x7A then 0xFF else 0;
  }

  lemma MaskLane(va: Vec, vb: Vec, i: nat)
    requires i < LANES
    ensures Or(CmpEq(Xor(va, vb), Splat(0)), Letter(va))[i] & 0x80 != 0
       <==> va[i] ^ vb[i] == 0 || 0x61 <= va[i] | CASE_BIT <= 0x7A
  {
    hide Letter;
    LetterLane(va, i);
    assert CmpEq(Xor(va, vb), Splat(0))[i] == if va[i] ^ vb[i] == 0 then 0xFF else 0;
  }

  lemma NonCaseLane(va: Vec, vb: Vec, i: nat)
    requires i < LANES
    ensures And(Xor(va, vb), Splat(!CASE_BIT))[i] == (va[i] ^ vb[i]) & !CASE_BIT
    ensures Xor(va, vb)[i] == va[i] ^ vb[i]
  {
  }

  /** A 16-byte step passes exactly when all sixteen byte pairs are equal up to case. */
  lemma ChunkIsLanes(va: Vec, vb: Vec)
    ensures ChunkPasses(va, vb) <==> EqualsIgnoringCase(va, vb)
  {
    hide Xor, And, Or, CmpEq, Splat, Letter, Lower, LanePasses;
    forall i | 0 <= i < LANES
      ensures LanePasses(va[i], vb[i]) <==> Lower(va[i]) == Lower(vb[i])
    {
      LaneIsCaseEquality(va[i], vb[i]);
    }
    ChunkIsLanePasses(va, vb);
  }

  lemma ChunkIsLanePasses(va: Vec, vb: Vec)
    ensures ChunkPasses(va, vb) <==> forall i :: 0 <= i < LANES ==> LanePasses(va[i], vb[i])
  {
    hide Xor, And, Or, CmpEq, Splat, Letter;
    forall i | 0 <= i < LANES
      ensures Xor(va, vb)[i] == va[i] ^ vb[i]
      ensures And(Xor(va, vb), Splat(!CASE_BIT))[i] == (va[i] ^ vb[i]) & !CASE_BIT
      ensures Or(CmpEq(Xor(va, vb), Splat(0)), Letter(va))[i] & 0x80 != 0
         <==> va[i] ^ vb[i] == 0 || 0x61 <= va[i] | CASE_BIT <= 0x7A
    {
      NonCaseLane(va, vb, i);
      MaskLane(va, vb, i);
    }
    var diff := Xor(va, vb);
    var nonCase := And(diff, Splat(!CASE_BIT));
    var ok := Or(CmpEq(diff, Splat(0)), Letter(va));
    if TestZ(diff) {
      forall i | 0 <= i < LANES ensures LanePasses(va[i], vb[i]) {
        assert diff[i] == 0;
        XorZero(va[i], vb[i]);
      }
    } else if forall i :: 0 <= i < LANES ==> LanePasses(va[i], vb[i]) {
      forall i | 0 <= i < LANES ensures nonCase[i] == 0 {
        assert LanePasses(va[i], vb[i]);
      }
      forall i | 0 <= i < LANES ensures ok[i] & 0x80 != 0 {
        assert LanePasses(va[i], vb[i]);
      }
    }
  }

  // ---------------------------------------------------------------- the loops

  /** The scalar test of one byte pair. */
  predicate SameChar(ca: bv8, cb: bv8) {
    ca == cb ||
    (if 0x41 <= ca <= 0x5A then ca | CASE_BIT else ca) == (if 0x41 <= cb <= 0x5A then cb | CASE_BIT else cb)
  }

  /** nameEquals as compiled with SSE4.2. */
  method NameEqualsChunked(a: seq<bv8>, b: seq<bv8>) returns (eq: bool)
    ensures eq == EqualsIgnoringCase(a, b)
  {
    hide Lower, ChunkPasses;
    if |a| != |b| {
      return false;
    }
    var len := |a|;
    var i: nat := 0;
    while i + LANES <= len
      invariant i <= len
      invariant forall k :: 0 <= k < i ==> Lower(a[k]) == Lower(b[k])
    {
      var va: Vec, vb: Vec := a[i..i + LANES], b[i..i + LANES];
      ChunkIsLanes(va, vb);
      if !ChunkPasses(va, vb) {
        var j :| 0 <= j < LANES && Lower(va[j]) != Lower(vb[j]);
        assert Lower(a[i + j]) != Lower(b[i + j]);
        return false;
      }
      forall k | i <= k < i + LANES ensures Lower(a[k]) == Lower(b[k]) {
        assert va[k - i] == a[k] && vb[k - i] == b[k];
      }
      i := i + LANES;
    }
    while i < len
      invariant i <= len
      invariant forall k :: 0 <= k < i ==> Lower(a[k]) == Lower(b[k])
    {
      SameCharIsLower(a[i], b[i]);
      if !SameChar(a[i], b[i]) {
        return false;
      }
      i := i + 1;
    }
    return true;
  }

  lemma SameCharIsLower(x: bv8, y: bv8)
    ensures SameChar(x, y) <==> Lower(x) == Lower(y)
  {
  }

  /** nameEquals as compiled without SSE4.2. */
  method NameEqualsScalar(a: seq<bv8>, b: seq<bv8>) returns (eq: bool)
    ensures eq == EqualsIgnoringCase(a, b)
  {
    hide Lower, SameChar;
    if |a| != |b| {
      return false;
    }
    for i := 0 to |a|
      invariant forall k :: 0 <= k < i ==> Lower(a[k]) == Lower(b[k])
    {
      SameCharIsLower(a[i], b[i]);
      if !SameChar(a[i], b[i]) {
        return false;
      }
    }
    return true;
  }
}
