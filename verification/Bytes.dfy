/** Bytes, fixed-width unsigned integers and the big-endian helpers of the wire codec. */
module Bytes {
  type byte = b: int | 0 <= b < 0x100
  type u16 = v: int | 0 <= v < 0x1_0000
  type u32 = v: int | 0 <= v < 0x1_0000_0000

  /** The exceptions thrown while parsing or packing, one constructor per message. */
  datatype Error =
    | TruncatedHeader
    | TruncatedName
    | TruncatedPointer
    | PointerCycle
    | TruncatedLabel
    | LabelTooLong
    | TruncatedQuestion
    | TruncatedRecord
    | TruncatedRdlen
    | TruncatedMx
    | TruncatedSoa
    | SoaReadsPastMessage

  datatype Option<+T> = None | Some(value: T)

  datatype Result<+T> = Ok(value: T) | Err(error: Error) {
    predicate IsFailure() { Err? }

    function PropagateFailure<U>(): Result<U>
      requires Err?
    {
      Err(error)
    }

    function Extract(): T
      requires Ok?
    {
      value
    }
  }

  function U16Bytes(v: u16): (bs: seq<byte>)
    ensures |bs| == 2
  {
    [v / 0x100, v % 0x100]
  }

  function U32Bytes(v: u32): (bs: seq<byte>)
    ensures |bs| == 4
  {
    [v / 0x100_0000, v / 0x1_0000 % 0x100, v / 0x100 % 0x100, v % 0x100]
  }

  function ReadU16(w: seq<byte>, p: nat): u16
    requires p + 2 <= |w|
  {
    (w[p] as int) * 0x100 + w[p + 1]
  }

  function ReadU32(w: seq<byte>, p: nat): u32
    requires p + 4 <= |w|
  {
    (w[p] as int) * 0x100_0000 + (w[p + 1] as int) * 0x1_0000 + (w[p + 2] as int) * 0x100 + w[p + 3]
  }

  /** `x` occurs in `w` at offset `pos`. */
  predicate At(w: seq<byte>, pos: nat, x: seq<byte>) {
    pos + |x| <= |w| && w[pos..pos + |x|] == x
  }

  lemma AtSplit(w: seq<byte>, pos: nat, x: seq<byte>, y: seq<byte>)
    requires At(w, pos, x + y)
    ensures At(w, pos, x) && At(w, pos + |x|, y)
  {
    var s := w[pos..pos + |x + y|];
    assert s == x + y;
    assert w[pos..pos + |x|] == s[..|x|];
    assert w[pos + |x|..pos + |x| + |y|] == s[|x|..];
  }

  lemma ReadU16Written(w: seq<byte>, pos: nat, v: u16)
    requires At(w, pos, U16Bytes(v))
    ensures ReadU16(w, pos) == v
  {
    var s := w[pos..pos + 2];
    assert w[pos] == s[0] && w[pos + 1] == s[1];
  }

  lemma U32Digits(v: int)
    ensures v / 0x100_0000 * 0x100_0000 + v / 0x1_0000 % 0x100 * 0x1_0000 + v / 0x100 % 0x100 * 0x100 + v % 0x100 == v
  {
    var a, b, c := v / 0x100, v / 0x1_0000, v / 0x100_0000;
    NextDigit(v);
    NextDigit(a);
    NextDigit(b);
    assert a / 0x100 == b && b / 0x100 == c by {
      Shifted(v);
    }
  }

  lemma NextDigit(v: int)
    ensures v == v / 0x100 * 0x100 + v % 0x100
  {
  }

  lemma Shifted(v: int)
    ensures v / 0x100 / 0x100 == v / 0x1_0000 && v / 0x1_0000 / 0x100 == v / 0x100_0000
  {
  }

  lemma ReadU32Written(w: seq<byte>, pos: nat, v: u32)
    requires At(w, pos, U32Bytes(v))
    ensures ReadU32(w, pos) == v
  {
    var s := w[pos..pos + 4];
    assert w[pos] == s[0] && w[pos + 1] == s[1] && w[pos + 2] == s[2] && w[pos + 3] == s[3];
    U32Digits(v);
  }
}
