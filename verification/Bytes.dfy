/** Bytes, buffers of bytes and the big-endian integers the wire formats are made of. */
module Bytes {
  type Byte = x: int | 0 <= x < 0x100
  type U16 = x: int | 0 <= x < 0x1_0000
  type U32 = x: int | 0 <= x < 0x1_0000_0000
  type Buffer = seq<Byte>

  datatype Option<+T> = None | Some(value: T)

  function PutU16(v: U16): (b: Buffer)
    ensures |b| == 2
  {
    [v / 0x100, v % 0x100]
  }

  function GetU16(b: Buffer, at: nat): (v: U16)
    requires at + 2 <= |b|
  {
    b[at] as int * 0x100 + b[at + 1] as int
  }

  function PutU32(v: U32): (b: Buffer)
    ensures |b| == 4
  {
    [v / 0x100_0000, v / 0x1_0000 % 0x100, v / 0x100 % 0x100, v % 0x100]
  }

  function GetU32(b: Buffer, at: nat): (v: U32)
    requires at + 4 <= |b|
  {
    b[at] as int * 0x100_0000 + b[at + 1] as int * 0x1_0000 + b[at + 2] as int * 0x100 + b[at + 3] as int
  }

  /** The four base-256 digits of a 32-bit number, put back together. */
  lemma Digits(v: U32)
    ensures v / 0x100_0000 * 0x100_0000 + v / 0x1_0000 % 0x100 * 0x1_0000 + v / 0x100 % 0x100 * 0x100 + v % 0x100 == v
  {
    var a := v as int / 0x100;
    var b := a / 0x100;
    assert b == v as int / 0x1_0000;
    assert b / 0x100 == v as int / 0x100_0000;
  }

  lemma U32RoundTrip(v: U32, pre: Buffer, post: Buffer)
    ensures GetU32(pre + PutU32(v) + post, |pre|) == v
  {
    var b := pre + PutU32(v) + post;
    assert forall i | 0 <= i < 4 :: b[|pre| + i] == PutU32(v)[i];
    Digits(v);
    assert b[|pre|] == PutU32(v)[0] && b[|pre| + 1] == PutU32(v)[1];
    assert b[|pre| + 2] == PutU32(v)[2] && b[|pre| + 3] == PutU32(v)[3];
  }
}
