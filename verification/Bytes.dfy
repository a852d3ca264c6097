/** Byte buffers and the fixed-width integers the C++ code reads from and writes to them.
    The host is little-endian, so a native `memcpy` and `read_le32` read the same value. */
module Bytes {

  type byte = x: int | 0 <= x < 0x100
  type Buffer = seq<byte>
  type uint32 = x: int | 0 <= x < 0x1_0000_0000
  type int32 = x: int | -0x8000_0000 <= x < 0x8000_0000
  type int64 = x: int | -0x8000_0000_0000_0000 <= x < 0x8000_0000_0000_0000

  /** `static_cast<int32_t>`: reduction modulo 2^32 into the signed range. */
  function Wrap32(x: int): (r: int32)
    ensures (x - r) % 0x1_0000_0000 == 0
  {
    var u := x % 0x1_0000_0000;
    if u < 0x8000_0000 then u else u - 0x1_0000_0000
  }

  /** A value survives the narrowing exactly when it is in the 32-bit range. */
  lemma NarrowingIsExact(x: int)
    ensures Wrap32(x) == x <==> -0x8000_0000 <= x < 0x8000_0000
  {
  }

  /** Accumulation in an `int64_t`: reduction modulo 2^64 into the signed range. */
  function Wrap64(x: int): (r: int64)
    ensures (x - r) % 0x1_0000_0000_0000_0000 == 0
  {
    var u := x % 0x1_0000_0000_0000_0000;
    if u < 0x8000_0000_0000_0000 then u else u - 0x1_0000_0000_0000_0000
  }

  /** `static_cast<uint32_t>` of a sum or product that may exceed 32 bits. */
  function Low32(x: int): uint32 {
    x % 0x1_0000_0000
  }

  function U32(d: Buffer, o: nat): uint32
    requires o + 4 <= |d|
  {
    var b0: int, b1: int, b2: int, b3: int := d[o], d[o + 1], d[o + 2], d[o + 3];
    b0 + 0x100 * b1 + 0x1_0000 * b2 + 0x100_0000 * b3
  }

  function I32(d: Buffer, o: nat): int32
    requires o + 4 <= |d|
  {
    var u: int := U32(d, o);
    if u < 0x8000_0000 then u else u - 0x1_0000_0000
  }

  function I64(d: Buffer, o: nat): int64
    requires o + 8 <= |d|
  {
    var lo: int, hi: int := U32(d, o), I32(d, o + 4);
    lo + 0x1_0000_0000 * hi
  }

  /** The four bytes `append_int32` writes. */
  function Le32(x: int): (r: Buffer)
    ensures |r| == 4
  {
    var u0 := x % 0x1_0000_0000;
    var u1 := u0 / 0x100;
    var u2 := u1 / 0x100;
    [u0 % 0x100, u1 % 0x100, u2 % 0x100, u2 / 0x100]
  }

  function Le64(x: int): (r: Buffer)
    ensures |r| == 8
  {
    Le32(x % 0x1_0000_0000) + Le32(x / 0x1_0000_0000)
  }

  /** `e` lies in `d` at offset `o`. */
  predicate Holds(d: Buffer, o: nat, e: Buffer) {
    o + |e| <= |d| && forall i :: 0 <= i < |e| ==> d[o + i] == e[i]
  }

  lemma HoldsConcat(d: Buffer, o: nat, a: Buffer, b: Buffer)
    requires Holds(d, o, a + b)
    ensures Holds(d, o, a) && Holds(d, o + |a|, b)
  {
    var e := a + b;
    forall i | 0 <= i < |a|
      ensures d[o + i] == a[i]
    {
      assert e[i] == a[i];
    }
    forall i | 0 <= i < |b|
      ensures d[o + |a| + i] == b[i]
    {
      assert e[|a| + i] == b[i];
    }
  }

  lemma HoldsSlice(d: Buffer, o: nat, e: Buffer)
    requires Holds(d, o, e)
    ensures d[o..o + |e|] == e
  {
  }

  lemma HoldsSelf(e: Buffer)
    ensures Holds(e, 0, e)
  {
  }

  /** Reading inside a window of the buffer is reading the window. */
  lemma ReadWindow(d: Buffer, o: nat, e: Buffer, k: nat)
    requires Holds(d, o, e) && k + 4 <= |e|
    ensures U32(d, o + k) == U32(e, k) && I32(d, o + k) == I32(e, k)
  {
    assert d[o + k] == e[k];
    assert d[o + (k + 1)] == e[k + 1];
    assert d[o + (k + 2)] == e[k + 2];
    assert d[o + (k + 3)] == e[k + 3];
  }

  lemma ReadBack32(x: int)
    ensures U32(Le32(x), 0) == x % 0x1_0000_0000
    ensures -0x8000_0000 <= x < 0x8000_0000 ==> I32(Le32(x), 0) == x
  {
  }

  /** A written 32-bit integer reads back, and the rest of the layout follows it. */
  lemma HoldsLe32(d: Buffer, o: nat, x: int32, rest: Buffer)
    requires Holds(d, o, Le32(x) + rest)
    ensures I32(d, o) == x && Holds(d, o + 4, rest)
  {
    HoldsConcat(d, o, Le32(x), rest);
    ReadWindow(d, o, Le32(x), 0);
    ReadBack32(x);
  }

  lemma HoldsLe64(d: Buffer, o: nat, x: int64, rest: Buffer)
    requires Holds(d, o, Le64(x) + rest)
    ensures I64(d, o) == x && Holds(d, o + 8, rest)
  {
    HoldsConcat(d, o, Le64(x), rest);
    HoldsHalves(d, o, x % 0x1_0000_0000, x / 0x1_0000_0000);
  }

  lemma HoldsHalves(d: Buffer, o: nat, lo: uint32, hi: int32)
    requires Holds(d, o, Le32(lo) + Le32(hi))
    ensures U32(d, o) == lo && I32(d, o + 4) == hi
  {
    HoldsConcat(d, o, Le32(lo), Le32(hi));
    ReadWindow(d, o, Le32(lo), 0);
    ReadWindow(d, o + 4, Le32(hi), 0);
    ReadBack32(lo);
    ReadBack32(hi);
  }
}
