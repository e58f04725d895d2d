/** The register value types of src/hooks/registers.rs: a 64-bit general register with
    its 32-bit views, a 128-bit SIMD register with lane views, and the FPU view of the
    same 128 bits. The `d`/`s` lanes are kept as raw 64/32-bit patterns.

    Lanes are defined through the little-endian byte image of the register, which is
    how the source reads and writes them (by reinterpreting the register's storage as
    an array of narrower integers). */
module Registers {
  import opened Wrappers
  import opened Bytes

  /** Bits [0, 32) of a 64-bit value. */
  function Low32(x: bv64): (w: bv32)
    ensures (w as bv64) == x & 0xFFFF_FFFF
  {
    (x & 0xFFFF_FFFF) as bv32
  }

  // ---------------------------------------------------------------------------
  // Lane views of the 16 bytes of storage of a 128-bit register

  /** The storage of a 128-bit register: its 16 bytes in memory order. */
  type Storage128 = s: seq<bv8> | |s| == 16
    witness [0, 0, 0, 0, 0, 0, 0, 0, 0, 0, 0, 0, 0, 0, 0, 0]

  const Zero128: Storage128 := [0, 0, 0, 0, 0, 0, 0, 0, 0, 0, 0, 0, 0, 0, 0, 0]

  function LaneB(m: Storage128, i: nat): bv8
    requires i < 16
  {
    m[i]
  }

  function LaneH(m: Storage128, i: nat): bv16
    requires i < 8
  {
    Le16(m[2 * i .. 2 * i + 2])
  }

  function LaneS(m: Storage128, i: nat): bv32
    requires i < 4
  {
    Le32(m[4 * i .. 4 * i + 4])
  }

  function LaneD(m: Storage128, i: nat): bv64
    requires i < 2
  {
    Le64(m[8 * i .. 8 * i + 8])
  }

  /** The storage with `patch` written at byte `at`: the effect of storing a narrow
      integer through a lane pointer. */
  function Patch(m: Storage128, at: nat, patch: seq<bv8>): (r: Storage128)
    requires at + |patch| <= 16
    ensures r[at .. at + |patch|] == patch
    ensures forall k :: 0 <= k < 16 && !(at <= k < at + |patch|) ==> r[k] == m[k]
  {
    m[..at] + patch + m[at + |patch|..]
  }

  function WithLaneB(m: Storage128, i: nat, b: bv8): (r: Storage128)
    requires i < 16
    ensures LaneB(r, i) == b
    ensures forall j :: 0 <= j < 16 && j != i ==> LaneB(r, j) == LaneB(m, j)
  {
    Patch(m, i, [b])
  }

  function WithLaneH(m: Storage128, i: nat, h: bv16): (r: Storage128)
    requires i < 8
    ensures LaneH(r, i) == h
    ensures forall j :: 0 <= j < 8 && j != i ==> LaneH(r, j) == LaneH(m, j)
    ensures forall k :: 0 <= k < 16 && !(2 * i <= k < 2 * i + 2) ==> r[k] == m[k]
  {
    Le16OfBytes16(h);
    var r := Patch(m, 2 * i, Bytes16(h));
    forall j | 0 <= j < 8 && j != i
      ensures LaneH(r, j) == LaneH(m, j)
    {
      assert r[2 * j .. 2 * j + 2] == m[2 * j .. 2 * j + 2];
    }
    r
  }

  function WithLaneS(m: Storage128, i: nat, s: bv32): (r: Storage128)
    requires i < 4
    ensures LaneS(r, i) == s
    ensures forall j :: 0 <= j < 4 && j != i ==> LaneS(r, j) == LaneS(m, j)
    ensures forall k :: 0 <= k < 16 && !(4 * i <= k < 4 * i + 4) ==> r[k] == m[k]
  {
    Le32OfBytes32(s);
    var r := Patch(m, 4 * i, Bytes32(s));
    forall j | 0 <= j < 4 && j != i
      ensures LaneS(r, j) == LaneS(m, j)
    {
      assert r[4 * j .. 4 * j + 4] == m[4 * j .. 4 * j + 4];
    }
    r
  }

  function WithLaneD(m: Storage128, i: nat, d: bv64): (r: Storage128)
    requires i < 2
    ensures LaneD(r, i) == d
    ensures forall j :: 0 <= j < 2 && j != i ==> LaneD(r, j) == LaneD(m, j)
    ensures forall k :: 0 <= k < 16 && !(8 * i <= k < 8 * i + 8) ==> r[k] == m[k]
  {
    Le64OfBytes64(d);
    var r := Patch(m, 8 * i, Bytes64(d));
    forall j | 0 <= j < 2 && j != i
      ensures LaneD(r, j) == LaneD(m, j)
    {
      assert r[8 * j .. 8 * j + 8] == m[8 * j .. 8 * j + 8];
    }
    r
  }

  // The lane views agree with the bit layout of the 128-bit value: lane `i` of width
  // `w` is bits [w * i, w * i + w). The index is taken as a bit-vector so that the
  // shift amount is bit-vector arithmetic.

  lemma HalfLanesAreBits01(v: bv128)
    ensures LaneH(Bytes128(v), 0) as bv128 == (v >> 0) & 0xFFFF
    ensures LaneH(Bytes128(v), 1) as bv128 == (v >> 16) & 0xFFFF
  {
    var m := Bytes128(v);
    assert m[0..2] == [m[0], m[1]];
    assert m[2..4] == [m[2], m[3]];
  }

  lemma HalfLanesAreBits23(v: bv128)
    ensures LaneH(Bytes128(v), 2) as bv128 == (v >> 32) & 0xFFFF
    ensures LaneH(Bytes128(v), 3) as bv128 == (v >> 48) & 0xFFFF
  {
    var m := Bytes128(v);
    assert m[4..6] == [m[4], m[5]];
    assert m[6..8] == [m[6], m[7]];
  }

  lemma HalfLanesAreBits45(v: bv128)
    ensures LaneH(Bytes128(v), 4) as bv128 == (v >> 64) & 0xFFFF
    ensures LaneH(Bytes128(v), 5) as bv128 == (v >> 80) & 0xFFFF
  {
    var m := Bytes128(v);
    assert m[8..10] == [m[8], m[9]];
    assert m[10..12] == [m[10], m[11]];
  }

  lemma HalfLanesAreBits67(v: bv128)
    ensures LaneH(Bytes128(v), 6) as bv128 == (v >> 96) & 0xFFFF
    ensures LaneH(Bytes128(v), 7) as bv128 == (v >> 112) & 0xFFFF
  {
    var m := Bytes128(v);
    assert m[12..14] == [m[12], m[13]];
    assert m[14..16] == [m[14], m[15]];
  }

  /** On the little-endian target, 16-bit lane `i` is bits [16i, 16i + 16) of `v`. */
  lemma LaneHIsBits(v: bv128, i: bv8)
    requires i < 8
    ensures LaneH(Bytes128(v), i as nat) as bv128 == (v >> (16 * i)) & 0xFFFF
  {
    if i < 2 { HalfLanesAreBits01(v); }
    else if i < 4 { HalfLanesAreBits23(v); }
    else if i < 6 { HalfLanesAreBits45(v); }
    else { HalfLanesAreBits67(v); }
  }

  lemma ByteLanesAreBits(v: bv128)
    ensures LaneB(Bytes128(v), 0) as bv128 == (v >> 0) & 0xFF
    ensures LaneB(Bytes128(v), 1) as bv128 == (v >> 8) & 0xFF
    ensures LaneB(Bytes128(v), 2) as bv128 == (v >> 16) & 0xFF
    ensures LaneB(Bytes128(v), 3) as bv128 == (v >> 24) & 0xFF
    ensures LaneB(Bytes128(v), 4) as bv128 == (v >> 32) & 0xFF
    ensures LaneB(Bytes128(v), 5) as bv128 == (v >> 40) & 0xFF
    ensures LaneB(Bytes128(v), 6) as bv128 == (v >> 48) & 0xFF
    ensures LaneB(Bytes128(v), 7) as bv128 == (v >> 56) & 0xFF
    ensures LaneB(Bytes128(v), 8) as bv128 == (v >> 64) & 0xFF
    ensures LaneB(Bytes128(v), 9) as bv128 == (v >> 72) & 0xFF
    ensures LaneB(Bytes128(v), 10) as bv128 == (v >> 80) & 0xFF
    ensures LaneB(Bytes128(v), 11) as bv128 == (v >> 88) & 0xFF
    ensures LaneB(Bytes128(v), 12) as bv128 == (v >> 96) & 0xFF
    ensures LaneB(Bytes128(v), 13) as bv128 == (v >> 104) & 0xFF
    ensures LaneB(Bytes128(v), 14) as bv128 == (v >> 112) & 0xFF
    ensures LaneB(Bytes128(v), 15) as bv128 == (v >> 120) & 0xFF
  {
  }

  /** 8-bit lane `i` is bits [8i, 8i + 8) of `v`. */
  lemma LaneBIsBits(v: bv128, i: bv8)
    requires i < 16
    ensures LaneB(Bytes128(v), i as nat) as bv128 == (v >> (8 * i)) & 0xFF
  {
    ByteLanesAreBits(v);
  }

  // Writing the lowest lane of zeroed storage gives that lane's value, zero-extended
  // to 128 bits.

  lemma LowLaneDOfZero(d: bv64)
    ensures Le128(WithLaneD(Zero128, 0, d)) == d as bv128
  {
    assert Bytes128(d as bv128) == Bytes64(d) + [0, 0, 0, 0, 0, 0, 0, 0];
    assert WithLaneD(Zero128, 0, d) == Bytes128(d as bv128);
    Le128OfBytes128(d as bv128);
  }

  lemma LowLaneSOfZero(s: bv32)
    ensures Le128(WithLaneS(Zero128, 0, s)) == s as bv128
  {
    assert Bytes128(s as bv128) == Bytes32(s) + [0, 0, 0, 0, 0, 0, 0, 0, 0, 0, 0, 0];
    assert WithLaneS(Zero128, 0, s) == Bytes128(s as bv128);
    Le128OfBytes128(s as bv128);
  }

  lemma LowLaneHOfZero(h: bv16)
    ensures Le128(WithLaneH(Zero128, 0, h)) == h as bv128
  {
    assert Bytes128(h as bv128) == Bytes16(h) + [0, 0, 0, 0, 0, 0, 0, 0, 0, 0, 0, 0, 0, 0];
    assert WithLaneH(Zero128, 0, h) == Bytes128(h as bv128);
    Le128OfBytes128(h as bv128);
  }

  lemma LowLaneBOfZero(b: bv8)
    ensures Le128(WithLaneB(Zero128, 0, b)) == b as bv128
  {
    assert Bytes128(b as bv128) == [b] + [0, 0, 0, 0, 0, 0, 0, 0, 0, 0, 0, 0, 0, 0, 0];
    assert WithLaneB(Zero128, 0, b) == Bytes128(b as bv128);
    Le128OfBytes128(b as bv128);
  }

  // ---------------------------------------------------------------------------
  // CpuRegister(u64)

  class CpuRegister {
    var raw: bv64

    constructor (x: bv64)
      ensures raw == x
    {
      raw := x;
    }

    /** The AArch64 64-bit view. */
    function X(): bv64
      reads this
    {
      raw
    }

    /** The AArch64 32-bit view: the low half of `X()`. */
    function W(): (w: bv32)
      reads this
      ensures w == Low32(X())
    {
      Low32(raw)
    }

    /** The AArch32 view, identical to `W()`. */
    function R(): (r: bv32)
      reads this
      ensures r == W()
    {
      W()
    }

    method SetX(x: bv64)
      modifies this
      ensures X() == x
    {
      raw := x;
    }

    /** Zero-extends: the upper 32 bits become 0. */
    method SetW(w: bv32)
      modifies this
      ensures X() == w as bv64
      ensures W() == w && X() >> 32 == 0
    {
      raw := w as bv64;
    }

    /** Same as `SetW`. */
    method SetR(r: bv32)
      modifies this
      ensures X() == r as bv64
      ensures R() == r && X() >> 32 == 0
    {
      raw := r as bv64;
    }
  }

  // ---------------------------------------------------------------------------
  // VectorRegister(u128)

  /** An AArch64 SIMD register. Its 16 bytes of storage are kept as they lie in memory;
      `V()` reads them as one little-endian 128-bit integer and the lane views read
      them as arrays of narrower integers. */
  class VectorRegister {
    var mem: Storage128

    constructor (v: bv128)
      ensures V() == v
    {
      mem := Bytes128(v);
      Le128OfBytes128(v);
    }

    /** The register as one integer: the storage read little-endian. */
    function V(): bv128
      reads this
    {
      Le128(mem)
    }

    /** The two 64-bit lanes (raw bit patterns of the `f64` view). */
    function D(): (d: seq<bv64>)
      reads this
      ensures |d| == 2 && forall i :: 0 <= i < 2 ==> d[i] == LaneD(mem, i)
    {
      [LaneD(mem, 0), LaneD(mem, 1)]
    }

    /** The four 32-bit lanes (raw bit patterns of the `f32` view). */
    function S(): (s: seq<bv32>)
      reads this
      ensures |s| == 4 && forall i :: 0 <= i < 4 ==> s[i] == LaneS(mem, i)
    {
      [LaneS(mem, 0), LaneS(mem, 1), LaneS(mem, 2), LaneS(mem, 3)]
    }

    /** The eight 16-bit lanes. */
    function H(): (h: seq<bv16>)
      reads this
      ensures |h| == 8 && forall i :: 0 <= i < 8 ==> h[i] == LaneH(mem, i)
    {
      [LaneH(mem, 0), LaneH(mem, 1), LaneH(mem, 2), LaneH(mem, 3),
       LaneH(mem, 4), LaneH(mem, 5), LaneH(mem, 6), LaneH(mem, 7)]
    }

    /** The sixteen 8-bit lanes. */
    function B(): (b: seq<bv8>)
      reads this
      ensures |b| == 16 && forall i :: 0 <= i < 16 ==> b[i] == LaneB(mem, i)
    {
      mem
    }

    method SetV(v: bv128)
      modifies this
      ensures V() == v
      ensures mem == Bytes128(v)
    {
      mem := Bytes128(v);
      Le128OfBytes128(v);
    }

    /** Writes one 64-bit lane and leaves the other lane alone; an index past the lane
        count panics (slice index out of bounds) and writes nothing. */
    method SetD(index: nat, d: bv64) returns (o: Outcome)
      modifies this
      ensures index < 2 ==> o == Completed && mem == WithLaneD(old(mem), index, d)
      ensures index >= 2 ==> o == Panicked(IndexOutOfBounds(index, 2)) && mem == old(mem)
    {
      if index >= 2 {
        return Panicked(IndexOutOfBounds(index, 2));
      }
      mem := WithLaneD(mem, index, d);
      o := Completed;
    }

    method SetS(index: nat, s: bv32) returns (o: Outcome)
      modifies this
      ensures index < 4 ==> o == Completed && mem == WithLaneS(old(mem), index, s)
      ensures index >= 4 ==> o == Panicked(IndexOutOfBounds(index, 4)) && mem == old(mem)
    {
      if index >= 4 {
        return Panicked(IndexOutOfBounds(index, 4));
      }
      mem := WithLaneS(mem, index, s);
      o := Completed;
    }

    method SetH(index: nat, h: bv16) returns (o: Outcome)
      modifies this
      ensures index < 8 ==> o == Completed && mem == WithLaneH(old(mem), index, h)
      ensures index >= 8 ==> o == Panicked(IndexOutOfBounds(index, 8)) && mem == old(mem)
    {
      if index >= 8 {
        return Panicked(IndexOutOfBounds(index, 8));
      }
      mem := WithLaneH(mem, index, h);
      o := Completed;
    }

    method SetB(index: nat, b: bv8) returns (o: Outcome)
      modifies this
      ensures index < 16 ==> o == Completed && mem == WithLaneB(old(mem), index, b)
      ensures index >= 16 ==> o == Panicked(IndexOutOfBounds(index, 16)) && mem == old(mem)
    {
      if index >= 16 {
        return Panicked(IndexOutOfBounds(index, 16));
      }
      mem := WithLaneB(mem, index, b);
      o := Completed;
    }
  }

  /** `h()[i]` of a vector register is bits [16i, 16i + 16) of its `v()`. */
  lemma VectorHIsBits(r: VectorRegister, i: bv8)
    requires i < 8
    ensures r.H()[i as nat] as bv128 == (r.V() >> (16 * i)) & 0xFFFF
  {
    LaneHIsBits(r.V(), i);
  }

  /** `b()[i]` of a vector register is bits [8i, 8i + 8) of its `v()`. */
  lemma VectorBIsBits(r: VectorRegister, i: bv8)
    requires i < 16
    ensures r.B()[i as nat] as bv128 == (r.V() >> (8 * i)) & 0xFF
  {
    LaneBIsBits(r.V(), i);
  }

  // ---------------------------------------------------------------------------
  // FpuRegister(u128): the same storage, viewed through its lowest lane

  /** An AArch64 floating-point register. It shares its storage with the vector
      register `vec`, which is what the source's mutable reinterpretation
      (`as_vec_mut`) hands out. */
  class FpuRegister {
    const vec: VectorRegister

    constructor (q: bv128)
      ensures Q() == q && fresh(vec)
    {
      vec := new VectorRegister(q);
    }

    /** A copy of this register as a separate vector register with the same 128 bits. */
    method AsVec() returns (v: VectorRegister)
      ensures fresh(v) && v.V() == Q()
    {
      v := new VectorRegister(Q());
    }

    /** The vector view of this very register: writes through it change `Q()`. */
    method AsVecMut() returns (v: VectorRegister)
      ensures v == vec
    {
      v := vec;
    }

    /** The whole 128 bits, read through the vector view. */
    function Q(): bv128
      reads this, vec
    {
      vec.V()
    }

    /** The lowest 64 bits (raw pattern of the `f64` view). */
    function D(): (d: bv64)
      reads this, vec
      ensures d == vec.D()[0]
    {
      LaneD(vec.mem, 0)
    }

    /** The lowest 32 bits (raw pattern of the `f32` view). */
    function S(): (s: bv32)
      reads this, vec
      ensures s == vec.S()[0]
    {
      LaneS(vec.mem, 0)
    }

    /** The lowest 16 bits. */
    function H(): (h: bv16)
      reads this, vec
      ensures h == vec.H()[0]
      ensures h as bv128 == Q() & 0xFFFF
    {
      LaneHIsBits(Q(), 0);
      LaneH(vec.mem, 0)
    }

    /** The lowest 8 bits. */
    function B(): (b: bv8)
      reads this, vec
      ensures b == vec.B()[0]
      ensures b as bv128 == Q() & 0xFF
    {
      LaneBIsBits(Q(), 0);
      LaneB(vec.mem, 0)
    }

    method SetQ(q: bv128)
      modifies vec
      ensures Q() == q
    {
      vec.SetV(q);
    }

    /** Clears the register, then writes lane 0 through the vector view:
        the lowest 64 bits become `d` and every other bit 0. */
    method SetD(d: bv64)
      modifies vec
      ensures Q() == d as bv128 && D() == d
    {
      var v := AsVecMut();
      v.SetV(0);
      var o := v.SetD(0, d);
      LowLaneDOfZero(d);
    }

    method SetS(s: bv32)
      modifies vec
      ensures Q() == s as bv128 && S() == s
    {
      var v := AsVecMut();
      v.SetV(0);
      var o := v.SetS(0, s);
      LowLaneSOfZero(s);
    }

    method SetH(h: bv16)
      modifies vec
      ensures Q() == h as bv128 && H() == h
    {
      var v := AsVecMut();
      v.SetV(0);
      var o := v.SetH(0, h);
      LowLaneHOfZero(h);
    }

    method SetB(b: bv8)
      modifies vec
      ensures Q() == b as bv128 && B() == b
    {
      var v := AsVecMut();
      v.SetV(0);
      var o := v.SetB(0, b);
      LowLaneBOfZero(b);
    }
  }
}
