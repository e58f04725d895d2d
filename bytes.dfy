/** Little-endian byte images of fixed-width words. The target is little-endian, so
    a value of n bytes in memory is the sequence these functions produce. */
module Bytes {

  function Bytes16(h: bv16): (s: seq<bv8>)
    ensures |s| == 2
  {
    [(h & 0xFF) as bv8, ((h >> 8) & 0xFF) as bv8]
  }

  function Le16(s: seq<bv8>): (h: bv16)
    requires |s| == 2
    ensures Bytes16(h) == s
  {
    (s[0] as bv16) | ((s[1] as bv16) << 8)
  }

  function Bytes32(w: bv32): (s: seq<bv8>)
    ensures |s| == 4
  {
    [(w & 0xFF) as bv8, ((w >> 8) & 0xFF) as bv8, ((w >> 16) & 0xFF) as bv8, ((w >> 24) & 0xFF) as bv8]
  }

  function Le32(s: seq<bv8>): (w: bv32)
    requires |s| == 4
    ensures Bytes32(w) == s
  {
    (s[0] as bv32) | ((s[1] as bv32) << 8) | ((s[2] as bv32) << 16) | ((s[3] as bv32) << 24)
  }

  function Bytes64(d: bv64): (s: seq<bv8>)
    ensures |s| == 8
  {
    [((d >> 0) & 0xFF) as bv8, ((d >> 8) & 0xFF) as bv8, ((d >> 16) & 0xFF) as bv8, ((d >> 24) & 0xFF) as bv8,
     ((d >> 32) & 0xFF) as bv8, ((d >> 40) & 0xFF) as bv8, ((d >> 48) & 0xFF) as bv8, ((d >> 56) & 0xFF) as bv8]
  }

  function Le64(s: seq<bv8>): (d: bv64)
    requires |s| == 8
    ensures Bytes64(d) == s
  {
    ((s[0] as bv64) << 0) | ((s[1] as bv64) << 8) | ((s[2] as bv64) << 16) | ((s[3] as bv64) << 24)
    | ((s[4] as bv64) << 32) | ((s[5] as bv64) << 40) | ((s[6] as bv64) << 48) | ((s[7] as bv64) << 56)
  }

  function Bytes128(v: bv128): (s: seq<bv8>)
    ensures |s| == 16
  {
    [((v >> 0) & 0xFF) as bv8, ((v >> 8) & 0xFF) as bv8, ((v >> 16) & 0xFF) as bv8, ((v >> 24) & 0xFF) as bv8,
     ((v >> 32) & 0xFF) as bv8, ((v >> 40) & 0xFF) as bv8, ((v >> 48) & 0xFF) as bv8, ((v >> 56) & 0xFF) as bv8,
     ((v >> 64) & 0xFF) as bv8, ((v >> 72) & 0xFF) as bv8, ((v >> 80) & 0xFF) as bv8, ((v >> 88) & 0xFF) as bv8,
     ((v >> 96) & 0xFF) as bv8, ((v >> 104) & 0xFF) as bv8, ((v >> 112) & 0xFF) as bv8, ((v >> 120) & 0xFF) as bv8]
  }

  function Le128(s: seq<bv8>): (v: bv128)
    requires |s| == 16
    ensures Bytes128(v) == s
  {
    var v :=
      ((s[0] as bv128) << 0) | ((s[1] as bv128) << 8) | ((s[2] as bv128) << 16) | ((s[3] as bv128) << 24)
      | ((s[4] as bv128) << 32) | ((s[5] as bv128) << 40) | ((s[6] as bv128) << 48) | ((s[7] as bv128) << 56)
      | ((s[8] as bv128) << 64) | ((s[9] as bv128) << 72) | ((s[10] as bv128) << 80) | ((s[11] as bv128) << 88)
      | ((s[12] as bv128) << 96) | ((s[13] as bv128) << 104) | ((s[14] as bv128) << 112) | ((s[15] as bv128) << 120);
    var bytes := [s[0], s[1], s[2], s[3], s[4], s[5], s[6], s[7], s[8], s[9], s[10], s[11], s[12], s[13], s[14], s[15]];
    assert Bytes128(v) == bytes;
    assert s == bytes;
    v
  }

  /** Reading back what was written gives the value that was written. */
  lemma Le128OfBytes128(v: bv128)
    ensures Le128(Bytes128(v)) == v
  {
  }

  lemma Le64OfBytes64(d: bv64)
    ensures Le64(Bytes64(d)) == d
  {
  }

  lemma Le32OfBytes32(w: bv32)
    ensures Le32(Bytes32(w)) == w
  {
  }

  lemma Le16OfBytes16(h: bv16)
    ensures Le16(Bytes16(h)) == h
  {
  }
}
