/** The whole-byte padding is the bit padding of the standard: the suffix 01 of FIPS 202, section 6.1,
    then pad10*1 of section 5.1, with the lowest bit of each byte first (appendix B.1). */
module Sha3Padding {
  import opened Bits
  import opened Common
  import opened Sha3Sponge

  function ByteBits(v: bv8): (bits: seq<bool>)
    ensures |bits| == 8
  {
    [v & 1 != 0, v & 2 != 0, v & 4 != 0, v & 8 != 0, v & 16 != 0, v & 32 != 0, v & 64 != 0, v & 128 != 0]
  }

  function ToBits(data: seq<bv8>): seq<bool>
  {
    if |data| == 0 then [] else ByteBits(data[0]) + ToBits(data[1..])
  }

  function Falses(n: nat): (z: seq<bool>)
    ensures |z| == n && forall i :: 0 <= i < n ==> !z[i]
  {
    seq(n, i => false)
  }

  /** A padding that brings a message of m bits to a multiple of x bits. */
  function Pad101(x: nat, m: nat): seq<bool>
    requires x > 0
  {
    [true] + Falses((-(m as int) - 2) % x) + [true]
  }

  lemma {:induction false} ToBitsAppend(a: seq<bv8>, b: seq<bv8>)
    ensures ToBits(a + b) == ToBits(a) + ToBits(b)
  {
    hide ByteBits;
    if |a| == 0 {
      assert a + b == b;
    } else {
      var first := ByteBits(a[0]);
      ToBitsAppend(a[1..], b);
      assert (a + b)[0] == a[0] && (a + b)[1..] == a[1..] + b;
      assert first + (ToBits(a[1..]) + ToBits(b)) == first + ToBits(a[1..]) + ToBits(b);
    }
  }

  lemma OneByte(v: bv8)
    ensures ToBits([v]) == ByteBits(v)
  {
    hide ByteBits;
    assert ToBits([v]) == ByteBits(v) + ToBits([]);
  }

  lemma {:induction false} ZeroBits(n: nat)
    ensures ToBits(Zeros(n)) == Falses(8 * n)
  {
    if n > 0 {
      ZeroBits(n - 1);
      assert Zeros(n)[1..] == Zeros(n - 1);
      assert ByteBits(0) == Falses(8);
      hide ByteBits;
      assert Falses(8) + Falses(8 * (n - 1)) == Falses(8 * n);
    }
  }

  lemma SuffixBytes()
    ensures ByteBits(0x86) == [false, true, true, false, false, false, false, true]
    ensures ByteBits(0x06) == [false, true, true, false, false, false, false, false]
    ensures ByteBits(0x80) == [false, false, false, false, false, false, false, true]
  {
  }

  /** How many zeros the standard asks for, when q bytes are left in the block. */
  lemma ZerosAskedFor(rate: nat, len: nat)
    requires rate > 0
    ensures (-((8 * len + 2) as int) - 2) % (8 * rate) == 8 * (rate - len % rate) - 4
  {
    var k, r := len / rate, len % rate;
    assert len == rate * k + r;
    var m := 8 * rate;
    var j := 8 * (rate - r) - 4;
    assert -(8 * len + 2) - 2 == m * (-k - 1) + j by {
      assert m * (-k - 1) == -(8 * (rate * k)) - m;
    }
    ModOf(m, -k - 1, j);
  }

  lemma ModOf(m: nat, k: int, j: nat)
    requires j < m
    ensures (m * k + j) % m == j
  {
    var x := m * k + j;
    var q, r := x / m, x % m;
    assert x == m * q + r;
    assert m * (q - k) == j - r;
    MulLower(m, q - k);
  }

  lemma OneByteLeft()
    ensures ToBits([0x86]) == [false, true] + ([true] + Falses(4) + [true])
  {
    SuffixBytes();
    OneByte(0x86);
    hide ByteBits, ToBits;
    assert Falses(4) == [false, false, false, false];
  }

  lemma MoreBytesLeft(n: nat)
    ensures ToBits([0x06] + Zeros(n) + [0x80]) == [false, true] + ([true] + Falses(8 * n + 12) + [true])
  {
    SuffixBytes();
    OneByte(0x06);
    OneByte(0x80);
    ZeroBits(n);
    hide ByteBits, ToBits, Zeros;
    ToBitsAppend([0x06] + Zeros(n), [0x80]);
    ToBitsAppend([0x06], Zeros(n));
    assert [false, true, true, false, false, false, false, false] == [false, true] + [true] + Falses(5);
    assert [false, false, false, false, false, false, false, true] == Falses(7) + [true];
    FalsesTogether(5, 8 * n, 7);
  }

  lemma FalsesTogether(a: nat, b: nat, c: nat)
    ensures Falses(a) + Falses(b) + Falses(c) == Falses(a + b + c)
  {
  }

  lemma PaddingBits(rate: nat, len: nat)
    requires IsRate(rate)
    ensures ToBits(Padding(rate, len)) == [false, true] + Pad101(8 * rate, 8 * len + 2)
  {
    hide ToBits, Falses, Zeros;
    var q := rate - len % rate;
    ZerosAskedFor(rate, len);
    if q == 1 {
      OneByteLeft();
    } else {
      MoreBytesLeft(q - 2);
    }
  }

  /** The padded message, as bits, is the one the standard hashes. */
  lemma PaddedMessageBits(rate: nat, data: seq<bv8>)
    requires IsRate(rate)
    ensures ToBits(data + Padding(rate, |data|))
            == ToBits(data) + ([false, true] + Pad101(8 * rate, 8 * |data| + 2))
  {
    hide ToBits, Padding, Pad101;
    ToBitsAppend(data, Padding(rate, |data|));
    PaddingBits(rate, |data|);
  }

  // ----- bytes, bits and lanes -----

  /** Where a byte mixed in has a 1 the bit is turned over, elsewhere it stays. */
  lemma XorByteBits(a: bv8, b: bv8)
    ensures XorByte(a, b) & b == (!a) & b && XorByte(a, b) & (!b) == a & (!b)
  {
  }

  /** The first byte of a lane is its lowest. */
  lemma PackedFirst(b0: bv8, b1: bv8, b2: bv8, b3: bv8, b4: bv8, b5: bv8, b6: bv8, b7: bv8)
    ensures Pack(b0, b1, b2, b3, b4, b5, b6, b7) & 0xff == b0 as bv64
  {
  }

  /** The other bytes are those of the lane eight places down. */
  lemma PackedRest(b0: bv8, b1: bv8, b2: bv8, b3: bv8, b4: bv8, b5: bv8, b6: bv8, b7: bv8)
    ensures Pack(b0, b1, b2, b3, b4, b5, b6, b7) >> 8 == Pack(b1, b2, b3, b4, b5, b6, b7, 0)
  {
  }

  lemma BytesFirst(l: bv64)
    ensures LaneBytes(l)[0] as bv64 == l & 0xff
  {
  }

  lemma BytesRest(l: bv64)
    ensures LaneBytes(l >> 8) == LaneBytes(l)[1..] + [0]
  {
  }
}
