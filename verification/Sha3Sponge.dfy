/** The SHA-3 sponge over bytes (FIPS 202, sections 4, 5.1 and 6.1), the byte-by-byte form a streaming
    hasher computes, and the proof that they agree. */
module Sha3Sponge {
  import opened Bits
  import opened Common
  import opened Keccak

  const STATE_BYTES: nat := 200

  type ByteState = s: seq<bv8> | |s| == 200 witness seq(200, i => 0)

  function XorByte(a: bv8, b: bv8): bv8
  {
    a ^ b
  }

  // ----- bytes and lanes -----

  /** Eight bytes as a lane, the first byte lowest (FIPS 202, section 3.1.2 with appendix B.1). */
  function LaneOf(b: seq<bv8>): Lane
    requires |b| == 8
  {
    Pack(b[0], b[1], b[2], b[3], b[4], b[5], b[6], b[7])
  }

  function LaneBytes(l: Lane): (b: seq<bv8>)
    ensures |b| == 8
  {
    [(l & 0xff) as bv8, ((l >> 8) & 0xff) as bv8, ((l >> 16) & 0xff) as bv8, ((l >> 24) & 0xff) as bv8,
     ((l >> 32) & 0xff) as bv8, ((l >> 40) & 0xff) as bv8, ((l >> 48) & 0xff) as bv8, ((l >> 56) & 0xff) as bv8]
  }

  function Pack(b0: bv8, b1: bv8, b2: bv8, b3: bv8, b4: bv8, b5: bv8, b6: bv8, b7: bv8): Lane
  {
    (b0 as bv64) | (b1 as bv64 << 8) | (b2 as bv64 << 16) | (b3 as bv64 << 24)
    | (b4 as bv64 << 32) | (b5 as bv64 << 40) | (b6 as bv64 << 48) | (b7 as bv64 << 56)
  }

  lemma XorLane(a: seq<bv8>, b: seq<bv8>)
    requires |a| == |b| == 8
    ensures LaneBytes(Xor(LaneOf(a), LaneOf(b)))
            == [XorByte(a[0], b[0]), XorByte(a[1], b[1]), XorByte(a[2], b[2]), XorByte(a[3], b[3]),
                XorByte(a[4], b[4]), XorByte(a[5], b[5]), XorByte(a[6], b[6]), XorByte(a[7], b[7])]
  {
  }

  lemma XorLaneBytes(a: seq<bv8>, b: seq<bv8>)
    requires |a| == |b| == 8
    ensures forall j :: 0 <= j < 8 ==> LaneBytes(Xor(LaneOf(a), LaneOf(b)))[j] == XorByte(a[j], b[j])
  {
    hide LaneBytes, LaneOf, Xor, XorByte;
    XorLane(a, b);
  }

  function StateLanes(b: ByteState): State
  {
    seq(25, i requires 0 <= i < 25 => LaneOf(b[8 * i..8 * i + 8]))
  }

  function StateBytes(a: State): ByteState
  {
    seq(200, k requires 0 <= k < 200 => LaneBytes(a[k / 8])[k % 8])
  }

  /** The permutation on the byte form of the state. */
  function Permuted(b: ByteState): ByteState
  {
    StateBytes(KeccakF(StateLanes(b)))
  }

  // ----- the sponge, block by block -----

  predicate IsRate(rate: nat)
  {
    0 < rate < STATE_BYTES && rate % 8 == 0
  }

  function XorInto(b: ByteState, block: seq<bv8>): ByteState
    requires |block| <= 200
  {
    seq(200, k requires 0 <= k < 200 => if k < |block| then XorByte(b[k], block[k]) else b[k])
  }

  function Absorb(rate: nat, b: ByteState, blocks: seq<bv8>): ByteState
    requires IsRate(rate) && |blocks| % rate == 0
    decreases |blocks|
  {
    if |blocks| == 0 then b
    else
      BlocksLeft(rate, |blocks|);
      Absorb(rate, Permuted(XorInto(b, blocks[..rate])), blocks[rate..])
  }

  lemma BlocksLeft(rate: nat, len: nat)
    requires 0 < rate && 0 < len && len % rate == 0
    ensures len >= rate && (len - rate) % rate == 0
  {
    var q := len / rate;
    assert len == rate * q && q >= 1;
    assert len - rate == (q - 1) * rate;
    MultipleMod(q - 1, rate);
  }

  /** The padding of FIPS 202, section 5.1, with the suffix of section 6.1, in whole bytes. */
  function Padding(rate: nat, len: nat): (p: seq<bv8>)
    requires IsRate(rate)
    ensures |p| == rate - len % rate
  {
    var q := rate - len % rate;
    if q == 1 then [0x86] else [0x06] + Zeros(q - 2) + [0x80]
  }

  lemma PaddedLength(rate: nat, len: nat)
    requires IsRate(rate)
    ensures (len + (rate - len % rate)) % rate == 0
  {
    var q := len / rate;
    assert len + (rate - len % rate) == (q + 1) * rate;
    MultipleMod(q + 1, rate);
  }

  /** The first n bytes of the digest of data, n no larger than the rate. */
  function Digest(rate: nat, data: seq<bv8>, n: nat): seq<bv8>
    requires IsRate(rate) && n <= rate
  {
    PaddedLength(rate, |data|);
    Absorb(rate, Zeros(STATE_BYTES), data + Padding(rate, |data|))[..n]
  }

  // ----- the sponge, byte by byte -----

  /** The state with one more byte at place k. */
  function WithByte(b: ByteState, k: nat, v: bv8): ByteState
    requires k < STATE_BYTES
  {
    b[k := XorByte(b[k], v)]
  }

  /** The state after each byte of data has been added in turn, permuting whenever a block is full. */
  function Streamed(rate: nat, data: seq<bv8>): ByteState
    requires IsRate(rate)
  {
    if |data| == 0 then Zeros(STATE_BYTES)
    else
      var last := |data| - 1;
      var mixed := WithByte(Streamed(rate, data[..last]), last % rate, data[last]);
      if last % rate == rate - 1 then Permuted(mixed) else mixed
  }

  lemma StreamedStep(rate: nat, data: seq<bv8>, v: bv8)
    requires IsRate(rate)
    ensures var k := |data| % rate;
            var mixed := WithByte(Streamed(rate, data), k, v);
            Streamed(rate, data + [v]) == if k == rate - 1 then Permuted(mixed) else mixed
  {
    hide WithByte, Permuted;
    assert (data + [v])[..|data|] == data;
  }

  /** Where the next byte goes after whole blocks and part of another. */
  lemma NextPlace(rate: nat, whole: nat, part: nat)
    requires rate > 0 && whole % rate == 0 && part < rate
    ensures (whole + part) % rate == part
  {
    var q := whole / rate;
    assert whole == rate * q;
    DivModUnique(whole + part, rate, q, part);
  }

  lemma XorIntoStep(b: ByteState, part: seq<bv8>, v: bv8)
    requires |part| < STATE_BYTES
    ensures WithByte(XorInto(b, part), |part|, v) == XorInto(b, part + [v])
  {
    hide XorByte;
  }

  lemma XorIntoNothing(b: ByteState)
    ensures XorInto(b, []) == b
  {
  }

  lemma {:induction false} StreamedPart(rate: nat, whole: seq<bv8>, part: seq<bv8>)
    requires IsRate(rate) && |whole| % rate == 0 && |part| < rate
    ensures Streamed(rate, whole + part) == XorInto(Streamed(rate, whole), part)
    decreases |part|
  {
    hide Streamed, XorInto, WithByte, Permuted;
    if |part| == 0 {
      assert whole + part == whole && part == [];
      XorIntoNothing(Streamed(rate, whole));
    } else {
      var init, v := part[..|part| - 1], part[|part| - 1];
      assert part == init + [v] && whole + part == whole + init + [v];
      StreamedPart(rate, whole, init);
      StreamedStep(rate, whole + init, v);
      NextPlace(rate, |whole|, |init|);
      XorIntoStep(Streamed(rate, whole), init, v);
    }
  }

  lemma StreamedBlock(rate: nat, whole: seq<bv8>, block: seq<bv8>)
    requires IsRate(rate) && |whole| % rate == 0 && |block| == rate
    ensures Streamed(rate, whole + block) == Permuted(XorInto(Streamed(rate, whole), block))
  {
    hide Streamed, XorInto, WithByte, Permuted;
    var init, v := block[..rate - 1], block[rate - 1];
    assert block == init + [v] && whole + block == whole + init + [v];
    StreamedPart(rate, whole, init);
    StreamedStep(rate, whole + init, v);
    NextPlace(rate, |whole|, |init|);
    XorIntoStep(Streamed(rate, whole), init, v);
  }

  /** The byte-by-byte state, at a block boundary, is the sponge's. */
  lemma {:induction false} StreamIsSponge(rate: nat, whole: seq<bv8>, blocks: seq<bv8>)
    requires IsRate(rate) && |whole| % rate == 0 && |blocks| % rate == 0
    ensures Absorb(rate, Streamed(rate, whole), blocks) == Streamed(rate, whole + blocks)
    decreases |blocks|
  {
    hide Streamed, XorInto, Permuted;
    if |blocks| == 0 {
      assert whole + blocks == whole;
    } else {
      BlocksLeft(rate, |blocks|);
      var block, rest := blocks[..rate], blocks[rate..];
      assert whole + blocks == whole + block + rest;
      StreamedBlock(rate, whole, block);
      AddWhole(rate, |whole|);
      StreamIsSponge(rate, whole + block, rest);
    }
  }

  lemma AddWhole(rate: nat, len: nat)
    requires rate > 0 && len % rate == 0
    ensures (len + rate) % rate == 0
  {
    var q := len / rate;
    assert len + rate == (q + 1) * rate;
    MultipleMod(q + 1, rate);
  }

  /** The digest of data is the front of the byte-by-byte state after its padding. */
  lemma DigestStreamed(rate: nat, data: seq<bv8>, n: nat)
    requires IsRate(rate) && n <= rate
    ensures Digest(rate, data, n) == Streamed(rate, data + Padding(rate, |data|))[..n]
  {
    hide Absorb, Permuted, Zeros, Padding;
    assert Streamed(rate, []) == Zeros(STATE_BYTES);
    hide Streamed;
    var padded := data + Padding(rate, |data|);
    PaddedLength(rate, |data|);
    assert [] + padded == padded;
    StreamIsSponge(rate, [], padded);
  }

  lemma XorZero(v: bv8)
    ensures XorByte(v, 0) == v
  {
  }

  /** Zero bytes that do not fill the block change nothing. */
  lemma {:induction false} StreamedZeros(rate: nat, data: seq<bv8>, n: nat)
    requires IsRate(rate) && |data| % rate + n < rate
    ensures Streamed(rate, data + Zeros(n)) == Streamed(rate, data)
    ensures |data + Zeros(n)| % rate == |data| % rate + n
  {
    hide Streamed, Permuted, XorByte;
    if n == 0 {
      assert data + Zeros(n) == data;
    } else {
      StreamedZeros(rate, data, n - 1);
      assert data + Zeros(n) == data + Zeros(n - 1) + [0];
      StreamedStep(rate, data + Zeros(n - 1), 0);
      var k := |data| % rate + n - 1;
      XorZero(Streamed(rate, data)[k]);
      NextInBlock(rate, |data| + n - 1);
    }
  }

  lemma NextInBlock(rate: nat, len: nat)
    requires rate > 0
    ensures (len + 1) % rate == if len % rate == rate - 1 then 0 else len % rate + 1
  {
    var q, r := len / rate, len % rate;
    assert len == rate * q + r;
    if r == rate - 1 {
      assert len + 1 == rate * (q + 1);
      DivModUnique(len + 1, rate, q + 1, 0);
    } else {
      DivModUnique(len + 1, rate, q, r + 1);
    }
  }

  /** The state with a run of bytes added from place k on. */
  function XorAt(b: ByteState, k: nat, part: seq<bv8>): ByteState
    requires k + |part| <= STATE_BYTES
  {
    seq(200, i requires 0 <= i < 200 => if k <= i < k + |part| then XorByte(b[i], part[i - k]) else b[i])
  }

  lemma XorAtStep(b: ByteState, k: nat, part: seq<bv8>, v: bv8)
    requires k + |part| < STATE_BYTES
    ensures WithByte(XorAt(b, k, part), k + |part|, v) == XorAt(b, k, part + [v])
  {
    hide XorByte;
  }

  lemma XorAtNothing(b: ByteState, k: nat)
    requires k <= STATE_BYTES
    ensures XorAt(b, k, []) == b
  {
  }

  /** A run of bytes that stays within the block does what its bytes do one by one. */
  lemma {:induction false} StreamedRun(rate: nat, data: seq<bv8>, part: seq<bv8>)
    requires IsRate(rate) && |data| % rate + |part| < rate
    ensures Streamed(rate, data + part) == XorAt(Streamed(rate, data), |data| % rate, part)
    ensures |data + part| % rate == |data| % rate + |part|
    decreases |part|
  {
    hide Streamed, Permuted, XorAt, WithByte;
    var k := |data| % rate;
    if |part| == 0 {
      assert data + part == data && part == [];
      XorAtNothing(Streamed(rate, data), k);
    } else {
      var init, v := part[..|part| - 1], part[|part| - 1];
      assert part == init + [v] && data + part == data + init + [v];
      StreamedRun(rate, data, init);
      StreamedStep(rate, data + init, v);
      XorAtStep(Streamed(rate, data), k, init, v);
      NextInBlock(rate, |data + init|);
    }
  }

  /** A run of bytes that may fill the block. */
  lemma StreamedSpan(rate: nat, data: seq<bv8>, part: seq<bv8>)
    requires IsRate(rate) && |part| > 0 && |data| % rate + |part| <= rate
    ensures var k := |data| % rate;
            var mixed := XorAt(Streamed(rate, data), k, part);
            && Streamed(rate, data + part) == (if k + |part| == rate then Permuted(mixed) else mixed)
            && |data + part| % rate == if k + |part| == rate then 0 else k + |part|
  {
    hide Streamed, Permuted, XorAt, WithByte;
    var init, v := part[..|part| - 1], part[|part| - 1];
    assert part == init + [v] && data + part == data + init + [v];
    StreamedRun(rate, data, init);
    StreamedStep(rate, data + init, v);
    XorAtStep(Streamed(rate, data), |data| % rate, init, v);
    NextInBlock(rate, |data + init|);
  }
}
