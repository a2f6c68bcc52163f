/** The streaming SHA-3 hasher: a context whose state is at once 25 words and a buffer of bytes, on a
    machine of either byte order. */
module Sha3 {
  import opened Common
  import opened Keccak
  import opened Sha3Sponge

  const BUFFER: nat := 1600

  /** How the build fixes the byte order: little-endian, big-endian, or found out at run time. */
  datatype ByteOrder = Little | Big | RunTime

  /** Exclusive or of two unsigned numbers. */
  function Exor(a: nat, b: nat): nat
    decreases a + b
  {
    if a == 0 then b
    else if b == 0 then a
    else 2 * Exor(a / 2, b / 2) + (a + b) % 2
  }

  lemma ExorZero(k: nat)
    ensures Exor(k, 0) == k
  {
  }

  lemma ExorStep(k: nat, m: nat)
    ensures Exor(k, 2 * m + 1) == 2 * Exor(k / 2, m) + 1 - k % 2
  {
    assert (2 * m + 1) / 2 == m && (k + 2 * m + 1) % 2 == 1 - k % 2;
    ExorZero(k / 2);
  }

  lemma ExorSeven(k: nat)
    ensures Exor(k, 7) == 8 * (k / 8) + (7 - k % 8)
  {
    hide Exor;
    var a, b, c := k / 2, k / 2 / 2, k / 2 / 2 / 2;
    ExorStep(k, 3);
    ExorStep(a, 1);
    ExorStep(b, 0);
    ExorZero(c);
    assert k / 8 == c;
  }

  /** Where a machine keeps byte k of the state, its bytes numbered from the lowest of each word. */
  function MemIndex(big: bool, k: nat): (i: nat)
    ensures k < STATE_BYTES ==> i < STATE_BYTES
  {
    if big then 8 * (k / 8) + (7 - k % 8) else k
  }

  lemma MemIndexInjective(big: bool, k: nat, k': nat)
    requires MemIndex(big, k) == MemIndex(big, k')
    ensures k == k'
  {
  }

  /** The state a machine's memory stands for. */
  function Logical(big: bool, m: seq<bv8>): ByteState
    requires |m| == STATE_BYTES
  {
    seq(200, k requires 0 <= k < 200 => m[MemIndex(big, k)])
  }

  function Reversed(w: seq<bv8>): (r: seq<bv8>)
    requires |w| == 8
    ensures |r| == 8
  {
    [w[7], w[6], w[5], w[4], w[3], w[2], w[1], w[0]]
  }

  /** The bytes of a word, in memory order or from the lowest up: each way round undoes the other. */
  function Ordered(big: bool, w: seq<bv8>): (r: seq<bv8>)
    requires |w| == 8
    ensures |r| == 8
  {
    if big then Reversed(w) else w
  }

  lemma OrderedTwice(big: bool, w: seq<bv8>)
    requires |w| == 8
    ensures Ordered(big, Ordered(big, w)) == w
  {
  }

  lemma LogicalWord(big: bool, m: seq<bv8>, i: nat)
    requires |m| == STATE_BYTES && i < 25
    ensures Logical(big, m)[8 * i..8 * i + 8] == Ordered(big, m[8 * i..8 * i + 8])
  {
    var w := m[8 * i..8 * i + 8];
    forall j | 0 <= j < 8
      ensures Logical(big, m)[8 * i + j] == Ordered(big, w)[j]
    {
      assert (8 * i + j) / 8 == i && (8 * i + j) % 8 == j;
      assert m[8 * i + (7 - j)] == w[7 - j];
    }
  }

  /** Memory whose words hold the lanes of a stands for the bytes of a. */
  lemma StoredState(big: bool, m: seq<bv8>, a: State)
    requires |m| == STATE_BYTES
    requires forall i :: 0 <= i < 25 ==> m[8 * i..8 * i + 8] == Ordered(big, LaneBytes(a[i]))
    ensures Logical(big, m) == StateBytes(a)
  {
    hide LaneBytes, Logical, Ordered;
    forall k | 0 <= k < 200
      ensures Logical(big, m)[k] == StateBytes(a)[k]
    {
      var i := k / 8;
      LogicalWord(big, m, i);
      OrderedTwice(big, LaneBytes(a[i]));
      assert Logical(big, m)[8 * i..8 * i + 8][k % 8] == Logical(big, m)[k];
    }
  }

  lemma LoadedState(big: bool, m: seq<bv8>, a: State)
    requires |m| == STATE_BYTES
    requires forall i :: 0 <= i < 25 ==> a[i] == LaneOf(Ordered(big, m[8 * i..8 * i + 8]))
    ensures a == StateLanes(Logical(big, m))
  {
    hide LaneOf, Logical, Ordered;
    forall i | 0 <= i < 25
      ensures a[i] == StateLanes(Logical(big, m))[i]
    {
      LogicalWord(big, m, i);
    }
  }

  lemma ZeroMemory(big: bool, m: seq<bv8>)
    requires |m| == STATE_BYTES && forall i :: 0 <= i < STATE_BYTES ==> m[i] == 0
    ensures Logical(big, m) == Zeros(STATE_BYTES)
  {
  }

  /** Changing one byte of memory changes one byte of the state. */
  lemma LogicalUpdate(big: bool, m: seq<bv8>, k: nat, v: bv8)
    requires |m| == STATE_BYTES && k < STATE_BYTES
    ensures Logical(big, m[MemIndex(big, k) := XorByte(m[MemIndex(big, k)], v)])
            == WithByte(Logical(big, m), k, v)
  {
    hide XorByte, MemIndex;
    var at := MemIndex(big, k);
    var m' := m[at := XorByte(m[at], v)];
    forall k' | 0 <= k' < 200
      ensures Logical(big, m')[k'] == WithByte(Logical(big, m), k, v)[k']
    {
      if k' != k && MemIndex(big, k') == at {
        MemIndexInjective(big, k', k);
      }
    }
  }

  /** On a little-endian machine, adding a whole word adds its eight bytes. */
  lemma WordAdded(m: seq<bv8>, m': seq<bv8>, k: nat, w: seq<bv8>)
    requires |m| == |m'| == STATE_BYTES && k + 8 <= STATE_BYTES && |w| == 8
    requires m' == m[..k] + LaneBytes(Xor(LaneOf(m[k..k + 8]), LaneOf(w))) + m[k + 8..]
    ensures Logical(false, m') == XorAt(Logical(false, m), k, w)
  {
    hide LaneOf, LaneBytes, Xor, XorByte;
    XorLaneBytes(m[k..k + 8], w);
  }

  lemma FrontOfStore(x: seq<bv8>, x': seq<bv8>, k: nat, w: seq<bv8>)
    requires |x| >= STATE_BYTES && k + 8 <= STATE_BYTES && |w| == 8
    requires x' == x[..k] + w + x[k + 8..]
    ensures x[..STATE_BYTES][k..k + 8] == x[k..k + 8]
    ensures x'[..STATE_BYTES] == x[..STATE_BYTES][..k] + w + x[..STATE_BYTES][k + 8..]
  {
  }

  /** The bytes of whole words stay within them. */
  lemma WithinWord(big: bool, k: nat, len: nat)
    requires k < len && len % 8 == 0
    ensures MemIndex(big, k) < len
  {
  }

  lemma FrontOfState(big: bool, m: seq<bv8>, d: seq<bv8>)
    requires |m| == STATE_BYTES && |d| <= STATE_BYTES
    requires forall k :: 0 <= k < |d| ==> d[k] == m[MemIndex(big, k)]
    ensures d == Logical(big, m)[..|d|]
  {
    hide MemIndex;
  }

  lemma SamePrefix(a: seq<bv8>, b: seq<bv8>, n: nat, k: nat)
    requires k + 8 <= n <= |a| && n <= |b| && a[..n] == b[..n]
    ensures a[k..k + 8] == b[k..k + 8]
  {
    assert a[k..k + 8] == a[..n][k..k + 8];
    assert b[k..k + 8] == b[..n][k..k + 8];
  }

  class Context {
    const order: ByteOrder
    /** Whether the machine stores the high byte of a word first. */
    const bigEndian: bool
    const x: array<bv8>
    var nRate: nat
    var nLoaded: nat
    var ixMask: nat
    /** Everything hashed so far. */
    ghost var content: seq<bv8>

    ghost predicate Shape()
      reads this
    {
      && x.Length == BUFFER && IsRate(nRate)
      && (order == Little ==> !bigEndian) && (order == Big ==> bigEndian)
      && ixMask == if bigEndian then 7 else 0
    }

    ghost predicate Valid()
      reads this, x
    {
      && Shape()
      && nLoaded == |content| % nRate
      && Logical(bigEndian, x[..STATE_BYTES]) == Streamed(nRate, content)
    }

    constructor (iSize: int, order: ByteOrder, bigEndian: bool)
      requires order == Little ==> !bigEndian
      requires order == Big ==> bigEndian
      ensures Valid() && content == [] && fresh(x)
      ensures nRate == if 128 <= iSize <= 512 then 200 - 8 * ((iSize + 31) / 32) else 136
    {
      this.order := order;
      this.bigEndian := bigEndian;
      x := new bv8[BUFFER](ZeroAt);
      nLoaded := 0;
      if 128 <= iSize <= 512 {
        var rounded := iSize + 31 - (iSize + 31) % 32;
        nRate := (1600 - rounded * 2) / 8;
      } else {
        nRate := (1600 - 2 * 256) / 8;
      }
      match order {
        case Little => ixMask := 0;
        case Big => ixMask := 7;
        case RunTime =>
          var firstByteOfOne := if bigEndian then 0 else 1;
          ixMask := if firstByteOfOne == 1 then 0 else 7;
      }
      content := [];
      new;
      ZeroMemory(bigEndian, x[..STATE_BYTES]);
    }

    /** Reads the 25 words that share their memory with the bytes. */
    method LoadWords() returns (s: array<Lane>)
      requires x.Length == BUFFER
      ensures fresh(s) && s.Length == 25 && s[..] == StateLanes(Logical(bigEndian, x[..STATE_BYTES]))
    {
      hide LaneOf, StateLanes, Logical;
      s := new Lane[25];
      for i := 0 to 25
        invariant forall w :: 0 <= w < i ==> s[w] == LaneOf(Ordered(bigEndian, x[8 * w..8 * w + 8]))
        modifies s
      {
        s[i] := LaneOf(Ordered(bigEndian, x[8 * i..8 * i + 8]));
      }
      ghost var m := x[..STATE_BYTES];
      ghost var all := x[..];
      assert m == all[..STATE_BYTES];
      forall w | 0 <= w < 25
        ensures m[8 * w..8 * w + 8] == x[8 * w..8 * w + 8]
      {
        SamePrefix(all, m, STATE_BYTES, 8 * w);
        assert all[8 * w..8 * w + 8] == x[8 * w..8 * w + 8];
      }
      LoadedState(bigEndian, m, s[..]);
    }

    /** Writes one word over the eight bytes it shares. */
    method StoreWord(i: nat, l: Lane)
      requires x.Length == BUFFER && i < 25
      modifies x
      ensures x[..] == old(x[..8 * i]) + Ordered(bigEndian, LaneBytes(l)) + old(x[8 * i + 8..])
    {
      hide LaneBytes, Ordered;
      var w := Ordered(bigEndian, LaneBytes(l));
      for j := 0 to 8
        invariant x[..] == old(x[..8 * i]) + w[..j] + old(x[8 * i + j..])
      {
        x[8 * i + j] := w[j];
      }
    }

    /** Permutes the state where it is. */
    method Step()
      requires x.Length == BUFFER
      modifies x
      ensures Logical(bigEndian, x[..STATE_BYTES]) == Permuted(old(Logical(bigEndian, x[..STATE_BYTES])))
    {
      hide LaneBytes, StateLanes, StateBytes, Logical, Ordered, KeccakF;
      var s := LoadWords();
      KeccakF1600Step(s);
      ghost var lanes := s[..];
      for i := 0 to 25
        invariant forall w :: 0 <= w < i ==> x[8 * w..8 * w + 8] == Ordered(bigEndian, LaneBytes(lanes[w]))
        modifies x
      {
        ghost var before := x[..];
        StoreWord(i, s[i]);
        assert x[..][..8 * i] == before[..8 * i];
        assert x[8 * i..8 * i + 8] == Ordered(bigEndian, LaneBytes(lanes[i]));
        forall w | 0 <= w < i
          ensures x[8 * w..8 * w + 8] == Ordered(bigEndian, LaneBytes(lanes[w]))
        {
          SamePrefix(before, x[..], 8 * i, 8 * w);
          assert before[8 * w..8 * w + 8] == Ordered(bigEndian, LaneBytes(lanes[w]));
        }
      }
      ghost var m := x[..STATE_BYTES];
      ghost var all := x[..];
      assert m == all[..STATE_BYTES];
      forall w | 0 <= w < 25
        ensures m[8 * w..8 * w + 8] == x[8 * w..8 * w + 8]
      {
        SamePrefix(all, m, STATE_BYTES, 8 * w);
        assert all[8 * w..8 * w + 8] == x[8 * w..8 * w + 8];
      }
      StoredState(bigEndian, m, lanes);
    }

    /** Adds one byte at the place the build's byte order gives it. */
    method AddByte(v: bv8)
      requires Valid()
      modifies this, x
      ensures Valid() && content == old(content) + [v] && nRate == old(nRate)
    {
      hide Logical, Streamed, Permuted, WithByte, Exor;
      ghost var m := x[..STATE_BYTES];
      ExorSeven(nLoaded);
      ExorZero(nLoaded);
      var at := match order
        case Little => nLoaded
        case Big => Exor(nLoaded, 7)
        case RunTime => Exor(nLoaded, ixMask);
      assert at == MemIndex(bigEndian, nLoaded);
      LogicalUpdate(bigEndian, m, nLoaded, v);
      StreamedStep(nRate, content, v);
      NextInBlock(nRate, |content|);
      x[at] := XorByte(x[at], v);
      assert x[..STATE_BYTES] == m[at := XorByte(m[at], v)];
      nLoaded := nLoaded + 1;
      content := content + [v];
      if nLoaded == nRate {
        Step();
        nLoaded := 0;
      }
    }

    /** Exclusive-ors eight bytes of input into a word of the state. */
    method XorWord(i: nat, w: seq<bv8>)
      requires x.Length == BUFFER && i < 25 && |w| == 8 && !bigEndian
      modifies x
      ensures Logical(bigEndian, x[..STATE_BYTES]) == XorAt(old(Logical(bigEndian, x[..STATE_BYTES])), 8 * i, w)
    {
      hide Logical, XorAt, LaneOf, LaneBytes, Xor;
      ghost var before := x[..];
      var lane := LaneOf(Ordered(bigEndian, x[8 * i..8 * i + 8]));
      StoreWord(i, Xor(lane, LaneOf(Ordered(bigEndian, w))));
      ghost var after := x[..];
      FrontOfStore(before, after, 8 * i, LaneBytes(Xor(lane, LaneOf(w))));
      WordAdded(before[..STATE_BYTES], after[..STATE_BYTES], 8 * i, w);
      assert x[..STATE_BYTES] == after[..STATE_BYTES] && old(x[..STATE_BYTES]) == before[..STATE_BYTES];
    }

    /** Adds eight bytes at once, as one word. */
    method AddWord(w: seq<bv8>)
      requires Valid() && |w| == 8 && !bigEndian && nLoaded % 8 == 0
      modifies this, x
      ensures Valid() && content == old(content) + w && nRate == old(nRate) && nLoaded % 8 == 0
    {
      hide Logical, Streamed, Permuted, XorAt;
      StreamedSpan(nRate, content, w);
      XorWord(nLoaded / 8, w);
      nLoaded := nLoaded + 8;
      content := content + w;
      if nLoaded >= nRate {
        Step();
        nLoaded := 0;
      }
    }

    /** Adds data to what is hashed; words at a time where the build and the alignment allow it. */
    method Update(data: seq<bv8>, aligned: bool)
      requires Valid()
      modifies this, x
      ensures Valid() && content == old(content) + data && nRate == old(nRate)
    {
      hide Logical, Streamed;
      var i := 0;
      if order == Little && nLoaded % 8 == 0 && aligned {
        while i + 7 < |data|
          invariant i <= |data| && Valid() && nRate == old(nRate) && nLoaded % 8 == 0
          invariant content == old(content) + data[..i]
        {
          AddWord(data[i..i + 8]);
          assert data[..i + 8] == data[..i] + data[i..i + 8];
          i := i + 8;
        }
      }
      while i < |data|
        invariant i <= |data| && Valid() && nRate == old(nRate)
        invariant content == old(content) + data[..i]
      {
        AddByte(data[i]);
        assert data[..i + 1] == data[..i] + [data[i]];
        i := i + 1;
      }
      assert data[..i] == data;
    }

    /** Adds the padding; the zero bytes in its middle only move the place of the last byte. */
    method Pad()
      requires Valid()
      modifies this, x
      ensures Valid() && nRate == old(nRate)
      ensures content == old(content) + Padding(nRate, |old(content)|)
    {
      hide Logical, Streamed;
      var aligned: bool := *;
      if nLoaded == nRate - 1 {
        Update([0x86], aligned);
      } else {
        NextInBlock(nRate, |content|);
        Update([0x06], aligned);
        ghost var n := nRate - 1 - nLoaded;
        StreamedZeros(nRate, content, n);
        content := content + Zeros(n);
        nLoaded := nRate - 1;
        Update([0x80], aligned);
      }
    }

    /** Copies the first bytes of the state, in order, to the place after them. */
    method CopyDigest()
      requires x.Length == BUFFER && IsRate(nRate) && ixMask == if bigEndian then 7 else 0
      modifies x
      ensures forall k :: 0 <= k < nRate ==> x[nRate + k] == old(x[MemIndex(bigEndian, k)])
    {
      hide Exor;
      var i := 0;
      while i < nRate
        modifies x
        invariant i <= nRate
        invariant forall k :: 0 <= k < nRate ==> x[k] == old(x[k])
        invariant forall k :: 0 <= k < i ==> x[nRate + k] == old(x[MemIndex(bigEndian, k)])
      {
        ExorSeven(i);
        ExorZero(i);
        WithinWord(bigEndian, i, nRate);
        x[i + nRate] := x[Exor(i, ixMask)];
        i := i + 1;
      }
    }

    /** Pads, and leaves the digest after the first nRate bytes of the buffer. */
    method Final() returns (digestAt: nat)
      requires Valid()
      modifies this, x
      ensures nRate == old(nRate) && digestAt + nRate <= x.Length
      ensures x[digestAt..digestAt + nRate] == Digest(nRate, old(content), nRate)
    {
      hide Logical, Streamed, Digest, Padding, MemIndex;
      Pad();
      DigestStreamed(nRate, old(content), nRate);
      ghost var m := x[..STATE_BYTES];
      CopyDigest();
      digestAt := nRate;
      FrontOfState(bigEndian, m, x[nRate..nRate + nRate]);
    }
  }
}
