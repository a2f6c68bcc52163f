/** Variable-length integers of the SQLite file format (section 1.6): big-endian groups of seven bits,
    all but the last byte with the high bit set; a ninth byte contributes all its eight bits. */
module Varint {

  /** A byte as a number. */
  function Val(b: bv8): (n: nat)
    ensures n < 256
  {
    b as nat
  }

  function Byte(n: nat): bv8
    requires n < 256
  {
    n as bv8
  }

  lemma ValByte(n: nat)
    requires n < 256
    ensures Val(Byte(n)) == n
  {
    var b := Byte(n);
    assert b == n as bv8;
    assert b as nat == n;
    assert Val(b) == b as nat;
  }

  /** How many bytes a value takes. */
  function Len(v: nat): (n: nat)
    ensures n >= 1
  {
    if v < 128 then 1 else 1 + Len(v / 128)
  }

  /** The bytes before the last one. */
  function Front(v: nat): seq<bv8>
  {
    if v == 0 then [] else Front(v / 128) + [Byte(128 + v % 128)]
  }

  function Put(v: nat): (s: seq<bv8>)
  {
    Front(v / 128) + [Byte(v % 128)]
  }

  lemma {:induction false} FrontLength(v: nat)
    ensures |Front(v)| == if v == 0 then 0 else Len(v)
  {
    if v >= 128 { FrontLength(v / 128); }
  }

  lemma PutLength(v: nat)
    ensures |Put(v)| == Len(v)
  {
    FrontLength(v / 128);
  }

  datatype Read = Read(value: nat, len: nat)

  /** Reads on from the n-th byte of a varint at pos, acc being what the first n bytes contributed. One
      that is cut off where z ends reads as ending one byte beyond it. */
  function ReadOn(z: seq<bv8>, pos: nat, n: nat, acc: nat): (r: Read)
    requires n <= 8 && pos + n <= |z|
    ensures n < r.len <= 9 && pos + r.len <= |z| + 1
    decreases 9 - n
  {
    if pos + n >= |z| then Read(acc, n + 1)
    else
      var b := Val(z[pos + n]);
      if n == 8 then Read(acc * 256 + b, 9)
      else if b < 128 then Read(acc * 128 + b, n + 1)
      else ReadOn(z, pos, n + 1, acc * 128 + (b - 128))
  }

  const MAX32: nat := 0xffff_ffff

  /** The value and length of the varint at pos; values that do not fit 32 bits read as the largest that
      does. */
  function Get(z: seq<bv8>, pos: nat): (r: Read)
    requires pos < |z|
    ensures 1 <= r.len <= 9 && pos + r.len <= |z| + 1 && r.value <= MAX32
  {
    var r := ReadOn(z, pos, 0, 0);
    if r.value > MAX32 then r.(value := MAX32) else r
  }

  /** z has the bytes of part at pos. */
  predicate HasAt(z: seq<bv8>, pos: nat, part: seq<bv8>)
  {
    pos + |part| <= |z| && z[pos..pos + |part|] == part
  }

  /** One byte of a varint is read. */
  lemma {:induction false} ReadStep(z: seq<bv8>, pos: nat, n: nat, acc: nat)
    requires n <= 8 && pos + n < |z|
    ensures var b := Val(z[pos + n]);
            ReadOn(z, pos, n, acc) == if n == 8 then Read(acc * 256 + b, 9)
                                      else if b < 128 then Read(acc * 128 + b, n + 1)
                                      else ReadOn(z, pos, n + 1, acc * 128 + (b - 128))
  {
    hide Val;
    if n == 8 {
    } else if Val(z[pos + n]) < 128 {
    }
  }

  /** A varint that ends within z depends on its own bytes only. */
  lemma {:induction false} SameRead(z: seq<bv8>, pos: nat, z': seq<bv8>, pos': nat, n: nat, acc: nat)
    requires n <= 8 && pos + n <= |z| && pos + ReadOn(z, pos, n, acc).len <= |z|
    requires HasAt(z', pos', z[pos..pos + ReadOn(z, pos, n, acc).len])
    ensures pos' + n <= |z'| && ReadOn(z', pos', n, acc) == ReadOn(z, pos, n, acc)
    decreases 9 - n
  {
    hide Val, ReadOn;
    var part := z[pos..pos + ReadOn(z, pos, n, acc).len];
    assert z'[pos'..pos' + |part|][n] == part[n];
    ReadStep(z, pos, n, acc);
    ReadStep(z', pos', n, acc);
    var b := Val(z[pos + n]);
    if n < 8 && b >= 128 {
      SameRead(z, pos, z', pos', n + 1, acc * 128 + (b - 128));
    }
  }

  lemma SameGet(z: seq<bv8>, pos: nat, z': seq<bv8>, pos': nat)
    requires pos < |z| && pos + Get(z, pos).len <= |z| && HasAt(z', pos', z[pos..pos + Get(z, pos).len])
    ensures pos' < |z'| && Get(z', pos') == Get(z, pos)
  {
    hide ReadOn;
    SameRead(z, pos, z', pos', 0, 0);
  }

  lemma HasFront(z: seq<bv8>, pos: nat, a: seq<bv8>, b: bv8)
    requires HasAt(z, pos, a + [b])
    ensures HasAt(z, pos, a) && pos + |a| < |z| && z[pos + |a|] == b
  {
    assert z[pos..pos + |a|] == z[pos..pos + |a| + 1][..|a|];
    assert z[pos + |a|] == z[pos..pos + |a| + 1][|a|];
  }

  lemma FrontStep(v: nat)
    requires v > 0
    ensures Front(v) == Front(v / 128) + [Byte(128 + v % 128)]
  {
  }

  /** A byte with the high bit set adds its seven bits to what has been read. */
  lemma GroupRead(z: seq<bv8>, pos: nat, front: seq<bv8>, q: nat, r: nat)
    requires r < 128 && |front| < 8 && HasAt(z, pos, front + [Byte(128 + r)])
    requires ReadOn(z, pos, 0, 0) == ReadOn(z, pos, |front|, q)
    ensures ReadOn(z, pos, 0, 0) == ReadOn(z, pos, |front| + 1, q * 128 + r)
  {
    hide Val, Byte, ReadOn;
    HasFront(z, pos, front, Byte(128 + r));
    hide HasAt;
    ValByte(128 + r);
    ReadStep(z, pos, |front|, q);
  }

  /** A byte without it ends the value. */
  lemma LastRead(z: seq<bv8>, pos: nat, front: seq<bv8>, q: nat, r: nat)
    requires r < 128 && |front| < 8 && HasAt(z, pos, front + [Byte(r)])
    requires ReadOn(z, pos, 0, 0) == ReadOn(z, pos, |front|, q)
    ensures ReadOn(z, pos, 0, 0) == Read(q * 128 + r, |front| + 1)
  {
    hide Val, Byte, ReadOn;
    HasFront(z, pos, front, Byte(r));
    hide HasAt;
    ValByte(r);
    ReadStep(z, pos, |front|, q);
  }

  lemma {:induction false} FrontRead(z: seq<bv8>, pos: nat, v: nat)
    requires |Front(v)| <= 8 && HasAt(z, pos, Front(v))
    ensures ReadOn(z, pos, 0, 0) == ReadOn(z, pos, |Front(v)|, v)
  {
    hide Val, Byte, ReadOn;
    if v > 0 {
      FrontStep(v);
      hide Front;
      HasFront(z, pos, Front(v / 128), Byte(128 + v % 128));
      FrontRead(z, pos, v / 128);
      hide HasAt;
      GroupRead(z, pos, Front(v / 128), v / 128, v % 128);
    }
  }

  lemma {:induction false} LenBound(v: nat)
    requires v <= MAX32
    ensures Len(v) <= 5
  {
    var a, b, c, d := v / 128, v / 128 / 128, v / 128 / 128 / 128, v / 128 / 128 / 128 / 128;
    assert d < 128;
    assert Len(c) <= 2;
    assert Len(b) <= 3;
  }

  /** Reading a written value gives it back. */
  lemma GetPut(z: seq<bv8>, pos: nat, v: nat)
    requires v <= MAX32 && HasAt(z, pos, Put(v))
    ensures pos < |z| && Get(z, pos) == Read(v, Len(v))
  {
    LenBound(v);
    PutLength(v);
    hide Val, Byte, Front, ReadOn, Len;
    HasFront(z, pos, Front(v / 128), Byte(v % 128));
    FrontRead(z, pos, v / 128);
    LastRead(z, pos, Front(v / 128), v / 128, v % 128);
    hide HasAt;
  }

  /** Numbers spelled out: the higher group of bits comes first, and 32 bits take five bytes. */
  lemma Spelled()
    ensures Put(0) == [0] && Put(127) == [0x7f] && Put(128) == [0x81, 0] && Put(300) == [0x82, 0x2c]
  {
    assert Front(2) == Front(0) + [Byte(130)] && Front(1) == Front(0) + [Byte(129)];
  }

  /** A number of nine bytes takes eight bits from the last one. */
  lemma NineBytes(b: bv8)
    ensures Get([0x80, 0x80, 0x80, 0x80, 0x80, 0x80, 0x80, 0x81, b], 0) == Read(256 + Val(b), 9)
  {
    var z := [0x80, 0x80, 0x80, 0x80, 0x80, 0x80, 0x80, 0x81, b];
    assert Val(0x80) == 128 && Val(0x81) == 129;
    hide Val;
    assert ReadOn(z, 0, 8, 1) == Read(256 + Val(b), 9);
    hide ReadOn;
    ReadStep(z, 0, 7, 0);
    ReadStep(z, 0, 6, 0);
    ReadStep(z, 0, 5, 0);
    ReadStep(z, 0, 4, 0);
    ReadStep(z, 0, 3, 0);
    ReadStep(z, 0, 2, 0);
    ReadStep(z, 0, 1, 0);
    ReadStep(z, 0, 0, 0);
  }

  /** 2^32 is too large, and reads as the largest number of 32 bits. */
  lemma TooLarge()
    ensures Get([0x90, 0x80, 0x80, 0x80, 0], 0) == Read(0xffff_ffff, 5)
  {
    var z: seq<bv8> := [0x90, 0x80, 0x80, 0x80, 0];
    assert Val(0x90) == 144 && Val(0x80) == 128 && Val(0) == 0;
    hide Val;
    assert ReadOn(z, 0, 4, 0x200_0000) == Read(0x1_0000_0000, 5);
    hide ReadOn;
    ReadStep(z, 0, 3, 0x4_0000);
    ReadStep(z, 0, 2, 0x800);
    ReadStep(z, 0, 1, 0x10);
    ReadStep(z, 0, 0, 0);
  }

  /** Longer values take no fewer bytes. */
  lemma {:induction false} LenMonotone(a: nat, b: nat)
    requires a <= b
    ensures Len(a) <= Len(b)
  {
    if b >= 128 && a >= 128 { LenMonotone(a / 128, b / 128); }
  }

  /** One more never takes two more bytes. */
  lemma {:induction false} LenNext(v: nat, d: nat)
    requires d <= 128
    ensures Len(v + d) <= Len(v) + 1
  {
    if v + d >= 128 {
      if v < 128 {
        assert (v + d) / 128 < 128;
      } else {
        LenNext(v / 128, 1);
        LenMonotone((v + d) / 128, v / 128 + 1);
      }
    }
  }

  /** A byte below 128 is a varint of its own. */
  lemma OneByteRead(z: seq<bv8>, at: nat)
    requires at < |z| && Val(z[at]) < 128
    ensures Get(z, at) == Read(Val(z[at]), 1) && Put(Val(z[at])) == [z[at]]
  {
    hide Val, Byte;
    var v := Val(z[at]);
    assert Front(v / 128) == [];
    ByteVal(z[at]);
  }

  lemma ByteVal(b: bv8)
    ensures Byte(Val(b)) == b
  {
  }

  /** A number that is read stops at a byte below 128. */
  lemma {:induction false} ReadStopsAt(z: seq<bv8>, pos: nat, n: nat, acc: nat, end: nat)
    requires n <= 8 && pos + n <= end < |z| && Val(z[end]) < 128
    ensures pos + ReadOn(z, pos, n, acc).len <= end + 1
    decreases 9 - n
  {
    hide Val;
    var b := Val(z[pos + n]);
    if pos + n < end && n < 8 && b >= 128 {
      ReadStopsAt(z, pos, n + 1, acc * 128 + (b - 128), end);
    }
  }

  lemma StopsAtLast(z: seq<bv8>, pos: nat, end: nat)
    requires pos <= end < |z| && Val(z[end]) < 128
    ensures pos + Get(z, pos).len <= end + 1
  {
    hide Val;
    ReadStopsAt(z, pos, 0, 0, end);
  }

  /** A number is not longer than the bytes it was read from. */
  lemma LenOfGet(z: seq<bv8>, pos: nat)
    requires pos < |z|
    ensures Len(Get(z, pos).value) <= Get(z, pos).len
  {
    LenOfRead(z, pos, 0, 0);
    LenBound(Get(z, pos).value);
    hide ReadOn, Len;
    var r := ReadOn(z, pos, 0, 0);
    if r.value > MAX32 { LenMonotone(MAX32, r.value); }
  }

  lemma {:induction false} LenOfRead(z: seq<bv8>, pos: nat, n: nat, acc: nat)
    requires n <= 8 && pos + n <= |z| && (acc == 0 || Len(acc) <= n)
    ensures var r := ReadOn(z, pos, n, acc); r.len == 9 || Len(r.value) <= r.len
    decreases 9 - n
  {
    hide Val;
    if pos + n < |z| && n < 8 {
      var b := Val(z[pos + n]);
      if b < 128 {
        LenOfGroup(acc, b);
      } else {
        LenOfGroup(acc, b - 128);
        LenOfRead(z, pos, n + 1, acc * 128 + (b - 128));
      }
    }
  }

  lemma LenOfGroup(acc: nat, b: nat)
    requires b < 128
    ensures Len(acc * 128 + b) <= if acc == 0 then 1 else Len(acc) + 1
  {
    assert (acc * 128 + b) / 128 == acc;
  }
}
