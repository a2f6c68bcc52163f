/** Digests worked out byte by byte: of the empty message, and of one of two chunks. The shared definitions,
    words and constants of the compression and of the tree are the ones that give these answers. */
module Blake3Answers {
  import opened Bits
  import opened Blake3Portable
  import opened Blake3Subtree
  import opened Blake3Tree

  // ----- a compression on words -----

  datatype Eight = Eight(h0: Word, h1: Word, h2: Word, h3: Word, h4: Word, h5: Word, h6: Word, h7: Word)

  datatype Sixteen = Sixteen(x0: Word, x1: Word, x2: Word, x3: Word, x4: Word, x5: Word, x6: Word, x7: Word,
                             x8: Word, x9: Word, x10: Word, x11: Word, x12: Word, x13: Word, x14: Word, x15: Word)

  function AsEight(w: Words): Eight
  {
    Eight(w[0], w[1], w[2], w[3], w[4], w[5], w[6], w[7])
  }

  function AsSixteen(s: State): Sixteen
  {
    Sixteen(s[0], s[1], s[2], s[3], s[4], s[5], s[6], s[7], s[8], s[9], s[10], s[11], s[12], s[13], s[14], s[15])
  }

  function FlatRound(s: Sixteen, m: Sixteen): Sixteen
  {
    var a := Quarter(Quad(s.x0, s.x4, s.x8, s.x12), m.x0, m.x1);
    var b := Quarter(Quad(s.x1, s.x5, s.x9, s.x13), m.x2, m.x3);
    var c := Quarter(Quad(s.x2, s.x6, s.x10, s.x14), m.x4, m.x5);
    var d := Quarter(Quad(s.x3, s.x7, s.x11, s.x15), m.x6, m.x7);
    var e := Quarter(Quad(a.a, b.b, c.c, d.d), m.x8, m.x9);
    var f := Quarter(Quad(b.a, c.b, d.c, a.d), m.x10, m.x11);
    var g := Quarter(Quad(c.a, d.b, a.c, b.d), m.x12, m.x13);
    var h := Quarter(Quad(d.a, a.b, b.c, c.d), m.x14, m.x15);
    Sixteen(e.a, f.a, g.a, h.a, h.b, e.b, f.b, g.b, g.c, h.c, e.c, f.c, f.d, g.d, h.d, e.d)
  }

  lemma QuarterAtIs(s: State, a: nat, b: nat, c: nat, d: nat, x: Word, y: Word)
    requires a < 4 <= b < 8 <= c < 12 <= d < 16
    ensures var q, t := Quarter(Quad(s[a], s[b], s[c], s[d]), x, y), QuarterAt(s, a, b, c, d, x, y);
            && t[a] == q.a && t[b] == q.b && t[c] == q.c && t[d] == q.d
            && forall i :: 0 <= i < 16 && i != a && i != b && i != c && i != d ==> t[i] == s[i]
  {
    hide Quarter;
  }

  lemma ColumnsIs(s: State, m: State, t: State)
    requires t == QuarterAt(QuarterAt(QuarterAt(QuarterAt(s, 0, 4, 8, 12, m[0], m[1]), 1, 5, 9, 13, m[2], m[3]),
                                      2, 6, 10, 14, m[4], m[5]), 3, 7, 11, 15, m[6], m[7])
    ensures Quarter(Quad(s[0], s[4], s[8], s[12]), m[0], m[1]) == Quad(t[0], t[4], t[8], t[12])
    ensures Quarter(Quad(s[1], s[5], s[9], s[13]), m[2], m[3]) == Quad(t[1], t[5], t[9], t[13])
    ensures Quarter(Quad(s[2], s[6], s[10], s[14]), m[4], m[5]) == Quad(t[2], t[6], t[10], t[14])
    ensures Quarter(Quad(s[3], s[7], s[11], s[15]), m[6], m[7]) == Quad(t[3], t[7], t[11], t[15])
  {
    hide QuarterAt, Quarter;
    var s0 := QuarterAt(s, 0, 4, 8, 12, m[0], m[1]);
    var s1 := QuarterAt(s0, 1, 5, 9, 13, m[2], m[3]);
    var s2 := QuarterAt(s1, 2, 6, 10, 14, m[4], m[5]);
    QuarterAtIs(s, 0, 4, 8, 12, m[0], m[1]);
    QuarterAtIs(s0, 1, 5, 9, 13, m[2], m[3]);
    QuarterAtIs(s1, 2, 6, 10, 14, m[4], m[5]);
    QuarterAtIs(s2, 3, 7, 11, 15, m[6], m[7]);
  }

  lemma DiagonalsIs(s: State, m: State, t: State)
    requires t == QuarterAt(QuarterAt(QuarterAt(QuarterAt(s, 0, 5, 10, 15, m[8], m[9]), 1, 6, 11, 12, m[10], m[11]),
                                      2, 7, 8, 13, m[12], m[13]), 3, 4, 9, 14, m[14], m[15])
    ensures Quarter(Quad(s[0], s[5], s[10], s[15]), m[8], m[9]) == Quad(t[0], t[5], t[10], t[15])
    ensures Quarter(Quad(s[1], s[6], s[11], s[12]), m[10], m[11]) == Quad(t[1], t[6], t[11], t[12])
    ensures Quarter(Quad(s[2], s[7], s[8], s[13]), m[12], m[13]) == Quad(t[2], t[7], t[8], t[13])
    ensures Quarter(Quad(s[3], s[4], s[9], s[14]), m[14], m[15]) == Quad(t[3], t[4], t[9], t[14])
  {
    hide QuarterAt, Quarter;
    var s0 := QuarterAt(s, 0, 5, 10, 15, m[8], m[9]);
    var s1 := QuarterAt(s0, 1, 6, 11, 12, m[10], m[11]);
    var s2 := QuarterAt(s1, 2, 7, 8, 13, m[12], m[13]);
    QuarterAtIs(s, 0, 5, 10, 15, m[8], m[9]);
    QuarterAtIs(s0, 1, 6, 11, 12, m[10], m[11]);
    QuarterAtIs(s1, 2, 7, 8, 13, m[12], m[13]);
    QuarterAtIs(s2, 3, 4, 9, 14, m[14], m[15]);
  }

  lemma RoundIs(s: State, m: State)
    ensures AsSixteen(Round(s, m)) == FlatRound(AsSixteen(s), AsSixteen(m))
  {
    hide QuarterAt, Quarter;
    var s3 := QuarterAt(QuarterAt(QuarterAt(QuarterAt(s, 0, 4, 8, 12, m[0], m[1]), 1, 5, 9, 13, m[2], m[3]),
                                  2, 6, 10, 14, m[4], m[5]), 3, 7, 11, 15, m[6], m[7]);
    ColumnsIs(s, m, s3);
    DiagonalsIs(s3, m, Round(s, m));
  }

  function FlatPermute(m: Sixteen): Sixteen
  {
    Sixteen(m.x2, m.x6, m.x3, m.x10, m.x7, m.x0, m.x4, m.x13, m.x1, m.x11, m.x12, m.x5, m.x9, m.x14, m.x15, m.x8)
  }

  function FourRounds(s: Sixteen, m: Sixteen): Sixteen
  {
    var m1 := FlatPermute(m);
    var m2 := FlatPermute(m1);
    FlatRound(FlatRound(FlatRound(FlatRound(s, m), m1), m2), FlatPermute(m2))
  }

  /** The message words when four rounds are over. */
  function Later(m: Sixteen): Sixteen
  {
    FlatPermute(FlatPermute(FlatPermute(FlatPermute(m))))
  }

  function ThreeRounds(s: Sixteen, m: Sixteen): Sixteen
  {
    var m1 := FlatPermute(m);
    FlatRound(FlatRound(FlatRound(s, m), m1), FlatPermute(m1))
  }

  lemma NextRound(s: State, m: State, n: nat)
    requires n > 0
    ensures Rounds(s, m, n) == Rounds(Round(s, m), Permute(m), n - 1) && Rounds(s, m, 0) == s
    ensures AsSixteen(Round(s, m)) == FlatRound(AsSixteen(s), AsSixteen(m))
    ensures AsSixteen(Permute(m)) == FlatPermute(AsSixteen(m))
  {
    RoundIs(s, m);
    hide Round, FlatRound;
  }

  lemma SevenRoundsIs(s: State, m: State)
    ensures AsSixteen(Rounds(s, m, 7))
            == ThreeRounds(FourRounds(AsSixteen(s), AsSixteen(m)), Later(AsSixteen(m)))
  {
    hide Round, FlatRound, Permute, FlatPermute, Rounds, AsSixteen;
    var m1 := Permute(m);
    var m2 := Permute(m1);
    var m3 := Permute(m2);
    var m4 := Permute(m3);
    var m5 := Permute(m4);
    var s1 := Round(s, m);
    var s2 := Round(s1, m1);
    var s3 := Round(s2, m2);
    var s4 := Round(s3, m3);
    var s5 := Round(s4, m4);
    var s6 := Round(s5, m5);
    NextRound(s, m, 7);
    NextRound(s1, m1, 6);
    NextRound(s2, m2, 5);
    NextRound(s3, m3, 4);
    NextRound(s4, m4, 3);
    NextRound(s5, m5, 2);
    NextRound(s6, Permute(m5), 1);
    NextRound(Round(s6, Permute(m5)), Permute(Permute(m5)), 1);
  }

  /** The state that compression starts from (section 2.2, table 1 and section 2.3). */
  function Start(cv: Eight, low: Word, high: Word, len: Word, flags: Word): Sixteen
  {
    Sixteen(cv.h0, cv.h1, cv.h2, cv.h3, cv.h4, cv.h5, cv.h6, cv.h7,
            0x6a09e667, 0xbb67ae85, 0x3c6ef372, 0xa54ff53a, low, high, len, flags)
  }

  function Halves(s: Sixteen): Eight
  {
    Eight(Xor(s.x0, s.x8), Xor(s.x1, s.x9), Xor(s.x2, s.x10), Xor(s.x3, s.x11),
          Xor(s.x4, s.x12), Xor(s.x5, s.x13), Xor(s.x6, s.x14), Xor(s.x7, s.x15))
  }

  lemma StartIs(cv: Words, blockLen: nat, counter: nat, flags: bv8)
    ensures AsSixteen(InitialState(cv, blockLen, counter, flags))
            == Start(AsEight(cv), Low(counter), Low(counter / 0x1_0000_0000), Low(blockLen), WordOf(flags))
  {
    hide Low, WordOf;
  }

  /** A compression whose first four rounds and whose end are known. */
  lemma CompressIs(cv: Words, block: Block, blockLen: nat, counter: nat, flags: bv8, mid: Sixteen, end: Eight)
    requires var s := Start(AsEight(cv), Low(counter), Low(counter / 0x1_0000_0000), Low(blockLen), WordOf(flags));
             FourRounds(s, AsSixteen(BlockWords(block))) == mid
    requires Halves(ThreeRounds(mid, Later(AsSixteen(BlockWords(block))))) == end
    ensures AsEight(Compress(cv, block, blockLen, counter, flags)) == end
  {
    hide Rounds, FourRounds, ThreeRounds, Later, BlockWords, Low, WordOf, InitialState, Start, Xor;
    StartIs(cv, blockLen, counter, flags);
    SevenRoundsIs(InitialState(cv, blockLen, counter, flags), BlockWords(block));
  }

  // ----- bytes, numbers and flags -----

  lemma LowWords()
    ensures Low(0) == 0 && Low(1) == 1 && Low(64) == 64
    ensures 0 / 0x1_0000_0000 == 0 && 1 / 0x1_0000_0000 == 0
  {
    assert Low(2) == 2 && Low(4) == 4 && Low(8) == 8 && Low(16) == 16 && Low(32) == 32;
  }

  lemma Flags()
    ensures WordOf(Or(0, StartFlag(0))) == 1 && forall k :: k > 0 ==> WordOf(Or(0, StartFlag(k))) == 0
    ensures WordOf(Or(Or(Or(0, StartFlag(0)), CHUNK_END), ROOT)) == 11
    ensures WordOf(Or(Or(0, StartFlag(0)), CHUNK_END)) == 3 && WordOf(Or(Or(0, StartFlag(15)), CHUNK_END)) == 2
    ensures WordOf(Or(Or(0, PARENT), ROOT)) == 12
  {
  }

  function Plain(): Mode
  {
    PortableMode(IV, 0)
  }

  const H: Eight :=
    Eight(0x6a09e667, 0xbb67ae85, 0x3c6ef372, 0xa54ff53a, 0x510e527f, 0x9b05688c, 0x1f83d9ab, 0x5be0cd19)

  lemma FirstValue()
    ensures AsEight(IV) == H
  {
  }

  lemma EqualWords(a: Words, b: Words)
    requires AsEight(a) == AsEight(b)
    ensures a == b
  {
  }

  function Bytes(h: Eight): seq<bv8>
  {
    Store(h.h0) + Store(h.h1) + Store(h.h2) + Store(h.h3) + Store(h.h4) + Store(h.h5) + Store(h.h6) + Store(h.h7)
  }

  lemma {:induction false} StoredAt(w: seq<Word>, i: nat)
    requires i < |w|
    ensures StoreAll(w)[4 * i..4 * i + 4] == Store(w[i])
  {
    hide Store;
    if i < |w| - 1 { StoredAt(w[..|w| - 1], i); }
  }

  lemma {:induction false} StoredTogether(a: seq<Word>, b: seq<Word>)
    ensures StoreAll(a + b) == StoreAll(a) + StoreAll(b)
  {
    hide Store;
    if b == [] {
      assert a + b == a;
    } else {
      StoredTogether(a, b[..|b| - 1]);
      assert (a + b)[..|a + b| - 1] == a + b[..|b| - 1];
    }
  }

  /** Words stored in a block are read back. */
  lemma ReadBack(w: State)
    ensures BlockWords(StoreAll(w)) == w
  {
    hide Load, Store, StoreAll;
    forall i | 0 <= i < 16
      ensures BlockWords(StoreAll(w))[i] == w[i]
    {
      StoredAt(w, i);
      LoadStore(w[i]);
    }
  }

  /** A digest is the chaining value of the root, compressed with the root flag. */
  lemma RootCvIs(data: seq<bv8>, cv: Words, block: Block, len: nat, flags: bv8)
    requires SubtreeOutput(Plain(), data, 0) == Output(cv, block, len, 0, flags)
    ensures Hash(Plain(), data, 0, OUT_LEN) == StoreCv(Compress(cv, block, len, 0, Or(flags, ROOT)))
  {
    hide Hash, Compress, CompressXof, StoreCv, SubtreeOutput;
    DigestIsRootCv(data);
  }

  /** The full output: the halves joined, and the second half joined with the input chaining value. */
  function Spread(cv: Eight, s: Sixteen): Sixteen
  {
    Sixteen(Xor(s.x0, s.x8), Xor(s.x1, s.x9), Xor(s.x2, s.x10), Xor(s.x3, s.x11),
            Xor(s.x4, s.x12), Xor(s.x5, s.x13), Xor(s.x6, s.x14), Xor(s.x7, s.x15),
            Xor(s.x8, cv.h0), Xor(s.x9, cv.h1), Xor(s.x10, cv.h2), Xor(s.x11, cv.h3),
            Xor(s.x12, cv.h4), Xor(s.x13, cv.h5), Xor(s.x14, cv.h6), Xor(s.x15, cv.h7))
  }

  lemma ExpandIs(cv: Words, block: Block, blockLen: nat, counter: nat, flags: bv8, mid: Sixteen, end: Sixteen)
    requires var s := Start(AsEight(cv), Low(counter), Low(counter / 0x1_0000_0000), Low(blockLen), WordOf(flags));
             FourRounds(s, AsSixteen(BlockWords(block))) == mid
    requires Spread(AsEight(cv), ThreeRounds(mid, Later(AsSixteen(BlockWords(block))))) == end
    ensures AsSixteen(Expand(cv, block, blockLen, counter, flags)) == end
  {
    hide Rounds, FourRounds, ThreeRounds, Later, BlockWords, Low, WordOf, InitialState, Start, Xor;
    StartIs(cv, blockLen, counter, flags);
    SevenRoundsIs(InitialState(cv, blockLen, counter, flags), BlockWords(block));
  }

  function FirstEight(s: Sixteen): Eight
  {
    Eight(s.x0, s.x1, s.x2, s.x3, s.x4, s.x5, s.x6, s.x7)
  }

  function LastEight(s: Sixteen): Eight
  {
    Eight(s.x8, s.x9, s.x10, s.x11, s.x12, s.x13, s.x14, s.x15)
  }

  function Wide(s: Sixteen): seq<bv8>
  {
    Bytes(FirstEight(s)) + Bytes(LastEight(s))
  }

  lemma WideIs(s: Sixteen)
    ensures Wide(s) == Bytes(FirstEight(s)) + Bytes(LastEight(s))
  {
  }

  lemma WideBytes(cv: Words, block: Block, blockLen: nat, counter: nat, flags: bv8)
    ensures CompressXof(cv, block, blockLen, counter, flags)
            == Wide(AsSixteen(Expand(cv, block, blockLen, counter, flags)))
  {
    hide Expand, StoreAll, Bytes;
    var w := Expand(cv, block, blockLen, counter, flags);
    assert w == w[..8] + w[8..];
    StoredTogether(w[..8], w[8..]);
    StoredBytes(w[..8]);
    StoredBytes(w[8..]);
  }

  /** Block k of the output. */
  lemma OutputBlock(data: seq<bv8>, cv: Words, block: Block, len: nat, flags: bv8, k: nat)
    requires SubtreeOutput(Plain(), data, 0) == Output(cv, block, len, 0, flags)
    ensures Hash(Plain(), data, 64 * k, 64) == CompressXof(cv, block, len, k, Or(flags, ROOT))
  {
    hide Compress, CompressXof, StoreCv, SubtreeOutput, Or;
  }

  lemma XofIs(cv: Words, block: Block, len: nat, counter: nat, flags: bv8, h: Eight, m: Sixteen,
              low: Word, n: Word, f: Word, mid: Sixteen, end: Sixteen)
    requires AsEight(cv) == h && AsSixteen(BlockWords(block)) == m && Low(counter) == low
    requires Low(counter / 0x1_0000_0000) == 0 && Low(len) == n && WordOf(flags) == f
    requires FourRounds(Start(h, low, 0, n, f), m) == mid && Spread(h, ThreeRounds(mid, Later(m))) == end
    ensures CompressXof(cv, block, len, counter, flags) == Wide(end)
  {
    hide *;
    ExpandIs(cv, block, len, counter, flags, mid, end);
    WideBytes(cv, block, len, counter, flags);
  }

  lemma EightParts(s: seq<bv8>)
    requires |s| == 32
    ensures s == s[0..4] + s[4..8] + s[8..12] + s[12..16] + s[16..20] + s[20..24] + s[24..28] + s[28..32]
  {
  }

  lemma StoredBytes(w: Words)
    ensures StoreCv(w) == Bytes(AsEight(w))
  {
    hide Store, StoreAll;
    var s := StoreCv(w);
    StoredAt(w, 0);
    StoredAt(w, 1);
    StoredAt(w, 2);
    StoredAt(w, 3);
    StoredAt(w, 4);
    StoredAt(w, 5);
    StoredAt(w, 6);
    StoredAt(w, 7);
    EightParts(s);
  }

  // ----- the empty message -----

  /** The words of an empty block. */
  const Nothing: Sixteen :=
    Sixteen(0x00000000, 0x00000000, 0x00000000, 0x00000000, 0x00000000, 0x00000000, 0x00000000, 0x00000000,
            0x00000000, 0x00000000, 0x00000000, 0x00000000, 0x00000000, 0x00000000, 0x00000000, 0x00000000)

  const MEmpty0: Sixteen :=
    Sixteen(0xdf9ad597, 0xdd7bb3bd, 0x28638e71, 0x42bdd2fd, 0xee85fee0, 0x718e6ee5, 0x5338fd61, 0x36178d26,
            0x1b151726, 0xbcbd45b6, 0x4d29026e, 0xd4f01f6f, 0xefdbbbf9, 0x7eed492c, 0xf25fdf03, 0x9c34fe18)

  const LEmpty0: Sixteen :=
    Sixteen(0x3443fa28, 0x7634cdc6, 0x49d319ad, 0xbcb61ac1, 0x78f414d7, 0xaadb11a4, 0xf59beafb, 0x03f6da91,
            0x8d0ae987, 0xd0953433, 0xa39e590d, 0xf57fc6f7, 0xb1d1df4c, 0x1dc9d009, 0x3f087037, 0x61c4c575)

  const XEmpty0: Sixteen :=
    Sixteen(0xb94913af, 0xa6a1f9f5, 0xea4d40a0, 0x49c9dc36, 0xc925cb9b, 0xb712c1ad, 0xca939acc, 0x62321fe4,
            0xe7030fe0, 0x6bf29ab6, 0x9ff0aa7f, 0x503033cd, 0xe0df8d33, 0x86ccb885, 0x208ba99c, 0x3a24086c)

  lemma FrontEmpty0()
    ensures FourRounds(Start(H, 0, 0, 0, 11), Nothing) == MEmpty0
  {
  }

  lemma BackEmpty0()
    ensures ThreeRounds(MEmpty0, Later(Nothing)) == LEmpty0
  {
  }

  lemma SpreadEmpty0()
    ensures Spread(H, LEmpty0) == XEmpty0
  {
  }

  const MEmpty1: Sixteen :=
    Sixteen(0x12d13d4e, 0x08e9584a, 0xf1f1b340, 0x4ff9bba1, 0xed5d5b9d, 0x9dc3486d, 0xa05657f4, 0x3533291c,
            0xed1ed2c2, 0x631c6e98, 0x72f5667e, 0x7260e3c7, 0x735d76e3, 0x3dbd8027, 0x51d43676, 0xd7ef167e)

  const LEmpty1: Sixteen :=
    Sixteen(0x33831231, 0xfdd1dd19, 0x68d0e7ec, 0x7354e755, 0xe3b5b21c, 0xf4778e99, 0x3a6bebfd, 0xa06f2483,
            0x44cbe717, 0x9d273590, 0xf6190143, 0x589107ac, 0xd38c558e, 0xad7326bd, 0x4c9f7a32, 0x7ab4db7a)

  const XEmpty1: Sixteen :=
    Sixteen(0x7748f526, 0x60f6e889, 0x9ec9e6af, 0x2bc5e0f9, 0x3039e792, 0x5904a824, 0x76f491cf, 0xdadbfff9,
            0x2ec20170, 0x26409b15, 0xca77f231, 0xfddef296, 0x828207f1, 0x36764e31, 0x531ca399, 0x21541663)

  lemma FrontEmpty1()
    ensures FourRounds(Start(H, 1, 0, 0, 11), Nothing) == MEmpty1
  {
  }

  lemma BackEmpty1()
    ensures ThreeRounds(MEmpty1, Later(Nothing)) == LEmpty1
  {
  }

  lemma SpreadEmpty1()
    ensures Spread(H, LEmpty1) == XEmpty1
  {
  }

  lemma NothingAt(i: nat)
    requires i < 16
    ensures BlockWords(ZeroPad([]))[i] == 0
  {
    assert Load([0, 0, 0, 0]) == 0;
    hide Load;
    assert ZeroPad([])[4 * i..4 * i + 4] == [0, 0, 0, 0];
  }

  lemma NothingWords()
    ensures AsSixteen(BlockWords(ZeroPad([]))) == Nothing
  {
    hide BlockWords, ZeroPad;
    forall i | 0 <= i < 16
      ensures BlockWords(ZeroPad([]))[i] == 0
    {
      NothingAt(i);
    }
  }

  lemma EmptyBytes0()
    ensures Bytes(FirstEight(XEmpty0)) ==
      [0xaf, 0x13, 0x49, 0xb9, 0xf5, 0xf9, 0xa1, 0xa6, 0xa0, 0x40, 0x4d, 0xea, 0x36, 0xdc, 0xc9, 0x49,
       0x9b, 0xcb, 0x25, 0xc9, 0xad, 0xc1, 0x12, 0xb7, 0xcc, 0x9a, 0x93, 0xca, 0xe4, 0x1f, 0x32, 0x62]
  {
  }

  lemma EmptyBytes1()
    ensures Bytes(LastEight(XEmpty0)) ==
      [0xe0, 0x0f, 0x03, 0xe7, 0xb6, 0x9a, 0xf2, 0x6b, 0x7f, 0xaa, 0xf0, 0x9f, 0xcd, 0x33, 0x30, 0x50,
       0x33, 0x8d, 0xdf, 0xe0, 0x85, 0xb8, 0xcc, 0x86, 0x9c, 0xa9, 0x8b, 0x20, 0x6c, 0x08, 0x24, 0x3a]
  {
  }

  lemma EmptyBytes2()
    ensures Bytes(FirstEight(XEmpty1)) ==
      [0x26, 0xf5, 0x48, 0x77, 0x89, 0xe8, 0xf6, 0x60, 0xaf, 0xe6, 0xc9, 0x9e, 0xf9, 0xe0, 0xc5, 0x2b,
       0x92, 0xe7, 0x39, 0x30, 0x24, 0xa8, 0x04, 0x59, 0xcf, 0x91, 0xf4, 0x76, 0xf9, 0xff, 0xdb, 0xda]
  {
  }

  lemma EmptyBytes3()
    ensures Bytes(LastEight(XEmpty1)) ==
      [0x70, 0x01, 0xc2, 0x2e, 0x15, 0x9b, 0x40, 0x26, 0x31, 0xf2, 0x77, 0xca, 0x96, 0xf2, 0xde, 0xfd,
       0xf1, 0x07, 0x82, 0x82, 0x31, 0x4e, 0x76, 0x36, 0x99, 0xa3, 0x1c, 0x53, 0x63, 0x16, 0x54, 0x21]
  {
  }

  lemma EmptyTree()
    ensures SubtreeOutput(Plain(), [], 0) == Output(IV, ZeroPad([]), 0, 0, Or(Or(0, StartFlag(0)), CHUNK_END))
  {
    var none: seq<bv8> := [];
    assert none[..0] == none && none[0..] == none;
  }

  /** The first two blocks of output that the empty message gives. */
  lemma EmptyAnswer()
    ensures Hash(Plain(), [], 0, 64) ==
      [0xaf, 0x13, 0x49, 0xb9, 0xf5, 0xf9, 0xa1, 0xa6, 0xa0, 0x40, 0x4d, 0xea, 0x36, 0xdc, 0xc9, 0x49,
       0x9b, 0xcb, 0x25, 0xc9, 0xad, 0xc1, 0x12, 0xb7, 0xcc, 0x9a, 0x93, 0xca, 0xe4, 0x1f, 0x32, 0x62]
      + [0xe0, 0x0f, 0x03, 0xe7, 0xb6, 0x9a, 0xf2, 0x6b, 0x7f, 0xaa, 0xf0, 0x9f, 0xcd, 0x33, 0x30, 0x50,
         0x33, 0x8d, 0xdf, 0xe0, 0x85, 0xb8, 0xcc, 0x86, 0x9c, 0xa9, 0x8b, 0x20, 0x6c, 0x08, 0x24, 0x3a]
    ensures Hash(Plain(), [], 64, 64) ==
      [0x26, 0xf5, 0x48, 0x77, 0x89, 0xe8, 0xf6, 0x60, 0xaf, 0xe6, 0xc9, 0x9e, 0xf9, 0xe0, 0xc5, 0x2b,
       0x92, 0xe7, 0x39, 0x30, 0x24, 0xa8, 0x04, 0x59, 0xcf, 0x91, 0xf4, 0x76, 0xf9, 0xff, 0xdb, 0xda]
      + [0x70, 0x01, 0xc2, 0x2e, 0x15, 0x9b, 0x40, 0x26, 0x31, 0xf2, 0x77, 0xca, 0x96, 0xf2, 0xde, 0xfd,
         0xf1, 0x07, 0x82, 0x82, 0x31, 0x4e, 0x76, 0x36, 0x99, 0xa3, 0x1c, 0x53, 0x63, 0x16, 0x54, 0x21]
  {
    hide *;
    EmptyTree();
    var block, flags := ZeroPad([]), Or(Or(0, StartFlag(0)), CHUNK_END);
    NothingWords();
    LowWords();
    Flags();
    FirstValue();
    FrontEmpty0();
    BackEmpty0();
    SpreadEmpty0();
    XofIs(IV, block, 0, 0, Or(flags, ROOT), H, Nothing, 0, 0, 11, MEmpty0, XEmpty0);
    FrontEmpty1();
    BackEmpty1();
    SpreadEmpty1();
    XofIs(IV, block, 0, 1, Or(flags, ROOT), H, Nothing, 1, 0, 11, MEmpty1, XEmpty1);
    OutputBlock([], IV, block, 0, flags, 0);
    OutputBlock([], IV, block, 0, flags, 1);
    EmptyBytes0();
    EmptyBytes1();
    EmptyBytes2();
    EmptyBytes3();
    WideIs(XEmpty0);
    WideIs(XEmpty1);
  }

  // ----- a message of two chunks -----

  /** The bytes 0 to 63, as words. */
  const CountingWords: State :=
    [0x03020100, 0x07060504, 0x0b0a0908, 0x0f0e0d0c, 0x13121110, 0x17161514, 0x1b1a1918, 0x1f1e1d1c,
     0x23222120, 0x27262524, 0x2b2a2928, 0x2f2e2d2c, 0x33323130, 0x37363534, 0x3b3a3938, 0x3f3e3d3c]

  function Counting(): Block
  {
    StoreAll(CountingWords)
  }

  function Copies(n: nat): (data: seq<bv8>)
    ensures |data| == 64 * n && |data| % BLOCK_LEN == 0
  {
    if n == 0 then [] else Copies(n - 1) + Counting()
  }

  /** The chaining value after n blocks of the first chunk. */
  function AfterBlocks(n: nat): Words
  {
    BlocksCv(Plain(), Copies(n), 0)
  }

  /** The words of every block of the message. */
  const Sample: Sixteen :=
    Sixteen(0x03020100, 0x07060504, 0x0b0a0908, 0x0f0e0d0c, 0x13121110, 0x17161514, 0x1b1a1918, 0x1f1e1d1c,
            0x23222120, 0x27262524, 0x2b2a2928, 0x2f2e2d2c, 0x33323130, 0x37363534, 0x3b3a3938, 0x3f3e3d3c)

  /** The words of the block of the parent. */
  const Pair: Sixteen :=
    Sixteen(0x8e5dbc2c, 0xaab7068f, 0x249bab72, 0x3527dd26, 0x586e61cc, 0x14df3a48, 0x9ee987c3, 0x0e9b945b,
            0x5a38ee23, 0x3fec0489, 0x72ca88af, 0xf24538af, 0x128797d6, 0xee9cedd9, 0x31509747, 0xf60a7a76)

  const M1: Sixteen :=
    Sixteen(0x941a8fa0, 0xabd72d4e, 0x8951dd50, 0xc301d4b5, 0x5d64ecad, 0x7ea44630, 0x8e428211, 0xd6d20110,
            0x031375dc, 0x89bfc5e2, 0xa6ebf646, 0x4faed961, 0xe5214d2b, 0xe837d9c8, 0xfd5a6af8, 0x9d6e6201)

  const H1: Eight :=
    Eight(0x9d3729ff, 0x57f21cdb, 0xab5a0f7d, 0x4e8f734e, 0xb16cf69f, 0x888ccc5c, 0x2d1d84ac, 0x206f2607)

  lemma Front1()
    ensures FourRounds(Start(H, 0, 0, 64, 1), Sample) == M1
  {
  }

  lemma Back1()
    ensures Halves(ThreeRounds(M1, Later(Sample))) == H1
  {
  }

  const M2: Sixteen :=
    Sixteen(0x74ec59f0, 0x283e27df, 0xf0be4125, 0xd6035e1f, 0x8119ae6e, 0xb24f5d13, 0xdcfa2dce, 0x56af4986,
            0x13128e30, 0x816a5b2e, 0x52f269db, 0xedc57286, 0x7d5be3a5, 0xc62a8044, 0x3e9fc1d8, 0xf9454f2c)

  const H2: Eight :=
    Eight(0x2649da09, 0xa8b84c49, 0x8205da53, 0x5f5a4c11, 0xd5b70568, 0x5bc62ad9, 0xae360bda, 0xa3ce8fd5)

  lemma Front2()
    ensures FourRounds(Start(H1, 0, 0, 64, 0), Sample) == M2
  {
  }

  lemma Back2()
    ensures Halves(ThreeRounds(M2, Later(Sample))) == H2
  {
  }

  const M3: Sixteen :=
    Sixteen(0x5d947ef6, 0x8bfb7b04, 0xaeaf644a, 0x10c586e5, 0xb67eb00f, 0x114dd90f, 0x753cd8f4, 0x2a564480,
            0x80e0c841, 0x44adde94, 0xf2c07b2f, 0x9ff65067, 0x53f26486, 0x1cc1bd43, 0x547d974c, 0x90010e9d)

  const H3: Eight :=
    Eight(0x72d72861, 0xe9cb368c, 0x518042a5, 0x820cf3ad, 0x89340a8d, 0x7e671214, 0xf45d1102, 0xb54e57a3)

  lemma Front3()
    ensures FourRounds(Start(H2, 0, 0, 64, 0), Sample) == M3
  {
  }

  lemma Back3()
    ensures Halves(ThreeRounds(M3, Later(Sample))) == H3
  {
  }

  const M4: Sixteen :=
    Sixteen(0xbeb77f6e, 0xbdc8b4fd, 0xc2d64d42, 0xcaad7540, 0x2ef6707e, 0x36800685, 0x334c9fb3, 0xb32eeb27,
            0xdfac3ec0, 0x2cbb07ad, 0xba1667f1, 0xba31811e, 0x57d21bb8, 0x01785a8e, 0x51a6ecee, 0x2d7db289)

  const H4: Eight :=
    Eight(0xf7f54c91, 0xb1affee8, 0xeda6e20e, 0xad1bbbc6, 0x00e6d00c, 0x1bf3ade5, 0x2e0204dd, 0x0c0aa62d)

  lemma Front4()
    ensures FourRounds(Start(H3, 0, 0, 64, 0), Sample) == M4
  {
  }

  lemma Back4()
    ensures Halves(ThreeRounds(M4, Later(Sample))) == H4
  {
  }

  const M5: Sixteen :=
    Sixteen(0x274a09a7, 0xb3e2de0f, 0xee9c3071, 0xee6d357c, 0xd7ad904b, 0xe31dff06, 0xf359d9e8, 0x3a1ab205,
            0x14cc21ef, 0x6ffeb710, 0x8d0b239a, 0x235f0afc, 0x53b6786c, 0x91da96b6, 0x6bc9a7aa, 0x0d70dad8)

  const H5: Eight :=
    Eight(0xae05df28, 0x23a13a6b, 0x519b7e45, 0xf172f452, 0x4b472ca7, 0x5d6140d1, 0x1efcd243, 0x8315389b)

  lemma Front5()
    ensures FourRounds(Start(H4, 0, 0, 64, 0), Sample) == M5
  {
  }

  lemma Back5()
    ensures Halves(ThreeRounds(M5, Later(Sample))) == H5
  {
  }

  const M6: Sixteen :=
    Sixteen(0x8fdd9a9d, 0xc5de274f, 0xebb74d62, 0xb5694b76, 0x8900781b, 0x2431e5d0, 0x2fdf2636, 0x44dee4da,
            0x13d07ce8, 0xe30f1c9d, 0xbd928fd7, 0x34a0808c, 0xd7ef582c, 0x39d74527, 0xe364240d, 0xefca96b0)

  const H6: Eight :=
    Eight(0x77f67e88, 0x1ba28208, 0x50d7192a, 0xc9ca19b5, 0xe8759196, 0xa6ccabf8, 0x17877be3, 0x2c0c394e)

  lemma Front6()
    ensures FourRounds(Start(H5, 0, 0, 64, 0), Sample) == M6
  {
  }

  lemma Back6()
    ensures Halves(ThreeRounds(M6, Later(Sample))) == H6
  {
  }

  const M7: Sixteen :=
    Sixteen(0xcd425369, 0x5fe46ac0, 0xf3f235b9, 0xdff3806a, 0xb628733b, 0x90f1d557, 0xaedf9c6a, 0xf8fe17ef,
            0x43fc3721, 0x9b810516, 0x041a3589, 0x1532d8ef, 0x2f5bff6a, 0xb63d6b10, 0x5cd7aef8, 0xf240956c)

  const H7: Eight :=
    Eight(0x2d398533, 0x401981cd, 0x57582287, 0xb05b6c9f, 0x06efe74d, 0xcfe90573, 0xcffdb0cf, 0x2bb3fc70)

  lemma Front7()
    ensures FourRounds(Start(H6, 0, 0, 64, 0), Sample) == M7
  {
  }

  lemma Back7()
    ensures Halves(ThreeRounds(M7, Later(Sample))) == H7
  {
  }

  const M8: Sixteen :=
    Sixteen(0x6c26e0f1, 0x8787e5c5, 0xe28cea8e, 0x3081bd18, 0x0ce1c19c, 0x9a68f450, 0xd0a02464, 0xec29808a,
            0x97563b08, 0x32d872d9, 0x0d100024, 0x2114e5aa, 0x69d2d953, 0x477ce29f, 0x106aff0e, 0xdb444aa3)

  const H8: Eight :=
    Eight(0x29a6d872, 0x7fd2e3a5, 0x7d9d9340, 0x346f9071, 0x97f59b32, 0xcca4c3f8, 0xba2f8782, 0x21b639d5)

  lemma Front8()
    ensures FourRounds(Start(H7, 0, 0, 64, 0), Sample) == M8
  {
  }

  lemma Back8()
    ensures Halves(ThreeRounds(M8, Later(Sample))) == H8
  {
  }

  const M9: Sixteen :=
    Sixteen(0xdf2e12aa, 0x0d5564ff, 0x5e417a61, 0xdde3591f, 0x1c6ace04, 0xf173231f, 0xd04bb65c, 0x6023b803,
            0xd22bf142, 0x14194df3, 0xbd699a09, 0x25957d46, 0xbf388a66, 0xd7ae6af9, 0x841f2038, 0xdc285822)

  const H9: Eight :=
    Eight(0x38bfa596, 0x4cb583dd, 0x87b73b03, 0x8bbc213e, 0x3c65ff8f, 0x55617e68, 0x698c7b87, 0xd98e76c7)

  lemma Front9()
    ensures FourRounds(Start(H8, 0, 0, 64, 0), Sample) == M9
  {
  }

  lemma Back9()
    ensures Halves(ThreeRounds(M9, Later(Sample))) == H9
  {
  }

  const M10: Sixteen :=
    Sixteen(0x1adcc162, 0x0a1303aa, 0x3cbdb055, 0x8c3d96d4, 0xcee025c6, 0x2b42f17c, 0x4f980262, 0xce0d5bd5,
            0x1e5f519d, 0x7d6e81c9, 0x77e41617, 0xd208244a, 0xa99e4aff, 0x7dca9430, 0xf43da77c, 0xee672572)

  const H10: Eight :=
    Eight(0x3e14e8b9, 0xe38c7b1d, 0x74f1b46c, 0x3f0a4981, 0x22cd24dc, 0x20f34367, 0xe50c8744, 0x2132336e)

  lemma Front10()
    ensures FourRounds(Start(H9, 0, 0, 64, 0), Sample) == M10
  {
  }

  lemma Back10()
    ensures Halves(ThreeRounds(M10, Later(Sample))) == H10
  {
  }

  const M11: Sixteen :=
    Sixteen(0xd306f6c8, 0x3300ad1b, 0x9fe2ca30, 0xa9265e03, 0x14d5dbd2, 0xf10185e3, 0xb9dc6f50, 0xf9313ec2,
            0x1ccc31f4, 0x85267cf1, 0x6f99bc84, 0xccfd4991, 0xed421b5a, 0x8832da1b, 0x349fbb0d, 0x09552569)

  const H11: Eight :=
    Eight(0x2185fd86, 0x4dbe9f07, 0x2ce27079, 0x309b1806, 0x902dd06f, 0xa7886ecf, 0x2059d31d, 0xe4554fb2)

  lemma Front11()
    ensures FourRounds(Start(H10, 0, 0, 64, 0), Sample) == M11
  {
  }

  lemma Back11()
    ensures Halves(ThreeRounds(M11, Later(Sample))) == H11
  {
  }

  const M12: Sixteen :=
    Sixteen(0x9e00cd55, 0xab03a546, 0x4fc7d8e1, 0x15e14f2d, 0xac682dc7, 0xccb8c426, 0x721f2600, 0x38f67a39,
            0x8d8f6cca, 0x7b46b76b, 0x70ee48f3, 0x267bdb9a, 0x56be5a3f, 0x7c5352ea, 0x06b1d3ca, 0xe1e39a62)

  const H12: Eight :=
    Eight(0xf9853008, 0x6de7af06, 0x2f7a82ff, 0x3a8cf182, 0xa0d7f09b, 0xd10abdb8, 0x0163ce4c, 0x0b9b90d5)

  lemma Front12()
    ensures FourRounds(Start(H11, 0, 0, 64, 0), Sample) == M12
  {
  }

  lemma Back12()
    ensures Halves(ThreeRounds(M12, Later(Sample))) == H12
  {
  }

  const M13: Sixteen :=
    Sixteen(0x28ff4fee, 0x7dafc53f, 0xfaa2ba67, 0x2b7bc0d5, 0x97a96e28, 0x3a0af79e, 0xae3bef62, 0x31941dc1,
            0xf6e0734d, 0x72ab1d8e, 0xfa3654b8, 0xc88133d9, 0x0c65e268, 0xacf7c88c, 0x08039061, 0x49289222)

  const H13: Eight :=
    Eight(0x3312a640, 0x602607d2, 0x3f07d097, 0x57f59612, 0x8613ba00, 0xdfb3a1f4, 0xaf974484, 0x86cae514)

  lemma Front13()
    ensures FourRounds(Start(H12, 0, 0, 64, 0), Sample) == M13
  {
  }

  lemma Back13()
    ensures Halves(ThreeRounds(M13, Later(Sample))) == H13
  {
  }

  const M14: Sixteen :=
    Sixteen(0x94d95561, 0xe16bb6e6, 0x1f3613fe, 0x23690bc1, 0x5a2d7257, 0x2c3ab4df, 0x32854c87, 0xaaa2ac68,
            0x7f678826, 0x50a9fb47, 0xffb9c32c, 0xd4ed80cd, 0x36ef4beb, 0x50df4072, 0x856c37e7, 0x78ee9a75)

  const H14: Eight :=
    Eight(0x6f73a185, 0x7b268b25, 0xf2b62d48, 0x104fe9fe, 0xc839dd8b, 0xe563be01, 0x5c6a4493, 0xd8a55825)

  lemma Front14()
    ensures FourRounds(Start(H13, 0, 0, 64, 0), Sample) == M14
  {
  }

  lemma Back14()
    ensures Halves(ThreeRounds(M14, Later(Sample))) == H14
  {
  }

  const M15: Sixteen :=
    Sixteen(0x04493481, 0xd82ce041, 0x2544969a, 0x4f72ddd7, 0xefffa842, 0xf7f4407b, 0xb59cb00a, 0x1a073334,
            0x42f44d4f, 0x79e28b1c, 0x769adb6e, 0xd7681133, 0x81c3c4b4, 0x5257d657, 0x14e607d1, 0x491ade67)

  const H15: Eight :=
    Eight(0x01ef4662, 0x8b4b2c9b, 0x63c81f3b, 0x48e4679e, 0x823efbfa, 0x3d9f20b8, 0x376ec3bb, 0xd65e0c11)

  lemma Front15()
    ensures FourRounds(Start(H14, 0, 0, 64, 0), Sample) == M15
  {
  }

  lemma Back15()
    ensures Halves(ThreeRounds(M15, Later(Sample))) == H15
  {
  }

  const M16: Sixteen :=
    Sixteen(0xe1e18375, 0x3989d4b5, 0xac7d61fc, 0xc397e290, 0x98c96a8a, 0xfcaa7402, 0xc95be4fd, 0xf7f2b317,
            0xf0b4078c, 0x45455a15, 0xdd3edc57, 0x840a24e3, 0x3950f132, 0x01e9429b, 0x6dfef6f6, 0x0d9a2ab5)

  const H16: Eight :=
    Eight(0x8e5dbc2c, 0xaab7068f, 0x249bab72, 0x3527dd26, 0x586e61cc, 0x14df3a48, 0x9ee987c3, 0x0e9b945b)

  lemma Front16()
    ensures FourRounds(Start(H15, 0, 0, 64, 2), Sample) == M16
  {
  }

  lemma Back16()
    ensures Halves(ThreeRounds(M16, Later(Sample))) == H16
  {
  }

  const MSecond: Sixteen :=
    Sixteen(0xd62145b0, 0xb190c286, 0x175be45d, 0x9527d9ca, 0xe9de2984, 0x3c8c9ab8, 0xb9174b0b, 0x55dbe000,
            0x59069e52, 0x0ff6cb2e, 0x2cb1cce9, 0x73092ed9, 0x552cef86, 0xc9ae3563, 0x5bda0d54, 0x16aecb4a)

  const HSecond: Eight :=
    Eight(0x5a38ee23, 0x3fec0489, 0x72ca88af, 0xf24538af, 0x128797d6, 0xee9cedd9, 0x31509747, 0xf60a7a76)

  lemma FrontSecond()
    ensures FourRounds(Start(H, 1, 0, 64, 3), Sample) == MSecond
  {
  }

  lemma BackSecond()
    ensures Halves(ThreeRounds(MSecond, Later(Sample))) == HSecond
  {
  }

  const MRoot: Sixteen :=
    Sixteen(0xa4854ed2, 0xad887938, 0x587b1f01, 0x942e36d6, 0x10d42cf8, 0x4f48a62d, 0x485e7716, 0x16311764,
            0x80f1d020, 0xd55aa00c, 0x722baa99, 0x9f678a0a, 0x7816f26f, 0x03b34a6a, 0xedd82ab6, 0xcc72d11b)

  const HRoot: Eight :=
    Eight(0xa49bdc75, 0xecd8e7f5, 0x617a67e7, 0x221bac2e, 0xaab3203f, 0xf34d6570, 0x991a83a8, 0x1944f5e1)

  lemma FrontRoot()
    ensures FourRounds(Start(H, 0, 0, 64, 12), Pair) == MRoot
  {
  }

  lemma BackRoot()
    ensures Halves(ThreeRounds(MRoot, Later(Pair))) == HRoot
  {
  }

  lemma SampleWords()
    ensures AsSixteen(BlockWords(Counting())) == Sample
  {
    ReadBack(CountingWords);
    hide BlockWords, StoreAll;
  }

  /** The block of a parent is read as the words of its children. */
  lemma PairWords(l: Words, r: Words)
    requires AsEight(l) == H16 && AsEight(r) == HSecond
    ensures AsSixteen(BlockWords(ParentBlock(StoreCv(l), StoreCv(r)))) == Pair
  {
    StoredTogether(l, r);
    ReadBack(l + r);
    hide BlockWords, StoreAll;
  }

  lemma CopiesEnd(n: nat)
    requires n > 0
    ensures Copies(n)[..64 * (n - 1)] == Copies(n - 1) && Copies(n)[64 * (n - 1)..] == Counting()
  {
    hide Counting;
  }

  lemma NextCv(n: nat)
    ensures AfterBlocks(n + 1) == Compress(AfterBlocks(n), Counting(), 64, 0, Or(0, StartFlag(n)))
  {
    hide Compress, CompressXof, StoreCv, Or, StartFlag, Counting;
    CopiesEnd(n + 1);
  }

  /** One more block of the first chunk. */
  lemma NextBlock(n: nat, flags: Word, h: Eight, mid: Sixteen, next: Eight)
    requires AsEight(AfterBlocks(n)) == h && WordOf(Or(0, StartFlag(n))) == flags
    requires FourRounds(Start(h, 0, 0, 64, flags), Sample) == mid
    requires Halves(ThreeRounds(mid, Later(Sample))) == next
    ensures AsEight(AfterBlocks(n + 1)) == next
  {
    hide *;
    NextCv(n);
    SampleWords();
    LowWords();
    CompressIs(AfterBlocks(n), Counting(), 64, 0, Or(0, StartFlag(n)), mid, next);
  }

  lemma ValueIs(o: Output)
    ensures ChainingValue(Plain(), o) == StoreCv(Compress(o.inputCv, o.block, o.blockLen, o.counter, o.flags))
  {
  }

  lemma AfterIs(n: nat)
    ensures BlocksCv(Plain(), Copies(n), 0) == AfterBlocks(n)
  {
  }

  lemma NoCopies()
    ensures Copies(0) == []
  {
  }

  lemma NoBlocks(counter: nat)
    ensures BlocksCv(Plain(), [], counter) == IV && AfterBlocks(0) == IV
  {
  }

  lemma Blocks0()
    ensures AsEight(AfterBlocks(5)) == H5
  {
    hide *;
    NoBlocks(0);
    FirstValue();
    Flags();
    Front1();
    Back1();
    NextBlock(0, 1, H, M1, H1);
    Front2();
    Back2();
    NextBlock(1, 0, H1, M2, H2);
    Front3();
    Back3();
    NextBlock(2, 0, H2, M3, H3);
    Front4();
    Back4();
    NextBlock(3, 0, H3, M4, H4);
    Front5();
    Back5();
    NextBlock(4, 0, H4, M5, H5);
  }

  lemma Blocks1()
    requires AsEight(AfterBlocks(5)) == H5
    ensures AsEight(AfterBlocks(10)) == H10
  {
    hide *;
    Flags();
    Front6();
    Back6();
    NextBlock(5, 0, H5, M6, H6);
    Front7();
    Back7();
    NextBlock(6, 0, H6, M7, H7);
    Front8();
    Back8();
    NextBlock(7, 0, H7, M8, H8);
    Front9();
    Back9();
    NextBlock(8, 0, H8, M9, H9);
    Front10();
    Back10();
    NextBlock(9, 0, H9, M10, H10);
  }

  lemma Blocks2()
    requires AsEight(AfterBlocks(10)) == H10
    ensures AsEight(AfterBlocks(15)) == H15
  {
    hide *;
    Flags();
    Front11();
    Back11();
    NextBlock(10, 0, H10, M11, H11);
    Front12();
    Back12();
    NextBlock(11, 0, H11, M12, H12);
    Front13();
    Back13();
    NextBlock(12, 0, H12, M13, H13);
    Front14();
    Back14();
    NextBlock(13, 0, H13, M14, H14);
    Front15();
    Back15();
    NextBlock(14, 0, H14, M15, H15);
  }

  lemma ChunkTree(data: seq<bv8>, counter: nat)
    requires |data| <= CHUNK_LEN
    ensures SubtreeOutput(Plain(), data, counter) == ChunkOutput(Plain(), data, counter)
  {
  }

  /** A chunk of n whole blocks. */
  lemma ChunkIs(n: nat, counter: nat)
    requires 0 < n <= 16
    ensures SubtreeOutput(Plain(), Copies(n), counter)
            == Output(BlocksCv(Plain(), Copies(n - 1), counter), Counting(), 64, counter,
                      Or(Or(0, StartFlag(n - 1)), CHUNK_END))
  {
    hide BlocksCv, Compress, CompressXof, StoreCv, Or, StartFlag, Counting, Copies, SubtreeOutput;
    ChunkTree(Copies(n), counter);
    CopiesEnd(n);
    assert BlocksBeforeLast(64 * n) == n - 1;
    assert ZeroPad(Counting()) == Counting();
  }

  lemma MessageTree(left: Output, right: Output)
    requires left == SubtreeOutput(Plain(), Copies(16), 0) && right == SubtreeOutput(Plain(), Copies(1), 1)
    ensures SubtreeOutput(Plain(), Copies(17), 0)
            == Output(IV, ParentBlock(ChainingValue(Plain(), left), ChainingValue(Plain(), right)), 64, 0,
                      Or(0, PARENT))
  {
    hide BlocksCv, Compress, CompressXof, StoreCv, Or, StartFlag, Counting, ChunkOutput, ParentBlock;
    assert Chunks(1088) == 2 && SplitPoint(2) == 1;
    CopiesEnd(17);
    CopiesEnd(1);
    assert Copies(0) == [];
    assert Copies(17)[1024..] == Copies(1);
  }

  lemma LeftValue(cv: Words)
    requires AsEight(cv) == H15
    ensures AsEight(Compress(cv, Counting(), 64, 0, Or(Or(0, StartFlag(15)), CHUNK_END))) == H16
  {
    hide *;
    SampleWords();
    LowWords();
    Flags();
    Front16();
    Back16();
    CompressIs(cv, Counting(), 64, 0, Or(Or(0, StartFlag(15)), CHUNK_END), M16, H16);
  }

  lemma RightValue()
    ensures AsEight(Compress(IV, Counting(), 64, 1, Or(Or(0, StartFlag(0)), CHUNK_END))) == HSecond
  {
    hide *;
    FirstValue();
    SampleWords();
    LowWords();
    Flags();
    FrontSecond();
    BackSecond();
    CompressIs(IV, Counting(), 64, 1, Or(Or(0, StartFlag(0)), CHUNK_END), MSecond, HSecond);
  }

  lemma RootValue(l: Words, r: Words)
    requires AsEight(l) == H16 && AsEight(r) == HSecond
    ensures AsEight(Compress(IV, ParentBlock(StoreCv(l), StoreCv(r)), 64, 0, Or(Or(0, PARENT), ROOT))) == HRoot
  {
    hide *;
    FirstValue();
    PairWords(l, r);
    LowWords();
    Flags();
    FrontRoot();
    BackRoot();
    CompressIs(IV, ParentBlock(StoreCv(l), StoreCv(r)), 64, 0, Or(Or(0, PARENT), ROOT), MRoot, HRoot);
  }

  lemma RootBytes32()
    ensures Bytes(HRoot) ==
      [0x75, 0xdc, 0x9b, 0xa4, 0xf5, 0xe7, 0xd8, 0xec, 0xe7, 0x67, 0x7a, 0x61, 0x2e, 0xac, 0x1b, 0x22,
       0x3f, 0x20, 0xb3, 0xaa, 0x70, 0x65, 0x4d, 0xf3, 0xa8, 0x83, 0x1a, 0x99, 0xe1, 0xf5, 0x44, 0x19]
  {
  }

  /** The digest of a message of two chunks. */
  lemma TwoChunksAnswer()
    ensures Hash(Plain(), Copies(17), 0, OUT_LEN) ==
      [0x75, 0xdc, 0x9b, 0xa4, 0xf5, 0xe7, 0xd8, 0xec, 0xe7, 0x67, 0x7a, 0x61, 0x2e, 0xac, 0x1b, 0x22,
       0x3f, 0x20, 0xb3, 0xaa, 0x70, 0x65, 0x4d, 0xf3, 0xa8, 0x83, 0x1a, 0x99, 0xe1, 0xf5, 0x44, 0x19]
  {
    hide *;
    ChunkIs(16, 0);
    ChunkIs(1, 1);
    AfterIs(15);
    NoBlocks(1);
    assert Copies(0) == [] by { NoCopies(); }
    MessageTree(SubtreeOutput(Plain(), Copies(16), 0), SubtreeOutput(Plain(), Copies(1), 1));
    Blocks0();
    Blocks1();
    Blocks2();
    LeftValue(AfterBlocks(15));
    RightValue();
    var l := Compress(AfterBlocks(15), Counting(), 64, 0, Or(Or(0, StartFlag(15)), CHUNK_END));
    var r := Compress(IV, Counting(), 64, 1, Or(Or(0, StartFlag(0)), CHUNK_END));
    ValueIs(SubtreeOutput(Plain(), Copies(16), 0));
    ValueIs(SubtreeOutput(Plain(), Copies(1), 1));
    RootValue(l, r);
    RootCvIs(Copies(17), IV, ParentBlock(StoreCv(l), StoreCv(r)), 64, Or(0, PARENT));
    StoredBytes(Compress(IV, ParentBlock(StoreCv(l), StoreCv(r)), 64, 0, Or(Or(0, PARENT), ROOT)));
    RootBytes32();
  }
}
