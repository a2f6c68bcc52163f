/** The portable BLAKE3 compression function (BLAKE3 specification, section 2.2): the word mixing, and the
    message schedule that stands for permuting the message between rounds. */
module Blake3Portable {
  import opened Blake3Hasher
  import opened Blake3Subtree
  import opened Blake3Tree

  type Word = bv32

  type State = s: seq<Word> | |s| == 16 witness seq(16, i => 0)

  function Xor(a: Word, b: Word): Word
  {
    a ^ b
  }

  /** A number's low 32 bits: doubling drops what no longer fits. */
  function Low(n: nat): Word
  {
    if n == 0 then 0 else (Low(n / 2) << 1) | (if n % 2 == 1 then 1 else 0)
  }

  function Load(b: seq<bv8>): Word
    requires |b| == 4
  {
    (b[0] as bv32) | (b[1] as bv32 << 8) | (b[2] as bv32 << 16) | (b[3] as bv32 << 24)
  }

  function Store(w: Word): (b: seq<bv8>)
    ensures |b| == 4
  {
    [(w & 0xff) as bv8, ((w >> 8) & 0xff) as bv8, ((w >> 16) & 0xff) as bv8, ((w >> 24) & 0xff) as bv8]
  }

  lemma LoadStore(w: Word)
    ensures Load(Store(w)) == w
  {
  }

  // ----- the specification -----

  datatype Quad = Quad(a: Word, b: Word, c: Word, d: Word)

  /** The steps of a quarter round: a sum and a rotation each, a message word in every other one. */
  function FirstTop(q: Quad, m: Word): Quad
  {
    var a := q.a + q.b + m;
    Quad(a, q.b, q.c, ((q.d ^ a) >> 16) | ((q.d ^ a) << 16))
  }

  function FirstLow(q: Quad): Quad
  {
    var c := q.c + q.d;
    Quad(q.a, ((q.b ^ c) >> 12) | ((q.b ^ c) << 20), c, q.d)
  }

  function SecondTop(q: Quad, m: Word): Quad
  {
    var a := q.a + q.b + m;
    Quad(a, q.b, q.c, ((q.d ^ a) >> 8) | ((q.d ^ a) << 24))
  }

  function SecondLow(q: Quad): Quad
  {
    var c := q.c + q.d;
    Quad(q.a, ((q.b ^ c) >> 7) | ((q.b ^ c) << 25), c, q.d)
  }

  function Quarter(q: Quad, x: Word, y: Word): Quad
  {
    SecondLow(SecondTop(FirstLow(FirstTop(q, x)), y))
  }

  /** The quarter round on four places of the state. */
  function QuarterAt(s: State, a: nat, b: nat, c: nat, d: nat, x: Word, y: Word): State
    requires a < 16 && b < 16 && c < 16 && d < 16
  {
    var q := Quarter(Quad(s[a], s[b], s[c], s[d]), x, y);
    s[a := q.a][b := q.b][c := q.c][d := q.d]
  }

  /** A round: the columns, then the diagonals, with the message words in order. */
  function Round(s: State, m: State): State
  {
    var s0 := QuarterAt(s, 0, 4, 8, 12, m[0], m[1]);
    var s1 := QuarterAt(s0, 1, 5, 9, 13, m[2], m[3]);
    var s2 := QuarterAt(s1, 2, 6, 10, 14, m[4], m[5]);
    var s3 := QuarterAt(s2, 3, 7, 11, 15, m[6], m[7]);
    var s4 := QuarterAt(s3, 0, 5, 10, 15, m[8], m[9]);
    var s5 := QuarterAt(s4, 1, 6, 11, 12, m[10], m[11]);
    var s6 := QuarterAt(s5, 2, 7, 8, 13, m[12], m[13]);
    QuarterAt(s6, 3, 4, 9, 14, m[14], m[15])
  }

  /** The permutation of the message between rounds. */
  function Permute(m: State): State
  {
    [m[2], m[6], m[3], m[10], m[7], m[0], m[4], m[13], m[1], m[11], m[12], m[5], m[9], m[14], m[15], m[8]]
  }

  function Rounds(s: State, m: State, n: nat): State
    decreases n
  {
    if n == 0 then s else Rounds(Round(s, m), Permute(m), n - 1)
  }

  // ----- the schedule -----

  /** The message words of a round, in the order the table gives. */
  function Scheduled(m: State, round: nat): State
    requires round < 7
  {
    match round
    case 0 => m
    case 1 => [m[2], m[6], m[3], m[10], m[7], m[0], m[4], m[13], m[1], m[11], m[12], m[5], m[9], m[14], m[15], m[8]]
    case 2 => [m[3], m[4], m[10], m[12], m[13], m[2], m[7], m[14], m[6], m[5], m[9], m[0], m[11], m[15], m[8], m[1]]
    case 3 => [m[10], m[7], m[12], m[9], m[14], m[3], m[13], m[15], m[4], m[0], m[11], m[2], m[5], m[8], m[1], m[6]]
    case 4 => [m[12], m[13], m[9], m[11], m[15], m[10], m[14], m[8], m[7], m[2], m[5], m[3], m[0], m[1], m[6], m[4]]
    case 5 => [m[9], m[14], m[11], m[5], m[8], m[12], m[15], m[1], m[13], m[3], m[0], m[10], m[2], m[6], m[4], m[7]]
    case _ => [m[11], m[15], m[5], m[0], m[1], m[9], m[8], m[6], m[14], m[10], m[2], m[12], m[3], m[4], m[7], m[13]]
  }

  /** Each row of the table is the one before it, permuted. */
  lemma ScheduleStep(m: State, round: nat)
    requires round < 6
    ensures Scheduled(m, round + 1) == Permute(Scheduled(m, round))
  {
  }

  // ----- the function -----

  const IV: Words := [0x6A09E667, 0xBB67AE85, 0x3C6EF372, 0xA54FF53A, 0x510E527F, 0x9B05688C, 0x1F83D9AB, 0x5BE0CD19]

  function BlockWords(block: Block): State
  {
    seq(16, i requires 0 <= i < 16 => Load(block[4 * i..4 * i + 4]))
  }

  function InitialState(cv: Words, blockLen: nat, counter: nat, flags: bv8): State
  {
    cv + IV[..4] + [Low(counter), Low(counter / 0x1_0000_0000), Low(blockLen), WordOf(flags)]
  }

  function WordOf(b: bv8): Word
  {
    b as bv32
  }

  /** The state after seven rounds. */
  function Mixed(cv: Words, block: Block, blockLen: nat, counter: nat, flags: bv8): State
  {
    Rounds(InitialState(cv, blockLen, counter, flags), BlockWords(block), 7)
  }

  /** The chaining value: the halves of the state joined. */
  function Compress(cv: Words, block: Block, blockLen: nat, counter: nat, flags: bv8): Words
  {
    hide Mixed, Xor;
    var s := Mixed(cv, block, blockLen, counter, flags);
    seq(8, i requires 0 <= i < 8 => Xor(s[i], s[i + 8]))
  }

  /** The words of the full output: those, and the second half joined with the input chaining value. */
  function Expand(cv: Words, block: Block, blockLen: nat, counter: nat, flags: bv8): State
  {
    hide Mixed, Xor;
    var s := Mixed(cv, block, blockLen, counter, flags);
    seq(16, i requires 0 <= i < 16 => if i < 8 then Xor(s[i], s[i + 8]) else Xor(s[i], cv[i - 8]))
  }

  /** Words as bytes, the lowest first. */
  function StoreAll(w: seq<Word>): (b: seq<bv8>)
    ensures |b| == 4 * |w|
  {
    if |w| == 0 then [] else StoreAll(w[..|w| - 1]) + Store(w[|w| - 1])
  }

  function StoreCv(cv: Words): ChainValue
  {
    StoreAll(cv)
  }

  function CompressXof(cv: Words, block: Block, blockLen: nat, counter: nat, flags: bv8): Block
  {
    StoreAll(Expand(cv, block, blockLen, counter, flags))
  }

  /** The mode of plain hashing with this compression function. */
  function PortableMode(key: Words, flags: bv8): Mode
  {
    Mode(Compress, CompressXof, StoreCv, key, flags)
  }

  lemma {:induction false} StoreFront(w: seq<Word>, n: nat)
    requires n <= |w|
    ensures StoreAll(w[..n]) == StoreAll(w)[..4 * n]
  {
    hide Store;
    if n < |w| {
      StoreFront(w[..|w| - 1], n);
      assert w[..|w| - 1][..n] == w[..n];
    } else {
      assert w[..n] == w;
    }
  }

  /** The bytes of a chaining value are the first half of the full output. */
  lemma ChainValueIsFront(cv: Words, block: Block, blockLen: nat, counter: nat, flags: bv8)
    ensures CompressXof(cv, block, blockLen, counter, flags)[..OUT_LEN]
            == StoreCv(Compress(cv, block, blockLen, counter, flags))
  {
    hide Mixed, Xor, StoreAll;
    var full := Expand(cv, block, blockLen, counter, flags);
    StoreFront(full, 8);
    assert full[..8] == Compress(cv, block, blockLen, counter, flags);
  }

  // ----- in place -----

  method G(state: array<Word>, a: nat, b: nat, c: nat, d: nat, x: Word, y: Word)
    requires state.Length == 16 && a < 4 <= b < 8 <= c < 12 <= d < 16
    modifies state
    ensures state[..] == QuarterAt(old(state[..]), a, b, c, d, x, y)
  {
    hide FirstTop, FirstLow, SecondTop, SecondLow;
    var q := Quad(state[a], state[b], state[c], state[d]);
    q := FirstTop(q, x);
    q := FirstLow(q);
    q := SecondTop(q, y);
    q := SecondLow(q);
    state[a], state[b], state[c], state[d] := q.a, q.b, q.c, q.d;
  }

  method RoundFn(state: array<Word>, msg: State, round: nat)
    requires state.Length == 16 && round < 7
    modifies state
    ensures state[..] == Round(old(state[..]), Scheduled(msg, round))
  {
    hide QuarterAt, Scheduled;
    var w := Scheduled(msg, round);
    G(state, 0, 4, 8, 12, w[0], w[1]);
    G(state, 1, 5, 9, 13, w[2], w[3]);
    G(state, 2, 6, 10, 14, w[4], w[5]);
    G(state, 3, 7, 11, 15, w[6], w[7]);
    G(state, 0, 5, 10, 15, w[8], w[9]);
    G(state, 1, 6, 11, 12, w[10], w[11]);
    G(state, 2, 7, 8, 13, w[12], w[13]);
    G(state, 3, 4, 9, 14, w[14], w[15]);
  }

  /** A round with the schedule is a round of the specification. */
  lemma RoundsStep(s: State, m: State, round: nat)
    requires round < 7
    ensures Rounds(s, Scheduled(m, round), 7 - round)
            == if round == 6 then Round(s, Scheduled(m, 6))
               else Rounds(Round(s, Scheduled(m, round)), Scheduled(m, round + 1), 6 - round)
  {
    hide Round, Permute, Scheduled;
    if round < 6 {
      ScheduleStep(m, round);
    } else {
      assert Rounds(Round(s, Scheduled(m, 6)), Permute(Scheduled(m, 6)), 0) == Round(s, Scheduled(m, 6));
    }
  }

  method CompressPre(state: array<Word>, cv: Words, block: Block, blockLen: nat, counter: nat, flags: bv8)
    requires state.Length == 16
    modifies state
    ensures state[..] == Mixed(cv, block, blockLen, counter, flags)
  {
    hide Round, Rounds, Scheduled, Low, WordOf, Load;
    var blockWords := BlockWords(block);
    var initial := InitialState(cv, blockLen, counter, flags);
    for i := 0 to 16
      invariant state[..i] == initial[..i]
    {
      state[i] := initial[i];
    }
    assert state[..] == initial && Scheduled(blockWords, 0) == blockWords by { FirstSchedule(blockWords); }
    RoundsStep(state[..], blockWords, 0);
    RoundFn(state, blockWords, 0);
    RoundsStep(state[..], blockWords, 1);
    RoundFn(state, blockWords, 1);
    RoundsStep(state[..], blockWords, 2);
    RoundFn(state, blockWords, 2);
    RoundsStep(state[..], blockWords, 3);
    RoundFn(state, blockWords, 3);
    RoundsStep(state[..], blockWords, 4);
    RoundFn(state, blockWords, 4);
    RoundsStep(state[..], blockWords, 5);
    RoundFn(state, blockWords, 5);
    RoundsStep(state[..], blockWords, 6);
    RoundFn(state, blockWords, 6);
  }

  lemma FirstSchedule(m: State)
    ensures Scheduled(m, 0) == m
  {
  }

  method CompressInPlace(cv: array<Word>, block: Block, blockLen: nat, counter: nat, flags: bv8)
    requires cv.Length == 8
    modifies cv
    ensures cv[..] == Compress(old(cv[..]), block, blockLen, counter, flags)
  {
    hide Mixed, Xor;
    var state := new Word[16];
    CompressPre(state, cv[..], block, blockLen, counter, flags);
    ghost var want := Compress(cv[..], block, blockLen, counter, flags);
    hide Compress;
    JoinHalves(state, cv, want);
  }

  /** Joins the halves of the state into the chaining value. */
  method JoinHalves(state: array<Word>, cv: array<Word>, ghost want: Words)
    requires state.Length == 16 && cv.Length == 8 && state != cv
    requires forall i :: 0 <= i < 8 ==> want[i] == Xor(state[i], state[i + 8])
    modifies cv
    ensures cv[..] == want
  {
    hide Xor;
    for i := 0 to 8
      invariant forall j :: 0 <= j < i ==> cv[j] == want[j]
      modifies cv
    {
      cv[i] := Xor(state[i], state[i + 8]);
    }
    assert |want| == 8;
  }

  /** Stores a word at a place of the output. */
  method Store32(out: array<bv8>, at: nat, w: Word)
    requires at + 4 <= out.Length
    modifies out
    ensures out[..at + 4] == old(out[..at]) + Store(w)
  {
    hide Store;
    var b := Store(w);
    out[at], out[at + 1], out[at + 2], out[at + 3] := b[0], b[1], b[2], b[3];
  }

  method CompressToXof(cv: Words, block: Block, blockLen: nat, counter: nat, flags: bv8, out: array<bv8>)
    requires out.Length == 64
    modifies out
    ensures out[..] == CompressXof(cv, block, blockLen, counter, flags)
  {
    hide Mixed, Xor, Store;
    var state := new Word[16];
    CompressPre(state, cv, block, blockLen, counter, flags);
    ghost var words := Expand(cv, block, blockLen, counter, flags);
    for i := 0 to 16
      invariant out[..4 * i] == StoreAll(words[..i])
      modifies out
    {
      var w := if i < 8 then Xor(state[i], state[i + 8]) else Xor(state[i], cv[i - 8]);
      assert words[..i + 1][..i] == words[..i] && words[..i + 1][i] == w;
      Store32(out, 4 * i, w);
    }
    assert words[..16] == words;
    assert out[..4 * 16] == out[..];
  }

  // ----- the hash with this compression -----

  /** The first 32 bytes of output are the chaining value of the root, compressed with the root flag. */
  lemma DigestIsRootCv(data: seq<bv8>)
    ensures var o := SubtreeOutput(PortableMode(IV, 0), data, 0);
            Hash(PortableMode(IV, 0), data, 0, OUT_LEN)
            == StoreCv(Compress(o.inputCv, o.block, o.blockLen, 0, Or(o.flags, ROOT)))
  {
    hide Compress, CompressXof, StoreCv, SubtreeOutput;
    var m := PortableMode(IV, 0);
    var o := SubtreeOutput(m, data, 0);
    var flags := Or(o.flags, ROOT);
    ChainValueIsFront(o.inputCv, o.block, o.blockLen, 0, flags);
    forall i | 0 <= i < OUT_LEN
      ensures Hash(m, data, 0, OUT_LEN)[i] == CompressXof(o.inputCv, o.block, o.blockLen, 0, flags)[..OUT_LEN][i]
    {
      assert i / BLOCK_LEN == 0 && i % BLOCK_LEN == i;
    }
  }

  /** The unkeyed hasher over the portable compression: its digest is that of the recursive tree built of
      the same compression, and for 32 bytes the chaining value of the root. */
  method HashPortable(simd: Simd, pieces: seq<seq<bv8>>, out: array<bv8>)
    requires simd.Valid() && |Joined(pieces)| < SIZE_LIMIT
    modifies out
    ensures out[..] == Hash(PortableMode(IV, 0), Joined(pieces), 0, out.Length)
    ensures out.Length == OUT_LEN ==>
              var o := SubtreeOutput(PortableMode(IV, 0), Joined(pieces), 0);
              out[..] == StoreCv(Compress(o.inputCv, o.block, o.blockLen, 0, Or(o.flags, ROOT)))
  {
    hide Compress, CompressXof, StoreCv, SubtreeOutput, Hash;
    HashPieces(PortableMode(IV, 0), simd, pieces, 0, out);
    DigestIsRootCv(Joined(pieces));
  }
}
