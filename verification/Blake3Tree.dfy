/** The BLAKE3 hash as a recursive tree over its input (BLAKE3 specification, sections 2.1 and
    2.4 to 2.6), and the facts about trees of chaining values that the incremental hasher relies on.
    The compression function is a parameter, so everything holds for any of its implementations. */
module Blake3Tree {
  import opened Bits
  import opened MerkleTree

  const BLOCK_LEN: nat := 64
  const CHUNK_LEN: nat := 1024
  const OUT_LEN: nat := 32

  const CHUNK_START: bv8 := 1
  const CHUNK_END: bv8 := 2
  const PARENT: bv8 := 4
  const ROOT: bv8 := 8

  type Words = w: seq<bv32> | |w| == 8 witness seq(8, i => 0)
  type Block = b: seq<bv8> | |b| == 64 witness seq(64, i => 0)
  type ChainValue = c: seq<bv8> | |c| == 32 witness seq(32, i => 0)

  /** A hashing mode: the two forms of the compression function, the byte form of chaining values, the
      key words and the mode flags. The arguments of compress and xof are chaining value, block, block
      length, counter and flags. */
  datatype Mode = Mode(
    compress: (Words, Block, nat, nat, bv8) -> Words,
    xof: (Words, Block, nat, nat, bv8) -> Block,
    store: Words -> ChainValue,
    key: Words,
    flags: bv8)

  /** The inputs of a compression whose form (chaining value or root) is not yet decided. */
  datatype Output = Output(inputCv: Words, block: Block, blockLen: nat, counter: nat, flags: bv8)

  function ChainingValue(m: Mode, o: Output): ChainValue
  {
    m.store(m.compress(o.inputCv, o.block, o.blockLen, o.counter, o.flags))
  }

  /** Byte i of the unbounded root output stream. */
  function RootByte(m: Mode, o: Output, i: nat): bv8
  {
    m.xof(o.inputCv, o.block, o.blockLen, i / BLOCK_LEN, Or(o.flags, ROOT))[i % BLOCK_LEN]
  }

  function RootBytes(m: Mode, o: Output, seek: nat, n: nat): (bytes: seq<bv8>)
    ensures |bytes| == n
    ensures forall i :: 0 <= i < n ==> bytes[i] == RootByte(m, o, seek + i)
  {
    seq(n, i requires 0 <= i < n => RootByte(m, o, seek + i))
  }

  function ZeroPad(data: seq<bv8>): Block
    requires |data| <= 64
  {
    data + seq(64 - |data|, i => 0)
  }

  /** Flag sets joined. */
  function Or(a: bv8, b: bv8): bv8
  {
    a | b
  }

  function StartFlag(blocksBefore: nat): bv8
  {
    if blocksBefore == 0 then CHUNK_START else 0
  }

  /** Chaining value after the given whole blocks of a chunk. */
  function BlocksCv(m: Mode, data: seq<bv8>, counter: nat): Words
    requires |data| % BLOCK_LEN == 0
  {
    if |data| == 0 then m.key
    else
      var before := |data| - BLOCK_LEN;
      m.compress(BlocksCv(m, data[..before], counter), data[before..], BLOCK_LEN, counter,
                 Or(m.flags, StartFlag(before / BLOCK_LEN)))
  }

  /** How many blocks of a chunk come before its last, possibly partial, block. */
  function BlocksBeforeLast(len: nat): (n: nat)
    ensures len > 0 ==> BLOCK_LEN * n < len <= BLOCK_LEN * n + BLOCK_LEN
    ensures len == 0 ==> n == 0
  {
    if len == 0 then 0 else (len - 1) / BLOCK_LEN
  }

  function ChunkOutput(m: Mode, chunk: seq<bv8>, counter: nat): Output
    requires |chunk| <= CHUNK_LEN
  {
    var n := BlocksBeforeLast(|chunk|);
    var whole := BLOCK_LEN * n;
    Output(BlocksCv(m, chunk[..whole], counter), ZeroPad(chunk[whole..]), |chunk| - whole, counter,
           Or(Or(m.flags, StartFlag(n)), CHUNK_END))
  }

  function ParentBlock(left: ChainValue, right: ChainValue): Block
  {
    left + right
  }

  function ParentOutput(m: Mode, left: ChainValue, right: ChainValue): Output
  {
    Output(m.key, ParentBlock(left, right), BLOCK_LEN, 0, Or(m.flags, PARENT))
  }

  function ParentCv(m: Mode, left: ChainValue, right: ChainValue): ChainValue
  {
    ChainingValue(m, ParentOutput(m, left, right))
  }

  /** Number of chunks of a nonempty input. */
  function Chunks(len: nat): (n: nat)
    ensures len > 0 ==> CHUNK_LEN * (n - 1) < len <= CHUNK_LEN * n
    ensures len > CHUNK_LEN <==> n >= 2
  {
    (len + 1023) / CHUNK_LEN
  }

  /** The tree of section 2.1: the left subtree takes the largest power of two of chunks that leaves
      something for the right one. */
  function SubtreeOutput(m: Mode, data: seq<bv8>, counter: nat): Output
    decreases |data|
  {
    if |data| <= CHUNK_LEN then ChunkOutput(m, data, counter)
    else
      var p := SplitPoint(Chunks(|data|));
      var left := SubtreeOutput(m, data[..CHUNK_LEN * p], counter);
      var right := SubtreeOutput(m, data[CHUNK_LEN * p..], counter + p);
      ParentOutput(m, ChainingValue(m, left), ChainingValue(m, right))
  }

  /** The hash of a whole input: n bytes of the root output stream from position seek. */
  function Hash(m: Mode, data: seq<bv8>, seek: nat, n: nat): seq<bv8>
  {
    RootBytes(m, SubtreeOutput(m, data, 0), seek, n)
  }

  /** Shorter digests are prefixes of longer ones. */
  lemma HashPrefix(m: Mode, data: seq<bv8>, seek: nat, n: nat, longer: nat)
    requires n <= longer
    ensures Hash(m, data, seek, n) <= Hash(m, data, seek, longer)
  {
    var a, b := Hash(m, data, seek, n), Hash(m, data, seek, longer);
    assert forall i :: 0 <= i < n ==> a[i] == b[i];
  }

  // ----- the same tree over chaining values of chunks -----

  function Join(m: Mode): (ChainValue, ChainValue) -> ChainValue
  {
    (left, right) => ParentCv(m, left, right)
  }

  /** The bytes of chunk i: all CHUNK_LEN of them except perhaps in the last chunk. */
  function ChunkAt(data: seq<bv8>, i: nat): (chunk: seq<bv8>)
    requires i < Chunks(|data|)
    ensures |chunk| <= CHUNK_LEN
  {
    data[CHUNK_LEN * i..if CHUNK_LEN * (i + 1) <= |data| then CHUNK_LEN * (i + 1) else |data|]
  }

  function LeafCv(m: Mode, chunk: seq<bv8>, counter: nat): ChainValue
    requires |chunk| <= CHUNK_LEN
  {
    ChainingValue(m, ChunkOutput(m, chunk, counter))
  }

  /** Chaining values of the chunks of an input whose first chunk has the given number. */
  function Leaves(m: Mode, data: seq<bv8>, counter: nat): (leaves: seq<ChainValue>)
    ensures |leaves| == Chunks(|data|)
  {
    seq(Chunks(|data|), i requires 0 <= i < Chunks(|data|) => LeafCv(m, ChunkAt(data, i), counter + i))
  }

  lemma LeavesAt(m: Mode, data: seq<bv8>, counter: nat)
    ensures forall i :: 0 <= i < Chunks(|data|) ==>
      Leaves(m, data, counter)[i] == LeafCv(m, ChunkAt(data, i), counter + i)
  {
    hide LeafCv, ChunkAt, Chunks;
  }

  lemma ChunkAtSplit(data: seq<bv8>, p: nat)
    requires CHUNK_LEN * p <= |data|
    ensures Chunks(|data|) == p + Chunks(|data| - CHUNK_LEN * p)
    ensures forall i :: 0 <= i < p ==> ChunkAt(data[..CHUNK_LEN * p], i) == ChunkAt(data, i)
    ensures forall i :: 0 <= i < Chunks(|data| - CHUNK_LEN * p)
              ==> ChunkAt(data[CHUNK_LEN * p..], i) == ChunkAt(data, p + i)
  {
    var k := CHUNK_LEN * p;
    forall i | 0 <= i < p ensures ChunkAt(data[..k], i) == ChunkAt(data, i) {
      assert CHUNK_LEN * (i + 1) <= k;
    }
    forall i | 0 <= i < Chunks(|data| - k) ensures ChunkAt(data[k..], i) == ChunkAt(data, p + i) {
      assert CHUNK_LEN * (p + i) == k + CHUNK_LEN * i;
      assert CHUNK_LEN * (p + i + 1) == k + CHUNK_LEN * (i + 1);
    }
  }

  lemma LeavesSplit(m: Mode, data: seq<bv8>, counter: nat, p: nat)
    requires CHUNK_LEN * p <= |data|
    ensures p <= Chunks(|data|)
    ensures Leaves(m, data, counter)[..p] == Leaves(m, data[..CHUNK_LEN * p], counter)
    ensures Leaves(m, data, counter)[p..] == Leaves(m, data[CHUNK_LEN * p..], counter + p)
  {
    hide LeafCv, ChunkAt, Leaves;
    ChunkAtSplit(data, p);
    LeavesAt(m, data, counter);
    LeavesAt(m, data[..CHUNK_LEN * p], counter);
    LeavesAt(m, data[CHUNK_LEN * p..], counter + p);
    var k := CHUNK_LEN * p;
    var a, b := Leaves(m, data[..k], counter), Leaves(m, data[k..], counter + p);
    var s := Leaves(m, data, counter);
    assert forall i :: 0 <= i < |a| ==> s[i] == a[i];
    assert forall i :: 0 <= i < |b| ==> s[p + i] == b[i];
  }

  function SubtreeCv(m: Mode, data: seq<bv8>, counter: nat): ChainValue
  {
    ChainingValue(m, SubtreeOutput(m, data, counter))
  }

  lemma OneChunkTree(m: Mode, data: seq<bv8>, counter: nat)
    requires 0 < |data| <= CHUNK_LEN
    ensures Leaves(m, data, counter) == [SubtreeCv(m, data, counter)]
  {
    assert ChunkAt(data, 0) == data;
  }

  lemma SubtreeStep(m: Mode, data: seq<bv8>, counter: nat)
    requires |data| > CHUNK_LEN
    ensures var p := SplitPoint(Chunks(|data|));
            SubtreeCv(m, data, counter)
            == ParentCv(m, SubtreeCv(m, data[..CHUNK_LEN * p], counter),
                        SubtreeCv(m, data[CHUNK_LEN * p..], counter + p))
  {
  }

  /** The byte tree and the tree over chunk chaining values agree. */
  lemma {:induction false} SubtreeIsTree(m: Mode, data: seq<bv8>, counter: nat)
    requires |data| > 0
    ensures SubtreeCv(m, data, counter) == Tree(Join(m), Leaves(m, data, counter))
    decreases |data|
  {
    hide SubtreeOutput, ChunkOutput, LeafCv, Leaves, ChainingValue, ParentOutput;
    if |data| <= CHUNK_LEN {
      OneChunkTree(m, data, counter);
    } else {
      var p := SplitPoint(Chunks(|data|));
      var k := CHUNK_LEN * p;
      LeavesSplit(m, data, counter, p);
      SubtreeIsTree(m, data[..k], counter);
      SubtreeIsTree(m, data[k..], counter + p);
      SubtreeStep(m, data, counter);
      TreeStep(Join(m), Leaves(m, data, counter));
    }
  }
}
