/** Hashing whole subtrees: many chunks or parents at a time, for every power-of-two SIMD degree.
    Chaining values in scratch memory are slots of 32 bytes. */
module Blake3Subtree {
  import opened Bits
  import opened MerkleTree
  import opened Blake3Tree
  import opened Blake3Chunk

  const SIZE_LIMIT: nat := 0x1_0000_0000_0000_0000

  /** The detected SIMD degree and the compile-time bound on it. */
  datatype Simd = Simd(degree: nat, maxDegree: nat)
  {
    predicate Valid() { IsPow2(degree) && IsPow2(maxDegree) && degree <= maxDegree }
    /** MAX_SIMD_DEGREE_OR_2. */
    function MaxOr2(): nat { AtLeast2(maxDegree) }
  }

  // ----- one input: the second route to a chunk value -----

  /** Chaining words after whole blocks, with the start flags on the first one only. */
  function PrefixCv(m: Mode, data: seq<bv8>, counter: nat, flags: bv8, flagsStart: bv8): Words
    requires |data| % BLOCK_LEN == 0
  {
    if |data| == 0 then m.key
    else
      var before := |data| - BLOCK_LEN;
      m.compress(PrefixCv(m, data[..before], counter, flags, flagsStart), data[before..], BLOCK_LEN, counter,
                 if before == 0 then Or(flags, flagsStart) else flags)
  }

  /** Chaining value of whole blocks: start flags on the first block, end flags on the last. */
  function BlocksHash(m: Mode, data: seq<bv8>, counter: nat, flags: bv8, flagsStart: bv8, flagsEnd: bv8): ChainValue
    requires |data| % BLOCK_LEN == 0
  {
    if |data| == 0 then m.store(m.key)
    else
      var before := |data| - BLOCK_LEN;
      m.store(m.compress(PrefixCv(m, data[..before], counter, flags, flagsStart), data[before..], BLOCK_LEN, counter,
                         Or(if before == 0 then Or(flags, flagsStart) else flags, flagsEnd)))
  }

  lemma OrZero(b: bv8)
    ensures Or(b, 0) == b
  {
  }

  lemma {:induction false} PrefixIsBlocks(m: Mode, data: seq<bv8>, counter: nat)
    requires |data| % BLOCK_LEN == 0
    ensures PrefixCv(m, data, counter, m.flags, CHUNK_START) == BlocksCv(m, data, counter)
  {
    hide Or;
    if |data| > 0 {
      PrefixIsBlocks(m, data[..|data| - BLOCK_LEN], counter);
      OrZero(m.flags);
    }
  }

  /** Hashing the sixteen blocks of a full chunk in one go gives the value that buffering the chunk
      and closing it gives. */
  lemma ChunkRoutesAgree(m: Mode, chunk: seq<bv8>, counter: nat)
    requires |chunk| == CHUNK_LEN
    ensures BlocksHash(m, chunk, counter, m.flags, CHUNK_START, CHUNK_END) == LeafCv(m, chunk, counter)
  {
    var before := CHUNK_LEN - BLOCK_LEN;
    assert BlocksBeforeLast(CHUNK_LEN) == 15;
    PrefixIsBlocks(m, chunk[..before], counter);
    OrZero(m.flags);
    assert ZeroPad(chunk[before..]) == chunk[before..];
  }

  lemma ParentRoutesAgree(m: Mode, left: ChainValue, right: ChainValue)
    ensures BlocksHash(m, ParentBlock(left, right), 0, Or(m.flags, PARENT), 0, 0) == ParentCv(m, left, right)
  {
    var block := ParentBlock(left, right);
    assert block[..0] == [] && block[0..] == block;
    OrZero(Or(m.flags, PARENT));
  }

  lemma EmptyPrefix(m: Mode, data: seq<bv8>, counter: nat, flags: bv8, flagsStart: bv8, flagsEnd: bv8)
    ensures PrefixCv(m, data[..0], counter, flags, flagsStart) == m.key
    ensures |data| == 0 ==> BlocksHash(m, data, counter, flags, flagsStart, flagsEnd) == m.store(m.key)
  {
  }

  lemma PrefixStep(m: Mode, data: seq<bv8>, done: nat, counter: nat, flags: bv8, flagsStart: bv8, flagsEnd: bv8)
    requires |data| % BLOCK_LEN == 0 && done % BLOCK_LEN == 0 && done + BLOCK_LEN <= |data|
    ensures var cv := PrefixCv(m, data[..done], counter, flags, flagsStart);
            var block := data[done..done + BLOCK_LEN];
            var blockFlags := if done == 0 then Or(flags, flagsStart) else flags;
            && PrefixCv(m, data[..done + BLOCK_LEN], counter, flags, flagsStart)
               == m.compress(cv, block, BLOCK_LEN, counter, blockFlags)
            && (done + BLOCK_LEN == |data| ==>
                  BlocksHash(m, data, counter, flags, flagsStart, flagsEnd)
                  == m.store(m.compress(cv, block, BLOCK_LEN, counter, Or(blockFlags, flagsEnd))))
  {
    hide Or;
    var s := data[..done + BLOCK_LEN];
    assert s[..done] == data[..done] && s[done..] == data[done..done + BLOCK_LEN];
    if done + BLOCK_LEN == |data| {
      assert s == data;
    }
  }

  method HashOne(m: Mode, data: seq<bv8>, blocks: nat, counter: nat, flags: bv8, flagsStart: bv8, flagsEnd: bv8)
    returns (out: ChainValue)
    requires |data| == BLOCK_LEN * blocks
    ensures out == BlocksHash(m, data, counter, flags, flagsStart, flagsEnd)
  {
    EmptyPrefix(m, data, counter, flags, flagsStart, flagsEnd);
    hide Or, BlocksHash, PrefixCv;
    var cv := m.key;
    var blockFlags := Or(flags, flagsStart);
    var left := blocks;
    var input := data;
    ghost var done := 0;
    while left > 0
      invariant left <= blocks && done == BLOCK_LEN * (blocks - left) <= |data|
      invariant input == data[done..]
      invariant left > 0 ==> blockFlags == if done == 0 then Or(flags, flagsStart) else flags
      invariant left > 0 ==> cv == PrefixCv(m, data[..done], counter, flags, flagsStart)
      invariant left == 0 ==> m.store(cv) == BlocksHash(m, data, counter, flags, flagsStart, flagsEnd)
    {
      if left == 1 {
        blockFlags := Or(blockFlags, flagsEnd);
      }
      PrefixStep(m, data, done, counter, flags, flagsStart, flagsEnd);
      assert input[..BLOCK_LEN] == data[done..done + BLOCK_LEN];
      cv := m.compress(cv, input[..BLOCK_LEN], BLOCK_LEN, counter, blockFlags);
      input := input[BLOCK_LEN..];
      left := left - 1;
      done := done + BLOCK_LEN;
      blockFlags := flags;
    }
    out := m.store(cv);
  }

  // ----- many inputs -----

  /** The slots of out from off on hold exactly the given values and the others are as before. */
  ghost predicate Wrote(before: seq<ChainValue>, after: seq<ChainValue>, off: nat, values: seq<ChainValue>)
  {
    && |before| == |after| && off + |values| <= |after|
    && after[..off] == before[..off]
    && after[off..off + |values|] == values
    && after[off + |values|..] == before[off + |values|..]
  }

  lemma WroteOneMore(before: seq<ChainValue>, mid: seq<ChainValue>, after: seq<ChainValue>, off: nat,
                     values: seq<ChainValue>, len: nat)
    requires |values| == len + 1 && off + len < |mid| && Wrote(before, mid, off, values[..len])
    requires after == mid[off + len := values[len]]
    ensures Wrote(before, after, off, values)
  {
    assert after[off..off + len + 1] == mid[off..off + len] + [values[len]];
    assert values == values[..len] + [values[len]];
    assert after[off + len + 1..] == mid[off + len..][1..];
    assert before[off + len + 1..] == before[off + len..][1..];
  }

  method HashMany(m: Mode, inputs: seq<seq<bv8>>, blocks: nat, counter0: nat, increment: bool, flags: bv8,
                  flagsStart: bv8, flagsEnd: bv8, out: array<ChainValue>, off: nat,
                  ghost values: seq<ChainValue>)
    requires forall i :: 0 <= i < |inputs| ==> |inputs[i]| == BLOCK_LEN * blocks
    requires off + |inputs| <= out.Length && |values| == |inputs|
    requires forall i :: 0 <= i < |inputs| ==>
      values[i] == BlocksHash(m, inputs[i], if increment then counter0 + i else counter0, flags, flagsStart, flagsEnd)
    modifies out
    ensures Wrote(old(out[..]), out[..], off, values)
  {
    hide Or, BlocksHash, PrefixCv;
    var counter := counter0;
    var done := 0;
    while done < |inputs|
      invariant done <= |inputs| && counter == if increment then counter0 + done else counter0
      invariant out[..off] == old(out[..off])
      invariant out[off..off + done] == values[..done]
      invariant out[off + done..] == old(out[off + done..])
    {
      out[off + done] := HashOne(m, inputs[done], blocks, counter, flags, flagsStart, flagsEnd);
      if increment {
        counter := counter + 1;
      }
      done := done + 1;
    }
  }

  /** Points at the whole chunks of the input. */
  method CollectChunks(simd: Simd, input: seq<bv8>) returns (chunksArray: array<seq<bv8>>, len: nat)
    requires simd.Valid() && 0 < |input| <= simd.degree * CHUNK_LEN
    ensures fresh(chunksArray) && len == |input| / CHUNK_LEN <= chunksArray.Length
    ensures forall i :: 0 <= i < len ==> |chunksArray[i]| == CHUNK_LEN && chunksArray[i] == ChunkAt(input, i)
  {
    chunksArray := new seq<bv8>[simd.maxDegree](_ => []);
    var position := 0;
    len := 0;
    while |input| - position >= CHUNK_LEN
      modifies chunksArray
      invariant position == CHUNK_LEN * len <= |input|
      invariant len <= simd.degree
      invariant forall i :: 0 <= i < len ==> |chunksArray[i]| == CHUNK_LEN && chunksArray[i] == ChunkAt(input, i)
      decreases |input| - position
    {
      chunksArray[len] := input[position..position + CHUNK_LEN];
      position := position + CHUNK_LEN;
      len := len + 1;
    }
  }

  method HashPartialChunk(m: Mode, data: seq<bv8>, counter: nat) returns (cv: ChainValue)
    requires |data| <= CHUNK_LEN
    ensures cv == LeafCv(m, data, counter)
  {
    var chunk := new ChunkState(m, counter);
    chunk.Update(data);
    assert chunk.content == data;
    var output := chunk.MakeOutput();
    cv := ChainingValue(m, output);
  }

  method CompressChunksParallel(m: Mode, simd: Simd, input: seq<bv8>, counter: nat, out: array<ChainValue>, off: nat)
    returns (n: nat)
    requires simd.Valid() && 0 < |input| <= simd.degree * CHUNK_LEN
    requires off + Chunks(|input|) <= out.Length
    modifies out
    ensures n == Chunks(|input|)
    ensures Wrote(old(out[..]), out[..], off, Leaves(m, input, counter))
  {
    hide Or, BlocksHash, PrefixCv, LeafCv, Leaves;
    var chunksArray, len := CollectChunks(simd, input);
    var position := CHUNK_LEN * len;
    ghost var leaves := Leaves(m, input, counter);
    LeavesAt(m, input, counter);
    forall i | 0 <= i < len
      ensures leaves[i] == BlocksHash(m, chunksArray[i], counter + i, m.flags, CHUNK_START, CHUNK_END)
    {
      ChunkRoutesAgree(m, chunksArray[i], counter + i);
    }
    HashMany(m, chunksArray[..len], 16, counter, true, m.flags, CHUNK_START, CHUNK_END, out, off, leaves[..len]);
    if |input| > position {
      ghost var mid := out[..];
      assert input[position..] == ChunkAt(input, len);
      out[off + len] := HashPartialChunk(m, input[position..], counter + len);
      WroteOneMore(old(out[..]), mid, out[..], off, leaves, len);
      n := len + 1;
    } else {
      assert leaves[..len] == leaves;
      n := len;
    }
  }

  /** Points at the pairs of adjacent chaining values. */
  method CollectPairs(simd: Simd, children: seq<ChainValue>) returns (parentsArray: array<seq<bv8>>, len: nat)
    requires simd.Valid() && |children| <= 2 * simd.MaxOr2()
    ensures fresh(parentsArray) && len == |children| / 2 <= parentsArray.Length
    ensures forall i :: 0 <= i < len ==>
      |parentsArray[i]| == BLOCK_LEN && parentsArray[i] == ParentBlock(children[2 * i], children[2 * i + 1])
  {
    hide ParentBlock;
    parentsArray := new seq<bv8>[simd.MaxOr2()](_ => []);
    len := 0;
    while |children| - 2 * len >= 2
      modifies parentsArray
      invariant 2 * len <= |children|
      invariant forall i :: 0 <= i < len ==>
        |parentsArray[i]| == BLOCK_LEN && parentsArray[i] == ParentBlock(children[2 * i], children[2 * i + 1])
    {
      parentsArray[len] := ParentBlock(children[2 * len], children[2 * len + 1]);
      len := len + 1;
    }
  }

  method CompressParentsParallel(m: Mode, simd: Simd, children: seq<ChainValue>, out: array<ChainValue>, off: nat)
    returns (n: nat)
    requires simd.Valid() && 2 <= |children| <= 2 * simd.MaxOr2()
    requires off + (|children| + 1) / 2 <= out.Length
    modifies out
    ensures n == (|children| + 1) / 2
    ensures Wrote(old(out[..]), out[..], off, Pairs<ChainValue>(Join(m), children))
  {
    hide Or, BlocksHash, PrefixCv, ParentBlock, ParentCv, Pairs;
    var parentsArray, len := CollectPairs(simd, children);
    ghost var pairs := Pairs<ChainValue>(Join(m), children);
    forall i | 0 <= i < len
      ensures pairs[i] == BlocksHash(m, parentsArray[i], 0, Or(m.flags, PARENT), 0, 0)
    {
      PairsAt(Join(m), children, i);
      ParentRoutesAgree(m, children[2 * i], children[2 * i + 1]);
    }
    HashMany(m, parentsArray[..len], 1, 0, false, Or(m.flags, PARENT), 0, 0, out, off, pairs[..len]);
    if |children| > 2 * len {
      ghost var mid := out[..];
      PairsAt(Join(m), children, len);
      out[off + len] := children[2 * len];
      WroteOneMore(old(out[..]), mid, out[..], off, pairs, len);
      n := len + 1;
    } else {
      assert pairs[..len] == pairs;
      n := len;
    }
  }

  // ----- whole subtrees -----

  /** Number of bytes that go in the left subtree of an input longer than a chunk. */
  method LeftLen(contentLen: nat) returns (r: nat)
    requires CHUNK_LEN < contentLen < SIZE_LIMIT
    ensures r == CHUNK_LEN * SplitPoint(Chunks(contentLen))
  {
    var fullChunks := (contentLen - 1) / CHUNK_LEN;
    var p := RoundDownToPowerOf2(fullChunks);
    SplitPointUnique(p, Chunks(contentLen));
    r := p * CHUNK_LEN;
  }

  lemma OneToDegree(degree: nat, len: nat)
    requires 0 < len <= degree * CHUNK_LEN
    ensures 1 <= Chunks(len) <= degree <= AtLeast2(degree)
  {
  }

  lemma SplitLeaves(m: Mode, degree: nat, input: seq<bv8>, counter: nat)
    requires IsPow2(degree) && |input| > degree * CHUNK_LEN
    ensures var leaves := Leaves(m, input, counter);
            && |leaves| == Chunks(|input|) > degree >= 1 && |input| > CHUNK_LEN
            && var p := SplitPoint(|leaves|);
            && 0 < CHUNK_LEN * p < |input|
            && Leaves(m, input[..CHUNK_LEN * p], counter) == leaves[..p]
            && Leaves(m, input[CHUNK_LEN * p..], counter + p) == leaves[p..]
  {
    hide Leaves;
    assert |Leaves(m, input, counter)| == Chunks(|input|);
    LeavesSplit(m, input, counter, SplitPoint(Chunks(|input|)));
  }

  /** Hashes both halves of an input into adjacent slots of the scratch array. */
  method CompressHalves(m: Mode, simd: Simd, input: seq<bv8>, counter: nat, cvArray: array<ChainValue>)
    returns (leftN: nat, rightN: nat)
    requires simd.Valid() && simd.degree * CHUNK_LEN < |input| < SIZE_LIMIT
    requires cvArray.Length == 2 * simd.MaxOr2()
    modifies cvArray
    ensures var leaves := Leaves(m, input, counter);
            && |leaves| >= 2 && leftN + rightN <= cvArray.Length
            && Wide<ChainValue>(Join(m), simd.degree, leaves[..SplitPoint(|leaves|)], cvArray[..leftN])
            && Wide<ChainValue>(Join(m), simd.degree, leaves[SplitPoint(|leaves|)..], cvArray[leftN..leftN + rightN])
    decreases |input|, 0
  {
    hide Leaves, Wide, Tree, Condenses, Pairs, ParentCv, LeafCv, IsPow2, SplitPoint, Chunks;
    SplitLeaves(m, simd.degree, input, counter);
    ghost var leaves := Leaves(m, input, counter);
    var leftLen := LeftLen(|input|);
    var rightCounter := counter + leftLen / CHUNK_LEN;
    var degree := simd.degree;
    if leftLen > CHUNK_LEN && degree == 1 {
      degree := 2;
    }
    leftN := CompressSubtreeWide(m, simd, input[..leftLen], counter, cvArray, 0);
    ghost var left := cvArray[..leftN];
    WideLeft(Join(m), simd.degree, leaves, left);
    assert degree == leftN;
    rightN := CompressSubtreeWide(m, simd, input[leftLen..], rightCounter, cvArray, degree);
    assert cvArray[..leftN] == left;
  }

  /** One level of parents over the values of both halves, or the values of two chunks as they are. */
  method JoinHalves(m: Mode, simd: Simd, ghost leaves: seq<ChainValue>, cvArray: array<ChainValue>, leftN: nat,
                    rightN: nat, out: array<ChainValue>, off: nat)
    returns (n: nat)
    requires simd.Valid() && |leaves| >= 2 && |leaves| > simd.degree && cvArray != out
    requires cvArray.Length == 2 * simd.MaxOr2() && leftN + rightN <= cvArray.Length
    requires Wide<ChainValue>(Join(m), simd.degree, leaves[..SplitPoint(|leaves|)], cvArray[..leftN])
    requires Wide<ChainValue>(Join(m), simd.degree, leaves[SplitPoint(|leaves|)..], cvArray[leftN..leftN + rightN])
    requires off + AtLeast2(simd.degree) <= out.Length
    modifies out
    ensures off + n <= out.Length
    ensures Wrote(old(out[..]), out[..], off, out[off..off + n])
    ensures Wide<ChainValue>(Join(m), simd.degree, leaves, out[off..off + n])
  {
    hide Wide, Tree, Condenses, Pairs, ParentCv, IsPow2, SplitPoint;
    ghost var join: (ChainValue, ChainValue) -> ChainValue := Join(m);
    ghost var left, right := cvArray[..leftN], cvArray[leftN..leftN + rightN];
    assert cvArray[..leftN + rightN] == left + right;
    WideLeft(join, simd.degree, leaves, left);
    if leftN == 1 {
      WideTwo(join, leaves, left, right);
      n := 2;
      CopyTwo(cvArray, out, off);
      return;
    }
    WideLengths(join, simd.degree, leaves, left, right);
    WidePairs(join, simd.degree, leaves, left, right);
    n := CompressParentsParallel(m, simd, cvArray[..leftN + rightN], out, off);
  }

  /** Writes the values of the subtree, condensed to the SIMD degree, and returns how many. */
  method CompressSubtreeWide(m: Mode, simd: Simd, input: seq<bv8>, counter: nat, out: array<ChainValue>, off: nat)
    returns (n: nat)
    requires simd.Valid() && 0 < |input| < SIZE_LIMIT
    requires off + AtLeast2(simd.degree) <= out.Length
    modifies out
    ensures off + n <= out.Length
    ensures Wrote(old(out[..]), out[..], off, out[off..off + n])
    ensures Wide<ChainValue>(Join(m), simd.degree, Leaves(m, input, counter), out[off..off + n])
    decreases |input|, 1
  {
    hide Leaves, Wide, Tree, Condenses, Pairs, ParentCv, LeafCv, IsPow2, SplitPoint, Chunks;
    ghost var join: (ChainValue, ChainValue) -> ChainValue := Join(m);
    ghost var leaves := Leaves(m, input, counter);
    if |input| <= simd.degree * CHUNK_LEN {
      OneToDegree(simd.degree, |input|);
      n := CompressChunksParallel(m, simd, input, counter, out, off);
      WideLeaves(join, simd.degree, leaves);
      return;
    }
    SplitLeaves(m, simd.degree, input, counter);
    var cvArray := new ChainValue[2 * simd.MaxOr2()];
    var leftN, rightN := CompressHalves(m, simd, input, counter, cvArray);
    n := JoinHalves(m, simd, leaves, cvArray, leftN, rightN, out, off);
  }

  /** Copies the first two values to a place in another array. */
  method CopyTwo(src: array<ChainValue>, dst: array<ChainValue>, off: nat)
    requires src != dst && 2 <= src.Length && off + 2 <= dst.Length
    modifies dst
    ensures Wrote(old(dst[..]), dst[..], off, src[..2]) && dst[off..off + 2] == src[..2]
  {
    dst[off], dst[off + 1] := src[0], src[1];
    assert dst[off..off + 2] == src[..2];
  }

  /** The values of the two children of the root of a subtree longer than one chunk. */
  method CompressSubtreeToParentNode(m: Mode, simd: Simd, input: seq<bv8>, counter: nat)
    returns (left: ChainValue, right: ChainValue)
    requires simd.Valid() && CHUNK_LEN < |input| < SIZE_LIMIT
    ensures var k := CHUNK_LEN * SplitPoint(Chunks(|input|));
            && left == SubtreeCv(m, input[..k], counter)
            && right == SubtreeCv(m, input[k..], counter + k / CHUNK_LEN)
  {
    hide Wide, Tree, Pairs, ParentCv, LeafCv, SubtreeCv, Leaves, Condenses;
    ghost var join: (ChainValue, ChainValue) -> ChainValue := Join(m);
    ghost var leaves := Leaves(m, input, counter);
    var cvArray := new ChainValue[simd.MaxOr2()];
    var num := CompressSubtreeWide(m, simd, input, counter, cvArray, 0);
    WideCondenses(join, simd.degree, leaves, cvArray[..num]);
    var outArray := new ChainValue[simd.MaxOr2() / 2];
    while num > 2
      invariant 2 <= num <= simd.MaxOr2()
      invariant Condenses(join, cvArray[..num], leaves)
      invariant fresh(cvArray) && fresh(outArray)
    {
      PairsCondenses(join, cvArray[..num], leaves);
      num := CompressParentsParallel(m, simd, cvArray[..num], outArray, 0);
      CopyFront(outArray, cvArray, num);
    }
    left, right := cvArray[0], cvArray[1];
    CondensedToTwo(join, cvArray[..num], leaves);
    ghost var p := SplitPoint(|leaves|);
    LeavesSplit(m, input, counter, p);
    SubtreeIsTree(m, input[..CHUNK_LEN * p], counter);
    SubtreeIsTree(m, input[CHUNK_LEN * p..], counter + p);
  }

  method CopyFront(src: array<ChainValue>, dst: array<ChainValue>, n: nat)
    requires src != dst && n <= src.Length && n <= dst.Length
    modifies dst
    ensures dst[..n] == src[..n]
  {
    for i := 0 to n
      invariant dst[..i] == src[..i]
    {
      dst[i] := src[i];
    }
  }
}
