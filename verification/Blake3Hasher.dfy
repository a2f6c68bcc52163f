/** The incremental hasher: chunks are absorbed as they come, complete subtrees wait on a stack of
    chaining values, and merges are put off so that the root is never compressed before finalizing. */
module Blake3Hasher {
  import opened Bits
  import opened MerkleTree
  import opened Blake3Tree
  import opened Blake3Chunk
  import opened Blake3Subtree

  const MAX_DEPTH: nat := 54

  /** A stack that merging brings to the spine of the leaves s. */
  ghost predicate Mergeable(m: Mode, stack: seq<ChainValue>, s: seq<ChainValue>)
  {
    stack == Spine<ChainValue>(Join(m), s) || exists w, x :: Pending<ChainValue>(Join(m), stack, s, w, x)
  }

  /** A stack whose last complete subtree is still in two halves. */
  ghost predicate Unmerged(m: Mode, stack: seq<ChainValue>, s: seq<ChainValue>)
  {
    exists w, x :: |w| >= 1 && Pending<ChainValue>(Join(m), stack, s, w, x)
  }

  lemma CounterBound(len: nat, counter: nat)
    requires len == CHUNK_LEN * counter < SIZE_LIMIT
    ensures counter < Pow2(MAX_DEPTH)
  {
    PowersUsed();
    Pow2Add(10, 54);
    assert Pow2(10) == CHUNK_LEN;
    assert Pow2(64) == CHUNK_LEN * Pow2(54);
  }

  lemma LeavesAppend(m: Mode, before: seq<bv8>, data: seq<bv8>, counter: nat)
    requires |before| == CHUNK_LEN * counter
    ensures Leaves(m, before + data, 0) == Leaves(m, before, 0) + Leaves(m, data, counter)
  {
    hide Leaves;
    var all := before + data;
    LeavesSplit(m, all, 0, counter);
    assert all[..|before|] == before && all[|before|..] == data;
  }

  lemma OneChunkLeaf(m: Mode, data: seq<bv8>, counter: nat)
    requires |data| == CHUNK_LEN
    ensures Leaves(m, data, counter) == [ChainingValue(m, ChunkOutput(m, data, counter))]
  {
    hide ChunkOutput;
    assert ChunkAt(data, 0) == data;
  }

  lemma AlignedCount(c: nat, n: nat)
    requires n > 0 && (CHUNK_LEN * c) % (CHUNK_LEN * n) == 0
    ensures c % n == 0
  {
    var q := (CHUNK_LEN * c) / (CHUNK_LEN * n);
    assert CHUNK_LEN * c == (CHUNK_LEN * n) * q;
    assert (CHUNK_LEN * n) * q == CHUNK_LEN * (q * n);
    MultipleMod(q, n);
  }

  lemma {:induction false} Pow2Multiple(n: nat, d: nat)
    requires IsPow2(n) && IsPow2(d) && n >= d
    ensures n % d == 0 && IsPow2(n / d)
  {
    Pow2DividesSmaller(d, n);
    if d > 1 {
      ModHalf(n, d / 2);
      Pow2Multiple(n / 2, d / 2);
    }
  }

  lemma WholeChunks(len: nat)
    requires IsPow2(len) && len >= CHUNK_LEN
    ensures len == CHUNK_LEN * (len / CHUNK_LEN) && IsPow2(len / CHUNK_LEN)
  {
    assert IsPow2(CHUNK_LEN);
    Pow2Multiple(len, CHUNK_LEN);
  }

  /** The leaves of the two halves of a complete subtree, and the values they hash to. */
  lemma SubtreeHalves(m: Mode, data: seq<bv8>, counter: nat) returns (a: seq<ChainValue>, b: seq<ChainValue>)
    requires IsPow2(|data|) && |data| > CHUNK_LEN
    ensures var n := |data| / CHUNK_LEN;
            && |data| == CHUNK_LEN * n && n == 2 * |a| && |a| == |b| && IsPow2(|a|)
            && SplitPoint(Chunks(|data|)) == |a|
    ensures a + b == Leaves(m, data, counter)
    ensures SubtreeCv(m, data[..CHUNK_LEN * |a|], counter) == Tree(Join(m), a)
    ensures SubtreeCv(m, data[CHUNK_LEN * |a|..], counter + |a|) == Tree(Join(m), b)
  {
    hide Tree, SubtreeCv, Leaves;
    WholeChunks(|data|);
    var n := |data| / CHUNK_LEN;
    var p := n / 2;
    SplitPointUnique(p, n);
    var leaves := Leaves(m, data, counter);
    a, b := leaves[..p], leaves[p..];
    LeavesSplit(m, data, counter, p);
    SubtreeIsTree(m, data[..CHUNK_LEN * p], counter);
    SubtreeIsTree(m, data[CHUNK_LEN * p..], counter + p);
  }

  /** Pushing both halves of an aligned complete subtree. */
  lemma HalvesPushed(m: Mode, s: seq<ChainValue>, a: seq<ChainValue>, b: seq<ChainValue>, left: ChainValue,
                     right: ChainValue)
    requires IsPow2(|a|) && |a| == |b| && |s| % (2 * |a|) == 0
    requires left == Tree(Join(m), a) && right == Tree(Join(m), b)
    ensures Mergeable(m, Spine<ChainValue>(Join(m), s) + [left], s + a)
    ensures Unmerged(m, Spine<ChainValue>(Join(m), s + a) + [right], s + (a + b))
  {
    hide Spine, Tree, IsLevel;
    var join: (ChainValue, ChainValue) -> ChainValue := Join(m);
    AlignedSpine<ChainValue>(join, s, a);
    var w := PushTwo<ChainValue>(join, s, a, b);
    assert Spine<ChainValue>(join, s) + [left] + [right] == Spine<ChainValue>(join, s) + [left, right];
    assert |w| >= 1 && Pending<ChainValue>(join, Spine<ChainValue>(join, s + a) + [right], s + (a + b), w, right);
  }

  lemma UnmergedMergeable(m: Mode, stack: seq<ChainValue>, s: seq<ChainValue>)
    ensures stack == Spine<ChainValue>(Join(m), s) || Unmerged(m, stack, s) ==> Mergeable(m, stack, s)
  {
  }

  /** Fills out with the root output stream from position seek, block by block. */
  method OutputRootBytes(m: Mode, o: Output, seek: nat, out: array<bv8>)
    modifies out
    ensures out[..] == RootBytes(m, o, seek, out.Length)
  {
    var blockCounter: nat := seek / BLOCK_LEN;
    var offset: nat := seek % BLOCK_LEN;
    var written := 0;
    while written < out.Length
      invariant written <= out.Length
      invariant written < out.Length ==> offset < BLOCK_LEN && BLOCK_LEN * blockCounter + offset == seek + written
      invariant forall i :: 0 <= i < written ==> out[i] == RootByte(m, o, seek + i)
    {
      var wideBuf := m.xof(o.inputCv, o.block, o.blockLen, blockCounter, Or(o.flags, ROOT));
      var available := BLOCK_LEN - offset;
      var copyLen := if out.Length - written > available then available else out.Length - written;
      for j := 0 to copyLen
        invariant forall i :: 0 <= i < written + j ==> out[i] == RootByte(m, o, seek + i)
      {
        DivModUnique(seek + written + j, BLOCK_LEN, blockCounter, offset + j);
        out[written + j] := wideBuf[offset + j];
      }
      written := written + copyLen;
      blockCounter := blockCounter + 1;
      offset := 0;
    }
  }

  lemma OneLeaf(m: Mode, data: seq<bv8>, counter: nat)
    requires 0 < |data| <= CHUNK_LEN
    ensures Leaves(m, data, counter) == [LeafCv(m, data, counter)]
  {
    hide LeafCv;
    assert ChunkAt(data, 0) == data;
  }

  lemma StackedLeaves(m: Mode, s: seq<ChainValue>, len: nat)
    requires len == |Spine<ChainValue>(Join(m), s)| > 0
    ensures |s| >= 1
  {
  }

  lemma NoLeaves(m: Mode)
    ensures Leaves(m, [], 0) == []
  {
  }

  lemma NonEmptyStack(m: Mode, complete: seq<bv8>, stack: seq<ChainValue>)
    requires |stack| > 0 && (complete == [] ==> stack == Spine<ChainValue>(Join(m), Leaves(m, complete, 0)))
    ensures complete != []
  {
    hide Leaves;
    NoLeaves(m);
  }

  lemma PositivePopCount(n: nat)
    requires n >= 1
    ensures PopCount(n) >= 1
  {
  }

  lemma AtLeastTwoChunks(join: (ChainValue, ChainValue) -> ChainValue, stack: seq<ChainValue>, x: ChainValue,
                          m: Mode, data: seq<bv8>)
    requires RootOf(join, stack, x, Leaves(m, data, 0))
    ensures |data| > CHUNK_LEN
  {
    hide Leaves;
  }

  /** With nothing on the stack the whole input is in the chunk state. */
  lemma EmptyStack(m: Mode, complete: seq<bv8>, content: seq<bv8>, stack: seq<ChainValue>)
    requires |stack| == 0 && |content| <= CHUNK_LEN && |complete| % CHUNK_LEN == 0
    requires if content != [] || complete == [] then stack == Spine<ChainValue>(Join(m), Leaves(m, complete, 0))
             else Unmerged(m, stack, Leaves(m, complete, 0))
    ensures complete == [] && SubtreeOutput(m, complete + content, 0) == ChunkOutput(m, content, 0)
  {
    hide ChunkOutput, Leaves;
    SpineLength<ChainValue>(Join(m), Leaves(m, complete, 0));
    if complete != [] {
      PositivePopCount(Chunks(|complete|));
      assert false;
    }
    assert complete + content == content;
  }

  /** One step of rolling up: joining v with the value below it. */
  lemma FoldStep(m: Mode, stack: seq<ChainValue>, r: nat, v: ChainValue, x: ChainValue)
    requires 1 <= r <= |stack|
    requires Fold<ChainValue>(Join(m), stack[1..r], v) == Fold<ChainValue>(Join(m), stack[1..], x)
    ensures r == 1 ==> v == Fold<ChainValue>(Join(m), stack[1..], x)
    ensures r > 1 ==>
              Fold<ChainValue>(Join(m), stack[1..r - 1], ParentCv(m, stack[r - 1], v))
              == Fold<ChainValue>(Join(m), stack[1..], x)
  {
    hide ParentCv;
    if r > 1 {
      assert stack[1..r] == stack[1..r - 1] + [stack[r - 1]];
      FoldAppend<ChainValue>(Join(m), stack[1..r - 1], stack[r - 1], v);
    }
  }

  lemma RootIsOutput(m: Mode, data: seq<bv8>, stack: seq<ChainValue>, x: ChainValue)
    requires |data| > CHUNK_LEN && RootOf<ChainValue>(Join(m), stack, x, Leaves(m, data, 0))
    ensures SubtreeOutput(m, data, 0) == ParentOutput(m, stack[0], Fold<ChainValue>(Join(m), stack[1..], x))
  {
    hide Tree, Leaves, ChunkOutput, ParentOutput, ChainingValue;
    var p := SplitPoint(Chunks(|data|));
    LeavesSplit(m, data, 0, p);
    SubtreeIsTree(m, data[..CHUNK_LEN * p], 0);
    SubtreeIsTree(m, data[CHUNK_LEN * p..], p);
  }

  lemma EmptyDigest(m: Mode, data: seq<bv8>, seek: nat)
    ensures Hash(m, data, seek, 0) == []
  {
  }

  class Hasher {
    const mode: Mode
    const simd: Simd
    const chunk: ChunkState
    const cvStack: array<ChainValue>
    var cvStackLen: nat
    /** The bytes of all complete chunks so far. */
    ghost var complete: seq<bv8>

    ghost function Repr(): set<object>
      reads this
    {
      {this, chunk, chunk.buf, cvStack}
    }

    ghost predicate Shape()
      reads Repr()
    {
      && simd.Valid() && chunk.mode == mode && cvStack.Length == MAX_DEPTH + 1
      && cvStackLen <= cvStack.Length
      && chunk.Valid()
      && |complete| == CHUNK_LEN * chunk.chunkCounter
      && |complete| + |chunk.content| < SIZE_LIMIT
    }

    ghost function Stack(): seq<ChainValue>
      requires Shape()
      reads Repr()
    {
      cvStack[..cvStackLen]
    }

    ghost function CompleteLeaves(): seq<ChainValue>
      reads this
    {
      Leaves(mode, complete, 0)
    }

    /** Everything absorbed so far. */
    ghost function Absorbed(): seq<bv8>
      reads this, chunk
    {
      complete + chunk.content
    }

    ghost predicate Valid()
      reads Repr()
    {
      && Shape()
      && if chunk.content != [] || complete == [] then Stack() == Spine<ChainValue>(Join(mode), CompleteLeaves())
         else Unmerged(mode, Stack(), CompleteLeaves())
    }

    constructor (mode: Mode, simd: Simd)
      requires simd.Valid()
      ensures Valid() && Absorbed() == [] && fresh(Repr())
      ensures this.mode == mode && this.simd == simd
    {
      this.mode := mode;
      this.simd := simd;
      chunk := new ChunkState(mode, 0);
      cvStack := new ChainValue[MAX_DEPTH + 1];
      cvStackLen := 0;
      complete := [];
    }

    /** Merges the top of the stack until one value is left for each one bit of the count. */
    method MergeCvStack(total: nat, ghost s: seq<ChainValue>)
      requires cvStackLen <= cvStack.Length && total == |s|
      requires Mergeable(mode, cvStack[..cvStackLen], s)
      modifies this`cvStackLen, cvStack
      ensures cvStackLen <= cvStack.Length
      ensures cvStack[..cvStackLen] == Spine<ChainValue>(Join(mode), s) && cvStackLen == PopCount(total)
    {
      hide Spine, Pairs, Tree, IsLevel, PopCount, ParentCv;
      ghost var join: (ChainValue, ChainValue) -> ChainValue := Join(mode);
      SpineLength<ChainValue>(join, s);
      var postMergeLen := PopCnt(total);
      while cvStackLen > postMergeLen
        invariant cvStackLen <= cvStack.Length
        invariant Mergeable(mode, cvStack[..cvStackLen], s)
      {
        ghost var stack := cvStack[..cvStackLen];
        ghost var w, x :| Pending<ChainValue>(join, stack, s, w, x);
        if |w| % 2 == 0 {
          Merged<ChainValue>(join, stack, s, w, x);
          assert false;
        }
        ghost var w', y := w[..|w| - 1], w[|w| - 1];
        assert w == w' + [y];
        MergeStep<ChainValue>(join, stack, s, w', y, x);
        var top := cvStackLen - 2;
        cvStack[top] := ParentCv(mode, cvStack[top], cvStack[top + 1]);
        cvStackLen := cvStackLen - 1;
        assert cvStack[..cvStackLen] == Spine<ChainValue>(join, w') + [join(y, x)];
        assert Pending<ChainValue>(join, cvStack[..cvStackLen], s, Pairs<ChainValue>(join, w'), join(y, x));
      }
      if cvStack[..cvStackLen] != Spine<ChainValue>(join, s) {
        ghost var w, x :| Pending<ChainValue>(join, cvStack[..cvStackLen], s, w, x);
        if |w| % 2 == 0 {
          Merged<ChainValue>(join, cvStack[..cvStackLen], s, w, x);
        } else {
          MergeDue<ChainValue>(join, cvStack[..cvStackLen], s, w, x);
        }
      }
    }

    /** Pushes a value, first merging what the previous ones left unmerged. */
    method PushCv(newCv: ChainValue, counter: nat, ghost s: seq<ChainValue>)
      requires cvStackLen <= cvStack.Length == MAX_DEPTH + 1 && counter == |s| < Pow2(MAX_DEPTH)
      requires Mergeable(mode, cvStack[..cvStackLen], s)
      modifies this`cvStackLen, cvStack
      ensures cvStackLen <= cvStack.Length
      ensures cvStack[..cvStackLen] == Spine<ChainValue>(Join(mode), s) + [newCv]
    {
      hide PopCount, Pow2, Spine, Mergeable;
      MergeCvStack(counter, s);
      PopCountBound(counter, MAX_DEPTH);
      cvStack[cvStackLen] := newCv;
      cvStackLen := cvStackLen + 1;
    }

    /** Pushes the value of one whole chunk. */
    method PushChunkCv(chunkCv: ChainValue, counter: nat, ghost data: seq<bv8>, ghost s: seq<ChainValue>)
      requires cvStackLen <= cvStack.Length == MAX_DEPTH + 1 && counter == |s| < Pow2(MAX_DEPTH)
      requires Mergeable(mode, cvStack[..cvStackLen], s)
      requires |data| == CHUNK_LEN && chunkCv == ChainingValue(mode, ChunkOutput(mode, data, counter))
      modifies this`cvStackLen, cvStack
      ensures cvStackLen <= cvStack.Length
      ensures Mergeable(mode, cvStack[..cvStackLen], s + Leaves(mode, data, counter))
    {
      hide Spine, Tree, IsLevel, Leaves, ChunkOutput, Pow2;
      PushCv(chunkCv, counter, s);
      OneChunkLeaf(mode, data, counter);
      PushOne<ChainValue>(Join(mode), s, chunkCv);
      assert Pending<ChainValue>(Join(mode), cvStack[..cvStackLen], s + [chunkCv], s, chunkCv);
    }

    /** The chunk is full and more input follows: its value goes on the stack. */
    method FinishChunk()
      requires Valid() && |chunk.content| == CHUNK_LEN
      modifies Repr()
      ensures Shape() && chunk.content == [] && Absorbed() == old(Absorbed())
      ensures Mergeable(mode, Stack(), CompleteLeaves())
    {
      hide Spine, Mergeable, Unmerged, Leaves, ChunkOutput, BlocksCv, ZeroPad, BlocksBeforeLast, ChainingValue, Pow2;
      ghost var content := chunk.content;
      CounterBound(|complete|, chunk.chunkCounter);
      UnmergedMergeable(mode, Stack(), CompleteLeaves());
      LeavesAppend(mode, complete, content, chunk.chunkCounter);
      var output := chunk.MakeOutput();
      var chunkCv := ChainingValue(mode, output);
      PushChunkCv(chunkCv, chunk.chunkCounter, content, CompleteLeaves());
      chunk.Reset(chunk.chunkCounter + 1);
      complete := complete + content;
    }

    /** Length of the largest complete subtree at the front of the input that is aligned with the
        chunks before it. */
    method SubtreeLen(inputLen: nat, counter: nat) returns (len: nat)
      requires CHUNK_LEN < inputLen < SIZE_LIMIT
      ensures IsPow2(len) && CHUNK_LEN <= len <= inputLen
      ensures (CHUNK_LEN * counter) % len == 0
    {
      len := RoundDownToPowerOf2(inputLen);
      var countSoFar := counter * CHUNK_LEN;
      assert IsPow2(CHUNK_LEN);
      Pow2Gap(len, CHUNK_LEN);
      AndMask(countSoFar, len);
      while And(len - 1, countSoFar) != 0
        invariant IsPow2(len) && CHUNK_LEN <= len <= inputLen
        invariant And(len - 1, countSoFar) == countSoFar % len
        decreases len
      {
        if len == CHUNK_LEN {
          MultipleMod(counter, CHUNK_LEN);
          assert false;
        }
        Pow2Gap(len / 2, CHUNK_LEN);
        len := len / 2;
        AndMask(countSoFar, len);
      }
    }

    method PushWholeChunk(data: seq<bv8>, ghost s: seq<ChainValue>)
      requires cvStackLen <= cvStack.Length == MAX_DEPTH + 1 && chunk.chunkCounter == |s| < Pow2(MAX_DEPTH)
      requires Mergeable(mode, cvStack[..cvStackLen], s) && |data| == CHUNK_LEN
      modifies this`cvStackLen, cvStack
      ensures cvStackLen <= cvStack.Length
      ensures Mergeable(mode, cvStack[..cvStackLen], s + Leaves(mode, data, chunk.chunkCounter))
    {
      hide Spine, Mergeable, Leaves, ChunkOutput, Pow2;
      var chunkState := new ChunkState(mode, chunk.chunkCounter);
      chunkState.Update(data);
      assert chunkState.content == data;
      var output := chunkState.MakeOutput();
      var cv := ChainingValue(mode, output);
      PushChunkCv(cv, chunkState.chunkCounter, data, s);
    }

    method PushHalves(data: seq<bv8>, ghost s: seq<ChainValue>)
      requires cvStackLen <= cvStack.Length == MAX_DEPTH + 1 && chunk.chunkCounter == |s|
      requires Mergeable(mode, cvStack[..cvStackLen], s) && simd.Valid()
      requires IsPow2(|data|) && CHUNK_LEN < |data| && (CHUNK_LEN * |s|) % |data| == 0
      requires CHUNK_LEN * |s| + |data| < SIZE_LIMIT
      modifies this`cvStackLen, cvStack
      ensures cvStackLen <= cvStack.Length
      ensures Unmerged(mode, cvStack[..cvStackLen], s + Leaves(mode, data, chunk.chunkCounter))
      ensures Mergeable(mode, cvStack[..cvStackLen], s + Leaves(mode, data, chunk.chunkCounter))
    {
      hide Spine, Tree, Leaves, SubtreeCv, SplitPoint, Mergeable, Unmerged, Pow2;
      var subtreeChunks := |data| / CHUNK_LEN;
      var half := subtreeChunks / 2;
      ghost var a, b := SubtreeHalves(mode, data, chunk.chunkCounter);
      AlignedCount(|s|, subtreeChunks);
      CounterBound(CHUNK_LEN * (|s| + half), |s| + half);
      var left, right := CompressSubtreeToParentNode(mode, simd, data, chunk.chunkCounter);
      HalvesPushed(mode, s, a, b, left, right);
      PushCv(left, chunk.chunkCounter, s);
      PushCv(right, chunk.chunkCounter + half, s + a);
      UnmergedMergeable(mode, cvStack[..cvStackLen], s + (a + b));
    }

    /** Hashes a complete subtree straight from the input and pushes its value, or its two halves. */
    method PushSubtree(data: seq<bv8>)
      requires Shape() && chunk.content == [] && Mergeable(mode, Stack(), CompleteLeaves())
      requires IsPow2(|data|) && |data| >= CHUNK_LEN && |complete| % |data| == 0
      requires |complete| + |data| < SIZE_LIMIT
      modifies Repr()
      ensures Shape() && chunk.content == [] && complete == old(complete) + data
      ensures Mergeable(mode, Stack(), CompleteLeaves())
      ensures |data| > CHUNK_LEN ==> Unmerged(mode, Stack(), CompleteLeaves())
    {
      hide Spine, Tree, IsLevel, Pending, Leaves, Mergeable, Unmerged, Pow2, BlocksCv, ZeroPad, BlocksBeforeLast;
      ghost var s := CompleteLeaves();
      CounterBound(|complete|, chunk.chunkCounter);
      LeavesAppend(mode, complete, data, chunk.chunkCounter);
      WholeChunks(|data|);
      var subtreeChunks := |data| / CHUNK_LEN;
      if |data| <= CHUNK_LEN {
        PushWholeChunk(data, s);
      } else {
        PushHalves(data, s);
      }
      chunk.AdvanceCounter(chunk.chunkCounter + subtreeChunks);
      complete := complete + data;
    }

    /** The chunk state is empty and more input has come: hash the largest subtrees possible, then
        keep what is left, at most one chunk, in the chunk state. */
    method AbsorbSubtrees(input: seq<bv8>)
      requires Shape() && chunk.content == [] && Mergeable(mode, Stack(), CompleteLeaves())
      requires |input| > 0 && |complete| + |input| < SIZE_LIMIT
      modifies Repr()
      ensures Valid() && Absorbed() == old(Absorbed()) + input
    {
      hide Spine, Tree, IsLevel, Pending, Leaves, Mergeable, Unmerged;
      var rest := input;
      while |rest| > CHUNK_LEN
        invariant Shape() && chunk.content == [] && complete + rest == old(complete) + input
        invariant Mergeable(mode, Stack(), CompleteLeaves())
        invariant |rest| == 0 ==> complete != [] && Unmerged(mode, Stack(), CompleteLeaves())
      {
        var subtreeLen := SubtreeLen(|rest|, chunk.chunkCounter);
        ghost var before := complete;
        PushSubtree(rest[..subtreeLen]);
        assert rest == rest[..subtreeLen] + rest[subtreeLen..];
        assert complete + rest[subtreeLen..] == before + rest;
        rest := rest[subtreeLen..];
      }
      if |rest| > 0 {
        KeepRest(rest);
      }
    }

    method KeepRest(rest: seq<bv8>)
      requires Shape() && chunk.content == [] && Mergeable(mode, Stack(), CompleteLeaves())
      requires 0 < |rest| <= CHUNK_LEN && |complete| + |rest| < SIZE_LIMIT
      modifies Repr()
      ensures Valid() && Absorbed() == old(complete) + rest
    {
      hide Spine, Mergeable, Unmerged, Leaves;
      chunk.Update(rest);
      MergeCvStack(chunk.chunkCounter, CompleteLeaves());
    }

    /** Puts as much input as fits into a chunk that has been started. */
    method FillChunk(input: seq<bv8>) returns (take: nat)
      requires Valid() && chunk.content != [] && |Absorbed()| + |input| < SIZE_LIMIT
      modifies Repr()
      ensures take <= |input| && Valid() && complete == old(complete) && chunk.content != []
      ensures chunk.content == old(chunk.content) + input[..take]
      ensures take < |input| ==> |chunk.content| == CHUNK_LEN
    {
      hide Spine, Unmerged, Leaves;
      var len := chunk.Len();
      take := CHUNK_LEN - len;
      if take > |input| {
        take := |input|;
      }
      chunk.Update(input[..take]);
    }

    /** Continues a chunk that has been started and closes it if more input follows. */
    method ContinueChunk(input: seq<bv8>) returns (rest: seq<bv8>)
      requires Valid() && chunk.content != [] && |input| > 0 && |Absorbed()| + |input| < SIZE_LIMIT
      modifies Repr()
      ensures Shape() && Absorbed() + rest == old(Absorbed()) + input
      ensures |rest| == 0 ==> Valid()
      ensures |rest| > 0 ==> chunk.content == [] && Mergeable(mode, Stack(), CompleteLeaves())
    {
      hide Spine, Mergeable, Unmerged, Leaves, IsPow2, BlocksCv, ZeroPad, BlocksBeforeLast;
      var take := FillChunk(input);
      rest := input[take..];
      assert input == input[..take] + rest;
      assert Absorbed() + rest == old(Absorbed()) + input;
      if |rest| > 0 {
        FinishChunk();
      }
    }

    method Update(input: seq<bv8>)
      requires Valid() && |Absorbed()| + |input| < SIZE_LIMIT
      modifies Repr()
      ensures Valid() && Absorbed() == old(Absorbed()) + input
    {
      hide Spine, Mergeable, Unmerged, Leaves, IsPow2, BlocksCv, ZeroPad, BlocksBeforeLast;
      if |input| == 0 {
        assert input == [];
        return;
      }
      var rest := input;
      var len := chunk.Len();
      if len > 0 {
        rest := ContinueChunk(input);
        if |rest| == 0 {
          assert rest == [];
          return;
        }
      } else {
        UnmergedMergeable(mode, Stack(), CompleteLeaves());
      }
      AbsorbSubtrees(rest);
    }

    /** The value that finalizing starts to roll up, and the part of the stack it is joined with. */
    ghost method RootParts() returns (n: nat, x: ChainValue)
      requires Valid() && cvStackLen > 0
      ensures chunk.content != [] ==> n == cvStackLen && x == LeafCv(mode, chunk.content, chunk.chunkCounter)
      ensures chunk.content == [] ==> n + 1 == cvStackLen >= 2 && x == cvStack[n]
      ensures RootOf<ChainValue>(Join(mode), cvStack[..n], x, Leaves(mode, Absorbed(), 0))
      ensures |Absorbed()| > CHUNK_LEN
    {
      hide Spine, Tree, IsLevel, Condenses, Leaves, LeafCv, RootOf, PopCount;
      ghost var s := CompleteLeaves();
      LeavesAppend(mode, complete, chunk.content, chunk.chunkCounter);
      if chunk.content != [] {
        n, x := cvStackLen, LeafCv(mode, chunk.content, chunk.chunkCounter);
        StackedLeaves(mode, s, cvStackLen);
        OneLeaf(mode, chunk.content, chunk.chunkCounter);
        RootOfSpine<ChainValue>(Join(mode), s, x);
        assert cvStack[..n] == Stack();
      } else {
        NonEmptyStack(mode, complete, Stack());
        ghost var w;
        w, x :| |w| >= 1 && Pending<ChainValue>(Join(mode), Stack(), s, w, x);
        n := cvStackLen - 1;
        SpineLength<ChainValue>(Join(mode), w);
        RootOfPending<ChainValue>(Join(mode), Stack(), s, w, x);
        PositivePopCount(|w|);
        assert cvStack[..n] == Stack()[..n] == Spine<ChainValue>(Join(mode), w);
        assert Absorbed() == complete;
        AtLeastTwoChunks(Join(mode), cvStack[..n], x, mode, complete);
      }
    }

    /** Joins an output with the stack values below it, from the top down. */
    method RollUp(start: Output, from: nat, ghost n: nat, ghost x: ChainValue) returns (output: Output)
      requires from <= n <= cvStack.Length && n >= 1
      requires from > 0 ==>
                 Fold<ChainValue>(Join(mode), cvStack[..n][1..from], ChainingValue(mode, start))
                 == Fold<ChainValue>(Join(mode), cvStack[..n][1..], x)
      requires from == 0 ==>
                 start == ParentOutput(mode, cvStack[0], Fold<ChainValue>(Join(mode), cvStack[..n][1..], x))
      ensures output == ParentOutput(mode, cvStack[0], Fold<ChainValue>(Join(mode), cvStack[..n][1..], x))
    {
      hide Fold, ChainingValue, ParentOutput;
      ghost var stack := cvStack[..n];
      assert n >= 1 && stack[0] == cvStack[0];
      ghost var whole := Fold<ChainValue>(Join(mode), stack[1..], x);
      output := start;
      var remaining: nat := from;
      while remaining > 0
        invariant remaining <= n
        invariant remaining > 0 ==>
                    Fold<ChainValue>(Join(mode), stack[1..remaining], ChainingValue(mode, output)) == whole
        invariant remaining == 0 ==> output == ParentOutput(mode, stack[0], whole)
      {
        FoldStep(mode, stack, remaining, ChainingValue(mode, output), x);
        remaining := remaining - 1;
        output := ParentOutput(mode, cvStack[remaining], ChainingValue(mode, output));
      }
    }

    /** Where rolling up starts: the chunk in progress, or the parent of the top two values. */
    method FirstOutput(ghost n: nat, ghost x: ChainValue) returns (output: Output, remaining: nat)
      requires Valid() && cvStackLen > 0
      requires chunk.content != [] ==> n == cvStackLen && x == LeafCv(mode, chunk.content, chunk.chunkCounter)
      requires chunk.content == [] ==> n + 1 == cvStackLen >= 2 && x == cvStack[n]
      ensures remaining <= n
      ensures remaining > 0 ==>
                Fold<ChainValue>(Join(mode), cvStack[..n][1..remaining], ChainingValue(mode, output))
                == Fold<ChainValue>(Join(mode), cvStack[..n][1..], x)
      ensures remaining == 0 ==>
                output == ParentOutput(mode, cvStack[0], Fold<ChainValue>(Join(mode), cvStack[..n][1..], x))
    {
      hide ChunkOutput, Spine, Fold, Leaves, Unmerged, ChainingValue, ParentOutput;
      var len := chunk.Len();
      assert cvStack[..n][1..n] == cvStack[..n][1..];
      if len > 0 {
        remaining := cvStackLen;
        output := chunk.MakeOutput();
      } else {
        remaining := cvStackLen - 2;
        output := ParentOutput(mode, cvStack[remaining], cvStack[remaining + 1]);
        FoldStep(mode, cvStack[..n], n, x, x);
      }
    }

    /** The output whose root compression gives the digest. */
    method RootOutput() returns (output: Output)
      requires Valid()
      ensures output == SubtreeOutput(mode, Absorbed(), 0)
    {
      hide SubtreeOutput, ChunkOutput, Spine, Fold, Leaves, RootOf, Unmerged, ChainingValue, ParentOutput;
      if cvStackLen == 0 {
        EmptyStack(mode, complete, chunk.content, Stack());
        assert chunk.chunkCounter == 0 && Absorbed() == complete + chunk.content;
        output := chunk.MakeOutput();
        return;
      }
      ghost var n, x := RootParts();
      var remaining;
      output, remaining := FirstOutput(n, x);
      output := RollUp(output, remaining, n, x);
      ghost var stack := cvStack[..n];
      assert stack[0] == cvStack[0];
      RootIsOutput(mode, Absorbed(), stack, x);
    }

    /** Writes the digest bytes from position seek of the output stream. */
    method FinalizeSeek(seek: nat, out: array<bv8>)
      requires Valid() && out !in Repr()
      modifies out
      ensures out[..] == Hash(mode, Absorbed(), seek, out.Length)
    {
      hide Spine, Unmerged, SubtreeOutput, RootBytes, Leaves;
      if out.Length == 0 {
        EmptyDigest(mode, Absorbed(), seek);
        return;
      }
      var output := RootOutput();
      OutputRootBytes(mode, output, seek, out);
    }

    method Finalize(out: array<bv8>)
      requires Valid() && out !in Repr()
      modifies out
      ensures out[..] == Hash(mode, Absorbed(), 0, out.Length)
    {
      FinalizeSeek(0, out);
    }
  }

  /** All pieces of an input in order. */
  function Joined(pieces: seq<seq<bv8>>): seq<bv8>
  {
    if |pieces| == 0 then [] else Joined(pieces[..|pieces| - 1]) + pieces[|pieces| - 1]
  }

  lemma {:induction false} JoinedPart(pieces: seq<seq<bv8>>, n: nat)
    requires n <= |pieces|
    ensures |Joined(pieces[..n])| <= |Joined(pieces)|
    decreases |pieces|
  {
    if n < |pieces| {
      assert pieces[..|pieces| - 1][..n] == pieces[..n];
      JoinedPart(pieces[..|pieces| - 1], n);
    } else {
      assert pieces[..n] == pieces;
    }
  }

  /** However an input is cut into pieces, empty ones among them, the digest is that of the whole. */
  method HashPieces(m: Mode, simd: Simd, pieces: seq<seq<bv8>>, seek: nat, out: array<bv8>)
    requires simd.Valid() && |Joined(pieces)| < SIZE_LIMIT
    modifies out
    ensures out[..] == Hash(m, Joined(pieces), seek, out.Length)
  {
    hide Hash, Hasher.Valid, Hasher.Absorbed;
    var hasher := new Hasher(m, simd);
    for i := 0 to |pieces|
      invariant hasher.Valid() && fresh(hasher.Repr()) && hasher.mode == m
      invariant hasher.Absorbed() == Joined(pieces[..i])
    {
      assert pieces[..i + 1][..i] == pieces[..i];
      JoinedPart(pieces, i + 1);
      hasher.Update(pieces[i]);
    }
    assert pieces[..|pieces|] == pieces;
    hasher.FinalizeSeek(seek, out);
  }
}
