/** The state of one chunk: bytes are buffered into blocks, and the last block is held back until it is
    known whether it ends the chunk. */
module Blake3Chunk {
  import opened Blake3Tree

  lemma BlocksCvAppend(m: Mode, data: seq<bv8>, block: Block, counter: nat)
    requires |data| % BLOCK_LEN == 0
    ensures BlocksCv(m, data + block, counter)
         == m.compress(BlocksCv(m, data, counter), block, BLOCK_LEN, counter,
                       Or(m.flags, StartFlag(|data| / BLOCK_LEN)))
  {
    var s := data + block;
    assert s[..|s| - BLOCK_LEN] == data && s[|s| - BLOCK_LEN..] == block;
  }

  class ChunkState {
    const mode: Mode
    const buf: array<bv8>
    var cv: Words
    var chunkCounter: nat
    var bufLen: nat
    var blocksCompressed: nat
    ghost var content: seq<bv8>

    /** The bytes of content are exactly those compressed into cv and those in buf, which is
        zero beyond them. */
    ghost predicate Loaded()
      reads this, buf
    {
      var whole := BLOCK_LEN * blocksCompressed;
      && buf.Length == BLOCK_LEN
      && |content| <= CHUNK_LEN
      && whole <= |content| <= whole + BLOCK_LEN
      && bufLen == |content| - whole
      && cv == BlocksCv(mode, content[..whole], chunkCounter)
      && buf[..] == ZeroPad(content[whole..])
    }

    /** Between updates the last block is always in the buffer. */
    ghost predicate Valid()
      reads this, buf
    {
      Loaded() && blocksCompressed == BlocksBeforeLast(|content|)
    }

    constructor (mode: Mode, counter: nat)
      ensures Valid() && content == [] && chunkCounter == counter && this.mode == mode
      ensures fresh(buf)
    {
      this.mode := mode;
      cv := mode.key;
      chunkCounter := counter;
      buf := new bv8[BLOCK_LEN](_ => 0);
      bufLen := 0;
      blocksCompressed := 0;
      content := [];
    }

    method ClearBuf()
      requires buf.Length == BLOCK_LEN
      modifies buf
      ensures buf[..] == ZeroPad([])
    {
      for i := 0 to buf.Length
        invariant forall j :: 0 <= j < i ==> buf[j] == 0
      {
        buf[i] := 0;
      }
    }

    method Reset(counter: nat)
      requires buf.Length == BLOCK_LEN
      modifies this, buf
      ensures Valid() && content == [] && chunkCounter == counter
    {
      cv := mode.key;
      chunkCounter := counter;
      blocksCompressed := 0;
      ClearBuf();
      bufLen := 0;
      content := [];
    }

    /** An empty chunk state moves on to a later chunk. */
    method AdvanceCounter(counter: nat)
      requires Valid() && content == []
      modifies this`chunkCounter
      ensures Valid() && chunkCounter == counter
    {
      chunkCounter := counter;
    }

    method Len() returns (n: nat)
      requires Valid()
      ensures n == |content|
    {
      n := BLOCK_LEN * blocksCompressed + bufLen;
    }

    /** Copies as much of the input as fits into the buffer. */
    method FillBuf(input: seq<bv8>) returns (take: nat)
      requires Loaded() && |content| + |input| <= CHUNK_LEN
      modifies this`bufLen, this`content, buf
      ensures take == if |input| < BLOCK_LEN - old(bufLen) then |input| else BLOCK_LEN - old(bufLen)
      ensures Loaded() && content == old(content) + input[..take] && bufLen == old(bufLen) + take
    {
      take := BLOCK_LEN - bufLen;
      if take > |input| {
        take := |input|;
      }
      for i := 0 to take
        modifies buf
        invariant forall j :: 0 <= j < BLOCK_LEN ==>
          buf[j] == if bufLen <= j < bufLen + i then input[j - bufLen] else old(buf[j])
      {
        buf[bufLen + i] := input[i];
      }
      ghost var whole := BLOCK_LEN * blocksCompressed;
      assert buf[..] == ZeroPad(content[whole..] + input[..take]);
      content := content + input[..take];
      assert content[..whole] == old(content)[..whole];
      assert content[whole..] == old(content)[whole..] + input[..take];
      bufLen := bufLen + take;
    }

    /** Compresses a full buffer and empties it. */
    method FlushBuf()
      requires Loaded() && bufLen == BLOCK_LEN
      modifies this`cv, this`blocksCompressed, this`bufLen, buf
      ensures Loaded() && bufLen == 0 && BLOCK_LEN * blocksCompressed == |content|
    {
      hide BlocksCv;
      ghost var whole := BLOCK_LEN * blocksCompressed;
      BlocksCvAppend(mode, content[..whole], buf[..], chunkCounter);
      assert content[..whole] + buf[..] == content;
      cv := mode.compress(cv, buf[..], BLOCK_LEN, chunkCounter, Or(mode.flags, StartFlag(blocksCompressed)));
      blocksCompressed := blocksCompressed + 1;
      bufLen := 0;
      ClearBuf();
      assert content[..|content|] == content && content[|content|..] == [];
    }

    /** Compresses a block straight from the input. */
    method CompressBlock(block: Block)
      requires Loaded() && bufLen == 0 && |content| + BLOCK_LEN <= CHUNK_LEN
      modifies this`cv, this`blocksCompressed, this`content
      ensures Loaded() && bufLen == 0 && BLOCK_LEN * blocksCompressed == |content|
      ensures content == old(content) + block
    {
      BlocksCvAppend(mode, content, block, chunkCounter);
      assert content[..|content|] == content && content[|content|..] == [];
      cv := mode.compress(cv, block, BLOCK_LEN, chunkCounter, Or(mode.flags, StartFlag(blocksCompressed)));
      blocksCompressed := blocksCompressed + 1;
      content := content + block;
      assert content[..|content|] == content && content[|content|..] == [];
    }

    method Update(data: seq<bv8>)
      requires Valid() && |content| + |data| <= CHUNK_LEN
      modifies this, buf
      ensures Valid() && content == old(content) + data && chunkCounter == old(chunkCounter)
    {
      hide BlocksCv, ZeroPad;
      var input := data;
      if bufLen > 0 {
        var take := FillBuf(input);
        input := input[take..];
        assert content + input == old(content) + data;
        if |input| > 0 {
          FlushBuf();
        }
      }
      while |input| > BLOCK_LEN
        invariant Loaded() && chunkCounter == old(chunkCounter)
        invariant |input| > 0 ==> bufLen == 0
        invariant |input| == 0 ==> blocksCompressed == BlocksBeforeLast(|content|)
        invariant content + input == old(content) + data
      {
        CompressBlock(input[..BLOCK_LEN]);
        input := input[BLOCK_LEN..];
        assert content + input == old(content) + data;
      }
      var take := FillBuf(input);
      assert input[..take] == input;
    }

    method MakeOutput() returns (o: Output)
      requires Valid()
      ensures o == ChunkOutput(mode, content, chunkCounter)
    {
      o := Output(cv, buf[..], bufLen, chunkCounter, Or(Or(mode.flags, StartFlag(blocksCompressed)), CHUNK_END));
    }
  }
}
