# LumoSQL storage code: models and proofs

LumoSQL adds row checksums, an LMDB backend and a Berkeley DB backend to SQLite. This project models the
algorithms among that code whose correctness is not plain from reading one function, and proves them
against independent definitions: recursive ones, those of published standards, or serial execution.

Code that works in place is modelled in place: classes with the fields of the C structures, arrays for
buffers, loops with invariants. Each such method is proved against a function or a definition, and what the
code is for is proved of that. What code and reference share, such as tables, constants and the operations on
words, is tied down by literal answers or by laws of its own.

## What is modelled

**BLAKE3 incremental hash** (`Bits`, `MerkleTree`, `Blake3Tree`, `Blake3Chunk`, `Blake3Subtree`,
`Blake3Hasher`, `Blake3Portable`, `Blake3Answers`). The reference is the recursive tree of the BLAKE3 specification
(sections 2.1, 2.4, 2.5 and 2.6) in `Blake3Tree.SubtreeOutput` and `Hash`. The tree proofs take the
compression and its extended output as any functions (`Mode`), and the SIMD degree as any power of two up to
any maximal power of two (`Simd`). `MerkleTree` holds the two facts about trees over any values that carry
the rest: pairing neighbours keeps the tree that splits at the largest power of two, and a stack merged
lazily by population count is the spine of that tree. `Blake3Portable` makes the compression concrete, and
`Blake3Answers` works out the hashes of two messages down to literal bytes.

**SHA-3** (`Keccak`, `KeccakBits`, `KeccakTables`, `Sha3Sponge`, `Sha3Padding`, `Sha3`). The reference is FIPS
202: the step mappings of sections 3.2 and 3.3, the sponge of section 4, the padding of 5.1 and the suffix of
6.1, bit by bit. `KeccakBits` takes the permutation from lanes to the single bits that the standard defines it
on. The constants of the code are shown to be the ones the standard generates. The context keeps its 1600-byte
buffer, into whose second part the digest is copied, and the three settings of the byte order.

**Rowsum table and row extension** (`Rowsum`, `Varint`, `LumoRecord`, `LumoExtension`, `LumoVerify`). Records and
varints follow the SQLite database file format (sections 2.1 and 1.6). The writer, the search from any point
to which the header was parsed before, and the verifier that reads the payload in pieces are modelled over
byte buffers and run on the two hashers above.

**LMDB backend** (`LmdbModel`, `LmdbBtree`, `LmdbRuns`, `LmdbCursorList`, `LmdbRowidKey`). The LMDB store is a history of
committed versions with one writer at a time (`Env`); all rows are one map from a key to a value, beside the
commit counter. `Btree` has the fields of the connection: the stack of nested transactions, the state and the
cursors. `LmdbRuns` interleaves the calls of any number of connections; every client notes what it looked up,
what its cursors found, and what it wrote and deleted, before and after refused upgrades. A commit is serial
when that list replays alone from the version before it.

**Berkeley DB backend** (`GenerationLock`, `GenerationLockFile`, `BdbIndexKey`, `BdbPragmaFile`). The lock on the shared
file is a state machine over processes and threads, one step for each piece of code between two points where
another thread can come in; `GenerationLockFile` has the same pieces as methods over the fields of the C
structure and ties each to its step. `current` says whether the process opened or reopened its environment
after the last write of any other process; the theorems say what the steps of a run make of it. The index key
is rewritten in one buffer. The pragma file is a sequence of bytes with the header at its front; its checksum
is any function to four bytes.

## Where the code does not keep its promise

Each of these is stated for all inputs with the condition under which the code does meet the promise, and
with an input for which it does not.

- Closing a cursor whose table did not open clears both ends of the cursor list, which is right only if the
  list was empty (`LmdbCursorList.CursorList.Close`, `FailedOpenInput`).
- A cursor that is already open is refused only if it has a neighbour; the only cursor of a list is linked to
  itself (`LmdbCursorList.CursorList.Open`, `OpenedTwiceInput`).
- After a refused upgrade the connection is left in a new write transaction. Asking again, instead of rolling
  back, succeeds unless another connection commits between the abort and the new begin, and is refused once
  more then. A commit after that is serial just when everything looked up or scanned before the refusal is
  found the same (`LmdbRuns.RunsAreSerialExactly`, `AskingAgainLosesAnUpdate`, `AskingAgainMissesARow`).
- Rolling back to -1 is said to keep the transaction open (not-fork.d/lmdb/files/btree.c:1224-1227); it ends
  it, unless a savepoint is open and a cursor cannot be saved (`LmdbModel.RollbackAllEnds`,
  `RollbackAllEndsInput`).
- A level that is not on the stack closes too many savepoints (`LmdbModel.ClosesAboveExactly`,
  `ClosesTooMuchInput`).
- Rowid order is unsigned, so it is the order of the rowids only among those of one sign
  (`LmdbRowidKey.SignedOrder`, `SignedOrderInput`).
- A lock taken without reopening takes over the generation and so hides the change from later requests, until
  the environment is opened (`GenerationLock.GrantsAreCurrent`, `SkippingHidesAChange`). The way the
  environment is opened at not-fork.d/bdb/files/btree.c:1866-1911 avoids this (`HoldersAreCurrent`).
- An index record without extension is taken for one with an enormous extension, just when its rowid takes
  any bytes (`LumoRecord.PlainIndexMisread`, `PlainIndexMisreadInput`).
- The enlarged header is right just when the old header size is not encoded longer than the new one needs
  (`LumoExtension.HeaderSizeRight`, `HeaderSizeWrongInput`).
- At check level 1 any digest is accepted. At level 2 a wrong one is let pass just when no row sum has a wrong
  length and another one satisfies, which an empty one or one of an unknown algorithm always does
  (`LumoVerify.LevelOneIgnoresDigests`, `MismatchAccepted`, `WrongDigestInput`).
- The old record of a pragma is not marked as dead just when its place is a multiple of 256
  (`BdbPragmaFile.OldIsMarked`, `OldStaysUnmarkedInput`).

The commit counter passes through 32 bits, so an upgrade is accepted after every multiple of 2^32 commits
(`LmdbRuns.UpgradeAccepted`); any positive multiple can lose an update (`CounterGoneRound`).

The comment at not-fork.d/lmdb/files/btree.c:526-532 says that savepoints are closed up to the level given;
the code stops only at that very level or at the main transaction, and the model follows the code. The comment
at not-fork.d/sqlite3/files/blake3/blake3.h:32-36 gives the reason for the last of the 55 slots;
`Blake3Hasher.Hasher.PushCv` shows that it is enough.

## Model

| member | source | states |
|---|---|---|
| Blake3Hasher.HashPieces | not-fork.d/sqlite3/files/blake3/blake3.c:449-605 | For every mode, every SIMD degree, every way of cutting less than 2^64 bytes into pieces (empty ones included), every seek and output length: a fresh hasher fed the pieces in order gives exactly bytes seek..seek+n of the root output of the recursive tree over the joined input |
| Blake3Hasher.Hasher.Update | not-fork.d/sqlite3/files/blake3/blake3.c:449-556 | One update keeps the stack invariant and the absorbed bytes become the old ones followed by the input, whatever is buffered and however long the input is; between updates the stack is the spine of the complete subtrees, or, with an empty chunk state after input, the last two halves are still unmerged |
| Blake3Hasher.Hasher.FinalizeSeek | not-fork.d/sqlite3/files/blake3/blake3.c:563-605 | Gives the bytes from seek of the root output of the recursive tree over everything absorbed, and changes neither the hasher nor anything but the output buffer |
| Blake3Hasher.Hasher.Finalize | not-fork.d/sqlite3/files/blake3/blake3.c:558-561 | Gives the output bytes from 0 of the recursive tree over everything absorbed |
| Blake3Hasher.Hasher.RootOutput | not-fork.d/sqlite3/files/blake3/blake3.c:566-604 | Rolling up the stack from the right yields the root node of the recursive tree in both cases, bytes in the chunk state or a stack that ends in two unmerged halves; the root was never compressed before |
| Blake3Hasher.Hasher.constructor | not-fork.d/sqlite3/files/blake3/blake3.c:356-363 | A new hasher has absorbed nothing and satisfies the invariant |
| Blake3Hasher.Hasher.MergeCvStack | not-fork.d/sqlite3/files/blake3/blake3.c:398-407 | Merging until the stack is as high as the population count turns any mergeable stack, the two unmerged halves of a subtree of any size included, into the complete subtrees named by the 1-bits of the chunk count, largest at the bottom |
| Blake3Hasher.Hasher.PushCv | not-fork.d/sqlite3/files/blake3/blake3.c:441-447 | A push finds room in the 55 slots for every count below 2^54, and puts the value on the fully merged stack |
| Blake3Hasher.Hasher.SubtreeLen | not-fork.d/sqlite3/files/blake3/blake3.c:498-517 | The shrinking loop ends with a power of two that is at least a chunk, fits in the input and divides the bytes counted so far |
| Blake3Hasher.Hasher.PushSubtree | not-fork.d/sqlite3/files/blake3/blake3.c:520-543 | A whole aligned subtree, of one chunk or of many, extends the complete part of the input and leaves a mergeable stack |
| Blake3Hasher.CounterBound | not-fork.d/sqlite3/files/blake3/blake3.h:32-38 | Fewer than 2^64 bytes are fewer than 2^54 chunks, the bound the stack of 55 slots needs |
| Blake3Hasher.OutputRootBytes | not-fork.d/sqlite3/files/blake3/blake3.c:89-110 | Writes every byte of the buffer with the byte of the infinite root output at seek plus its index, over block boundaries, and for an empty buffer nothing |
| Blake3Tree.HashPrefix | not-fork.d/sqlite3/files/blake3/blake3.c:89-110 | A shorter digest is a prefix of a longer one |
| Blake3Tree.SubtreeIsTree | not-fork.d/sqlite3/files/blake3/blake3.c:262-321 | The recursive hash over bytes equals the binary tree over the chunk values that splits at the largest power of two |
| Blake3Tree.LeavesSplit | not-fork.d/sqlite3/files/blake3/blake3.c:286-299 | The chunk values of an input cut at any chunk boundary are those of its two parts, the second with its counter moved on |
| MerkleTree.PairsKeepsTree | not-fork.d/sqlite3/files/blake3/blake3.c:207-245 | Pairing neighbours and carrying an odd last value keeps the value of the tree that splits at the largest power of two: bottom-up equals top-down |
| MerkleTree.WidePairs | not-fork.d/sqlite3/files/blake3/blake3.c:247-321 | One level of pairing over the values of two subtrees gives values that still condense the whole, and again fit the SIMD degree |
| MerkleTree.WideLengths | not-fork.d/sqlite3/files/blake3/blake3.c:272-299 | The left and right values together are more than two and at most twice the degree: the scratch array is never overrun |
| MerkleTree.CondensedToTwo | not-fork.d/sqlite3/files/blake3/blake3.c:347-353 | When two values are left they are the values of the left and right subtree of the root |
| MerkleTree.PairsCondenses | not-fork.d/sqlite3/files/blake3/blake3.c:347-352 | Pairing more than two condensed values keeps them condensed |
| MerkleTree.SpineLength | not-fork.d/sqlite3/files/blake3/blake3.c:388-407 | The stack of complete subtrees is as high as the number of 1-bits of the leaf count |
| MerkleTree.AlignedSpine | not-fork.d/sqlite3/files/blake3/blake3.c:408-440 | An aligned complete subtree goes on the spine as one value |
| MerkleTree.PushTwo | not-fork.d/sqlite3/files/blake3/blake3.c:408-440 | A stack with both halves of an aligned subtree on top is a stack with merges pending |
| MerkleTree.MergeDue | not-fork.d/sqlite3/files/blake3/blake3.c:388-407 | While a merge is pending the stack is higher than the population count |
| MerkleTree.MergeStep | not-fork.d/sqlite3/files/blake3/blake3.c:400-406 | Joining the top two values makes one pending merge, and the value pending moves up a level |
| MerkleTree.Merged | not-fork.d/sqlite3/files/blake3/blake3.c:388-407 | When nothing is pending the stack is exactly the spine |
| MerkleTree.RootOfPending | not-fork.d/sqlite3/files/blake3/blake3.c:563-605 | Folding a stack with pending merges from the right gives the root of the recursive tree |
| Bits.PopCnt | not-fork.d/sqlite3/files/blake3/blake3_impl.h:105-117 | The loop that clears the lowest bit ends, and counts the 1-bits |
| Bits.HighestOne | not-fork.d/sqlite3/files/blake3/blake3_impl.h:74-103 | The shifting search finds the index of the highest 1-bit of every non-zero 64-bit number |
| Bits.RoundDownToPowerOf2 | not-fork.d/sqlite3/files/blake3/blake3_impl.h:119-123 | The result is the largest power of two not above the number, and 1 for 0 |
| Bits.SplitPointUnique | not-fork.d/sqlite3/files/blake3/blake3.c:154-162 | There is exactly one power of two below n that is at least half of it: the split point |
| Bits.PopCountBound | not-fork.d/sqlite3/files/blake3/blake3.h:32-38 | A number below 2^e has at most e 1-bits |
| Blake3Chunk.ChunkState.constructor | not-fork.d/sqlite3/files/blake3/blake3.c:10-18 | A new chunk is empty, at the counter given, with a zero buffer |
| Blake3Chunk.ChunkState.Reset | not-fork.d/sqlite3/files/blake3/blake3.c:20-27 | The chunk is empty at the new counter |
| Blake3Chunk.ChunkState.Len | not-fork.d/sqlite3/files/blake3/blake3.c:29-32 | Counts all bytes of the chunk so far |
| Blake3Chunk.ChunkState.FillBuf | not-fork.d/sqlite3/files/blake3/blake3.c:34-44 | Takes what fits into the block, appends it, and keeps the rest of the buffer zero |
| Blake3Chunk.ChunkState.Update | not-fork.d/sqlite3/files/blake3/blake3.c:112-140 | Bytes fed in any pieces are appended; the last block is held back, whole or not, and the buffer stays zero-padded |
| Blake3Chunk.ChunkState.MakeOutput | not-fork.d/sqlite3/files/blake3/blake3.c:142-147 | The output is that of the chunk content in the specification, whatever the pieces were |
| Blake3Subtree.ChunkRoutesAgree | not-fork.d/sqlite3/files/blake3/blake3_portable.c:125-143 | Hashing the sixteen blocks of a full chunk in one call gives the chaining value of the chunk state |
| Blake3Subtree.ParentRoutesAgree | not-fork.d/sqlite3/files/blake3/blake3.c:231-236 | Hashing one block with the parent flag gives the chaining value of the parent node |
| Blake3Subtree.HashOne | not-fork.d/sqlite3/files/blake3/blake3_portable.c:125-143 | The loop over blocks gives the value of the blocks, start flag on the first and end flag on the last |
| Blake3Subtree.HashMany | not-fork.d/sqlite3/files/blake3/blake3_portable.c:145-160 | Every input is hashed into its own slot, with a counter that steps or stands still; no other slot changes |
| Blake3Subtree.CompressChunksParallel | not-fork.d/sqlite3/files/blake3/blake3.c:168-205 | Writes the chunk values of the input, the partial last chunk included, and no other slot, and returns their number |
| Blake3Subtree.CompressParentsParallel | not-fork.d/sqlite3/files/blake3/blake3.c:212-245 | Writes one level of pairing with the odd value carried, and no other slot |
| Blake3Subtree.LeftLen | not-fork.d/sqlite3/files/blake3/blake3.c:157-162 | The left part holds the largest power of two of chunks that leaves something for the right |
| Blake3Subtree.JoinHalves | not-fork.d/sqlite3/files/blake3/blake3.c:309-320 | The values of both halves, two of them as they are or else one level of parents, condense the leaves of the whole and fit the output |
| Blake3Subtree.CompressSubtreeWide | not-fork.d/sqlite3/files/blake3/blake3.c:264-321 | For every power-of-two degree: ends, stays inside its arrays and yields values that condense the leaves of the input; for more than one chunk at least two |
| Blake3Subtree.CompressSubtreeToParentNode | not-fork.d/sqlite3/files/blake3/blake3.c:333-354 | For every power-of-two degree and every input longer than a chunk, the two values are those of the left and right subtree of the recursive tree |
| Blake3Portable.CompressPre | not-fork.d/sqlite3/files/blake3/blake3_portable.c:37-82 | The state mixed in place is seven rounds over a message permuted between rounds, from the state whose words Blake3Answers.StartIs names; the answers of Blake3Answers hold of these rounds |
| Blake3Portable.G | not-fork.d/sqlite3/files/blake3/blake3_portable.c:8-18 | Mixes just the four words named, as the quarter round does |
| Blake3Portable.RoundFn | not-fork.d/sqlite3/files/blake3/blake3_portable.c:20-35 | A round in place with the schedule row is the round over the message permuted that many times |
| Blake3Portable.ScheduleStep | not-fork.d/sqlite3/files/blake3/blake3_impl.h:64-72 | Each row of the schedule table is the row before it under the one message permutation |
| Blake3Portable.CompressInPlace | not-fork.d/sqlite3/files/blake3/blake3_portable.c:84-98 | The chaining value becomes the exclusive or of the two halves of the mixed state |
| Blake3Portable.CompressToXof | not-fork.d/sqlite3/files/blake3/blake3_portable.c:100-123 | Fills the 64 bytes with the extended output |
| Blake3Portable.ChainValueIsFront | not-fork.d/sqlite3/files/blake3/blake3_portable.c:84-123 | The first 32 bytes of the extended output are the stored chaining value |
| Blake3Portable.LoadStore | not-fork.d/sqlite3/files/blake3/blake3_impl.h:131-155 | Loading a stored word gives it back |
| Blake3Portable.DigestIsRootCv | not-fork.d/sqlite3/files/blake3/blake3.c:89-110 | With the portable compression the 32-byte digest of any input is the chaining value of its root node compressed with the root flag |
| Blake3Portable.HashPortable | not-fork.d/sqlite3/files/blake3/blake3.c:363-605 | The unkeyed hasher over the portable compression gives, for any pieces and any SIMD degree, the output of the recursive tree built of that compression, which is the hash that Blake3Answers works out |
| Blake3Answers.EmptyAnswer | not-fork.d/sqlite3/files/blake3/blake3.c:89-110 | The first 128 bytes of output of the empty message are the published ones, the second block of output with its counter included |
| Blake3Answers.TwoChunksAnswer | not-fork.d/sqlite3/files/blake3/blake3.c:363-605 | The digest of 17 blocks that count from 0 to 63, two chunks under one parent: 32 literal bytes, from 18 compressions worked out in turn |
| Blake3Answers.StartIs | not-fork.d/sqlite3/files/blake3/blake3_portable.c:45-75 | The words that compression starts from: the chaining value, the first four constants, the low and the high word of the counter, the block length, the flags |
| Blake3Answers.RoundIs | not-fork.d/sqlite3/files/blake3/blake3_portable.c:20-35 | A round is four quarter rounds on the columns and four on the diagonals, each message word used once |
| Blake3Answers.ReadBack | not-fork.d/sqlite3/files/blake3/blake3_portable.c:43-60 | Words stored in a block, lowest byte first, are read back as the message words |
| Keccak.KeccakF1600Step | not-fork.d/sqlite3/files/lumo-sha3.c:62-377 | For every state, the rounds done in place with moving lanes equal the 24 rounds of iota, chi, pi, rho and theta of FIPS 202 |
| Keccak.Round0 | not-fork.d/sqlite3/files/lumo-sha3.c:109-174 | From lanes in their home places, the first unrolled round is one round of FIPS 202 read through the first placement |
| Keccak.Round1 | not-fork.d/sqlite3/files/lumo-sha3.c:176-241 | The second unrolled round takes the first placement to the second by one round of FIPS 202 |
| Keccak.Round2 | not-fork.d/sqlite3/files/lumo-sha3.c:243-308 | The third unrolled round takes the second placement to the third by one round of FIPS 202 |
| Keccak.Round3 | not-fork.d/sqlite3/files/lumo-sha3.c:310-375 | The fourth unrolled round takes the third placement back home by one round of FIPS 202 |
| Keccak.ViewIdentity | not-fork.d/sqlite3/files/lumo-sha3.c:108-376 | After each group of four rounds the lane placement is the identity again |
| Keccak.RowInjective | not-fork.d/sqlite3/files/lumo-sha3.c:108-376 | In every placement the lanes of a column have different places |
| Keccak.FourRounds | not-fork.d/sqlite3/files/lumo-sha3.c:108-376 | Four rounds with four constants in turn advance the count of rounds by four |
| KeccakBits.KeccakFIsBitwise | not-fork.d/sqlite3/files/lumo-sha3.c:62-377 | For every state, the permutation on 64-bit lanes does to each bit what the step mappings of FIPS 202 (sections 3.2.1 to 3.2.5) do to it, through all 24 rounds |
| KeccakBits.RoundIs | not-fork.d/sqlite3/files/lumo-sha3.c:109-174 | One round on lanes, as the five step mappings on the bits at each (x, y, z) |
| KeccakBits.RolBit | not-fork.d/sqlite3/files/lumo-sha3.c:106 | The two shifts move every bit up by the amount, around the end |
| KeccakBits.MixBit | not-fork.d/sqlite3/files/lumo-sha3.c:125-130 | Chi: a bit is turned over just when its right neighbour is 0 and the next one is 1 |
| KeccakBits.AmountNext | not-fork.d/sqlite3/files/lumo-sha3.c:106 | The six bits of a rotation amount are the offset modulo 64 |
| KeccakTables.RoundConstantsGenerated | not-fork.d/sqlite3/files/lumo-sha3.c:67-80 | Each of the 24 constants is what the shift register of FIPS 202 (section 3.2.5) generates |
| KeccakTables.OffsetsWalked | not-fork.d/sqlite3/files/lumo-sha3.c:121-170 | Every rotation is the triangular number of the step at which the walk of FIPS 202 (section 3.2.2) meets the lane, modulo 64 |
| Sha3Sponge.DigestStreamed | not-fork.d/sqlite3/files/lumo-sha3.c:452-468 | The sponge over the padded message is the byte-by-byte stream over message and padding |
| Sha3Sponge.StreamIsSponge | not-fork.d/sqlite3/files/lumo-sha3.c:413-445 | Mixing byte by byte and permuting when a block is full equals absorbing whole blocks |
| Sha3Sponge.StreamedSpan | not-fork.d/sqlite3/files/lumo-sha3.c:419-429 | Mixing a run of bytes at once, up to the end of a block, equals mixing them one by one |
| Sha3Sponge.XorLaneBytes | not-fork.d/sqlite3/files/lumo-sha3.c:423 | The exclusive or of two words is that of their bytes |
| Sha3Padding.PaddedMessageBits | not-fork.d/sqlite3/files/lumo-sha3.c:454-462 | As bits, the message with the bytes of the padding is the message, 01, and the pad10*1 of FIPS 202 (section 5.1) that fills the last block, for every length |
| Sha3Padding.PackedFirst | not-fork.d/sqlite3/files/lumo-sha3.c:410-446 | The first of eight bytes is the lowest of the lane |
| Sha3Padding.PackedRest | not-fork.d/sqlite3/files/lumo-sha3.c:410-446 | The other seven are those of the lane shifted down by eight |
| Sha3Padding.BytesFirst | not-fork.d/sqlite3/files/lumo-sha3.c:410-446 | The first byte of a lane is its lowest eight bits |
| Sha3Padding.BytesRest | not-fork.d/sqlite3/files/lumo-sha3.c:410-446 | The bytes of a lane shifted down by eight are the others |
| Sha3Padding.XorByteBits | not-fork.d/sqlite3/files/lumo-sha3.c:410-446 | A byte mixed in turns over just the bits where it has a 1 |
| Sha3.Context.constructor | not-fork.d/sqlite3/files/lumo-sha3.c:384-407 | The rate is the one for the digest size asked for, or for 256 bits out of range, the state is zero, and the mask undoes the byte order of the machine |
| Sha3.Context.Update | not-fork.d/sqlite3/files/lumo-sha3.c:413-445 | Whatever the alignment, the piece and the byte order, the state is that of the byte stream with the piece appended, and fewer bytes than a block are loaded; so the 8-byte path equals the byte path |
| Sha3.Context.AddWord | not-fork.d/sqlite3/files/lumo-sha3.c:422-427 | A word mixed into eight free bytes equals its eight bytes one by one |
| Sha3.Context.AddByte | not-fork.d/sqlite3/files/lumo-sha3.c:431-443 | A byte goes to the logical place of every byte order, and a full block is permuted |
| Sha3.Context.Step | not-fork.d/sqlite3/files/lumo-sha3.c:62-106 | In every byte order the permutation acts on the logical bytes of the state |
| Sha3.Context.Pad | not-fork.d/sqlite3/files/lumo-sha3.c:454-462 | Both branches append the same padding: one byte when one place is left, else first byte, jump and last byte |
| Sha3.Context.CopyDigest | not-fork.d/sqlite3/files/lumo-sha3.c:464-467 | The copy inside the state buffer undoes the byte order and does not overwrite what it still reads |
| Sha3.Context.Final | not-fork.d/sqlite3/files/lumo-sha3.c:452-468 | The result points at the FIPS 202 digest of everything added, in every byte order |
| Sha3.MemIndexInjective | not-fork.d/sqlite3/files/lumo-sha3.c:409-467 | Different logical bytes have different places in memory |
| Rowsum.DigestLength | not-fork.d/sqlite3/files/lumo-vdbeAdd.c:92-116 | A digest is at most 64 bytes, and is empty just for the empty algorithm |
| Rowsum.Sha3Rate | not-fork.d/sqlite3/files/lumo-vdbeAdd.c:44-60 | The rate and twice the digest make the 200 bytes of the state, for each of the four lengths |
| Rowsum.DigestsAre | not-fork.d/sqlite3/files/lumo-vdbeAdd.c:26-116 | Algorithms 1 to 4 are SHA-3 and 5 to 8 BLAKE3, with 64, 48, 32 and 28 bytes each |
| Rowsum.Digester.constructor | not-fork.d/sqlite3/files/lumo-vdbeAdd.c:44-88 | An algorithm of the table starts with nothing digested |
| Rowsum.Digester.Update | not-fork.d/sqlite3/files/lumo-vdbeAdd.c:44-83 | Pieces are appended, for SHA-3 and for BLAKE3 |
| Rowsum.Digester.Final | not-fork.d/sqlite3/files/lumo-vdbeAdd.c:51-77 | The digest is that of the joined pieces, cut to the length in the table |
| Varint.GetPut | not-fork.d/sqlite3/files/lumo-vdbeAdd.c:173-200 | Reading a written varint gives the value and its length, for every 32-bit value, wherever it stands |
| Varint.Spelled | not-fork.d/sqlite3/files/lumo-vdbeAdd.c:173-200 | The bytes of four numbers, the higher group of bits first |
| Varint.NineBytes | not-fork.d/sqlite3/files/lumo-vdbeAdd.c:324-345 | The ninth byte gives eight bits |
| Varint.TooLarge | not-fork.d/sqlite3/files/lumo-vdbeAdd.c:324-345 | A number over 32 bits reads as the largest one of 32 |
| Varint.LenNext | not-fork.d/sqlite3/files/lumo-vdbeAdd.c:257-263 | Adding up to 128 makes a varint at most one byte longer |
| LumoRecord.ExtensionPresent | not-fork.d/sqlite3/files/lumo-vdbeAdd.c:310-355 | The scanning loop ends on every input; what it finds is what FoundInTable and FoundInIndex describe |
| LumoRecord.ScanInHeader | not-fork.d/sqlite3/files/lumo-vdbeAdd.c:322-345 | If the last header byte ends a varint, the scan never passes the header, and the type read after it lies in it |
| LumoRecord.ScanEndsWithHeader | not-fork.d/sqlite3/files/lumo-vdbeAdd.c:324-330 | A scan that only the header stops ends exactly with it just when the rest of the header spells whole varints; else it has read past it |
| LumoRecord.ScanPastHeader | not-fork.d/sqlite3/files/lumo-vdbeAdd.c:324-330 | A header of two bytes whose last byte begins a varint, of which the scan reads a third byte |
| LumoRecord.FoundInTable | not-fork.d/sqlite3/files/lumo-vdbeAdd.c:322-355 | From every consistent resume point in a well-formed table record: the extension is the column after the last one wanted, if this is a long enough blob, with its start and length; else there is none |
| LumoRecord.FoundInIndex | not-fork.d/sqlite3/files/lumo-vdbeAdd.c:322-355 | From every consistent resume point in an index record with any tail, none included: the bytes after the record, less as many as the rowid has, are found where the record ended, if they are more than four or fewer than none |
| LumoRecord.PlainIndexMisread | not-fork.d/sqlite3/files/lumo-vdbeAdd.c:331-354 | An index record without extension is taken for one with an extension of nearly 2^64 bytes, since a negative length wraps, just when its rowid takes any bytes |
| LumoRecord.PlainIndexMisreadInput | not-fork.d/sqlite3/files/lumo-vdbeAdd.c:331-354 | The index record of the rowid 5 alone is misread |
| LumoRecord.SmallestRecords | not-fork.d/sqlite3/files/lumo-vdbeAdd.c:223-264 | A table record without columns and an index record of a rowid alone are such well-formed, minimally encoded records |
| LumoRecord.BadExactly | not-fork.d/sqlite3/files/lumo-vdbeAdd.c:238-244 | The types taken for corruption are just those that no 64-bit rowid has |
| LumoRecord.IntegerHeld | not-fork.d/sqlite3/files/lumo-vdbeAdd.c:223-264 | A type has the fewest bytes that hold its integers as signed numbers, and none for 0 and 1 |
| LumoRecord.OtherLengths | not-fork.d/sqlite3/files/lumo-vdbeAdd.c:223-264 | NULL and the unused types have no bytes, a floating-point number eight, a blob or a text any number |
| LumoExtension.ExtensionLengthIs | not-fork.d/sqlite3/files/lumo-vdbeAdd.c:134-157 | Magic, type, algorithm, length, digest and end type take the digest length plus 8 for every algorithm in the table |
| LumoExtension.ExtensionSize | not-fork.d/sqlite3/files/lumo-vdbeAdd.c:134-201 | What is written is exactly as long as was announced |
| LumoExtension.ExtensionSpelled | not-fork.d/sqlite3/files/lumo-vdbeAdd.c:161-201 | The extension byte by byte: Lumo, then 1, the algorithm, the length of the digest, the digest, and 0 |
| LumoExtension.WriteExtension | not-fork.d/sqlite3/files/lumo-vdbeAdd.c:161-201 | Writes magic, one rowsum entry with the digest of data and zeros, and the end type, and touches no byte outside |
| LumoExtension.DigestWithZeros | not-fork.d/sqlite3/files/lumo-vdbeAdd.c:179-197 | Zeros fed by 1024 and a rest give the digest of the data followed by that many zeros |
| LumoExtension.HeaderSizeRight | not-fork.d/sqlite3/files/lumo-vdbeAdd.c:257-264 | The header size written equals the bytes the header takes just when the old size varint was not longer than the new size needs; so always for a minimal one, across every varint boundary |
| LumoExtension.HeaderSizeWrongInput | not-fork.d/sqlite3/files/lumo-vdbeAdd.c:257-264 | A well-formed record of four bytes whose header size is written in two bytes gets a header size of 4 for a header of 3 bytes |
| LumoExtension.EnlargedRow | not-fork.d/sqlite3/files/lumo-vdbeAdd.c:257-302 | The enlarged table record is well formed: the old column types followed by the new one, the old bodies with their zeros, and the new body last |
| LumoExtension.BlobTypeIs | not-fork.d/sqlite3/files/lumo-vdbeAdd.c:255-258 | The new column is a blob of exactly the length of the extension, long enough to be looked at |
| LumoExtension.ExtensionAdd | not-fork.d/sqlite3/files/lumo-vdbeAdd.c:207-307 | On every record whose header is inside it, zeros or not: writes header, columns and zeros, the extension over these and the spare bytes, for an index the rowid again, and leaves the spare bytes as zeros; a rowid type that no integer has is corruption, every type that one has is not, and an unknown algorithm adds nothing |
| LumoExtension.SumIs | not-fork.d/sqlite3/files/lumo-vdbeAdd.c:265-268 | The bytes allocated and hashed are those written and as many spare ones as the old size was written longer than the new one needs |
| LumoExtension.EnlargedIsExtended | not-fork.d/sqlite3/files/lumo-vdbeAdd.c:207-307 | For a well-formed, minimally encoded record nothing is spare: the result is the enlarged record with the extension over its first part, or for an index the old bytes, the extension and the rowid again |
| LumoExtension.FoundAfterAddTable | not-fork.d/sqlite3/files/lumo-vdbeAdd.c:207-355 | In the record just written, from every consistent resume point, the extension is found at the bytes that were digested, with its announced length |
| LumoExtension.FoundAfterAddIndex | not-fork.d/sqlite3/files/lumo-vdbeAdd.c:207-355 | An enlarged index record keeps its old bytes as prefix and its rowid as last bytes, and the extension is found between them |
| LumoVerify.DigestOfPayload | not-fork.d/sqlite3/files/lumo-vdbeAdd.c:376-389 | Pieces of 4096 bytes and a rest give the digest of the first nSum bytes, or nothing just when the payload is shorter |
| LumoVerify.CheckRowsum | not-fork.d/sqlite3/files/lumo-vdbeAdd.c:358-394 | Zero just for an entry of the wrong length; the entry stays needed unless it matches or its algorithm is unknown, also when the payload cannot be read |
| LumoVerify.ReadsWithin | not-fork.d/sqlite3/files/lumo-vdbeAdd.c:411-420 | No varint that starts before the end byte of zero is read past it |
| LumoVerify.ReadEntry | not-fork.d/sqlite3/files/lumo-vdbeAdd.c:413-427 | One step of the parse makes progress and stays before the end, or shows that the entries are broken |
| LumoVerify.ExtensionHandle | not-fork.d/sqlite3/files/lumo-vdbeAdd.c:397-433 | Ends inside its bounds on every input, readable payload or not: 0 just without the magic, 1 just when all entries parse, none is of the wrong length and, at level 2, one satisfies |
| LumoVerify.WrittenIsAccepted | not-fork.d/sqlite3/files/lumo-vdbeAdd.c:161-201 | An extension as written is accepted over the data it was made for, at every level |
| LumoVerify.RoundTripTable | not-fork.d/sqlite3/files/lumo-vdbeAdd.c:207-433 | Adding, finding and verifying a table record accepts it, for every algorithm, every resume point and every level |
| LumoVerify.RoundTripIndex | not-fork.d/sqlite3/files/lumo-vdbeAdd.c:207-433 | The same for an index record whose rowid has the type of any 64-bit integer |
| LumoVerify.AcceptedExactly | not-fork.d/sqlite3/files/lumo-vdbeAdd.c:358-432 | At level 2, with any number of row sums, acceptance means that none has a digest of the wrong length and at least one is of an unknown algorithm or is the digest of the data, and conversely; of data that cannot be read only the empty digest will do |
| LumoVerify.AcceptedBelow | not-fork.d/sqlite3/files/lumo-vdbeAdd.c:366-431 | At level 0 whatever parses is accepted; at level 1 just what has no row sum of a wrong length besides |
| LumoVerify.MismatchAccepted | not-fork.d/sqlite3/files/lumo-vdbeAdd.c:358-432 | A row sum with a wrong digest of the right length is let pass at level 2 just when all others have the right length and one of them is of an unknown algorithm, is empty, or is the digest of the data |
| LumoVerify.ParsesBack | not-fork.d/sqlite3/files/lumo-vdbeAdd.c:411-427 | Any list of entries whose numbers fit 32 bits and whose types are not that of the end, written behind the magic and closed by the end byte, parses as this very list |
| LumoVerify.LevelOneIgnoresDigests | not-fork.d/sqlite3/files/lumo-vdbeAdd.c:423-431 | At level 1 the extension of any data is accepted over any other data, readable or not; at level 2 over readable data just when the digests agree |
| LumoVerify.WrongDigestInput | not-fork.d/sqlite3/files/lumo-vdbeAdd.c:366-431 | Any wrong digest of the right length is accepted at level 1; at level 2 it is refused alone and accepted with an empty row sum behind it |
| LmdbRuns.RunsAreSerial | not-fork.d/lmdb/files/btree.c:901-1071 | In every run of any number of connections in any mix of transaction types, where a refused upgrade is answered by rollback and fewer than 2^32 commits fall between a transaction and the version it works on, every committed transaction, its lookups, cursor moves, writes, deletes and savepoints, replays alone from the state of the commit before it: the commits are a serial history |
| LmdbRuns.RunsAreSerialExactly | not-fork.d/lmdb/files/btree.c:901-1071 | Whatever is done after a refused upgrade, the commits are a serial history just when everything a committing transaction had looked up or scanned before a refusal, rows that were not there included, is found the same in the version it was refused on |
| LmdbRuns.CommitSerialExactly | not-fork.d/lmdb/files/btree.c:951-1071 | In every reachable world a commit keeps the history serial just when all lookups and cursor moves made before a refusal find the same in the last version; a condition to check before the commit |
| LmdbRuns.RunsAloneExactly | not-fork.d/lmdb/files/btree.c:951-954 | A transaction that asked again replays alone from the version it was refused on just when all it had looked up or scanned before is found the same there |
| LmdbRuns.StepKeeps | not-fork.d/lmdb/files/btree.c:901-1252 | Every step of every connection, whatever it does after a refusal, keeps the invariant of the world: what each transaction did on its version leads to its stack, and what it did before a refusal were only reads; others may commit between the two halves of asking again |
| LmdbRuns.UpgradeAccepted | not-fork.d/lmdb/files/btree.c:922-955 | An optimistic upgrade, the first or another, is accepted just when the commits since the version the transaction works on are a multiple of 2^32 |
| LmdbRuns.UpgradeKeepsCursors | not-fork.d/lmdb/files/btree.c:922-955 | Through an accepted upgrade every positioned cursor, and every one that an earlier upgrade saved and closed, finds its saved row in the new transaction and stands on it again |
| LmdbRuns.AskingAgainLosesAnUpdate | not-fork.d/lmdb/files/btree.c:951-954 | A run of ten steps in which a caller asks again after a refused upgrade and commits over a lost update: its commits are no serial history |
| LmdbRuns.AskingAgainMissesARow | not-fork.d/lmdb/files/btree.c:951-954 | A run in which the row that was read is unchanged, but a row was added behind it in the range that was scanned: the second append writes over the first, and the commits are no serial history |
| LmdbRuns.AskingAgain | not-fork.d/lmdb/files/btree.c:922-954 | For every first read and every write: if the write changes what the read finds, two transactions that both do this, the first refused and asking again, make commits that are no serial history |
| LmdbRuns.CounterGoneRound | not-fork.d/lmdb/files/btree.c:310-320 | After every positive multiple of 2^32 serial commits the upgrade of a transaction that read before them is accepted, and its commit makes the history no longer serial |
| LmdbRuns.NoOrderExplains | not-fork.d/lmdb/files/btree.c:922-955 | The two transactions of that run have no serial order at all |
| LmdbModel.CountersAgree | not-fork.d/lmdb/files/btree.c:310-320 | Two versions of the store read the same counter just when the number of commits between them is a multiple of 2^32, because the counter passes through 32 bits |
| LmdbModel.CounterIsSigned | not-fork.d/lmdb/files/btree.c:310-320 | The counter read is the signed 32-bit number that agrees with the stored one in the low 32 bits, extended to 64 |
| LmdbModel.LooksFindOne | not-fork.d/lmdb/files/btree.c:2087-2137 | Moving to the first, last, next or previous row, or to the first at or above a key, has exactly one answer on every table |
| LmdbModel.FoundAfter | not-fork.d/lmdb/files/btree.c:1843-1861 | After a write the row written is found, after a delete it is not, after a clear nothing is, and all else is as it was |
| LmdbModel.ClosedExactly | not-fork.d/lmdb/files/btree.c:533-554 | Closing savepoints leaves exactly the entries up to the survivor, which keeps its view or takes over the top one |
| LmdbModel.SurvivorIs | not-fork.d/lmdb/files/btree.c:538 | The survivor is the topmost entry of the level asked for, or the main transaction |
| LmdbModel.ClosesAboveExactly | not-fork.d/lmdb/files/btree.c:526-554 | Exactly the entries above the level are closed just when the level is on the stack or all entries are above it; otherwise too much is closed |
| LmdbModel.ClosesTooMuchInput | not-fork.d/lmdb/files/btree.c:533-554 | With levels 1 and 3 open, closing to level 2 closes level 1 too |
| LmdbModel.CommitCloses | not-fork.d/lmdb/files/btree.c:1035-1071 | Closing everything for a commit folds the top view into the main transaction; for a rollback it leaves the main view |
| LmdbModel.RollbackAllEnds | not-fork.d/lmdb/files/btree.c:1229-1252 | Rolling back to -1 ends the transaction, except just when a savepoint is open and a cursor cannot be saved |
| LmdbModel.RollbackAllEndsInput | not-fork.d/lmdb/files/btree.c:1229-1252 | A write transaction without savepoints or cursors is ended by it |
| LmdbModel.ClosedKeeps | not-fork.d/lmdb/files/btree.c:533-554 | Closing keeps the levels in order and every entry on the counter of the main transaction |
| LmdbModel.NestedAndClosed | not-fork.d/lmdb/files/btree.c:1124-1252 | A nested transaction starts with what its parent sees, and closing it gives the parent all that it made of that, or nothing |
| LmdbModel.NoneLiveAfter | not-fork.d/lmdb/files/btree.c:485-524 | After cursors are invalidated none is live, and doing it again changes nothing |
| LmdbModel.TrippedExactly | not-fork.d/lmdb/files/btree.c:485-524 | Just the live cursors are tripped, and of them only the writers if only these are meant |
| LmdbModel.RestoredExactly | not-fork.d/lmdb/files/btree.c:1612-1655 | A saved cursor is restored, onto its row, just when it was not tripped and the row is there; a tripped one gives its code |
| LmdbModel.EndsCursors | not-fork.d/lmdb/files/btree.c:1035-1104 | After a commit or a rollback no cursor is live, but for readers when a rollback trips only writers |
| LmdbModel.UpgradeByType | not-fork.d/lmdb/files/btree.c:913-968 | A transaction that reads and is asked to write is refused unchanged if the database is read-only or its type forbids it, is let through unchanged if it was begun as a writer, and otherwise goes by the counters |
| LmdbModel.BeginByType | not-fork.d/lmdb/files/btree.c:901-1007 | A transaction begins on the latest version; a write on a read-only database is refused; only the serialising type takes the writer lock for reading; in a write transaction every request is granted |
| LmdbBtree.Btree.BeginTrans | not-fork.d/lmdb/files/btree.c:901-1007 | Code, cursors, stack and state in all cases: already writing, read-only, refused upgrade, upgrade by policy, first begin; commits of others come in between only while waiting for the writer |
| LmdbBtree.Btree.UpgradeOptimistically | not-fork.d/lmdb/files/btree.c:922-955 | The counters before and after decide, over whatever commits others made in between |
| LmdbBtree.Btree.BeginStmt | not-fork.d/lmdb/files/btree.c:1124-1141 | Pushes a nested transaction with the view of its parent |
| LmdbBtree.Btree.CloseAllSavepoints | not-fork.d/lmdb/files/btree.c:533-554 | The loop pops, invalidates and folds exactly as the recursive definition says; one cursor that cannot be saved turns the rest into aborts |
| LmdbBtree.Btree.InvalidateCursors | not-fork.d/lmdb/files/btree.c:485-524 | Every live cursor is saved and closed, or tripped, and the failure of any is reported |
| LmdbBtree.Btree.Publish | not-fork.d/lmdb/files/btree.c:1043-1054 | One more version: that of the top transaction with the counter stepped |
| LmdbBtree.Btree.CommitPhaseOne | not-fork.d/lmdb/files/btree.c:1035-1071 | Publishes exactly the top view with the counter stepped once, or nothing for a reader, and leaves no transaction |
| LmdbBtree.Btree.Rollback | not-fork.d/lmdb/files/btree.c:1092-1104 | Publishes nothing, whatever is on the stack |
| LmdbBtree.Btree.Savepoint | not-fork.d/lmdb/files/btree.c:1229-1252 | Release folds and rollback discards the entries above the level; nothing is published |
| LmdbBtree.Btree.Delete | not-fork.d/lmdb/files/btree.c:1843-1861 | The row is found no more in the top transaction, and every other row is found as before |
| LmdbBtree.Btree.Clear | not-fork.d/lmdb/files/btree.c:1338-1357 | No row is found any more, and the number there was is given |
| LmdbBtree.Btree.Put | not-fork.d/lmdb/files/btree.c:1919-1990 | The row is found with its new value, and every other row as before |
| LmdbBtree.Env.BeginWrite | not-fork.d/lmdb/files/btree.c:936 | The writer waits: it begins on the last version after any number of commits of others |
| LmdbBtree.Env.Commit | not-fork.d/lmdb/files/btree.c:1054 | One more version, and the writer is free again |
| LmdbCursorList.CursorList.Open | not-fork.d/lmdb/files/btree.c:1453-1498 | A cursor that opens is last in the list; a listed one is refused just when it has a neighbour, and the only one of a list becomes its own neighbour, after which the links form no list; one whose table does not open keeps its owner and leaves the list as it is |
| LmdbCursorList.CursorList.Append | not-fork.d/lmdb/files/btree.c:1488-1495 | A new cursor becomes the last of the list, and all other links stay; the only cursor of the list is linked to itself |
| LmdbCursorList.CursorList.Close | not-fork.d/lmdb/files/btree.c:1542-1610 | From any place in the list exactly this cursor is taken out and the rest keeps its order; closing one that failed to open empties the list, which is right just when it was empty |
| LmdbCursorList.DoCalls | not-fork.d/lmdb/files/btree.c:1453-1610 | After any sequence of opening zeroed cursors, opening some whose table does not open, and closing what is open, the list is that of the cursors opened and not closed, in the order of opening |
| LmdbCursorList.StillOpenWithout | not-fork.d/lmdb/files/btree.c:1542-1610 | Closing the i-th cursor takes out the one entry that it is on, behind as many as were opened before it and are open |
| LmdbCursorList.FailedOpenInput | not-fork.d/lmdb/files/btree.c:1473-1610 | A list of one cursor is cut off by closing another whose table did not open |
| LmdbCursorList.OpenedTwiceInput | not-fork.d/lmdb/files/btree.c:1464-1498 | A list of one cursor that is opened again is no list any more |
| LmdbCursorList.CursorList.Walk | not-fork.d/lmdb/files/btree.c:495-498 | Following next from the first meets every cursor once, in order |
| LmdbCursorList.CursorList.WalkBack | not-fork.d/lmdb/files/btree.c:1591-1598 | Following prev from the last meets them in the opposite order |
| LmdbCursorList.CursorList.Unlink | not-fork.d/lmdb/files/btree.c:1591-1599 | Sets just the neighbours or the ends, and the owner of the cursor |
| LmdbRowidKey.NumberOfKey | not-fork.d/lmdb/files/btree.c:198-225 | The key of every number reads back as the number |
| LmdbRowidKey.KeyLength | not-fork.d/lmdb/files/btree.c:198-225 | A key has no byte more than the number needs |
| LmdbRowidKey.KeyFits | not-fork.d/lmdb/files/btree.c:212-225 | A 64-bit number takes at most eight bytes |
| LmdbRowidKey.Put8 | not-fork.d/lmdb/files/btree.c:212-225 | Fills the end of the buffer with exactly the key |
| LmdbRowidKey.Get8 | not-fork.d/lmdb/files/btree.c:200-210 | Gives the number of the bytes modulo 2^64, also for longer keys |
| LmdbRowidKey.RowidCompare | not-fork.d/lmdb/files/btree.c:433-437 | Shorter keys first, then the first difference decides |
| LmdbRowidKey.CompareIsUnsigned | not-fork.d/lmdb/files/btree.c:433-437 | Comparing keys is comparing unsigned numbers |
| LmdbRowidKey.TableMoveto | not-fork.d/lmdb/files/btree.c:1664-1701 | The cursor is left on the first entry that is not below the key wanted, unsigned, if there is one, and else on the first entry of all, and the sign given is that of the entry it is on; on an empty table it is negative |
| LmdbRowidKey.SignedOrder | not-fork.d/lmdb/files/btree.c:433-437 | The order of keys is the order of the signed rowids just when both have the same sign |
| LmdbRowidKey.SignedOrderInput | not-fork.d/lmdb/files/btree.c:433-437 | The key of -1 comes after that of 0 |
| GenerationLock.RunsAreSafe | not-fork.d/bdb/files/btree.c:8076-8207 | In every run of any number of processes and threads, at every moment: a write lock excludes the holders of all other processes, every process has the file locked as its requests call for and not at all without one, holders know the shared generation, and their environment is current just when it was opened or reopened and no request without reopening took over a changed counter since; and every reopening happens while no thread of the process holds a lock |
| GenerationLock.SoundFits | not-fork.d/bdb/files/btree.c:8178-8207 | A write lock on the file has a write request, any lock has some request, and every holder has the lock it needs |
| GenerationLock.HoldersAreCurrent | not-fork.d/bdb/files/btree.c:1866-1911 | When every request without reopening, and the creator of the file, opens the environment before unlocking, and other requests come only once it is open, every holder is current whenever no such request is under way |
| GenerationLock.OpeningProperly | not-fork.d/bdb/files/btree.c:1866-1911 | A run in which a thread opens the environment properly and another is let in for free meanwhile |
| GenerationLock.CurrentExactly | not-fork.d/bdb/files/btree.c:8076-8207 | In every run a process that knows the counter is current just when it opened or reopened its environment and hid no change since |
| GenerationLock.RunsKeep | not-fork.d/bdb/files/btree.c:7999-8207 | The invariant holds in every reachable state of any number of processes and threads |
| GenerationLock.StepKeeps | not-fork.d/bdb/files/btree.c:8076-8207 | Every step of every thread keeps the invariant |
| GenerationLock.WritersExclude | not-fork.d/bdb/files/btree.c:8109-8164 | While a thread of a process is inside a write lock, no thread of another process holds a lock of either kind |
| GenerationLock.HoldersKnow | not-fork.d/bdb/files/btree.c:8096-8102 | A process with a holder has the shared generation |
| GenerationLock.ChangesMetAlone | not-fork.d/bdb/files/btree.c:8093-8158 | A changed counter is met only by a request that is alone in its process |
| GenerationLock.GrantsAreCurrent | not-fork.d/bdb/files/btree.c:8082-8163 | In every run a request that may reopen is let in, with the file or for free, with the shared generation, and with a current environment just when it has reopened it now, or it was opened or reopened before and no request without reopening took over a change since |
| GenerationLock.SkippingHidesAChange | not-fork.d/bdb/files/btree.c:8098-8102 | A run in which a lock taken without reopening hides a change from the next one, which asked for reopening |
| GenerationLockFile.LockFileInfo.constructor | not-fork.d/bdb/files/btree.c:7999-8074 | The creator of the file writes generation 0 to it and starts with a write lock; others leave the file as it is and start unlocked, on the generation they read |
| GenerationLockFile.LockFileInfo.BeginRead | not-fork.d/bdb/files/btree.c:8085-8094 | Counts the reader; the file is locked just for the first one without a writer, others pass |
| GenerationLockFile.LockFileInfo.FinishRead | not-fork.d/bdb/files/btree.c:8096-8105 | Reopens just when the shared generation is another one and the request may reopen, and takes the generation over in any case |
| GenerationLockFile.LockFileInfo.BeginWrite | not-fork.d/bdb/files/btree.c:8119-8139 | Counts the writer; the first one, and those while one waits, go to the file, without the mutex just when there are readers |
| GenerationLockFile.LockFileInfo.FinishWrite | not-fork.d/bdb/files/btree.c:8144-8162 | Steps the shared generation by one and takes the new one; reopens just if it was behind before |
| GenerationLockFile.LockFileInfo.Unlock | not-fork.d/bdb/files/btree.c:8178-8207 | The last one unlocks, the last writer with readers left downgrades, everyone else changes only a count |
| BdbIndexKey.SplitThenCreate | not-fork.d/bdb/files/btree.c:5020-5056 | Taking the rowid out of an index key and putting it back restores the key byte for byte, also at the size where the header size varint changes its length |
| BdbIndexKey.SplitSpelled | not-fork.d/bdb/files/btree.c:4296-4310 | The key of a column 7 and the rowid 5, taken apart into literal bytes |
| BdbIndexKey.JoinSpelled | not-fork.d/bdb/files/btree.c:5024-5056 | And those put together again |
| BdbIndexKey.SplitIndexKey | not-fork.d/bdb/files/btree.c:4296-4310 | The overlapping move in place leaves the key without rowid followed by its type and value |
| BdbIndexKey.CreateIndexKey | not-fork.d/bdb/files/btree.c:5024-5056 | The new buffer is the key with type byte and value put back and the header size written over |
| BdbPragmaFile.PragmaFile.SetPersistentPragma | not-fork.d/bdb/files/db_pragma.c:2275-2356 | On a file in order, or none, every set keeps it in order: sound header and records, live records apart, the next place at the end and growing, and the file holds the old values with this one set |
| BdbPragmaFile.PragmaFile.GetPersistentPragma | not-fork.d/bdb/files/db_pragma.c:2177-2269 | Gives the value last set, or none, from the cache or from the file, after any mix of sets, gets and reopening |
| BdbPragmaFile.PragmaFile.constructor | not-fork.d/bdb/files/db_pragma.c:2216-2227 | A connection opened on what an earlier one left has an empty cache and the same values |
| BdbPragmaFile.PragmaFile.InsertPragmaIntoFile | not-fork.d/bdb/files/db_pragma.c:1902-2026 | Writes header and record, creating the file if there is none; a corrupt header deletes the file and resets the cache |
| BdbPragmaFile.PragmaFile.ReadPragmaFromFile | not-fork.d/bdb/files/db_pragma.c:2032-2170 | On every file, sound or not: Ok just when the header and all records asked for are sound, and then exactly these are in the cache; the cache counts as loaded just when no record ended behind the file |
| BdbPragmaFile.PragmaFile.LoadValues | not-fork.d/bdb/files/db_pragma.c:2093-2144 | Ok just when every record of the range is inside the file with a fitting checksum; then the entries hold the values of the file; a wrong checksum is passed over, a record behind the end stops the loading |
| BdbPragmaFile.InsertedHolds | not-fork.d/bdb/files/db_pragma.c:1966-2020 | A record added at the end moves the pragma there, leaves the other records alone and keeps them apart |
| BdbPragmaFile.RelocatedFields | not-fork.d/bdb/files/db_pragma.c:2001-2012 | Of the header only size and place of the pragma and the next place change |
| BdbPragmaFile.CreatedHolds | not-fork.d/bdb/files/db_pragma.c:1938-1965 | A new file holds the version and the pragma it was made for |
| BdbPragmaFile.CreatedSpelled | not-fork.d/bdb/files/db_pragma.c:1938-1965 | The numbers, places and records of a new file with one pragma, spelled out |
| BdbPragmaFile.FourSpelled | not-fork.d/bdb/files/db_pragma.c:1931-1965 | A 32-bit number has its lowest byte first |
| BdbPragmaFile.OldIsMarked | not-fork.d/bdb/files/db_pragma.c:1991-2000 | The old record of a pragma is marked as dead just when its place is no multiple of 256, because one byte of the place is tested instead of four |
| BdbPragmaFile.OldStaysUnmarkedInput | not-fork.d/bdb/files/db_pragma.c:1991-2000 | A file reached by three sets whose old record lies at 512 and stays unmarked |
| BdbPragmaFile.LoadedIsCached | not-fork.d/bdb/files/db_pragma.c:2085-2147 | Records of a file in order are sound, and loading gives exactly the values set |

## Left out

- Blake3Hasher.Hasher.Update: the total stays below 2^64 bytes, the range of the byte position in the specification; longer inputs wrap the counter.
- Blake3Hasher.Hasher.FinalizeSeek: the seek position is unbounded, so the wrap of a 64-bit seek near its end is not modelled.
- The slots of the stack and of the scratch arrays are values of 32 bytes, not ranges of one byte array.
- The SIMD kernels, CPU detection and the choice among them: one call that hashes many inputs stands for all; of the kernels only the portable one is modelled.
- Keyed hashing and key derivation: the key and the flags are part of the mode, for which everything holds, but these entry points are not modelled.
- Sha3.Context.Update: the alignment of the input is a parameter, since addresses are not modelled.
- LumoRecord.ExtensionPresent: a varint that would run over the end of the buffer is cut off there; the code would read on.
- The caller in not-fork.d/sqlite3/vdbe-changes.mod:184-203 that decides when to look for an extension and what to do when it is missing.
- LumoExtension.ExtensionAdd: the header is inside the record, the rowid of an index record not longer than the record, and the record small enough for the 32-bit numbers of the code, as the code relies on; allocation succeeds.
- LumoVerify.ExtensionHandle: of failures to read the payload, only those past its end.
- LMDB itself: versions, one writer, nested transactions and ordered keys are taken as its interface says.
- LmdbRuns.RunsAreSerial: calls into LMDB succeed apart from being refused as busy, and a transaction type is not changed while a connection is open.
- LmdbRuns.RunsAreSerial: writing the lmdb_transaction pragma, which commits without stepping the counter, is not among the steps.
- LmdbBtree.Btree.CommitPhaseOne: the step of the counter is taken on 64 bits; the code takes it on a 32-bit int, which overflows at 2^31 - 1. If the int wraps, the low 32 bits, the only ones ever compared, are the same. The counter can be written and LMDB commits.
- LmdbRuns.RunsAreSerial: where the cursors are between calls is left open; what a cursor move finds is a step of its own.
- LmdbBtree.Btree.BeginStmt: nested transactions are begun inside a write transaction, with a growing level, as SQLite does.
- LmdbBtree.Btree.UpgradeOptimistically: the new write transaction can be begun; a failure there would leave no stack at all.
- LmdbBtree.Btree.BeginTrans: the meta table exists, so its flag is always set; the schema version is not part of the state.
- LmdbBtree.Btree: the stack of savepoints is a sequence whose last element is the top, not a linked list; the list of cursors is linked in `LmdbCursorList` and a sequence elsewhere.
- LmdbRuns.UpgradeKeepsCursors: rowid tables only; repositioning a cursor of an index is not modelled, nor are keys over 479 bytes.
- LmdbCursorList.CursorList.Open: allocation and the first positioning of the cursor.
- GenerationLock.RunsKeep: lock calls are granted or wait for ever; failed calls, deadlock and progress are not modelled.
- GenerationLock.RunsKeep: an environment is opened in one step while a lock is held.
- GenerationLock.RunsKeep: the generation does not overflow, and the file was set up before the first step, so the race for creating it is not modelled.
- GenerationLockFile.LockFileInfo.BeginRead: the result the C function leaves uninitialised when the lock is passed for free.
- BdbIndexKey.SplitIndexKey: at 128 bytes of header the shorter size varint leaves a byte of the old one behind; the key in between is then no well-formed record, and only the round trip is stated.
- Berkeley DB itself, its savepoints with deleted tables, bulk mode and incremental blobs.
- BdbPragmaFile.PragmaFile.SetPersistentPragma: the pragmas 1 to 7, on a database with a name, while the place of the next record fits in 32 bits; files, locks and allocation do not fail.
- BdbPragmaFile.PragmaFile.GetPersistentPragma: no other process sets a pragma between a load and a get, since the cache would not notice.
- BdbPragmaFile.PragmaFile.ReadPragmaFromFile: the repair of single corrupt records is not modelled, nor the extra round of the loading loop at index NUM_DB_PRAGMA, one past the last pragma; a 32-bit number in memory has its lowest byte first.
- The parser of the pragma commands, replication, error codes, logging, stubs and the build and benchmark tools.
