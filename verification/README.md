# BLAKE3, block buffers and constant-time comparison: a verified model

This project models the hashing code that the repository vendors under `patches/`, and
proves what its several implementations of the same thing have in common.

- `patches/blake3` hashes a byte string as a left-full binary tree over 1024-byte chunks
  (BLAKE3 paper, sections 2.1, 2.4 and 2.5). It builds that tree in ways that look nothing
  like each other: a recursive hasher that carries a whole row of chaining values up the
  tree, as many as the vector unit hashes at once; an incremental hasher in Rust with a
  stack of chaining values that it merges by looking at the popcount of the chunk counter;
  and a C port over fixed buffers. The compression function, too, exists in several forms:
  sixteen words mixed by a schedule, four vector registers shuffled from round to round,
  and transposed vectors with one input in each lane.
- `patches/block-buffer` cuts input into blocks and generated blocks into reads, with the
  cursor hidden inside the block.
- `patches/constant_time_eq` compares byte strings a word or a vector at a time.

## How it is built

`Blake3Tree` is the one definition of the tree: nodes, chunks, the root, and the output
stream of a root node. Every hasher is proved against it. The compression function is a
parameter of the hashing mode there, so the theorems about trees, stacks and streams hold of
every compression function. `HashTree` hides even the chunks, so that the lemmas about rows
of chaining values are about nothing but the shape of the tree.

- `Sequences`, `Bits`, `Words`: joining sequences, powers of two, alignment, binary digits, and
  little-endian conversions.
- `ChunkHashing`: the state of one chunk, used by both hashers.
- `Domains`: which flag bits every compression carries. Nodes come from compressions without the
  root bit alone, and hashes and output from compressions with it alone.
- `WideTree` and `Subtree`: rows of chaining values and the recursive wide hasher. The key
  fact is `MergeTreeSplit`: a full row of a power of two of values and a row that is no longer
  reduce to the parent of what each reduces to. A join may run its sides in either order.
- `CvStack`: the stack of chaining values as a function of the chunks so far, and why
  comparing its length with a popcount only ever merges siblings.
- `Hashing` and `CHashing`: the Rust and the C hasher as classes. `Valid()` says that the
  state accounts for exactly the input so far; every update keeps it.
- `OutputStream` and `ExtendedOutput`: the output stream and the reader.
- `Arx`: the mixing network for any kind of word. A lane of a vector carries the word
  operations over (`Carries`), and therefore whole rounds. The operations of the portable code,
  of the Rust vector code and of the C port rotate in different ways and agree (`Agree`).
- `Portable`, `RowCompress`: the compression function on an array of words and on four rows.
- `Lanes`, `LaneHash`, `LaneXof`, `Units`, `VectorHash`: the transposed form, once for any
  vector unit, and the units with four, eight and sixteen lanes. `hash_many` and `xof_many` of
  every unit have the contract of the portable loop (`Hashed`, `Stream`).
- `Counters`, `CBits`: the carry and bit tricks of the C code. Each unit loads its counters the
  way its code does.
- `Platforms`: the units by name, and what the code dispatches to them. Chunks, both hashers and
  the reader run on a platform and call the detected unit's `compress_in_place`, `compress_xof`,
  `hash_many` and `xof_many`. One more platform takes any compression function as it is given,
  so that the theorems about the tree stay general.
- `Blake3`: the real compression function put in, any two units side by side, the modes of
  hashing and key derivation, and the initial vector.
- `ByteBlocks`, `BlockBuffers`, `ReadBuffers`, `ConstantTimeEq`: the two smaller libraries.

Code that changes things in place is imperative here too: classes with the source's fields,
arrays that are overwritten, loops where the source has loops. What such a method computes is
stated by a function of the old state, and the lemmas are about that function.

## Where the code and its documentation disagree

- `compress_subtree_wide` is documented to return as many chaining values as the SIMD degree
  unless the input has fewer chunks (`patches/blake3/src/lib.rs:752-768`). It can return fewer
  for longer inputs: three for five chunks at degree four (`WideCountCanFallShort`).
  `WideCountExactly` says how many, and `WideCountFallsShort` for which numbers of chunks they are
  too few.
- `ReadBuffer::write_block` is documented to panic when the length is bigger than the block
  size (`patches/block-buffer/src/read.rs:99-100`); the code panics when it is equal, too
  (`WriteFullBlock`). `WritePanicsAsDocumented` says that this is the only difference. The one
  caller never passes that much.
- `BlockBuffer::set` is documented to panic when the position is bigger than or equal to the
  block size (`patches/block-buffer/src/lib.rs:250-253`); for a lazy buffer the code accepts a
  position equal to it (`SetFullLazyBlock`), and `SetPanicsAsDocumented` says that it differs
  nowhere else.

## Model

| member | source | states |
|---|---|---|
| `Hashing.HashParts` | patches/blake3/src/lib.rs:1197-1369 | However the input is cut into `update` calls, at every SIMD degree and for every compression function, key and flags, the final output node is the root of the left-full tree over the whole input, the same node that hashing all at once gives |
| `Subtree.HashAllAtOnce` | patches/blake3/src/lib.rs:870-890 | The one-shot hasher returns the root node of the left-full tree, for every input and SIMD degree |
| `Blake3.SameOnEveryUnit` | patches/blake3/src/platform.rs:123-348 | The hash function itself: any two of the modelled units, with the buffers of any build that has them, either port, any cut of the same input, and any stretch of the output give the same bytes |
| `CHashing.BothPorts` | patches/blake3/c/blake3.c:89-116 | The C port and the Rust code give the same bytes of the output stream for any two cuts of the same input, any seek and any length, each on any platform that runs the mode |
| `CHashing.HashPartsAndSeek` | patches/blake3/c/blake3.c:475-645 | Any run of `blake3_hasher_update` followed by `blake3_hasher_finalize_seek` writes exactly the requested stretch of the stream of the input's root node |
| `Blake3Tree.HashTree.SubtreeSplit` | patches/blake3/src/lib.rs:654-659 | A left half of a power of two of chunks and a right half that is no longer meet in one parent node |
| `Blake3Tree.LeftChunks` | patches/blake3/src/lib.rs:654-659 | The left subtree takes a power of two of chunks, leaves at least one byte, and is at least as long as the right one |
| `Blake3Tree.LeftChunksIs` | patches/blake3/src/lib.rs:654-659 | Only one power of two does that |
| `Subtree.LeftLen` | patches/blake3/src/lib.rs:654-659 | `left_len`, computed by rounding down, is the length of the left subtree |
| `Blake3Tree.Mode.ChunkOutputSplit` | patches/blake3/src/lib.rs:564-574 | The node of a chunk is fixed by its inner blocks and its last block |
| `Blake3Tree.HalvesOfParent` | patches/blake3/src/lib.rs:1004-1022 | Both chaining values can be read back out of a parent's block |
| `Domains.NodesNeedNoRoot` | patches/blake3/src/lib.rs:179-189 | Changing the compression function wherever flag bit 3 is set changes no node of any tree, the root node included |
| `Domains.OutputNeedsRoot` | patches/blake3/src/lib.rs:439-455 | Changing it wherever bit 3 is clear changes no hash and no output of a node |
| `Domains.RootMarks` | patches/blake3/src/lib.rs:439-455 | Finalizing a node compresses it with its own flag bits and bit 3 |
| `Domains.NodeMarks` | patches/blake3/src/lib.rs:564-574 | The top node of any input has bit 2 exactly when it is longer than a chunk, bit 1 exactly when it is not, bit 0 exactly when it fits a block, and bit 3 clear, on top of the bits of the mode |
| `Domains.InnerBlockMarks` | patches/blake3/src/lib.rs:525-562 | A block of a chunk before its last one is compressed with bit 0 exactly when it is the first, and bits 1, 2 and 3 clear |
| `Domains.ChunkMarks` | patches/blake3/src/lib.rs:564-574 | The last block of a chunk has bit 1, bit 0 exactly when it is also the first, and bits 2 and 3 clear |
| `Domains.ParentMarks` | patches/blake3/src/lib.rs:1004-1022 | A parent has bit 2, and bits 0, 1 and 3 clear |
| `Blake3.ModesApart` | patches/blake3/src/lib.rs:183-189 | Hashing has no mode bit, a keyed hash only bit 4, the context of a key derivation only bit 5 and its material only bit 6 |
| `Blake3.KeysCount` | patches/blake3/src/lib.rs:994-1002 | The key of a mode reads back as the key bytes it was made of, so other keys and other contexts' hashes give other modes |
| `Blake3.IvIsRoots` | patches/blake3/src/lib.rs:165-167 | The initial vector holds the first 32 fractional bits of the square roots of the first eight primes |
| `Blake3.Limits` | patches/blake3/src/lib.rs:151-154 | The longest input and the furthest output position are 2^64 bytes, which are 2^54 chunks |
| `ChunkHashing.ChunkState.Update` | patches/blake3/src/lib.rs:525-562 | Absorbing input appends it to the bytes of the chunk and keeps the last block uncompressed, however it is cut |
| `ChunkHashing.ChunkState.StateDependsOnData` | patches/blake3/src/lib.rs:480-562 | After any split of a chunk's bytes all blocks but the last are compressed and the last is zero-padded in the buffer |
| `ChunkHashing.ChunkState.FillBuf` | patches/blake3/src/lib.rs:507-513 | Takes as much as fits, and leaves the rest only when the buffer is full |
| `ChunkHashing.ChunkState.Output` | patches/blake3/src/lib.rs:564-574 | The state's node is the node of the chunk's bytes |
| `ChunkHashing.ChunkState.Len` | patches/blake3/src/lib.rs:503-505 | The number of bytes absorbed |
| `ChunkHashing.ChunkState.FillChunk` | patches/blake3/src/lib.rs:1200-1204 | Fills up the current chunk; bytes are left over only when it is full |
| `ChunkHashing.ChunkState.Reset` | patches/blake3/c/blake3.c:20-27 | Resetting in place gives an empty chunk with the new counter |
| `Subtree.FullChunk` | patches/blake3/src/lib.rs:665-705 | Both branches agree: a full chunk hashed by `hash_many` with CHUNK_START and CHUNK_END has the chaining value that a chunk state gives |
| `Subtree.ParentHash` | patches/blake3/src/lib.rs:712-750 | A pair of chaining values hashed by `hash_many` as one block is the parent of the two |
| `Subtree.CompressSubtreeWide` | patches/blake3/src/lib.rs:769-831 | Writes exactly the row for the subtree, at least one value and at most `max(degree, 2)`, and nothing outside it |
| `Subtree.CompressHalves` | patches/blake3/src/lib.rs:787-830 | The recursive case: both halves' rows, paired unless they are single values |
| `Subtree.JoinHalves` | patches/blake3/src/lib.rs:787-817 | The left row is full, the right one no longer, and both fit side by side |
| `Subtree.Join` | patches/blake3/src/lib.rs:800-816 | The two sides of the join write disjoint slots, so their order does not matter |
| `Subtree.CompressChunksParallel` | patches/blake3/src/lib.rs:665-705 | Writes one chaining value for each chunk, in order |
| `Subtree.CompressParentsParallel` | patches/blake3/src/lib.rs:712-750 | Writes the parents of neighbouring values, and carries an odd last one up |
| `Subtree.CompressSubtreeToParentNode` | patches/blake3/src/lib.rs:843-866 | Returns exactly the chaining values of the two children of the subtree's top node, for every input of more than a chunk and every degree |
| `Subtree.Condense` | patches/blake3/src/lib.rs:851-864 | Pairing level by level ends with two values and never changes the top pair |
| `Subtree.WideSplit` | patches/blake3/src/lib.rs:795-830 | The left row has exactly the computed degree of values, the right one between one and that many, and pairing them gives the row of the whole |
| `Subtree.WideTop` | patches/blake3/src/lib.rs:769-831 | For more than a chunk at least two values come back, and their top pair is the pair below the subtree's top node |
| `WideTree.PairLevelKeepsTree` | patches/blake3/src/lib.rs:712-750 | One level of pairing, the odd value carried up, keeps the root of the left-full tree over the values |
| `WideTree.PairLevelKeepsTop` | patches/blake3/src/lib.rs:851-864 | And keeps the two values below that root, when more than two are left |
| `WideTree.MergeTreeSplit` | patches/blake3/src/lib.rs:769-831 | A row of a power of two of values followed by a row that is no longer has the parent of the two rows' roots as its root |
| `WideTree.WideRowStands` | patches/blake3/src/lib.rs:769-831 | The row that the wide hasher returns stands for its chunks: same root and same top pair, at every degree |
| `WideTree.LeavesMerge` | patches/blake3/src/lib.rs:769-831 | Merging all the chunks' values as a left-full tree is the subtree's chaining value |
| `WideTree.LeavesTop` | patches/blake3/src/lib.rs:769-831 | And the top pair of those values is the pair of children of the subtree's top node |
| `WideTree.WideHalves` | patches/blake3/src/lib.rs:795-816 | The left half always returns exactly the degree (at least two, or one for one chunk), the right half between one and as many |
| `WideTree.WideCountBounds` | patches/blake3/src/lib.rs:752-768 | Between one and the degree values come back, and at least two for more than a chunk, so the root is never compressed here |
| `WideTree.WideCountExactly` | patches/blake3/src/lib.rs:752-831 | Exactly how many values come back: each large subtree halves what the right edge lacks |
| `WideTree.LargeSubtreesAreOnes` | patches/blake3/src/lib.rs:769-831 | Large subtrees and right edge in terms of the bits of the last chunk's number |
| `WideTree.WideCountIsShort` | patches/blake3/src/lib.rs:752-831 | Fewer values than the degree come back exactly when the right edge is short by `2^k` chunks, `k` being the number of large subtrees |
| `WideTree.WideCountFallsShort` | patches/blake3/src/lib.rs:752-768 | Read off the number of chunks: with `r` chunks before the last one beyond a multiple `all` of the degree, fewer values than the degree come back exactly when `2^popcount(all) <= degree - 1 - r` |
| `WideTree.WideCountCanFallShort` | patches/blake3/src/lib.rs:752-768 | Five chunks at degree four return three values |
| `CvStack.MergeIsDue` | patches/blake3/src/lib.rs:1132-1146 | While the stack is longer than the popcount of all chunks, its two topmost values belong to adjacent subtrees of equal size |
| `CvStack.NoMergeIsDue` | patches/blake3/src/lib.rs:1132-1146 | Once it is not, the topmost subtree has no sibling to its left to merge with |
| `CvStack.MergeSiblings` | patches/blake3/src/lib.rs:1132-1146 | So one step of the loop replaces two siblings by the chaining value of their common subtree |
| `CvStack.MergeAllShape` | patches/blake3/src/lib.rs:1132-1146 | The whole loop leaves one value for each one bit of the number of chunks, largest subtree first |
| `CvStack.PushShape` | patches/blake3/src/lib.rs:1148-1184 | A push keeps the stack the digits of the earlier chunks plus one unmerged piece, with a free slot for it |
| `CvStack.SubtreeShape` | patches/blake3/src/lib.rs:1236-1312 | So does pushing a whole aligned subtree, as one value or as its two children |
| `CvStack.PieceFits` | patches/blake3/src/lib.rs:1181-1184 | There is room for every piece that is pushed for input below 2^64 bytes |
| `Hashing.PairFits` | patches/blake3/src/lib.rs:1294-1308 | And for both values of a subtree's pair, which are the halves of its top node's block |
| `CvStack.ShapeCount` | patches/blake3/src/lib.rs:1132-1146 | The stack's length is the popcount of the merged chunks, plus one for an unmerged piece |
| `CvStack.ShapeFits` | patches/blake3/src/lib.rs:1059-1067 | At most 54 values and one more |
| `CvStack.FoldMerged` | patches/blake3/src/lib.rs:1358-1368 | Folding the node of the last bytes into a merged stack, from the top, gives the root of the whole input |
| `CvStack.FoldLazy` | patches/blake3/src/lib.rs:1345-1368 | With no bytes left over, the two topmost values are the children of one node, and folding it in gives the root |
| `CvStack.FoldPartial` | patches/blake3/src/lib.rs:1341-1368 | With a partial chunk, its node folds in with the merged stack |
| `Hashing.Hasher.MergeCvStack` | patches/blake3/src/lib.rs:1132-1146 | The merge loop of the code is the one the lemmas are about |
| `Hashing.Hasher.PushCv` | patches/blake3/src/lib.rs:1181-1184 | Merges first, pushes after, within the array |
| `Hashing.Hasher.PushAligned` | patches/blake3/src/lib.rs:1268-1308 | A subtree's one or two values go on the stack with the right counters |
| `Hashing.Hasher.HashSubtree` | patches/blake3/src/lib.rs:1236-1312 | One round of the main loop moves the largest aligned subtree from the input to the stack |
| `Hashing.Hasher.FinishChunk` | patches/blake3/src/lib.rs:1198-1223 | A partly filled chunk is finished, and pushed only when more input follows |
| `Hashing.Hasher.Update` | patches/blake3/src/lib.rs:1197-1315 | The state after an update accounts for exactly the input so far, whatever was there before |
| `Hashing.Hasher.FinalOutput` | patches/blake3/src/lib.rs:1317-1369 | In every reachable state the final output is the root node of the input so far |
| `Hashing.Hasher.RootStaysOpen` | patches/blake3/src/lib.rs:1148-1180 | While no chunk is partly filled the stack is empty or holds at least two values, so the root is never compressed as an inner node; never more than 55 |
| `Hashing.Hasher.StackIsMerged` | patches/blake3/src/lib.rs:1341-1347 | With a partial chunk the stack is exactly the popcount of the chunks long, as the finalization assumes |
| `Hashing.Hasher.Count` | patches/blake3/src/lib.rs:1392-1394 | The number of bytes hashed so far |
| `Hashing.Hasher.Reset` | patches/blake3/src/lib.rs:1110-1119 | Back to the state of a new hasher |
| `Hashing.ShrinkSubtree` | patches/blake3/src/lib.rs:1258-1266 | Halving ends with the largest power of two that is at most the start value and divides the bytes so far |
| `Hashing.NextSubtree` | patches/blake3/src/lib.rs:1236-1269 | The next subtree is a power of two of whole chunks, at least one, aligned to the chunks so far and no longer than the input |
| `CHashing.CHasher.MergeCvStack` | patches/blake3/c/blake3.c:424-433 | The in-place merge loop over the stack buffer is the same merge |
| `CHashing.CHasher.PushCv` | patches/blake3/c/blake3.c:467-473 | So is the push |
| `CHashing.CHasher.Update` | patches/blake3/c/blake3.c:475-582 | The C state after an update accounts for exactly the input so far, with the early return for empty input |
| `CHashing.CHasher.FinalOutput` | patches/blake3/c/blake3.c:612-643 | The C finalization computes the same root node |
| `CHashing.CHasher.FinalizeSeek` | patches/blake3/c/blake3.c:603-645 | And writes the requested stretch of its stream without changing the state |
| `CHashing.CHasher.Reset` | patches/blake3/c/blake3.c:647-650 | Back to a new hasher in place |
| `Bits.LargestPowerOfTwoLeq` | patches/blake3/src/lib.rs:647-649 | Half, plus one, rounded up to a power of two is the largest power of two that is at most `max(n, 1)` |
| `Bits.MaskTestsAlignment` | patches/blake3/src/lib.rs:1258-1266 | The mask test asks whether a power of two divides a count |
| `Bits.ClearLowestBit` | patches/blake3/c/blake3_impl.h:132-143 | `x &= x - 1` clears exactly one one bit |
| `Bits.DigitsCount` | patches/blake3/src/lib.rs:1132-1146 | The binary digits of a number are as many as its one bits |
| `Bits.DigitsSum` | patches/blake3/src/lib.rs:1132-1146 | And add up to it |
| `Bits.AlignedTop` | patches/blake3/src/lib.rs:1258-1266 | A count that a power of two divides has its topmost bit at or above it, and stays divisible without that bit |
| `Bits.DigitsSnoc` | patches/blake3/src/lib.rs:1132-1146 | Adding an aligned power of two adds it as the last digit |
| `CBits.HighestOne` | patches/blake3/c/blake3_impl.h:102-129 | The cascade of masks finds the index of the highest one bit of every nonzero 64-bit number |
| `CBits.RoundDownAgrees` | patches/blake3/c/blake3_impl.h:145-149 | `1 << highest_one(x | 1)` is the Rust code's power of two, also for 0 |
| `CBits.RoundDown` | patches/blake3/c/blake3_impl.h:145-149 | The cascade computes it for every 64-bit number |
| `CBits.PopCnt` | patches/blake3/c/blake3_impl.h:132-143 | The loop counts the one bits |
| `ExtendedOutput.RunReader` | patches/blake3/src/lib.rs:1661-1745 | Any interleaving of `fill` of any lengths and `set_position` returns exactly the stretches of one fixed stream that the positions say |
| `ExtendedOutput.OutputReader.Fill` | patches/blake3/src/lib.rs:1690-1721 | Fills the buffer with the next bytes of the stream and advances the position by its length |
| `ExtendedOutput.OutputReader.FillOneBlock` | patches/blake3/src/lib.rs:1661-1673 | Stops at the end of the buffer or of the block |
| `ExtendedOutput.OutputReader.SetPosition` | patches/blake3/src/lib.rs:1742-1745 | Moves anywhere, without changing the stream |
| `OutputStream.StreamAppend` | patches/blake3/src/lib.rs:1690-1721 | Reading may be cut anywhere |
| `OutputStream.StreamInBlock` | patches/blake3/src/lib.rs:447-455 | A stretch inside one block is that stretch of the output block |
| `OutputStream.RootHashIsPrefix` | patches/blake3/src/lib.rs:439-455 | The default hash is the first 32 bytes of the stream |
| `OutputStream.RootCounterIsZero` | patches/blake3/src/lib.rs:439-455 | The root node of any input carries counter 0 |
| `CHashing.OutputRootBytes` | patches/blake3/c/blake3.c:89-116 | Any stretch of the stream: a partial first block, whole blocks, a partial last block |
| `Words.WordsRoundTrip` | patches/blake3/src/platform.rs:518-587 | Words survive the trip through little-endian bytes |
| `Words.BytesRoundTrip` | patches/blake3/src/platform.rs:518-587 | And bytes the trip through words |
| `Words.BytesFromWordsAre` | patches/blake3/src/platform.rs:553-587 | Little-endian: byte k of word i in memory is the word divided by 256^k, modulo 256 |
| `Words.WordsFromBytesAre` | patches/blake3/src/platform.rs:518-551 | Word i of memory is the sum of its four bytes times 1, 2^8, 2^16 and 2^24 |
| `Words.WordOfValue` | patches/blake3/src/platform.rs:518-551 | The same of one word |
| `Portable.RoundInPlace` | patches/blake3/src/portable.rs:20-35 | Eight calls of `g` at the source's indices are one round on the columns and diagonals |
| `Portable.G` | patches/blake3/src/portable.rs:8-17 | Changes one column and nothing else |
| `Portable.CompressPre` | patches/blake3/src/portable.rs:38-75 | The array form computes the final state |
| `Portable.StartDetermines` | patches/blake3/src/portable.rs:38-62 | The starting state is the same for two blocks exactly when chaining value, block length, counter and flags all are |
| `Portable.BlockLenWordIs` | patches/blake3/src/portable.rs:60-62 | The block length enters as itself |
| `Portable.CounterWordsAre` | patches/blake3/src/lib.rs:192-199 | The low word and 2^32 times the high word add up to every 64-bit counter |
| `Portable.CompressInPlace` | patches/blake3/src/portable.rs:77-94 | Leaves the first half of the output words |
| `Portable.CompressXof` | patches/blake3/src/portable.rs:96-121 | All sixteen words, in bytes; the first half agrees with the in-place form |
| `Portable.RoundsCarry` | patches/blake3/src/rust_sse41.rs:357-471 | A lane of vectors that are mixed together goes through the rounds of that lane's words |
| `Arx.RowsMix` | patches/blake3/src/rust_sse41.rs:75-104 | `g1` and `g2` on rows, which add the message first, mix all four columns |
| `Arx.WordsSwap` | patches/blake3/src/rust_sse41.rs:75-104 | 32-bit addition allows that order |
| `Arx.WordsAddAndXor` | patches/blake3/src/portable.rs:8-17 | The word operations add with wrap-around and xor |
| `Arx.WordsRotate` | patches/blake3/src/portable.rs:8-17 | And rotate to the right by 16, 12, 8 and 7, written out as shifts |
| `Arx.ShiftsRotate` | patches/blake3/src/rust_sse41.rs:55-72 | The shift pairs rotate |
| `Arx.ShiftOpsAgree` | patches/blake3/src/rust_sse41.rs:34-72 | So the lanes of the Rust vector code, which rotate by shifts, operate as the portable code does |
| `Arx.ShuffleOpsAgree` | patches/blake3/c/blake3_sse41.c:19-44 | And those of the C port's SSE4.1 code, which rotate by shuffling bytes and by xored shifts |
| `Portable.AgreeingComputes` | patches/blake3/src/rust_sse41.rs:327-354 | Operations that agree on every pair of words make the same compression function |
| `RowCompress.CompressPre` | patches/blake3/src/rust_sse41.rs:141-324 | The row form with shuffled registers ends in the portable final state, for every chaining value, block, length, counter and flags, with either blend |
| `RowCompress.CompressInPlace` | patches/blake3/src/rust_sse41.rs:327-337 | The same chaining value as the portable code |
| `RowCompress.CompressXof` | patches/blake3/src/rust_sse41.rs:340-354 | The same output block as the portable code |
| `RowCompress.MixRound` | patches/blake3/src/rust_sse41.rs:169-187 | Diagonalizing rows 0, 2 and 3 instead of 1, 2 and 3, with rotated message registers, is one round |
| `RowCompress.RowsRotate` | patches/blake3/src/rust_sse41.rs:124-138 | Which row stays put does not matter when the message words rotate along |
| `RowCompress.NextMessage` | patches/blake3/src/rust_sse41.rs:189-211 | The shuffles of a round turn the registers of row r of the schedule into those of the next row |
| `RowCompress.SchedulePermutes` | patches/blake3/src/lib.rs:169-177 | Every row of the schedule is the same permutation of the row before |
| `RowCompress.MaskedBlendIsBlend` | patches/blake3/src/rust_sse2.rs:141-147 | The SSE2 emulation of `blend_epi16` is the instruction for every selector |
| `RowCompress.Blends` | patches/blake3/src/rust_sse2.rs:141-147 | What the two selectors in use pick |
| `Platforms.CompressInPlace` | patches/blake3/src/platform.rs:123-157 | Every unit leaves the same chaining value |
| `Platforms.CompressXof` | patches/blake3/src/platform.rs:159-195 | Every unit gives the same output block |
| `Platforms.HashManyOn` | patches/blake3/src/platform.rs:205-313 | Every unit writes the same hashes, for any number of inputs and every counter, and nothing else |
| `Platforms.XofMany` | patches/blake3/src/platform.rs:315-348 | Every unit writes the same stretch of the output stream, in groups or block by block with its own `compress_xof` |
| `Platforms.LanesCompute` | patches/blake3/src/platform.rs:123-195 | However its lanes operate on words, every unit computes the same compression function |
| `Platforms.DegreesAreLanes` | patches/blake3/src/platform.rs:102-121 | The SIMD degree of a unit is the number of lanes of its vectors |
| `Platforms.PlatformsAreValid` | patches/blake3/src/platform.rs:102-121 | A unit's degree fits what the tree hashers ask exactly in the builds whose buffers are made for it |
| `Blake3.EveryUnitRuns` | patches/blake3/src/platform.rs:102-121 | There every unit computes the real compression function |
| `VectorHash.HashMany1` | patches/blake3/src/portable.rs:153-178 | The portable `hash_many` over the array form gives the same hashes |
| `HashMany.Hash1` | patches/blake3/src/portable.rs:123-151 | One input is chained block by block with the start and end flags |
| `HashMany.HashMany` | patches/blake3/src/portable.rs:153-178 | The portable loop hashes every input with its counter |
| `Lanes.RoundInPlace` | patches/blake3/src/rust_sse41.rs:357-471 | The lane-wise round on sixteen vectors is a round, diagonals included |
| `Lanes.LaneCompresses` | patches/blake3/src/rust_sse41.rs:575-620 | Compressing vectors compresses each lane |
| `LaneHash.MessageLane` | patches/blake3/src/rust_sse41.rs:496-524 | Transposed message vectors hold the words of one input in each lane, for four, eight and sixteen lanes |
| `LaneHash.CvWordsAreLane` | patches/blake3/src/rust_sse41.rs:622-631 | Transposing back gives every input its own eight words, also from the padded square |
| `LaneHash.ChainedNext` | patches/blake3/src/rust_sse41.rs:569-620 | One block in all lanes advances every input's chaining value |
| `LaneHash.HashGroup` | patches/blake3/src/rust_sse41.rs:546-632 | A group's hashes are the hashes of its inputs with consecutive counters |
| `LaneHash.HashGroups` | patches/blake3/src/rust_sse41.rs:678-700 | The batching loop leaves fewer inputs than lanes, with the counter of the next one |
| `VectorHash.Hash1` | patches/blake3/src/rust_sse41.rs:635-663 | Leftovers hashed with the row compression give the same values |
| `VectorHash.HashMany4` | patches/blake3/src/rust_sse41.rs:666-713 | Batches of four and leftovers are per-input hashing |
| `VectorHash.CHashMany4` | patches/blake3/c/blake3_sse41.c:535-560 | So are the batches of the C port, which loads its counters by comparing |
| `VectorHash.HashMany8` | patches/blake3/src/rust_avx2.rs:386-429 | So are batches of eight, then the four-lane code |
| `VectorHash.HashMany16` | patches/blake3/c/blake3_avx512.c:1313-1358 | So are batches of sixteen, eight, four and one |
| `Units.Unit4Transposes` | patches/blake3/src/rust_sse41.rs:474-493 | The unpack sequence transposes four vectors |
| `Units.Unit8Transposes` | patches/blake3/src/rust_avx2.rs:207-242 | The unpack and permute sequence transposes eight |
| `Units.Unit16Transposes` | patches/blake3/c/blake3_avx512.c:1037-1117 | And sixteen |
| `Units.Unit4Ready` | patches/blake3/src/rust_sse41.rs:27-72 | Every lane of a 128-bit vector carries the word operations |
| `Units.Unit8Ready` | patches/blake3/src/rust_avx2.rs:26-73 | Every lane of a 256-bit vector does |
| `Units.Unit16Ready` | patches/blake3/c/blake3_avx512.c:37-77 | Every lane of a 512-bit vector does |
| `Units.SourceUnitsReady` | patches/blake3/src/rust_sse41.rs:27-72 | With the rotations of their own source, the lanes of every unit carry the operations of the portable code |
| `LaneHash.CountersAreLanes` | patches/blake3/src/rust_sse41.rs:527-543 | Each lane has the low and high word of its own counter |
| `Counters.LoadedCounter` | patches/blake3/c/blake3_sse41.c:440-451 | The biased signed comparison finds the carry, whatever is added |
| `Counters.LoadedCounter16` | patches/blake3/c/blake3_avx512.c:1143-1166 | The and-not of the topmost bits finds it whenever less than 2^31 is added |
| `Counters.LoadsAgree` | patches/blake3/c/blake3_avx512.c:1143-1166 | So both loaders give each of up to sixteen lanes the exact words of its counter |
| `Counters.LoadersCount` | patches/blake3/c/blake3_sse41.c:440-451 | The three loaders that the units are built with fill every lane with the words of its own counter |
| `Counters.LanesLoadThese` | patches/blake3/src/lib.rs:192-199 | The words that the loaders are about are the words of the lanes |
| `Counters.WordsOfCounter` | patches/blake3/src/lib.rs:192-199 | Together they are the counter |
| `Counters.LoadedCounter16CanFail` | patches/blake3/c/blake3_avx512.c:1143-1166 | Beyond that bound the and-not can miss a carry |
| `LaneXof.OutLane` | patches/blake3/c/blake3_avx512.c:1246-1285 | Lane i of the output vectors is the output block with counter + i |
| `LaneXof.XofMany16` | patches/blake3/c/blake3_avx512.c:1360-1388 | Groups of sixteen, eight and four and single blocks continue the stream without a gap |
| `Blake3.Hash` | patches/blake3/src/lib.rs:911-913 | `hash`: the root hash in the mode of the initial vector and no flags |
| `Blake3.KeyedHash` | patches/blake3/src/lib.rs:940-943 | `keyed_hash`: the root hash in the mode of the key with bit 4 |
| `Blake3.DeriveKey` | patches/blake3/src/lib.rs:994-1002 | The Rust key derivation is the root hash of the material with bit 6, keyed with the root hash of the context with bit 5 and the initial vector |
| `Blake3.DeriveKeyRaw` | patches/blake3/c/blake3.c:398-408 | The C key derivation gives these bytes, however the material is cut |
| `BlockBuffers.DigestAll` | patches/block-buffer/src/lib.rs:160-207 | Any run of `digest_blocks`: emitted blocks followed by the buffered data are the inputs one after the other, with exactly the promised number of blocks |
| `BlockBuffers.BlockBuffer.DigestBlocks` | patches/block-buffer/src/lib.rs:160-207 | One call, on either kind of buffer; the eager cursor in the last byte never clobbers data |
| `BlockBuffers.EmittedCount` | patches/block-buffer/src/sealed.rs:34-101 | Eager: all whole blocks; lazy: all but the last one begun |
| `BlockBuffers.BlockBuffer.SetPos` | patches/block-buffer/src/sealed.rs:50-58 | Moving the cursor keeps the data below it |
| `BlockBuffers.BlockBuffer.SetData` | patches/block-buffer/src/lib.rs:298-304 | The new data can be read back although the cursor is written first |
| `BlockBuffers.Kind.SplitBlocksIs` | patches/block-buffer/src/sealed.rs:66-100 | What is split off obeys the kind's invariant; a lazy buffer keeps something of any input |
| `BlockBuffers.BlockBuffer.PadWithZeros` | patches/block-buffer/src/lib.rs:220-226 | The data padded to a block, and an empty buffer |
| `BlockBuffers.BlockBuffer.Set` | patches/block-buffer/src/lib.rs:255-263 | Takes the data over exactly at the positions that the kind allows, and refuses all others, leaving the data as it was |
| `BlockBuffers.SetPanicsAsDocumented` | patches/block-buffer/src/lib.rs:250-256 | It refuses what its documentation says exactly unless a lazy buffer is set to the whole block size |
| `BlockBuffers.SetFullLazyBlock` | patches/block-buffer/src/lib.rs:250-263 | That input, which the documentation rules out, is accepted, and the whole block is data |
| `BlockBuffers.BlockBuffer.TryNew` | patches/block-buffer/src/lib.rs:145-155 | Fails exactly when the length breaks the kind's invariant |
| `BlockBuffers.BlockBuffer.DigestPad` | patches/block-buffer/src/lib.rs:360-382 | Data, delimiter, zeros and suffix in one block if they fit and in two if not |
| `BlockBuffers.BlockBuffer.Len64PaddingBe` | patches/block-buffer/src/lib.rs:387-389 | 0x80 and the 64-bit big-endian length |
| `BlockBuffers.BlockBuffer.Len64PaddingLe` | patches/block-buffer/src/lib.rs:394-396 | 0x80 and the 64-bit little-endian length |
| `BlockBuffers.BlockBuffer.Len128PaddingBe` | patches/block-buffer/src/lib.rs:401-403 | 0x80 and the 128-bit big-endian length |
| `BlockBuffers.PadMessage` | patches/block-buffer/src/lib.rs:360-382 | A message in any parts comes out followed by the delimiter, the fewest zeros that reach a block boundary, and the suffix |
| `BlockBuffers.PadZerosFewest` | patches/block-buffer/src/lib.rs:360-382 | No smaller number of zeros ends a block |
| `BlockBuffers.Sha256Blocks` | patches/block-buffer/src/lib.rs:384-389 | With 64-byte blocks that is the padding of section 5.1.1 of FIPS 180-4, for any cut of the message |
| `BlockBuffers.Sha512Blocks` | patches/block-buffer/src/lib.rs:398-403 | With 128-byte blocks that of section 5.1.2 |
| `BlockBuffers.FipsPadding64` | patches/block-buffer/src/lib.rs:384-389 | Zero bytes after 0x80 are the smallest number of zero bits that the standard asks for |
| `BlockBuffers.BeBytesValue` | patches/block-buffer/src/lib.rs:387-389 | The big-endian length field reads back as the length |
| `BlockBuffers.LeIsReversedBe` | patches/block-buffer/src/lib.rs:394-396 | The little-endian field is the big-endian one reversed |
| `BlockBuffers.BlockBuffer.Serialize` | patches/block-buffer/src/lib.rs:319-326 | The number of bytes, the bytes and zeros, as long as a block for an eager buffer and one byte longer for a lazy one: the only array of that length that deserializes to the data |
| `BlockBuffers.BlockBuffer.Deserialize` | patches/block-buffer/src/lib.rs:332-349 | Accepts exactly the arrays with a valid position and zeros after the data |
| `BlockBuffers.SerializeRoundTrip` | patches/block-buffer/src/lib.rs:317-349 | What was serialized deserializes to the same data, for both kinds |
| `BlockBuffers.DeserializeRoundTrip` | patches/block-buffer/src/lib.rs:317-349 | Every accepted array is the serialized form of its data, and a rejected one of none |
| `ReadBuffers.ReadAll` | patches/block-buffer/src/read.rs:129-142 | Any run of reads of any lengths together is the start of the generated stream, with the fewest blocks generated |
| `ReadBuffers.ReadBuffer.Read` | patches/block-buffer/src/read.rs:129-142 | What is read followed by what stays unread is what was unread followed by the newly generated blocks |
| `ReadBuffers.ReadBuffer.ReadCached` | patches/block-buffer/src/read.rs:82-90 | Takes up to `len` of the unread bytes |
| `ReadBuffers.ReadBuffer.WriteBlock` | patches/block-buffer/src/read.rs:102-118 | Nothing for length 0; refused from the block size on; otherwise one block, split into what is read and what stays, although the cursor overwrites its first byte |
| `ReadBuffers.WritePanicsAsDocumented` | patches/block-buffer/src/read.rs:99-111 | It refuses what its documentation says exactly unless the length is the block size |
| `ReadBuffers.WriteFullBlock` | patches/block-buffer/src/read.rs:99-111 | That length is refused, and nothing is generated |
| `ReadBuffers.FewestBlocks` | patches/block-buffer/src/read.rs:129-142 | With less than a block unread, no block was generated before it was needed |
| `ReadBuffers.ReadBuffer.Reset` | patches/block-buffer/src/read.rs:121-123 | Nothing is left unread |
| `ReadBuffers.ReadBuffer.Serialize` | patches/block-buffer/src/read.rs:146-154 | One block: the cursor, zeros up to it, and the unread bytes |
| `ReadBuffers.ReadBuffer.Deserialize` | patches/block-buffer/src/read.rs:162-170 | Rejects cursor 0, a cursor beyond the block, and garbage below the cursor |
| `ReadBuffers.SerializeRoundTrip` | patches/block-buffer/src/read.rs:146-170 | The unread bytes survive |
| `ReadBuffers.DeserializeRoundTrip` | patches/block-buffer/src/read.rs:146-170 | Every accepted array is the serialized form of its unread bytes |
| `ConstantTimeEq.ConstantTimeEqImpl` | patches/constant_time_eq/src/generic.rs:127-201 | True exactly when the byte strings are equal and the accumulator is zero, for every length and word size; every step's word fits the accumulator |
| `ConstantTimeEq.CmpStep` | patches/constant_time_eq/src/generic.rs:149-159 | One word compared and removed from both sides |
| `ConstantTimeEq.CastIsZero` | patches/constant_time_eq/src/generic.rs:176-198 | Casting to a word that is wide enough loses no difference |
| `ConstantTimeEq.NarrowCastCanLose` | patches/constant_time_eq/src/generic.rs:176-178 | A narrowing cast would |
| `ConstantTimeEq.ConstantTimeEqSse2` | patches/constant_time_eq/src/sse2.rs:137-206 | The two-accumulator loop with its remainders is equality |
| `ConstantTimeEq.MoveMaskIsFull` | patches/constant_time_eq/src/sse2.rs:94-121 | The mask is 0xFFFF exactly when every lane is all ones |
| `ConstantTimeEq.ConstantTimeEqNeon` | patches/constant_time_eq/src/neon.rs:115-180 | So is the NEON loop |
| `ConstantTimeEq.GetMaskIsFull` | patches/constant_time_eq/src/neon.rs:78-88 | Half a byte of every lane is enough to tell |
| `ConstantTimeEq.CompareVectors` | patches/constant_time_eq/src/sse2.rs:150-198 | Both masks together say whether the vectors compared so far are equal |

## Left out

- The Vow protocol: its on-chain instructions are not part of this model, nor are the SDK, the
  scripts and the examples around it.
- `patches/hashbrown`, `patches/indexmap` and `patches/ctutils`.
- Inputs of 2^64 bytes or more, and output positions from 2^64 on, for which the code specifies
  nothing: the hashers and readers require less.
- Buffers of chaining values are arrays of 32-byte slots, not flat bytes; a mutable slice is its
  array with the place where it begins.
- The C port's chunk state, parent nodes and `compress_subtree_wide` are modelled by the same
  members as the Rust ones, which they repeat.
- Threads: `join` runs its two sides one after the other, in either order. `update_rayon`, TBB,
  `update_mmap` and `update_reader` only choose how to run or read.
- Vector instructions are modelled by what they do to lanes. Prefetching, alignment and
  detection of CPU features are left out, as are NEON, WebAssembly and assembly versions of
  BLAKE3, and the C port's SSE2 and AVX2 code, which repeat the argument.
- The eight unrolled statements that xor halves of the state, and the reads and stores of lanes,
  are simultaneous assignments here.
- Platforms.HashManyOn: the NEON and WebAssembly arms are not modelled; their lanes repeat the
  four-lane argument.
- Platforms.CompressInPlace: nor are the WebAssembly row form and NEON's use of the portable code.
- Platforms.CompressXof: likewise.
- Platforms.PlatformsAreValid: nor are their degrees, which are four.
- Blake3.SameOnEveryUnit: covers the portable code and the units of x86 processors.
- Portable.CompressPre: the block length and the counter are natural numbers that are reduced
  to 32-bit words, so lengths that do not fit a byte are covered although the code has none.
- CHashing.CHasher.Update: the null-pointer case that the early return guards against is not
  modelled, because there are no pointers.
- ConstantTimeEq.ConstantTimeEqImpl: says nothing about timing or about hiding values from the
  optimizer; words are byte strings of 1 to 32 bytes.
- BlockBuffers.BlockBuffer.DigestBlocks: the compression callback is modelled by the blocks
  passed to it, in order, not by how they are grouped into calls.
- ReadBuffers.ReadBuffer.Read: the generator callback is an object that produces the blocks of
  one stream in order; that it could look at the old contents of the block is not modelled.
- Uninitialized memory, `Clone`, `Debug`, zeroizing, hex encoding, serde and the digest traits.
- The strength of the hash function.
