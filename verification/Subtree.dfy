/** Hashing a whole subtree at once: the recursive wide hasher, which carries a row
    of chaining values up the tree, and the functions around it.

    A buffer of chaining values is an array of 32-byte slots, and a mutable slice of
    it is the array with the slot where the slice begins. */
module Subtree {
  import opened Sequences
  import opened Bits
  import opened Words
  import opened Blake3Tree
  import opened Platforms
  import opened ChunkHashing
  import opened HashMany
  import opened WideTree

  const BLOCKS_PER_CHUNK := 16

  const ZERO_CV: CVBytes := seq(OUT_LEN, i => 0)

  function ChunkJob(mode: Mode, counter: nat): Job {
    Job(mode.compress, mode.key, counter, true, mode.flags, CHUNK_START, CHUNK_END)
  }

  function ParentJob(mode: Mode): Job {
    Job(mode.compress, mode.key, 0, false, mode.flags | PARENT, 0, 0)
  }

  // ---------- what hash_many computes for chunks and parents ----------

  lemma {:induction false} ChainIsChunkChain(mode: Mode, chunk: seq<u8>, b: nat, first: nat, count: nat)
    requires |chunk| == CHUNK_LEN && b < BLOCKS_PER_CHUNK
    ensures ChunkJob(mode, first).Chain(chunk, b, BLOCKS_PER_CHUNK, count) == mode.ChunkChain(chunk, b, count)
  {
    if b > 0 {
      ChainIsChunkChain(mode, chunk, b - 1, first, count);
    }
  }

  lemma {:induction false} FullChunkOutput(mode: Mode, chunk: seq<u8>, counter: nat)
    requires |chunk| == CHUNK_LEN
    ensures mode.ChunkOutput(chunk, counter)
         == Output(mode.ChunkChain(chunk, BLOCKS_PER_CHUNK - 1, counter), chunk[CHUNK_LEN - BLOCK_LEN..],
                   BLOCK_LEN, counter, mode.flags | CHUNK_END)
  {
    PadFull(chunk[CHUNK_LEN - BLOCK_LEN..]);
    NoStartFlag(mode.flags, BLOCKS_PER_CHUNK - 1);
  }

  lemma {:induction false} PadFull(last: Block)
    ensures Pad(last) == last
  {
  }

  lemma {:induction false} NoStartFlag(flags: u8, blocksBefore: nat)
    requires blocksBefore > 0
    ensures flags | StartFlag(blocksBefore) == flags
  {
  }

  /** Both ways of hashing a full chunk compute the same chaining value. */
  lemma {:induction false} FullChunk(mode: Mode, chunk: seq<u8>, first: nat, i: nat)
    requires |chunk| == CHUNK_LEN
    ensures ChunkJob(mode, first).Hash(chunk, BLOCKS_PER_CHUNK, i) == mode.Tree().Cv(chunk, first + i)
  {
    ChainIsChunkChain(mode, chunk, BLOCKS_PER_CHUNK - 1, first, first + i);
    FullChunkOutput(mode, chunk, first + i);
    assert chunk[CHUNK_LEN - BLOCK_LEN..] == chunk[BLOCK_LEN * (BLOCKS_PER_CHUNK - 1)..BLOCK_LEN * BLOCKS_PER_CHUNK];
  }

  /** Pairs of neighbouring chaining values, as blocks. */
  function BlockPairs(children: seq<CVBytes>): (blocks: seq<Block>)
    ensures |blocks| == |children| / 2
    ensures forall i | 0 <= i < |blocks| :: blocks[i] == ParentBlock(children[2 * i], children[2 * i + 1])
  {
    if |children| < 2 then [] else [ParentBlock(children[0], children[1])] + BlockPairs(children[2..])
  }

  lemma {:induction false} ParentHash(mode: Mode, left: CVBytes, right: CVBytes, i: nat)
    ensures ParentJob(mode).Hash(ParentBlock(left, right), 1, i) == mode.Tree().Parent(left, right)
  {
    var job, block := ParentJob(mode), ParentBlock(left, right);
    assert job.Chain(block, 0, 1, 0) == mode.key;
    assert block[BLOCK_LEN * 0..BLOCK_LEN * 1] == block;
    assert job.BlockFlags(0, 1) == mode.flags | PARENT;
  }

  /** `chunks_exact`: the whole chunks of `input`, and the bytes after them. */
  function WholeChunks(input: seq<u8>): (chunks: seq<seq<u8>>)
    ensures forall i | 0 <= i < |chunks| :: |chunks[i]| == BLOCK_LEN * BLOCKS_PER_CHUNK
  {
    if |input| < CHUNK_LEN then [] else [input[..CHUNK_LEN]] + WholeChunks(input[CHUNK_LEN..])
  }

  function Remainder(input: seq<u8>): (rest: seq<u8>)
    ensures |rest| < CHUNK_LEN
  {
    if |input| < CHUNK_LEN then input else Remainder(input[CHUNK_LEN..])
  }

  /** Hashing the whole chunks and then the remainder gives the row of leaves. */
  lemma {:induction false} LeavesAre(t: HashTree, input: seq<u8>, counter: nat, row: seq<CVBytes>)
    requires input != []
    requires var n := |WholeChunks(input)|;
             && |row| == (if Remainder(input) == [] then n else n + 1)
             && (forall i | 0 <= i < n :: row[i] == t.Cv(WholeChunks(input)[i], counter + i))
             && (Remainder(input) != [] ==> row[n] == t.Cv(Remainder(input), counter + n))
    ensures row == Leaves(t, input, counter)
  {
    if |input| <= CHUNK_LEN {
      assert |input| == CHUNK_LEN ==> input[..CHUNK_LEN] == input && input[CHUNK_LEN..] == [];
    } else {
      var rest := input[CHUNK_LEN..];
      assert WholeChunks(input) == [input[..CHUNK_LEN]] + WholeChunks(rest);
      OtherChunks(t, input[..CHUNK_LEN], WholeChunks(rest), counter, row);
      LeavesAre(t, rest, counter + 1, row[1..]);
    }
  }

  lemma {:induction false} OtherChunks(
      t: HashTree, first: seq<u8>, more: seq<seq<u8>>, counter: nat, row: seq<CVBytes>)
    requires |row| > |more|
    requires forall i | 0 <= i < |more| + 1 :: row[i] == t.Cv(([first] + more)[i], counter + i)
    ensures forall i | 0 <= i < |more| :: row[1..][i] == t.Cv(more[i], counter + 1 + i)
  {
    forall i | 0 <= i < |more| ensures row[1..][i] == t.Cv(more[i], counter + 1 + i) {
      assert ([first] + more)[i + 1] == more[i];
    }
  }

  // ---------- the methods ----------

  method ChunksExact(input: seq<u8>) returns (chunks: seq<seq<u8>>, rest: seq<u8>)
    ensures chunks == WholeChunks(input) && rest == Remainder(input)
  {
    chunks, rest := [], input;
    while |rest| >= CHUNK_LEN
      invariant chunks + WholeChunks(rest) == WholeChunks(input)
      invariant Remainder(rest) == Remainder(input)
    {
      Assoc(chunks, [rest[..CHUNK_LEN]], WholeChunks(rest[CHUNK_LEN..]));
      chunks, rest := chunks + [rest[..CHUNK_LEN]], rest[CHUNK_LEN..];
    }
  }

  method CompressChunksParallel(
      platform: Platform, mode: Mode, input: seq<u8>, counter: nat, out: array<CVBytes>, at: nat)
    returns (n: nat)
    requires platform.Runs(mode) && input != [] && at + Chunks(|input|) <= out.Length
    modifies out
    ensures n == Chunks(|input|) && out[at..at + n] == Leaves(mode.Tree(), input, counter)
    ensures forall j | 0 <= j < out.Length && !(at <= j < at + n) :: out[j] == old(out[j])
  {
    WholeCount(input);
    var chunks, rest := ChunksExact(input);
    n := HashChunks(platform, mode, chunks, rest, counter, out, at);
    ChunkRow(mode, input, counter, out[at..at + n]);
  }

  /** `hash_many` on the whole chunks, then the remainder. */
  method HashChunks(platform: Platform, mode: Mode, chunks: seq<seq<u8>>, rest: seq<u8>, counter: nat,
                    out: array<CVBytes>, at: nat)
    returns (n: nat)
    requires platform.Runs(mode) && |rest| < CHUNK_LEN
    requires forall i | 0 <= i < |chunks| :: |chunks[i]| == BLOCK_LEN * BLOCKS_PER_CHUNK
    requires at + |chunks| + (if rest == [] then 0 else 1) <= out.Length
    modifies out
    ensures n == |chunks| + (if rest == [] then 0 else 1)
    ensures Hashed(ChunkJob(mode, counter), chunks, BLOCKS_PER_CHUNK, out[at..at + n], 0)
    ensures rest != [] ==> out[at + |chunks|] == mode.Tree().Cv(rest, counter + |chunks|)
    ensures forall j | 0 <= j < out.Length && !(at <= j < at + n) :: out[j] == old(out[j])
  {
    HashManyOn(platform, ChunkJob(mode, counter), chunks, BLOCKS_PER_CHUNK, out, at);
    n := AddRemainder(platform, mode, rest, counter + |chunks|, out, at, |chunks|);
  }

  /** Hashes the bytes after the whole chunks into the next slot. */
  method AddRemainder(
      platform: Platform, mode: Mode, rest: seq<u8>, counter: nat, out: array<CVBytes>, at: nat, chunks: nat)
    returns (n: nat)
    requires platform.Runs(mode) && |rest| < CHUNK_LEN && at + chunks + (if rest == [] then 0 else 1) <= out.Length
    modifies out
    ensures n == chunks + (if rest == [] then 0 else 1)
    ensures rest != [] ==> out[at + chunks] == mode.Tree().Cv(rest, counter)
    ensures forall j | 0 <= j < out.Length && j != at + chunks :: out[j] == old(out[j])
    ensures rest == [] ==> out[..] == old(out[..])
  {
    n := chunks;
    if rest != [] {
      out[at + n] := HashRemainder(platform, mode, rest, counter);
      n := n + 1;
    }
  }

  /** What `hash_many` and the remainder leave in the buffer is the row of leaves. */
  lemma {:induction false} ChunkRow(mode: Mode, input: seq<u8>, counter: nat, row: seq<CVBytes>)
    requires input != [] && |row| == Chunks(|input|)
    requires Hashed(ChunkJob(mode, counter), WholeChunks(input), BLOCKS_PER_CHUNK, row, 0)
    requires var n := |WholeChunks(input)|;
             Remainder(input) != [] ==> n < |row| && row[n] == mode.Tree().Cv(Remainder(input), counter + n)
    ensures row == Leaves(mode.Tree(), input, counter)
  {
    WholeCount(input);
    var chunks := WholeChunks(input);
    forall i | 0 <= i < |chunks| ensures row[i] == mode.Tree().Cv(chunks[i], counter + i) {
      FullChunk(mode, chunks[i], counter, i);
    }
    LeavesAre(mode.Tree(), input, counter, row);
  }

  lemma {:induction false} WholeCount(input: seq<u8>)
    ensures |WholeChunks(input)| + (if Remainder(input) == [] then 0 else 1) == Chunks(|input|)
  {
    if |input| >= CHUNK_LEN { WholeCount(input[CHUNK_LEN..]); }
  }

  /** Hashes a partial chunk with a chunk state. */
  method HashRemainder(platform: Platform, mode: Mode, rest: seq<u8>, counter: nat) returns (cv: CVBytes)
    requires platform.Runs(mode) && 0 < |rest| <= CHUNK_LEN
    ensures cv == mode.Tree().Cv(rest, counter)
  {
    var chunk_state := new ChunkState(platform, mode, counter);
    chunk_state.Update(rest);
    cv := ChainingValue(platform, mode, chunk_state.Output());
    assert [] + rest == rest;
  }

  method CompressParentsParallel(
      platform: Platform, mode: Mode, children: seq<CVBytes>, out: array<CVBytes>, at: nat)
    returns (n: nat)
    requires platform.Runs(mode) && |children| >= 2 && at + (|children| + 1) / 2 <= out.Length
    modifies out
    ensures n == (|children| + 1) / 2 && out[at..at + n] == PairLevel(mode.Tree(), children)
    ensures forall j | 0 <= j < out.Length && !(at <= j < at + n) :: out[j] == old(out[j])
  {
    var parents := BlockPairs(children);
    n := |parents|;
    HashManyOn(platform, ParentJob(mode), parents, 1, out, at);
    if |children| % 2 == 1 {
      out[at + n] := children[|children| - 1];
      n := n + 1;
    }
    ghost var t := mode.Tree();
    forall i | 0 <= i < n ensures out[at + i] == PairLevel(t, children)[i] {
      if i < |parents| {
        PairLevelStep(t, children, i);
        ParentHash(mode, children[2 * i], children[2 * i + 1], i);
        assert out[at + i] == ParentJob(mode).Hash(parents[i], 1, i);
      } else {
        assert i == |children| / 2;
        PairLevelOdd(t, children);
      }
    }
  }

  // ---------- the wide recursion ----------

  /** `left_len`: the bytes that go to the left subtree. */
  function LeftLen(len: nat): (l: nat)
    requires len > CHUNK_LEN
    ensures l == CHUNK_LEN * LeftChunks(len)
  {
    var p := LargestPowerOfTwoLeq((len - 1) / CHUNK_LEN);
    LeftChunksIs(len, p);
    p * CHUNK_LEN
  }

  /** The row of chaining values that the wide hasher computes for `input`. */
  ghost function Wide(platform: Platform, mode: Mode, input: seq<u8>, counter: nat): seq<CVBytes>
    requires platform.Valid() && input != []
  {
    WideRow(mode.Tree(), Leaves(mode.Tree(), input, counter), platform.simdDegree)
  }

  lemma {:induction false} WideFits(platform: Platform, mode: Mode, input: seq<u8>, counter: nat)
    requires platform.Valid() && input != []
    ensures 1 <= |Wide(platform, mode, input, counter)| <= RowSpace(platform.simdDegree)
    ensures Chunks(|input|) <= platform.simdDegree ==>
              Wide(platform, mode, input, counter) == Leaves(mode.Tree(), input, counter)
  {
    var leaves := Leaves(mode.Tree(), input, counter);
    LeavesCount(mode.Tree(), input, counter);
    WideRowFits(mode.Tree(), leaves, platform.simdDegree);
  }

  lemma {:induction false} WideStep(platform: Platform, mode: Mode, left: seq<u8>, right: seq<u8>, p: nat, counter: nat)
    requires platform.Valid() && IsPow2(p) && |left| == CHUNK_LEN * p && 0 < |right| <= |left|
    requires Chunks(|left + right|) > platform.simdDegree
    ensures var lrow, rrow := Wide(platform, mode, left, counter), Wide(platform, mode, right, counter + p);
            && |lrow| == (if p < 2 then 1 else RowSpace(platform.simdDegree))
            && 1 <= |rrow| <= |lrow|
            && Wide(platform, mode, left + right, counter)
               == if |lrow| < 2 then lrow + rrow else PairLevel(mode.Tree(), lrow + rrow)
  {
    var t := mode.Tree();
    LeavesSplit(t, left, right, p, counter);
    LeavesCount(t, left + right, counter);
    LeavesCount(t, left, counter);
    LeavesCount(t, right, counter + p);
    ChunksIs(|left|, p);
    ChunksBound(|right|, p);
    WideRowStep(t, Leaves(t, left, counter), Leaves(t, right, counter + p), platform.simdDegree);
  }

  lemma {:induction false} WideSplit(platform: Platform, mode: Mode, input: seq<u8>, counter: nat)
    requires platform.Valid() && |input| > CHUNK_LEN * platform.simdDegree
    ensures |input| > CHUNK_LEN
    ensures var p := LeftChunks(|input|);
            var lrow := Wide(platform, mode, input[..CHUNK_LEN * p], counter);
            var rrow := Wide(platform, mode, input[CHUNK_LEN * p..], counter + p);
            && |lrow| == (if p < 2 then 1 else RowSpace(platform.simdDegree))
            && 1 <= |rrow| <= |lrow|
            && Wide(platform, mode, input, counter)
               == if |lrow| < 2 then lrow + rrow else PairLevel(mode.Tree(), lrow + rrow)
  {
    ChunksBound(|input|, platform.simdDegree);
    ChunksBound(|input|, 1);
    var p := LeftChunks(|input|);
    assert input == input[..CHUNK_LEN * p] + input[CHUNK_LEN * p..];
    WideStep(platform, mode, input[..CHUNK_LEN * p], input[CHUNK_LEN * p..], p, counter);
  }

  /** The top pair of the row is the pair of chaining values below the subtree's top node. */
  lemma {:induction false} WideTop(platform: Platform, mode: Mode, input: seq<u8>, counter: nat)
    requires platform.Valid() && |input| > CHUNK_LEN
    ensures var row := Wide(platform, mode, input, counter);
            |row| >= 2 && TopPair(mode.Tree(), row) == Children(mode.Tree(), input, counter)
  {
    var t := mode.Tree();
    LeavesTop(t, input, counter);
    WideRowStands(t, Leaves(t, input, counter), platform.simdDegree);
  }

  /** Hashes `input` into a row of at most `simdDegree` (but at least 2) values. */
  method CompressSubtreeWide(
      platform: Platform, mode: Mode, input: seq<u8>, counter: nat, out: array<CVBytes>, at: nat)
    returns (n: nat)
    requires platform.Runs(mode) && input != []
    requires at + RowSpace(platform.simdDegree) <= out.Length
    modifies out
    ensures 1 <= n <= RowSpace(platform.simdDegree)
    ensures out[at..at + n] == Wide(platform, mode, input, counter)
    ensures forall j | 0 <= j < out.Length && !(at <= j < at + n) :: out[j] == old(out[j])
    decreases |input|, 4
  {
    ChunksBound(|input|, platform.simdDegree);
    WideFits(platform, mode, input, counter);
    if |input| <= CHUNK_LEN * platform.simdDegree {
      n := CompressChunksParallel(platform, mode, input, counter, out, at);
      return;
    }
    n := CompressHalves(platform, mode, input, counter, out, at);
  }

  /** The recursive case: the rows of both halves, paired into one row of parents
      unless they are single values. */
  method CompressHalves(
      platform: Platform, mode: Mode, input: seq<u8>, counter: nat, out: array<CVBytes>, at: nat)
    returns (n: nat)
    requires platform.Runs(mode) && |input| > CHUNK_LEN * platform.simdDegree
    requires at + RowSpace(platform.simdDegree) <= out.Length
    modifies out
    ensures n <= RowSpace(platform.simdDegree)
    ensures out[at..at + n] == Wide(platform, mode, input, counter)
    ensures forall j | 0 <= j < out.Length && !(at <= j < at + n) :: out[j] == old(out[j])
    decreases |input|, 3
  {
    var cv_array := new CVBytes[2 * platform.maxSimdDegreeOr2](i => ZERO_CV);
    var left_n, right_n := JoinHalves(platform, mode, input, counter, cv_array);
    if left_n == 1 {
      n := CopyPair(cv_array, out, at);
    } else {
      n := CompressParentsParallel(platform, mode, cv_array[..left_n + right_n], out, at);
    }
  }

  method CopyPair(cv_array: array<CVBytes>, out: array<CVBytes>, at: nat) returns (n: nat)
    requires cv_array.Length >= 2 && at + 2 <= out.Length && cv_array != out
    modifies out
    ensures n == 2 && out[at..at + n] == cv_array[..2]
    ensures forall j | 0 <= j < out.Length && !(at <= j < at + n) :: out[j] == old(out[j])
  {
    out[at], out[at + 1] := cv_array[0], cv_array[1];
    n := 2;
  }

  /** Splits `input` and hashes both halves into one buffer, the row of the right
      half directly after the row of the left one. */
  method JoinHalves(platform: Platform, mode: Mode, input: seq<u8>, counter: nat, cv_array: array<CVBytes>)
    returns (left_n: nat, right_n: nat)
    requires platform.Runs(mode) && |input| > CHUNK_LEN * platform.simdDegree
    requires cv_array.Length == 2 * platform.maxSimdDegreeOr2
    modifies cv_array
    ensures 1 <= right_n <= left_n <= RowSpace(platform.simdDegree)
    ensures var rows := cv_array[..left_n + right_n];
            Wide(platform, mode, input, counter) == if left_n < 2 then rows else PairLevel(mode.Tree(), rows)
    decreases |input|, 2
  {
    WideSplit(platform, mode, input, counter);
    var l := LeftLen(|input|);
    var left, right := input[..l], input[l..];
    var right_counter := counter + |left| / CHUNK_LEN;
    var degree := if |left| == CHUNK_LEN then 1 else RowSpace(platform.simdDegree);
    left_n, right_n := Join(platform, mode, left, counter, right, right_counter, degree, cv_array);
  }

  /** The two sides of a join, which may run in either order: they write disjoint
      parts of the buffer. */
  method Join(platform: Platform, mode: Mode, left: seq<u8>, counter: nat, right: seq<u8>, right_counter: nat,
              degree: nat, cv_array: array<CVBytes>)
    returns (left_n: nat, right_n: nat)
    requires platform.Runs(mode) && left != [] && right != []
    requires |Wide(platform, mode, left, counter)| == degree
    requires degree + RowSpace(platform.simdDegree) <= cv_array.Length
    modifies cv_array
    ensures left_n == degree && right_n == |Wide(platform, mode, right, right_counter)|
    ensures left_n + right_n <= cv_array.Length
    ensures cv_array[..left_n + right_n]
         == Wide(platform, mode, left, counter) + Wide(platform, mode, right, right_counter)
    decreases |left| + |right|, 1
  {
    if * {
      left_n, right_n := LeftFirst(platform, mode, left, counter, right, right_counter, degree, cv_array);
    } else {
      left_n, right_n := RightFirst(platform, mode, left, counter, right, right_counter, degree, cv_array);
    }
    SideBySide(cv_array, left_n, right_n);
  }

  method LeftFirst(platform: Platform, mode: Mode, left: seq<u8>, counter: nat, right: seq<u8>, right_counter: nat,
                   degree: nat, cv_array: array<CVBytes>)
    returns (left_n: nat, right_n: nat)
    requires platform.Runs(mode) && left != [] && right != []
    requires |Wide(platform, mode, left, counter)| == degree
    requires degree + RowSpace(platform.simdDegree) <= cv_array.Length
    modifies cv_array
    ensures left_n == degree && left_n + right_n <= cv_array.Length
    ensures cv_array[0..left_n] == Wide(platform, mode, left, counter)
    ensures cv_array[left_n..left_n + right_n] == Wide(platform, mode, right, right_counter)
    decreases |left| + |right|, 0
  {
    left_n := CompressSubtreeWide(platform, mode, left, counter, cv_array, 0);
    right_n := CompressSubtreeWide(platform, mode, right, right_counter, cv_array, degree);
  }

  method RightFirst(platform: Platform, mode: Mode, left: seq<u8>, counter: nat, right: seq<u8>, right_counter: nat,
                    degree: nat, cv_array: array<CVBytes>)
    returns (left_n: nat, right_n: nat)
    requires platform.Runs(mode) && left != [] && right != []
    requires |Wide(platform, mode, left, counter)| == degree
    requires degree + RowSpace(platform.simdDegree) <= cv_array.Length
    modifies cv_array
    ensures left_n == degree && left_n + right_n <= cv_array.Length
    ensures cv_array[0..left_n] == Wide(platform, mode, left, counter)
    ensures cv_array[left_n..left_n + right_n] == Wide(platform, mode, right, right_counter)
    decreases |left| + |right|, 0
  {
    right_n := CompressSubtreeWide(platform, mode, right, right_counter, cv_array, degree);
    left_n := CompressSubtreeWide(platform, mode, left, counter, cv_array, 0);
  }

  lemma {:induction false} SideBySide(row: array<CVBytes>, left_n: nat, right_n: nat)
    requires left_n + right_n <= row.Length
    ensures row[..left_n + right_n] == row[0..left_n] + row[left_n..left_n + right_n]
  {
  }

  /** Condenses the row for `input` to the message block of its top node, which is
      left uncompressed because it may be the root. */
  method CompressSubtreeToParentNode(platform: Platform, mode: Mode, input: seq<u8>, counter: nat)
    returns (block: Block)
    requires platform.Runs(mode) && |input| > CHUNK_LEN
    ensures var (left, right) := Children(mode.Tree(), input, counter); block == ParentBlock(left, right)
  {
    var cv_array := new CVBytes[platform.maxSimdDegreeOr2](i => ZERO_CV);
    var num_cvs := RowUnderTop(platform, mode, input, counter, cv_array);
    num_cvs := Condense(platform, mode, cv_array, num_cvs);
    PairOnTop(mode.Tree(), cv_array[..2]);
    block := ParentBlock(cv_array[0], cv_array[1]);
  }

  /** Fills `cv_array` with a row of values below the top node of `input`. */
  method RowUnderTop(platform: Platform, mode: Mode, input: seq<u8>, counter: nat, cv_array: array<CVBytes>)
    returns (num_cvs: nat)
    requires platform.Runs(mode) && |input| > CHUNK_LEN && cv_array.Length == platform.maxSimdDegreeOr2
    modifies cv_array
    ensures 2 <= num_cvs <= cv_array.Length
    ensures TopPair(mode.Tree(), cv_array[..num_cvs]) == Children(mode.Tree(), input, counter)
  {
    num_cvs := CompressSubtreeWide(platform, mode, input, counter, cv_array, 0);
    TopOf(platform, mode, input, counter, cv_array[0..num_cvs]);
    assert cv_array[..num_cvs] == cv_array[0..num_cvs];
  }

  lemma {:induction false} TopOf(platform: Platform, mode: Mode, input: seq<u8>, counter: nat, row: seq<CVBytes>)
    requires platform.Valid() && |input| > CHUNK_LEN && row == Wide(platform, mode, input, counter)
    ensures |row| >= 2 && TopPair(mode.Tree(), row) == Children(mode.Tree(), input, counter)
  {
    WideTop(platform, mode, input, counter);
  }

  lemma {:induction false} PairOnTop(t: HashTree, pair: seq<CVBytes>)
    requires |pair| == 2
    ensures TopPair(t, pair) == (pair[0], pair[1])
  {
    assert pair[..1] == [pair[0]] && pair[1..] == [pair[1]];
  }

  /** Forms parents level by level until two values are left. */
  method Condense(platform: Platform, mode: Mode, cv_array: array<CVBytes>, num: nat) returns (num_cvs: nat)
    requires platform.Runs(mode) && 2 <= num <= cv_array.Length == platform.maxSimdDegreeOr2
    modifies cv_array
    ensures num_cvs == 2 && TopPair(mode.Tree(), cv_array[..2]) == old(TopPair(mode.Tree(), cv_array[..num]))
  {
    num_cvs := num;
    var out_array := new CVBytes[platform.maxSimdDegreeOr2 / 2](i => ZERO_CV);
    while num_cvs > 2
      invariant 2 <= num_cvs <= cv_array.Length
      invariant TopPair(mode.Tree(), cv_array[..num_cvs]) == old(TopPair(mode.Tree(), cv_array[..num]))
    {
      PairLevelKeepsTop(mode.Tree(), cv_array[..num_cvs]);
      num_cvs := CondenseLevel(platform, mode, cv_array, num_cvs, out_array);
    }
  }

  /** Replaces a row by its level of parents, by way of a second buffer. */
  method CondenseLevel(
      platform: Platform, mode: Mode, cv_array: array<CVBytes>, num: nat, out_array: array<CVBytes>)
    returns (num_cvs: nat)
    requires platform.Runs(mode) && 2 < num <= cv_array.Length == platform.maxSimdDegreeOr2
    requires out_array.Length == platform.maxSimdDegreeOr2 / 2 && out_array != cv_array
    modifies cv_array, out_array
    ensures num_cvs == (num + 1) / 2 && cv_array[..num_cvs] == old(PairLevel(mode.Tree(), cv_array[..num]))
  {
    num_cvs := CompressParentsParallel(platform, mode, cv_array[..num], out_array, 0);
    forall i | 0 <= i < num_cvs {
      cv_array[i] := out_array[i];
    }
    assert cv_array[..num_cvs] == out_array[0..num_cvs];
  }

  /** The root node of a complete input. */
  method HashAllAtOnce(platform: Platform, mode: Mode, input: seq<u8>) returns (o: Output)
    requires platform.Runs(mode)
    ensures o == mode.RootOutput(input)
  {
    if |input| <= CHUNK_LEN {
      var chunk_state := new ChunkState(platform, mode, 0);
      chunk_state.Update(input);
      assert [] + input == input;
      return chunk_state.Output();
    }
    var block := CompressSubtreeToParentNode(platform, mode, input, 0);
    o := Output(mode.key, block, BLOCK_LEN, 0, mode.flags | PARENT);
  }
}
