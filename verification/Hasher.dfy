/** The incremental hasher of the Rust code. */
module Hashing {
  import opened Sequences
  import opened Bits
  import opened Words
  import opened Blake3Tree
  import opened Platforms
  import opened ChunkHashing
  import opened CvStack
  import opened Subtree
  import opened WideTree

  /** Halves a power of two until it divides `count_so_far`. */
  method ShrinkSubtree(start: nat, count_so_far: nat) returns (subtree_len: nat)
    requires IsPow2(start)
    ensures IsPow2(subtree_len) && subtree_len <= start && Aligned(subtree_len, count_so_far)
    ensures forall p: nat | IsPow2(p) && p <= start && Aligned(p, count_so_far) :: p <= subtree_len
  {
    subtree_len := start;
    MaskTestsAlignment(subtree_len, count_so_far);
    while BitAnd(subtree_len - 1, count_so_far) != 0
      invariant IsPow2(subtree_len) && subtree_len <= start
      invariant BitAnd(subtree_len - 1, count_so_far) == 0 <==> Aligned(subtree_len, count_so_far)
      invariant forall p: nat | IsPow2(p) && p <= start && Aligned(p, count_so_far) :: p <= subtree_len
      decreases subtree_len
    {
      forall p: nat | IsPow2(p) && p <= start && Aligned(p, count_so_far) ensures p <= subtree_len / 2 {
        if p < subtree_len { Pow2Gap(p, subtree_len); }
      }
      subtree_len := subtree_len / 2;
      MaskTestsAlignment(subtree_len, count_so_far);
    }
  }

  lemma {:induction false} DoubleAligned(k: nat, c: nat)
    requires k > 0
    ensures Aligned(2 * k, 2 * c) <==> Aligned(k, c)
    ensures IsPow2(2 * k) <==> IsPow2(k)
  {
  }

  lemma {:induction false} AlignedTimes32(k: nat, c: nat)
    requires k > 0
    ensures Aligned(32 * k, 32 * c) <==> Aligned(k, c)
    ensures IsPow2(32 * k) <==> IsPow2(k)
  {
    DoubleAligned(k, c);
    DoubleAligned(2 * k, 2 * c);
    DoubleAligned(4 * k, 4 * c);
    DoubleAligned(8 * k, 8 * c);
    DoubleAligned(16 * k, 16 * c);
  }

  /** Alignment in bytes is alignment in chunks. */
  lemma {:induction false} ChunkAligned(k: nat, c: nat)
    requires k > 0
    ensures Aligned(CHUNK_LEN * k, CHUNK_LEN * c) <==> Aligned(k, c)
    ensures IsPow2(CHUNK_LEN * k) <==> IsPow2(k)
  {
    AlignedTimes32(k, c);
    AlignedTimes32(32 * k, 32 * c);
  }

  /** A power of two that is no smaller than a chunk is a power of two of chunks. */
  lemma {:induction false} WholeChunkPow2(len: nat)
    requires IsPow2(len) && len >= CHUNK_LEN
    ensures len == CHUNK_LEN * (len / CHUNK_LEN)
  {
    ChunkAligned(1, 0);
    AlignedPow2(CHUNK_LEN, len);
    AlignedIsModulo(CHUNK_LEN, len);
  }

  /** The largest aligned subtree is a power of two of chunks, and at least one. */
  lemma {:induction false} SubtreeChunks(len: nat, c: nat)
    requires IsPow2(len) && len >= CHUNK_LEN && Aligned(len, CHUNK_LEN * c)
    ensures var k := len / CHUNK_LEN; k > 0 && len == CHUNK_LEN * k && IsPow2(k) && Aligned(k, c)
  {
    WholeChunkPow2(len);
    ChunkAligned(len / CHUNK_LEN, c);
  }

  lemma {:induction false} AtLeastAChunk(len: nat, c: nat, subtree_len: nat)
    requires len > CHUNK_LEN && IsPow2(subtree_len)
    requires forall p: nat | IsPow2(p) && p <= LargestPowerOfTwoLeq(len) && Aligned(p, c * CHUNK_LEN) ::
               p <= subtree_len
    ensures subtree_len >= CHUNK_LEN && c * CHUNK_LEN == CHUNK_LEN * c
  {
    ChunkAligned(1, c);
    if LargestPowerOfTwoLeq(len) < CHUNK_LEN { Pow2Gap(LargestPowerOfTwoLeq(len), CHUNK_LEN); }
  }

  /** The length of the next subtree to hash, for `len` more bytes after `c` chunks. */
  method NextSubtree(len: nat, c: nat) returns (subtree_len: nat)
    requires len > CHUNK_LEN
    ensures var k := subtree_len / CHUNK_LEN;
            k > 0 && subtree_len == CHUNK_LEN * k <= len && IsPow2(k) && Aligned(k, c)
  {
    subtree_len := ShrinkSubtree(LargestPowerOfTwoLeq(len), c * CHUNK_LEN);
    AtLeastAChunk(len, c, subtree_len);
    SubtreeChunks(subtree_len, c);
  }

  /** The pair for a subtree: both values fit on the stack, and pushing them is pushing the
      subtree. */
  lemma {:induction false} PairFits(
      t: HashTree, stack: seq<CVBytes>, p: Pieces, input: seq<u8>, k: nat, pair: Block)
    requires Shape(t, stack, p) && p.Count() + k <= MAX_CHUNKS && |input| == CHUNK_LEN * k > CHUNK_LEN
    requires IsPow2(k) && Aligned(k, p.Count())
    requires var (left, right) := Children(t, input, p.Count()); pair == ParentBlock(left, right)
    ensures FitsTwo(t, stack, LeftHalf(pair), p.Count(), p.Count() + k / 2)
    ensures PushSubtree(t, stack, input, p.Count(), k)
         == PushTwo(t, stack, LeftHalf(pair), p.Count(), RightHalf(pair), p.Count() + k / 2)
  {
    var h := k / 2;
    HalvesAligned(k, p.Count());
    PairIs(t, input, h, p.Count(), pair);
    HalvesFit(t, stack, p, input[..CHUNK_LEN * h], input[CHUNK_LEN * h..], h);
  }

  lemma {:induction false} PairIs(t: HashTree, input: seq<u8>, h: nat, c: nat, pair: Block)
    requires IsPow2(h) && |input| == CHUNK_LEN * (2 * h)
    requires |input| > CHUNK_LEN
    requires var (left, right) := Children(t, input, c); pair == ParentBlock(left, right)
    ensures LeftHalf(pair) == t.Cv(input[..CHUNK_LEN * h], c)
    ensures RightHalf(pair) == t.Cv(input[CHUNK_LEN * h..], c + h)
  {
    LeftChunksIs(|input|, h);
    var (l, r) := Children(t, input, c);
    HalvesOfParent(l, r);
  }

  class Hasher {
    const platform: Platform
    const mode: Mode
    var chunk_state: ChunkState
    var cv_stack: seq<CVBytes>

    /** All input so far, and the part of it that the stack stands for. */
    ghost var Data: seq<u8>
    ghost var pieces: Pieces

    /** The stack, the chunk state and their counters agree. */
    ghost predicate Consistent()
      reads this, chunk_state, chunk_state.buf
    {
      && platform.Runs(mode)
      && chunk_state.Valid() && chunk_state.mode == mode
      && Shape(mode.Tree(), cv_stack, pieces)
      && chunk_state.chunk_counter == pieces.Count()
    }

    /** The state accounts for `data`, and the root of `data` is not compressed yet:
        either the chunk state holds its last bytes, or the stack holds two values at
        least. */
    ghost predicate Settled(data: seq<u8>)
      reads this, chunk_state, chunk_state.buf
    {
      && Consistent()
      && data == pieces.Bytes() + chunk_state.Data()
      && (chunk_state.Data() != [] ==> pieces.q == 0)
      && (chunk_state.Data() == [] && data != [] ==> pieces.q > 0 && pieces.n > 0)
    }

    ghost predicate Valid()
      reads this, chunk_state, chunk_state.buf
    {
      Settled(Data) && |Data| < MAX_INPUT
    }

    constructor (platform: Platform, mode: Mode)
      requires platform.Runs(mode)
      ensures Valid() && fresh(chunk_state) && fresh(chunk_state.buf)
      ensures Data == [] && this.mode == mode && this.platform == platform
    {
      this.platform := platform;
      this.mode := mode;
      this.chunk_state := new ChunkState(platform, mode, 0);
      this.cv_stack := [];
      this.Data := [];
      this.pieces := Pieces([], 0, [], 0);
      EmptyShape(mode.Tree());
    }

    /** Merges until the stack is as long as the popcount of the chunks so far. */
    method MergeCvStack(total_len: nat)
      requires platform.Runs(mode) && (total_len > 0 || cv_stack == [])
      modifies this`cv_stack
      ensures cv_stack == MergeAll(mode.Tree(), old(cv_stack), CountOnes(total_len))
    {
      var post_merge_stack_len := CountOnes(total_len);
      if total_len > 0 { CountOnesPositive(total_len); }
      while |cv_stack| > post_merge_stack_len
        invariant MergeAll(mode.Tree(), cv_stack, post_merge_stack_len)
               == MergeAll(mode.Tree(), old(cv_stack), post_merge_stack_len)
        decreases |cv_stack|
      {
        var k := |cv_stack| - 2;
        var left_child, right_child := cv_stack[k], cv_stack[k + 1];
        var parent_output := mode.ParentOutput(left_child, right_child);
        var parent_cv := ChainingValue(platform, mode, parent_output);
        cv_stack := cv_stack[..k] + [parent_cv];
      }
    }

    /** Merges what came before, then pushes a new value, which stays unmerged for now. */
    method PushCv(new_cv: CVBytes, chunk_counter: nat)
      requires platform.Runs(mode) && Fits(mode.Tree(), cv_stack, chunk_counter)
      modifies this`cv_stack
      ensures cv_stack == Push(mode.Tree(), old(cv_stack), new_cv, chunk_counter)
    {
      MergeCvStack(chunk_counter);
      assert |cv_stack| < MAX_DEPTH + 1;  // there is a free slot
      cv_stack := cv_stack + [new_cv];
    }

    /** Pushes the chaining values of an aligned subtree. */
    method PushAligned(input: seq<u8>, k: nat)
      requires Consistent() && |input| == CHUNK_LEN * k && IsPow2(k) && Aligned(k, pieces.Count())
      requires pieces.Count() + k <= MAX_CHUNKS
      modifies this`cv_stack
      ensures cv_stack == PushSubtree(mode.Tree(), old(cv_stack), input, pieces.Count(), k)
    {
      var chunk_counter := chunk_state.chunk_counter;
      if |input| <= CHUNK_LEN {
        ChunkFits(mode.Tree(), cv_stack, pieces, input);
        var cv := HashRemainder(platform, mode, input, chunk_counter);
        PushCv(cv, chunk_counter);
      } else {
        var cv_pair := CompressSubtreeToParentNode(platform, mode, input, chunk_counter);
        PairFits(mode.Tree(), cv_stack, pieces, input, k, cv_pair);
        PushPair(LeftHalf(cv_pair), chunk_counter, RightHalf(cv_pair), chunk_counter + k / 2);
      }
    }

    /** The two pushes of a subtree's pair of chaining values. */
    method PushPair(left: CVBytes, left_counter: nat, right: CVBytes, right_counter: nat)
      requires platform.Runs(mode) && FitsTwo(mode.Tree(), cv_stack, left, left_counter, right_counter)
      modifies this`cv_stack
      ensures cv_stack == PushTwo(mode.Tree(), old(cv_stack), left, left_counter, right, right_counter)
    {
      PushCv(left, left_counter);
      PushCv(right, right_counter);
    }

    /** One round of the main loop: hashes the largest aligned subtree at the start
        of `input`. */
    method HashSubtree(input: seq<u8>) returns (rest: seq<u8>)
      requires Consistent() && chunk_state.Data() == [] && |input| > CHUNK_LEN
      requires |pieces.Bytes()| + |input| < MAX_INPUT
      modifies this`cv_stack, this`pieces, chunk_state`chunk_counter
      ensures Consistent() && chunk_state.Data() == [] && |rest| < |input|
      ensures pieces.Bytes() + rest == old(pieces).Bytes() + input
      ensures rest == [] ==> pieces.q > 0 && pieces.n > 0
    {
      var subtree_len := NextSubtree(|input|, chunk_state.chunk_counter);
      var subtree_chunks := subtree_len / CHUNK_LEN;
      var subtree := input[..subtree_len];
      rest := input[subtree_len..];
      assert input == subtree + rest;
      Assoc(pieces.Bytes(), subtree, rest);
      PushPieces(subtree, subtree_chunks);
      chunk_state.Skip(subtree_chunks);
    }

    method PushPieces(subtree: seq<u8>, subtree_chunks: nat)
      requires Consistent() && |subtree| == CHUNK_LEN * subtree_chunks && |pieces.Bytes()| + |subtree| < MAX_INPUT
      requires IsPow2(subtree_chunks) && Aligned(subtree_chunks, pieces.Count())
      modifies this`cv_stack, this`pieces
      ensures Shape(mode.Tree(), cv_stack, pieces)
      ensures pieces.Bytes() == old(pieces).Bytes() + subtree
      ensures pieces.Count() == old(pieces).Count() + subtree_chunks
      ensures subtree_chunks >= 2 ==> pieces.q > 0 && pieces.n > 0
    {
      ghost var stack, before := cv_stack, pieces;
      CountFits(mode.Tree(), stack, before, subtree_chunks);
      PushAligned(subtree, subtree_chunks);
      pieces := SubtreeShape(mode.Tree(), stack, before, subtree, subtree_chunks);
    }

    /** The full current chunk is not the last one: its value goes on the stack. */
    method PushFullChunk()
      requires Consistent() && |chunk_state.Data()| == CHUNK_LEN && pieces.Count() < MAX_CHUNKS
      modifies this`cv_stack, this`pieces
      ensures Shape(mode.Tree(), cv_stack, pieces)
      ensures pieces == Pieces(old(pieces).Bytes(), old(pieces).Count(), chunk_state.Data(), 1)
    {
      var chunk_cv := ChainingValue(platform, mode, chunk_state.Output());
      ChunkFits(mode.Tree(), cv_stack, pieces, chunk_state.Data());
      PushShape(mode.Tree(), cv_stack, pieces, chunk_state.Data(), 1);
      PushCv(chunk_cv, chunk_state.chunk_counter);
      pieces := Pieces(pieces.Bytes(), pieces.Count(), chunk_state.Data(), 1);
    }

    /** Finishes a partly filled chunk; once more input follows, its chaining value
        goes on the stack and a new chunk begins. */
    method FinishChunk(input: seq<u8>) returns (rest: seq<u8>)
      requires Consistent() && pieces.q == 0 && chunk_state.Data() != []
      requires |pieces.Bytes()| + |chunk_state.Data()| + |input| < MAX_INPUT
      modifies this`cv_stack, this`pieces, this`chunk_state, chunk_state, chunk_state.buf
      ensures Consistent() && |rest| <= |input|
      ensures chunk_state == old(chunk_state) || (fresh(chunk_state) && fresh(chunk_state.buf))
      ensures pieces.Bytes() + chunk_state.Data() + rest == old(pieces.Bytes() + chunk_state.Data()) + input
      ensures if rest == [] then chunk_state.Data() != [] && pieces.q == 0
              else chunk_state.Data() == []
    {
      ghost var low, chunk := pieces.Bytes(), chunk_state.Data();
      rest := chunk_state.FillChunk(input);
      Refilled(low, chunk, input, chunk_state.Data(), rest);
      if rest != [] {
        CountFits(mode.Tree(), cv_stack, pieces, 1);
        NextChunk();
      }
    }

    /** Moves on to the next chunk, with a new chunk state. */
    method NextChunk()
      requires Consistent() && |chunk_state.Data()| == CHUNK_LEN && pieces.Count() < MAX_CHUNKS
      modifies this`cv_stack, this`pieces, this`chunk_state
      ensures Consistent() && fresh(chunk_state) && fresh(chunk_state.buf) && chunk_state.Data() == []
      ensures pieces.Bytes() == old(pieces.Bytes() + chunk_state.Data())
    {
      PushFullChunk();
      chunk_state := new ChunkState(platform, mode, chunk_state.chunk_counter + 1);
    }

    /** Hashes whole subtrees while more than a chunk is left. */
    method HashSubtrees(input: seq<u8>) returns (rest: seq<u8>)
      requires Consistent() && chunk_state.Data() == []
      requires |pieces.Bytes()| + |input| < MAX_INPUT
      requires input == [] && pieces.Bytes() != [] ==> pieces.q > 0 && pieces.n > 0
      modifies this`cv_stack, this`pieces, chunk_state`chunk_counter
      ensures Consistent() && chunk_state.Data() == [] && |rest| <= CHUNK_LEN
      ensures pieces.Bytes() + rest == old(pieces).Bytes() + input
      ensures rest == [] && pieces.Bytes() != [] ==> pieces.q > 0 && pieces.n > 0
    {
      rest := input;
      while |rest| > CHUNK_LEN
        invariant Consistent() && chunk_state.Data() == []
        invariant pieces.Bytes() + rest == old(pieces).Bytes() + input
        invariant rest == [] && pieces.Bytes() != [] ==> pieces.q > 0 && pieces.n > 0
        decreases |rest|
      {
        assert |pieces.Bytes() + rest| < MAX_INPUT;
        rest := HashSubtree(rest);
      }
    }

    /** Adds input; the bytes so far may be cut into calls in any way. */
    method Update(input: seq<u8>)
      requires Valid() && |Data| + |input| < MAX_INPUT
      modifies this, chunk_state, chunk_state.buf
      ensures Valid() && Data == old(Data) + input
      ensures chunk_state == old(chunk_state) || (fresh(chunk_state) && fresh(chunk_state.buf))
    {
      if chunk_state.Len() > 0 {
        UpdatePartial(input);
      } else {
        assert Data == pieces.Bytes();
        HashRest(input);
      }
      Data := Data + input;
    }

    /** Adds input while a chunk is partly filled. */
    method UpdatePartial(input: seq<u8>)
      requires Consistent() && pieces.q == 0 && chunk_state.Data() != []
      requires |pieces.Bytes()| + |chunk_state.Data()| + |input| < MAX_INPUT
      modifies this`cv_stack, this`pieces, this`chunk_state, chunk_state, chunk_state.buf
      ensures Settled(old(pieces.Bytes() + chunk_state.Data()) + input)
      ensures chunk_state == old(chunk_state) || (fresh(chunk_state) && fresh(chunk_state.buf))
    {
      var rest := FinishChunk(input);
      if rest != [] {
        assert pieces.Bytes() + [] == pieces.Bytes();
        HashRest(rest);
      } else {
        assert pieces.Bytes() + chunk_state.Data() + rest == pieces.Bytes() + chunk_state.Data();
      }
    }

    /** Adds input after whole chunks: whole subtrees first, and the last bytes, a chunk
        at most, to the chunk state. */
    method HashRest(input: seq<u8>)
      requires Consistent() && chunk_state.Data() == [] && |pieces.Bytes()| + |input| < MAX_INPUT
      requires input == [] && pieces.Bytes() != [] ==> pieces.q > 0 && pieces.n > 0
      modifies this`cv_stack, this`pieces, chunk_state, chunk_state.buf
      ensures Settled(old(pieces).Bytes() + input)
    {
      var rest := HashSubtrees(input);
      if rest != [] {
        chunk_state.Update(rest);
        assert [] + rest == rest;
        FinalMerge();
      }
    }

    /** Once the chunk state holds input, nothing on the stack can be the root any more. */
    method FinalMerge()
      requires Consistent()
      modifies this`cv_stack, this`pieces
      ensures Consistent() && pieces.Bytes() == old(pieces).Bytes() && pieces.q == 0
    {
      ghost var merged := MergedPieces(mode.Tree(), cv_stack, pieces);
      MergeCvStack(chunk_state.chunk_counter);
      pieces := merged;
    }

    /** The root node of everything hashed so far; the state does not change. */
    method FinalOutput() returns (o: Output)
      requires Valid()
      ensures o == mode.RootOutput(Data)
    {
      ShapeCount(mode.Tree(), cv_stack, pieces);
      if cv_stack == [] {
        assert Data == chunk_state.Data();
        return chunk_state.Output();
      }
      var num_cvs_remaining := |cv_stack|;
      if chunk_state.Len() > 0 {
        o := chunk_state.Output();
        MergesWithChunk();
      } else {
        o := mode.ParentOutput(cv_stack[num_cvs_remaining - 2], cv_stack[num_cvs_remaining - 1]);
        num_cvs_remaining := num_cvs_remaining - 2;
        MergesWithPair();
      }
      o := FoldStack(o, num_cvs_remaining);
    }

    /** With a partial chunk, the stack needs no more merging. */
    lemma {:induction false} StackIsMerged()
      requires Valid() && chunk_state.Data() != []
      ensures |cv_stack| == CountOnes(chunk_state.chunk_counter)
    {
      ShapeCount(mode.Tree(), cv_stack, pieces);
    }

    /** Folding the whole stack into the chunk's node gives the root. */
    lemma {:induction false} MergesWithChunk()
      requires Valid() && chunk_state.Data() != []
      ensures Fold(mode.Tree(), cv_stack[..|cv_stack|], chunk_state.Output()) == mode.RootOutput(Data)
    {
      chunk_state.OutputIsSubtree();
      MergesWith(chunk_state.Output(), chunk_state.Data());
    }

    lemma {:induction false} MergesWith(top: Output, last: seq<u8>)
      requires Shape(mode.Tree(), cv_stack, pieces) && pieces.q == 0
      requires 0 < |last| <= CHUNK_LEN && top == mode.Tree().Subtree(last, pieces.n)
      ensures Fold(mode.Tree(), cv_stack[..|cv_stack|], top) == mode.RootOutput(pieces.Bytes() + last)
    {
      FoldPartial(mode.Tree(), cv_stack, pieces, last);
      assert cv_stack[..|cv_stack|] == cv_stack;
    }

    /** Without a partial chunk, the two topmost values are siblings below the root or
        below a node that the rest of the stack folds into. */
    lemma {:induction false} MergesWithPair()
      requires Valid() && chunk_state.Data() == [] && Data != []
      ensures var k := |cv_stack| - 2;
              k >= 0 && Fold(mode.Tree(), cv_stack[..k], mode.ParentOutput(cv_stack[k], cv_stack[k + 1]))
                     == mode.RootOutput(Data)
    {
      FoldLazy(mode.Tree(), cv_stack, pieces);
      assert Data == pieces.Bytes();
    }

    /** Merges the lowest `num` values of the stack into `top`, from the top down. */
    method FoldStack(top: Output, num: nat) returns (o: Output)
      requires platform.Runs(mode) && num <= |cv_stack|
      ensures o == Fold(mode.Tree(), cv_stack[..num], top)
    {
      o := top;
      var num_cvs_remaining: nat := num;
      while num_cvs_remaining > 0
        invariant num_cvs_remaining <= |cv_stack|
        invariant Fold(mode.Tree(), cv_stack[..num_cvs_remaining], o) == Fold(mode.Tree(), cv_stack[..num], top)
      {
        var k := num_cvs_remaining - 1;
        FoldSnoc(mode.Tree(), cv_stack[..k], cv_stack[k], o);
        assert cv_stack[..num_cvs_remaining] == cv_stack[..k] + [cv_stack[k]];
        var cv := ChainingValue(platform, mode, o);
        o := mode.ParentOutput(cv_stack[k], cv);
        num_cvs_remaining := k;
      }
    }

    /** The number of bytes hashed so far. */
    function Count(): (n: nat)
      requires Valid()
      reads this, chunk_state, chunk_state.buf
      ensures n == |Data| < MAX_INPUT
    {
      chunk_state.chunk_counter * CHUNK_LEN + chunk_state.Len()
    }

    /** Back to the state of a new hasher of the same mode. */
    method Reset()
      requires Valid()
      modifies this
      ensures Valid() && Data == [] && fresh(chunk_state) && fresh(chunk_state.buf)
    {
      chunk_state := new ChunkState(platform, mode, 0);
      cv_stack := [];
      Data := [];
      pieces := Pieces([], 0, [], 0);
      EmptyShape(mode.Tree());
    }

    /** The root is never compressed as an inner node: while no chunk is partly filled,
        the stack is empty or holds two entries at least, so none covers everything. */
    lemma {:induction false} RootStaysOpen()
      requires Valid() && chunk_state.Data() == []
      ensures if Data == [] then cv_stack == [] else |cv_stack| >= 2
      ensures |cv_stack| <= MAX_DEPTH + 1
    {
      ShapeCount(mode.Tree(), cv_stack, pieces);
      CountFits(mode.Tree(), cv_stack, pieces, 0);
      if Data != [] { ShapeFits(mode.Tree(), cv_stack, pieces); }
    }
  }

  /** However the input is cut into calls of `update`, at any SIMD degree, the hasher ends
      with the root node of the whole input, the one that `HashAllAtOnce` computes. */
  method HashParts(platform: Platform, mode: Mode, parts: seq<seq<u8>>) returns (o: Output)
    requires platform.Runs(mode) && |Joined(parts)| < MAX_INPUT
    ensures o == mode.RootOutput(Joined(parts))
  {
    var hasher := new Hasher(platform, mode);
    for i := 0 to |parts|
      invariant hasher.Valid() && hasher.Data == Joined(parts[..i]) && hasher.mode == mode
      invariant fresh(hasher) && fresh(hasher.chunk_state) && fresh(hasher.chunk_state.buf)
    {
      JoinedStep(parts, i);
      hasher.Update(parts[i]);
    }
    assert parts[..|parts|] == parts;
    o := hasher.FinalOutput();
  }
}
