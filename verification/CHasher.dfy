/** The hasher of the C port: the same tree over fixed buffers that are overwritten
    in place, and seekable output. */
module CHashing {
  import opened Sequences
  import opened Bits
  import opened CBits
  import opened Words
  import opened Blake3Tree
  import opened ChunkHashing
  import opened CvStack
  import opened Platforms
  import opened OutputStream
  import opened ExtendedOutput
  import opened Hashing
  import opened Subtree
  import opened WideTree

  class CHasher {
    const platform: Platform
    const mode: Mode
    const chunk: ChunkState
    const cv_stack: array<CVBytes>
    var cv_stack_len: nat

    ghost var Data: seq<u8>
    ghost var pieces: Pieces

    /** The used part of the stack buffer. */
    function Stack(): seq<CVBytes>
      requires cv_stack_len <= cv_stack.Length
      reads this, cv_stack
    {
      cv_stack[..cv_stack_len]
    }

    ghost predicate Consistent()
      reads this, cv_stack, chunk, chunk.buf
    {
      && platform.Runs(mode)
      && cv_stack_len <= cv_stack.Length == MAX_DEPTH + 1
      && chunk.Valid() && chunk.mode == mode
      && Shape(mode.Tree(), Stack(), pieces)
      && chunk.chunk_counter == pieces.Count()
    }

    ghost predicate Settled(data: seq<u8>)
      reads this, cv_stack, chunk, chunk.buf
    {
      && Consistent()
      && data == pieces.Bytes() + chunk.Data()
      && (chunk.Data() != [] ==> pieces.q == 0)
      && (chunk.Data() == [] && data != [] ==> pieces.q > 0 && pieces.n > 0)
    }

    ghost predicate Valid()
      reads this, cv_stack, chunk, chunk.buf
    {
      Settled(Data) && |Data| < MAX_INPUT
    }

    constructor (platform: Platform, mode: Mode)
      requires platform.Runs(mode)
      ensures Valid() && fresh(chunk) && fresh(chunk.buf) && fresh(cv_stack)
      ensures Data == [] && this.mode == mode && this.platform == platform
    {
      this.platform := platform;
      this.mode := mode;
      this.chunk := new ChunkState(platform, mode, 0);
      this.cv_stack := new CVBytes[MAX_DEPTH + 1](i => ZERO_CV);
      this.cv_stack_len := 0;
      this.Data := [];
      this.pieces := Pieces([], 0, [], 0);
      new;
      EmptyShape(mode.Tree());
      assert Stack() == [];
    }

    /** Merges in place: the parent's value replaces that of its left child. */
    method MergeCvStack(total_len: nat)
      requires platform.Runs(mode) && cv_stack_len <= cv_stack.Length && (total_len > 0 || cv_stack_len == 0)
      modifies this`cv_stack_len, cv_stack
      ensures cv_stack_len <= cv_stack.Length
      ensures Stack() == MergeAll(mode.Tree(), old(Stack()), CountOnes(total_len))
    {
      var post_merge_stack_len := PopCnt(total_len);
      if total_len > 0 { CountOnesPositive(total_len); }
      while cv_stack_len > post_merge_stack_len
        invariant cv_stack_len <= cv_stack.Length
        invariant MergeAll(mode.Tree(), Stack(), post_merge_stack_len)
               == MergeAll(mode.Tree(), old(Stack()), post_merge_stack_len)
        decreases cv_stack_len
      {
        MergeTop();
      }
    }

    method MergeTop()
      requires platform.Runs(mode) && 2 <= cv_stack_len <= cv_stack.Length
      modifies this`cv_stack_len, cv_stack
      ensures cv_stack_len == old(cv_stack_len) - 1
      ensures var s, k := old(Stack()), old(cv_stack_len) - 2;
              Stack() == s[..k] + [mode.Tree().Parent(s[k], s[k + 1])]
    {
      var k := cv_stack_len - 2;
      var output := mode.ParentOutput(cv_stack[k], cv_stack[k + 1]);
      cv_stack[k] := ChainingValue(platform, mode, output);
      cv_stack_len := cv_stack_len - 1;
    }

    method PushCv(new_cv: CVBytes, chunk_counter: nat)
      requires platform.Runs(mode) && cv_stack_len <= cv_stack.Length == MAX_DEPTH + 1
      requires Fits(mode.Tree(), Stack(), chunk_counter)
      modifies this`cv_stack_len, cv_stack
      ensures cv_stack_len <= cv_stack.Length
      ensures Stack() == Push(mode.Tree(), old(Stack()), new_cv, chunk_counter)
    {
      MergeCvStack(chunk_counter);
      cv_stack[cv_stack_len] := new_cv;
      cv_stack_len := cv_stack_len + 1;
    }

    method PushAligned(input: seq<u8>, k: nat)
      requires Consistent() && |input| == CHUNK_LEN * k && IsPow2(k) && Aligned(k, pieces.Count())
      requires pieces.Count() + k <= MAX_CHUNKS
      modifies this`cv_stack_len, cv_stack
      ensures cv_stack_len <= cv_stack.Length
      ensures Stack() == PushSubtree(mode.Tree(), old(Stack()), input, pieces.Count(), k)
    {
      var chunk_counter := chunk.chunk_counter;
      if |input| <= CHUNK_LEN {
        ChunkFits(mode.Tree(), Stack(), pieces, input);
        var cv := HashRemainder(platform, mode, input, chunk_counter);
        PushCv(cv, chunk_counter);
      } else {
        var cv_pair := CompressSubtreeToParentNode(platform, mode, input, chunk_counter);
        PairFits(mode.Tree(), Stack(), pieces, input, k, cv_pair);
        PushPair(LeftHalf(cv_pair), chunk_counter, RightHalf(cv_pair), chunk_counter + k / 2);
      }
    }

    /** The two pushes of a subtree's pair of chaining values. */
    method PushPair(left: CVBytes, left_counter: nat, right: CVBytes, right_counter: nat)
      requires platform.Runs(mode) && cv_stack_len <= cv_stack.Length == MAX_DEPTH + 1
      requires FitsTwo(mode.Tree(), Stack(), left, left_counter, right_counter)
      modifies this`cv_stack_len, cv_stack
      ensures cv_stack_len <= cv_stack.Length
      ensures Stack() == PushTwo(mode.Tree(), old(Stack()), left, left_counter, right, right_counter)
    {
      PushCv(left, left_counter);
      PushCv(right, right_counter);
    }

    method PushPieces(subtree: seq<u8>, subtree_chunks: nat)
      requires Consistent() && |subtree| == CHUNK_LEN * subtree_chunks && |pieces.Bytes()| + |subtree| < MAX_INPUT
      requires IsPow2(subtree_chunks) && Aligned(subtree_chunks, pieces.Count())
      modifies this`cv_stack_len, this`pieces, cv_stack
      ensures cv_stack_len <= cv_stack.Length && Shape(mode.Tree(), Stack(), pieces)
      ensures pieces.Bytes() == old(pieces).Bytes() + subtree
      ensures pieces.Count() == old(pieces).Count() + subtree_chunks
      ensures subtree_chunks >= 2 ==> pieces.q > 0 && pieces.n > 0
    {
      ghost var stack, before := Stack(), pieces;
      CountFits(mode.Tree(), stack, before, subtree_chunks);
      PushAligned(subtree, subtree_chunks);
      pieces := SubtreeShape(mode.Tree(), stack, before, subtree, subtree_chunks);
    }

    /** The length of the next subtree, by this port's way of rounding down. */
    method SubtreeLen(len: nat, c: nat) returns (subtree_len: nat)
      requires CHUNK_LEN < len < MAX_INPUT
      ensures var k := subtree_len / CHUNK_LEN;
              k > 0 && subtree_len == CHUNK_LEN * k <= len && IsPow2(k) && Aligned(k, c)
    {
      RoundDownAgrees(len);
      var start := RoundDown(len);
      subtree_len := ShrinkSubtree(start, c * CHUNK_LEN);
      AtLeastAChunk(len, c, subtree_len);
      SubtreeChunks(subtree_len, c);
    }

    /** One round of the main loop: the largest aligned subtree at the start of `input`. */
    method HashSubtree(input: seq<u8>) returns (rest: seq<u8>)
      requires Consistent() && chunk.Data() == [] && |input| > CHUNK_LEN
      requires |pieces.Bytes()| + |input| < MAX_INPUT
      modifies this`cv_stack_len, this`pieces, cv_stack, chunk`chunk_counter
      ensures Consistent() && chunk.Data() == [] && |rest| < |input|
      ensures pieces.Bytes() + rest == old(pieces).Bytes() + input
      ensures rest == [] ==> pieces.q > 0 && pieces.n > 0
    {
      var subtree_len := SubtreeLen(|input|, chunk.chunk_counter);
      var subtree_chunks := subtree_len / CHUNK_LEN;
      var subtree := input[..subtree_len];
      rest := input[subtree_len..];
      assert input == subtree + rest;
      Assoc(pieces.Bytes(), subtree, rest);
      PushPieces(subtree, subtree_chunks);
      chunk.Skip(subtree_chunks);
    }

    method HashSubtrees(input: seq<u8>) returns (rest: seq<u8>)
      requires Consistent() && chunk.Data() == [] && |pieces.Bytes()| + |input| < MAX_INPUT
      requires input == [] && pieces.Bytes() != [] ==> pieces.q > 0 && pieces.n > 0
      modifies this`cv_stack_len, this`pieces, cv_stack, chunk`chunk_counter
      ensures Consistent() && chunk.Data() == [] && |rest| <= CHUNK_LEN
      ensures pieces.Bytes() + rest == old(pieces).Bytes() + input
      ensures rest == [] && pieces.Bytes() != [] ==> pieces.q > 0 && pieces.n > 0
    {
      rest := input;
      while |rest| > CHUNK_LEN
        invariant Consistent() && chunk.Data() == []
        invariant pieces.Bytes() + rest == old(pieces).Bytes() + input
        invariant rest == [] && pieces.Bytes() != [] ==> pieces.q > 0 && pieces.n > 0
        decreases |rest|
      {
        assert |pieces.Bytes() + rest| < MAX_INPUT;
        rest := HashSubtree(rest);
      }
    }

    /** A full chunk with more input after it goes on the stack. */
    method PushFullChunk()
      requires Consistent() && |chunk.Data()| == CHUNK_LEN && pieces.Count() < MAX_CHUNKS
      modifies this`cv_stack_len, this`pieces, cv_stack
      ensures cv_stack_len <= cv_stack.Length && Shape(mode.Tree(), Stack(), pieces)
      ensures pieces == Pieces(old(pieces).Bytes(), old(pieces).Count(), chunk.Data(), 1)
    {
      var chunk_cv := ChainingValue(platform, mode, chunk.Output());
      ChunkFits(mode.Tree(), Stack(), pieces, chunk.Data());
      PushShape(mode.Tree(), Stack(), pieces, chunk.Data(), 1);
      PushCv(chunk_cv, chunk.chunk_counter);
      pieces := Pieces(pieces.Bytes(), pieces.Count(), chunk.Data(), 1);
    }

    method FinishChunk(input: seq<u8>) returns (rest: seq<u8>)
      requires Consistent() && pieces.q == 0 && chunk.Data() != []
      requires |pieces.Bytes()| + |chunk.Data()| + |input| < MAX_INPUT
      modifies this`cv_stack_len, this`pieces, cv_stack, chunk, chunk.buf
      ensures Consistent() && |rest| <= |input|
      ensures pieces.Bytes() + chunk.Data() + rest == old(pieces.Bytes() + chunk.Data()) + input
      ensures if rest == [] then chunk.Data() != [] && pieces.q == 0
              else chunk.Data() == []
    {
      ghost var low, data := pieces.Bytes(), chunk.Data();
      rest := chunk.FillChunk(input);
      Refilled(low, data, input, chunk.Data(), rest);
      if rest != [] {
        CountFits(mode.Tree(), Stack(), pieces, 1);
        NextChunk();
      }
    }

    /** Moves on to the next chunk. */
    method NextChunk()
      requires Consistent() && |chunk.Data()| == CHUNK_LEN && pieces.Count() < MAX_CHUNKS
      modifies this`cv_stack_len, this`pieces, cv_stack, chunk, chunk.buf
      ensures Consistent() && chunk.Data() == [] && pieces.Bytes() == old(pieces.Bytes() + chunk.Data())
    {
      PushFullChunk();
      chunk.Reset(chunk.chunk_counter + 1);
    }

    /** `blake3_hasher_update`. */
    method Update(input: seq<u8>)
      requires Valid() && |Data| + |input| < MAX_INPUT
      modifies this, cv_stack, chunk, chunk.buf
      ensures Valid() && Data == old(Data) + input
    {
      if input == [] {
        assert Data + input == Data;
        return;
      }
      if chunk.Len() > 0 {
        UpdatePartial(input);
      } else {
        assert Data == pieces.Bytes();
        HashRest(input);
      }
      Data := Data + input;
    }

    method UpdatePartial(input: seq<u8>)
      requires Consistent() && pieces.q == 0 && chunk.Data() != []
      requires |pieces.Bytes()| + |chunk.Data()| + |input| < MAX_INPUT
      modifies this`cv_stack_len, this`pieces, cv_stack, chunk, chunk.buf
      ensures Settled(old(pieces.Bytes() + chunk.Data()) + input)
    {
      var rest := FinishChunk(input);
      if rest != [] {
        assert pieces.Bytes() + [] == pieces.Bytes();
        HashRest(rest);
      } else {
        assert pieces.Bytes() + chunk.Data() + rest == pieces.Bytes() + chunk.Data();
      }
    }

    method HashRest(input: seq<u8>)
      requires Consistent() && chunk.Data() == [] && |pieces.Bytes()| + |input| < MAX_INPUT && input != []
      modifies this`cv_stack_len, this`pieces, cv_stack, chunk, chunk.buf
      ensures Settled(old(pieces).Bytes() + input)
    {
      var rest := HashSubtrees(input);
      if rest != [] {
        chunk.Update(rest);
        assert [] + rest == rest;
        FinalMerge();
      }
    }

    method FinalMerge()
      requires Consistent()
      modifies this`cv_stack_len, this`pieces, cv_stack
      ensures Consistent() && pieces.Bytes() == old(pieces).Bytes() && pieces.q == 0
    {
      MergePieces(chunk.chunk_counter);
    }

    method MergePieces(total_len: nat)
      requires platform.Runs(mode)
      requires cv_stack_len <= cv_stack.Length && Shape(mode.Tree(), Stack(), pieces) && total_len == pieces.Count()
      modifies this`cv_stack_len, this`pieces, cv_stack
      ensures cv_stack_len <= cv_stack.Length && Shape(mode.Tree(), Stack(), pieces)
      ensures pieces.Bytes() == old(pieces).Bytes() && pieces.q == 0 && pieces.Count() == total_len
    {
      ghost var merged := MergedPieces(mode.Tree(), Stack(), pieces);
      MergeCvStack(total_len);
      pieces := merged;
    }

    /** `blake3_hasher_finalize_seek`: writes the output stream of all the input so far,
        from byte `seek` on; the state does not change. */
    method FinalizeSeek(seek: nat, out: array<u8>)
      requires Valid() && seek + out.Length < MAX_POSITION
      modifies out
      ensures out[..] == Stream(mode.Blocks(mode.RootOutput(Data)), seek, out.Length)
    {
      if out.Length == 0 { return; }
      var output := FinalOutput();
      OutputRootBytes(platform, mode, output, seek, out);
    }

    method FinalOutput() returns (output: Output)
      requires Valid()
      ensures output == mode.RootOutput(Data)
    {
      ShapeCount(mode.Tree(), Stack(), pieces);
      if cv_stack_len == 0 {
        assert Data == chunk.Data();
        return chunk.Output();
      }
      var cvs_remaining: nat;
      if chunk.Len() > 0 {
        cvs_remaining := cv_stack_len;
        output := chunk.Output();
        MergesWithChunk();
      } else {
        cvs_remaining := cv_stack_len - 2;
        output := mode.ParentOutput(cv_stack[cvs_remaining], cv_stack[cvs_remaining + 1]);
        MergesWithPair();
      }
      output := FoldStack(output, cvs_remaining);
    }

    /** Folding the whole stack into the chunk's node gives the root. */
    lemma {:induction false} MergesWithChunk()
      requires Valid() && chunk.Data() != []
      ensures Fold(mode.Tree(), Stack(), chunk.Output()) == mode.RootOutput(Data)
    {
      chunk.OutputIsSubtree();
      MergesWith(chunk.Output(), chunk.Data());
    }

    lemma {:induction false} MergesWith(top: Output, last: seq<u8>)
      requires cv_stack_len <= cv_stack.Length && Shape(mode.Tree(), Stack(), pieces) && pieces.q == 0
      requires 0 < |last| <= CHUNK_LEN && top == mode.Tree().Subtree(last, pieces.n)
      ensures Fold(mode.Tree(), Stack(), top) == mode.RootOutput(pieces.Bytes() + last)
    {
      FoldPartial(mode.Tree(), Stack(), pieces, last);
    }

    /** Without a partial chunk, the two topmost values are siblings below the root or
        below a node that the rest of the stack folds into. */
    lemma {:induction false} MergesWithPair()
      requires Valid() && chunk.Data() == [] && Data != []
      ensures var k := cv_stack_len - 2;
              k >= 0 && Fold(mode.Tree(), cv_stack[..k], mode.ParentOutput(cv_stack[k], cv_stack[k + 1]))
                     == mode.RootOutput(Data)
    {
      FoldLazy(mode.Tree(), Stack(), pieces);
      assert Data == pieces.Bytes();
      assert Stack()[..cv_stack_len - 2] == cv_stack[..cv_stack_len - 2];
    }

    method FoldStack(top: Output, num: nat) returns (output: Output)
      requires platform.Runs(mode) && num <= cv_stack.Length
      ensures output == Fold(mode.Tree(), cv_stack[..num], top)
    {
      output := top;
      var cvs_remaining: nat := num;
      while cvs_remaining > 0
        invariant cvs_remaining <= cv_stack.Length
        invariant Fold(mode.Tree(), cv_stack[..cvs_remaining], output) == Fold(mode.Tree(), cv_stack[..num], top)
      {
        cvs_remaining := cvs_remaining - 1;
        FoldSnoc(mode.Tree(), cv_stack[..cvs_remaining], cv_stack[cvs_remaining], output);
        assert cv_stack[..cvs_remaining + 1] == cv_stack[..cvs_remaining] + [cv_stack[cvs_remaining]];
        var cv := ChainingValue(platform, mode, output);
        output := mode.ParentOutput(cv_stack[cvs_remaining], cv);
      }
    }

    method Reset()
      requires Valid()
      modifies this, chunk, chunk.buf
      ensures Valid() && Data == []
    {
      chunk.Reset(0);
      cv_stack_len := 0;
      Data := [];
      pieces := Pieces([], 0, [], 0);
      EmptyShape(mode.Tree());
      assert Stack() == [];
    }
  }

  /** `output_root_bytes`: any stretch of the output stream, in whole blocks but for
      its ends. */
  method OutputRootBytes(platform: Platform, mode: Mode, o: Output, seek: nat, out: array<u8>)
    requires platform.Runs(mode) && seek + out.Length < MAX_POSITION
    modifies out
    ensures out[..] == Stream(mode.Blocks(o), seek, out.Length)
  {
    if out.Length == 0 { return; }
    var output_block_counter, offset_within_block := seek / BLOCK_LEN, seek % BLOCK_LEN;
    var at := 0;
    if offset_within_block != 0 {
      var available_bytes := BLOCK_LEN - offset_within_block;
      at := if out.Length > available_bytes then available_bytes else out.Length;
      WriteStretch(platform, mode, o, output_block_counter, offset_within_block, at, out, 0, seek);
      output_block_counter := output_block_counter + 1;
    }
    if at < out.Length {
      OutputBlocks(platform, mode, o, output_block_counter, out, at, seek);
    }
    assert out[..out.Length] == out[..];
  }

  /** The rest of the output once the position is at a block boundary. */
  method OutputBlocks(
      platform: Platform, mode: Mode, o: Output, first: nat, out: array<u8>, at: nat, ghost seek: nat)
    requires platform.Runs(mode) && at <= out.Length && out[..at] == Stream(mode.Blocks(o), seek, at)
    requires seek + at == BLOCK_LEN * first
    modifies out
    ensures out[..out.Length] == Stream(mode.Blocks(o), seek, out.Length)
  {
    var blocks := (out.Length - at) / BLOCK_LEN;
    var tail := at + BLOCK_LEN * blocks;
    if blocks != 0 {
      XofMany(platform, mode, o, first, out, at, blocks, seek);
    }
    OutputTail(platform, mode, o, first + blocks, out, tail, seek);
  }

  /** The start of a last block. */
  method OutputTail(
      platform: Platform, mode: Mode, o: Output, index: nat, out: array<u8>, tail: nat, ghost seek: nat)
    requires platform.Runs(mode) && tail <= out.Length < tail + BLOCK_LEN
    requires out[..tail] == Stream(mode.Blocks(o), seek, tail) && seek + tail == BLOCK_LEN * index
    modifies out
    ensures out[..out.Length] == Stream(mode.Blocks(o), seek, out.Length)
  {
    if tail < out.Length {
      WriteStretch(platform, mode, o, index, 0, out.Length - tail, out, tail, seek);
    }
  }

  /** The C port's output for any cut of the input into updates and any seek. */
  method HashPartsAndSeek(platform: Platform, mode: Mode, parts: seq<seq<u8>>, seek: nat, out: array<u8>)
    requires platform.Runs(mode) && |Joined(parts)| < MAX_INPUT && seek + out.Length < MAX_POSITION
    modifies out
    ensures out[..] == Stream(mode.Blocks(mode.RootOutput(Joined(parts))), seek, out.Length)
  {
    var hasher := new CHasher(platform, mode);
    for i := 0 to |parts|
      invariant hasher.Valid() && hasher.Data == Joined(parts[..i]) && hasher.mode == mode
      invariant fresh(hasher) && fresh(hasher.cv_stack) && fresh(hasher.chunk) && fresh(hasher.chunk.buf)
    {
      JoinedStep(parts, i);
      hasher.Update(parts[i]);
    }
    assert parts[..|parts|] == parts;
    hasher.FinalizeSeek(seek, out);
  }

  /** Both ports give the same bytes, however each cuts the same input and whatever
      vector unit each runs on. */
  method BothPorts(rust: Platform, c: Platform, mode: Mode, rust_parts: seq<seq<u8>>, c_parts: seq<seq<u8>>,
                   seek: nat, n: nat)
    returns (rust_bytes: seq<u8>, c_bytes: seq<u8>)
    requires rust.Runs(mode) && c.Runs(mode) && Joined(rust_parts) == Joined(c_parts)
    requires |Joined(c_parts)| < MAX_INPUT && seek + n < MAX_POSITION
    ensures rust_bytes == c_bytes == Stream(mode.Blocks(mode.RootOutput(Joined(c_parts))), seek, n)
  {
    var root := HashParts(rust, mode, rust_parts);
    var reader := new OutputReader(rust, mode, root);
    reader.SetPosition(seek);
    var rust_out := new u8[n];
    reader.Fill(rust_out);
    var c_out := new u8[n];
    HashPartsAndSeek(c, mode, c_parts, seek, c_out);
    rust_bytes, c_bytes := rust_out[..], c_out[..];
  }
}
