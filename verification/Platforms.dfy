/** The vector unit that the code runs on, and what is dispatched to it. */
module Platforms {
  import opened Bits
  import opened Words
  import opened Blake3Tree
  import opened Arx
  import opened Portable
  import HashMany
  import opened RowCompress
  import opened Units
  import opened VectorHash
  import opened OutputStream
  import opened LaneXof

  /** What is detected: no vector unit, or one of these.  `NoVectorsC` and `WithSSE41C` are
      the code of the C port, which rotates words and loads counters in its own way.
      `AnyCompression` stands for a compression function that is just given, for theorems
      about the tree alone. */
  datatype Detected =
    AnyCompression | NoVectors | NoVectorsC | WithSSE2 | WithSSE41 | WithSSE41C | WithAVX2 | WithAVX512 {

    /** `simd_degree`. */
    function SimdDegree(): nat {
      match this
      case AnyCompression => 1
      case NoVectors => 1
      case NoVectorsC => 1
      case WithSSE2 => 4
      case WithSSE41 => 4
      case WithSSE41C => 4
      case WithAVX2 => 8
      case WithAVX512 => 16
    }

    /** How its code operates on words, or on the words of a vector.  AVX-512 has an
        instruction that rotates. */
    function LaneOps(): Ops<u32> {
      match this
      case AnyCompression => WordOps()
      case NoVectors => WordOps()
      case NoVectorsC => ShiftOps()
      case WithSSE2 => ShiftOps()
      case WithSSE41 => ShiftOps()
      case WithSSE41C => ShuffleOps()
      case WithAVX2 => ShiftOps()
      case WithAVX512 => WordOps()
    }

    predicate HasVectors() {
      WithSSE2? || WithSSE41? || WithSSE41C? || WithAVX2? || WithAVX512?
    }

    /** The instructions of the row compression. */
    function RowIsa(): Isa {
      if WithSSE2? then SSE2 else SSE41
    }
  }

  /** The unit, how many inputs the tree hashers give it at once, and the buffer size that
      the build target allows for, which is at least 2. */
  datatype Platform = Platform(unit: Detected, simdDegree: nat, maxSimdDegreeOr2: nat) {
    predicate Valid() {
      IsPow2(simdDegree) && IsPow2(maxSimdDegreeOr2) && simdDegree <= maxSimdDegreeOr2 && 2 <= maxSimdDegreeOr2
    }

    /** Whether this mode can be hashed here: the units compute the real compression. */
    ghost predicate Runs(mode: Mode) {
      Valid() && RunsJobs(mode.compress)
    }

    ghost predicate RunsJobs(compress: Compress) {
      unit.AnyCompression? || Computes(WordOps(), compress)
    }
  }

  /** On every unit the word operations make the same compression function. */
  lemma {:induction false} LanesCompute(unit: Detected, compress: Compress)
    requires Computes(WordOps(), compress)
    ensures Swaps(unit.LaneOps()) && Computes(unit.LaneOps(), compress)
  {
    WordsSwap();
    LanesAgree(unit);
    AgreeingSwap(unit.LaneOps(), WordOps());
    AgreeingComputes(unit.LaneOps(), WordOps(), compress);
  }

  lemma {:induction false} LanesAgree(unit: Detected)
    ensures Agree(unit.LaneOps(), WordOps())
  {
    ShiftOpsAgree();
    ShuffleOpsAgree();
    assert forall a, b :: AgreeAt(WordOps(), WordOps(), a, b);
  }

  /** What the code detects, on a build with buffers for so many inputs. */
  function PlatformOf(unit: Detected, maxSimdDegreeOr2: nat): Platform {
    Platform(unit, unit.SimdDegree(), maxSimdDegreeOr2)
  }

  /** A build has buffers for `max` inputs, and they are made for all units that it detects. */
  predicate BuiltFor(unit: Detected, max: nat) {
    (max == 2 || max == 4 || max == 8 || max == 16) && unit.SimdDegree() <= max
  }

  /** Every unit satisfies what the tree hashers ask of a platform, in every build whose
      buffers are made for it. */
  lemma {:induction false} PlatformsAreValid(unit: Detected, max: nat)
    requires max == 2 || max == 4 || max == 8 || max == 16
    ensures PlatformOf(unit, max).Valid() <==> BuiltFor(unit, max)
  {
    assert IsPow2(1) && IsPow2(2) && IsPow2(4) && IsPow2(8) && IsPow2(16);
  }

  /** The degree is the number of lanes of the unit's vectors. */
  lemma {:induction false} DegreesAreLanes(unit: Detected)
    requires unit.HasVectors()
    ensures var o := unit.LaneOps();
            unit.SimdDegree() == match unit
                                 case WithSSE41C => CUnit4(o).degree
                                 case WithAVX2 => Unit8(o).degree
                                 case WithAVX512 => Unit16(o).degree
                                 case _ => Unit4(o).degree
  {
  }

  // ---------- one block ----------

  /** `compress_in_place`: the same chaining value on every unit. */
  method CompressInPlace(
      platform: Platform, mode: Mode, cv: CVWords, block: Block, blockLen: nat, counter: nat, flags: u8)
    returns (next: CVWords)
    requires platform.RunsJobs(mode.compress)
    ensures next == mode.CompressInPlace(cv, block, blockLen, counter, flags)
  {
    if platform.unit.AnyCompression? {
      return mode.CompressInPlace(cv, block, blockLen, counter, flags);
    }
    var o := platform.unit.LaneOps();
    LanesCompute(platform.unit, mode.compress);
    var words := new u32[8](k requires 0 <= k < 8 => cv[k]);
    assert words[..] == cv;
    if platform.unit.HasVectors() {
      RowCompress.CompressInPlace(platform.unit.RowIsa(), o, words, block, blockLen, counter, flags);
    } else {
      Portable.CompressInPlace(o, words, block, blockLen, counter, flags);
    }
    assert CompressAt(o, mode.compress, cv, block, blockLen, counter, flags);
    next := words[..];
  }

  /** `compress_xof`: the same output block on every unit. */
  method CompressXof(
      platform: Platform, mode: Mode, cv: CVWords, block: Block, blockLen: nat, counter: nat, flags: u8)
    returns (out: Block)
    requires platform.RunsJobs(mode.compress)
    ensures out == BlockFromWords(mode.compress(cv, block, blockLen, counter, flags))
  {
    if platform.unit.AnyCompression? {
      return BlockFromWords(mode.compress(cv, block, blockLen, counter, flags));
    }
    var o := platform.unit.LaneOps();
    LanesCompute(platform.unit, mode.compress);
    if platform.unit.HasVectors() {
      out := RowCompress.CompressXof(platform.unit.RowIsa(), o, cv, block, blockLen, counter, flags);
    } else {
      out := Portable.CompressXof(o, cv, block, blockLen, counter, flags);
    }
    assert CompressAt(o, mode.compress, cv, block, blockLen, counter, flags);
  }

  /** `chaining_value` of a node. */
  method ChainingValue(platform: Platform, mode: Mode, o: Output) returns (cv: CVBytes)
    requires platform.Runs(mode)
    ensures cv == mode.ChainingValue(o)
  {
    var words := CompressInPlace(platform, mode, o.inputChainingValue, o.block, o.blockLen, o.counter, o.flags);
    cv := BytesFromWords(words);
  }

  /** `root_hash` of a root node, whose counter is 0. */
  method RootHash(platform: Platform, mode: Mode, o: Output) returns (hash: CVBytes)
    requires platform.Runs(mode) && o.counter == 0
    ensures hash == mode.RootHash(o)
  {
    var words := CompressInPlace(platform, mode, o.inputChainingValue, o.block, o.blockLen, 0, o.flags | ROOT);
    hash := BytesFromWords(words);
  }

  /** `root_output_block`, for any counter. */
  method OutputBlock(platform: Platform, mode: Mode, o: Output, index: nat) returns (block: Block)
    requires platform.Runs(mode)
    ensures block == mode.Blocks(o)(index)
  {
    block := CompressXof(platform, mode, o.inputChainingValue, o.block, o.blockLen, index, o.flags | ROOT);
  }

  // ---------- many blocks ----------

  /** `hash_many`: the same hashes on every unit. */
  method HashManyOn(platform: Platform, job: HashMany.Job, inputs: seq<seq<u8>>, blocks: nat,
                    out: array<CVBytes>, at: nat)
    requires platform.RunsJobs(job.compress)
    requires forall i | 0 <= i < |inputs| :: |inputs[i]| == BLOCK_LEN * blocks
    requires at + |inputs| <= out.Length
    modifies out
    ensures HashMany.Hashed(job, inputs, blocks, out[..], at)
    ensures forall j | 0 <= j < out.Length && !(at <= j < at + |inputs|) :: out[j] == old(out[j])
  {
    if platform.unit.AnyCompression? {
      HashMany.HashMany(job, inputs, blocks, out, at);
      return;
    }
    var o := platform.unit.LaneOps();
    LanesCompute(platform.unit, job.compress);
    match platform.unit
    case NoVectors => HashMany1(o, job, inputs, blocks, out, at);
    case NoVectorsC => HashMany1(o, job, inputs, blocks, out, at);
    case WithSSE2 => HashMany4(SSE2, o, job, inputs, blocks, out, at);
    case WithSSE41 => HashMany4(SSE41, o, job, inputs, blocks, out, at);
    case WithSSE41C => CHashMany4(o, job, inputs, blocks, out, at);
    case WithAVX2 => HashMany8(o, job, inputs, blocks, out, at);
    case WithAVX512 => HashMany16(o, job, inputs, blocks, out, at);
  }

  /** `xof_many`: the same stream on every unit, in groups or one block at a time. */
  method XofMany(platform: Platform, mode: Mode, node: Output, first: nat, out: array<u8>, at: nat, blocks: nat,
                 ghost start: nat)
    requires platform.Runs(mode) && at + BLOCK_LEN * blocks <= out.Length
    requires out[..at] == Stream(mode.Blocks(node), start, at) && start + at == BLOCK_LEN * first
    modifies out
    ensures out[..at + BLOCK_LEN * blocks] == Stream(mode.Blocks(node), start, at + BLOCK_LEN * blocks)
  {
    if platform.unit.WithAVX512? {
      ghost var f := mode.Blocks(node);
      WordsSwap();
      RootOutputs(WordOps(), mode, node);
      XofMany16(WordOps(), XofJob(node.inputChainingValue, node.block, node.blockLen, node.flags | ROOT), first,
                out, at, blocks, f, start);
    } else {
      XofBlocks(platform, mode, node, first, out, at, blocks, start);
    }
  }

  method XofBlocks(platform: Platform, mode: Mode, node: Output, first: nat, out: array<u8>, at: nat, blocks: nat,
                   ghost start: nat)
    requires platform.Runs(mode) && at + BLOCK_LEN * blocks <= out.Length
    requires out[..at] == Stream(mode.Blocks(node), start, at) && start + at == BLOCK_LEN * first
    modifies out
    ensures out[..at + BLOCK_LEN * blocks] == Stream(mode.Blocks(node), start, at + BLOCK_LEN * blocks)
  {
    var counter := first;
    for i := 0 to blocks
      invariant counter == first + i
      invariant out[..at + BLOCK_LEN * i] == Stream(mode.Blocks(node), start, at + BLOCK_LEN * i)
    {
      XofOneBlock(platform, mode, node, counter, out, at + BLOCK_LEN * i, start);
      counter := counter + 1;
    }
  }

  method XofOneBlock(
      platform: Platform, mode: Mode, node: Output, index: nat, out: array<u8>, at: nat, ghost start: nat)
    requires platform.Runs(mode) && at + BLOCK_LEN <= out.Length
    requires out[..at] == Stream(mode.Blocks(node), start, at) && start + at == BLOCK_LEN * index
    modifies out
    ensures out[..at + BLOCK_LEN] == Stream(mode.Blocks(node), start, at + BLOCK_LEN)
  {
    var block := OutputBlock(platform, mode, node, index);
    WriteBlock(mode.Blocks(node), index, block, out, at, start);
  }
}
