/** The hash tree of BLAKE3 (BLAKE3 paper, sections 2.1, 2.4 and 2.5): the single
    definition that every implementation in this project is proved against.

    The compression function is a parameter of the mode, so every theorem about
    the tree holds of every compression function. */
module Blake3Tree {
  import opened Bits
  import opened Words

  const BLOCK_LEN := 64
  const CHUNK_LEN := 1024
  const OUT_LEN := 32

  /** The most input bytes, one more than the longest input. */
  const MAX_INPUT := 0x1_0000_0000_0000_0000

  const CHUNK_START: u8 := 1
  const CHUNK_END: u8 := 2
  const PARENT: u8 := 4
  const ROOT: u8 := 8
  const KEYED_HASH: u8 := 16
  const DERIVE_KEY_CONTEXT: u8 := 32
  const DERIVE_KEY_MATERIAL: u8 := 64

  /** compress(chaining value, block, block length, counter, flags): all sixteen
      output words; the first eight are the next chaining value. */
  type Compress = (CVWords, Block, nat, nat, u8) -> StateWords

  /** A node of the tree just before it is compressed, either to a chaining value
      or, with ROOT set, to output bytes. */
  datatype Output = Output(
    inputChainingValue: CVWords, block: Block, blockLen: nat, counter: nat, flags: u8)

  /** How many chunks `len` bytes fill or begin. */
  function Chunks(len: nat): (n: nat)
    ensures len <= CHUNK_LEN * n < len + CHUNK_LEN
  {
    (len + (CHUNK_LEN - 1)) / CHUNK_LEN
  }

  /** The chunks of the left subtree of more than one chunk of input: the largest
      power of two that leaves at least one byte for the right subtree. */
  function LeftChunks(len: nat): (p: nat)
    requires len > CHUNK_LEN
    ensures IsPow2(p) && CHUNK_LEN * p < len <= 2 * (CHUNK_LEN * p)
  {
    LeftCount(Chunks(len))
  }

  lemma {:induction false} LeftChunksIs(len: nat, p: nat)
    requires IsPow2(p) && CHUNK_LEN * p < len <= 2 * (CHUNK_LEN * p)
    ensures len > CHUNK_LEN && LeftChunks(len) == p
  {
    LeftCountIs(Chunks(len), p);
  }

  lemma {:induction false} ChunksIs(len: nat, n: nat)
    requires len <= CHUNK_LEN * n < len + CHUNK_LEN
    ensures Chunks(len) == n
  {
  }

  lemma {:induction false} ChunksBound(len: nat, n: nat)
    ensures len <= CHUNK_LEN * n <==> Chunks(len) <= n
  {
  }

  function Pad(bytes: seq<u8>): Block
    requires |bytes| <= BLOCK_LEN
  {
    bytes + seq(BLOCK_LEN - |bytes|, i => 0)
  }

  /** Blocks of a chunk of `len` bytes that come before its last block. */
  function InnerBlocks(len: nat): (n: nat)
    ensures BLOCK_LEN * n <= len <= BLOCK_LEN * n + BLOCK_LEN
    ensures n > 0 ==> BLOCK_LEN * n < len
  {
    if len == 0 then 0 else (len - 1) / BLOCK_LEN
  }

  function ParentBlock(left: CVBytes, right: CVBytes): Block {
    left + right
  }

  /** The two chaining values in a parent's message block. */
  function LeftHalf(block: Block): CVBytes {
    block[..OUT_LEN]
  }

  function RightHalf(block: Block): CVBytes {
    block[OUT_LEN..]
  }

  lemma {:induction false} HalvesOfParent(left: CVBytes, right: CVBytes)
    ensures LeftHalf(ParentBlock(left, right)) == left && RightHalf(ParentBlock(left, right)) == right
  {
  }

  function StartFlag(blocksBefore: nat): u8 {
    if blocksBefore == 0 then CHUNK_START else 0
  }

  /** A left-full binary tree over the chunks of an input (section 2.1), for any
      way of making nodes from chunks and from pairs of chaining values. */
  datatype HashTree = HashTree(
    chunk: (seq<u8>, nat) -> Output, parent: (CVBytes, CVBytes) -> Output, cv: Output -> CVBytes) {

    /** The top node of the subtree over `data`, whose first chunk is number
        `counter` of the whole input. */
    function Subtree(data: seq<u8>, counter: nat): Output
      decreases |data|, 0
    {
      if |data| <= CHUNK_LEN then chunk(data, counter)
      else
        var p := LeftChunks(|data|);
        parent(Cv(data[..CHUNK_LEN * p], counter), Cv(data[CHUNK_LEN * p..], counter + p))
    }

    function Cv(data: seq<u8>, counter: nat): CVBytes
      decreases |data|, 1
    {
      cv(Subtree(data, counter))
    }

    function Parent(left: CVBytes, right: CVBytes): CVBytes {
      cv(parent(left, right))
    }

    /** Two subtrees meet in a parent when the left one is a power of two of
        chunks and the right one is no longer. */
    lemma {:induction false} SubtreeSplit(left: seq<u8>, right: seq<u8>, p: nat, counter: nat)
      requires IsPow2(p) && |left| == CHUNK_LEN * p && 0 < |right| <= |left|
      ensures Subtree(left + right, counter) == parent(Cv(left, counter), Cv(right, counter + p))
    {
      LeftChunksIs(|left + right|, p);
      assert (left + right)[..|left|] == left && (left + right)[|left|..] == right;
    }
  }

  /** A compression function with a key and the flags of a hashing mode. */
  datatype Mode = Mode(compress: Compress, key: CVWords, flags: u8) {

    function CompressInPlace(cv: CVWords, block: Block, blockLen: nat, counter: nat, flags: u8): CVWords {
      compress(cv, block, blockLen, counter, flags)[..8]
    }

    function ChainingValue(o: Output): CVBytes {
      BytesFromWords(CompressInPlace(o.inputChainingValue, o.block, o.blockLen, o.counter, o.flags))
    }

    /** The chaining value after the first `n` blocks of a chunk, none of them
        its last block. */
    function ChunkChain(data: seq<u8>, n: nat, counter: nat): CVWords
      requires BLOCK_LEN * n <= |data|
    {
      if n == 0 then key
      else CompressInPlace(ChunkChain(data, n - 1, counter), data[BLOCK_LEN * (n - 1)..BLOCK_LEN * n],
                           BLOCK_LEN, counter, flags | StartFlag(n - 1))
    }

    function ChunkOutput(data: seq<u8>, counter: nat): Output {
      var n := InnerBlocks(|data|);
      Output(ChunkChain(data, n, counter), Pad(data[BLOCK_LEN * n..]), |data| - BLOCK_LEN * n,
             counter, (flags | StartFlag(n)) | CHUNK_END)
    }

    function ParentOutput(left: CVBytes, right: CVBytes): Output {
      Output(key, ParentBlock(left, right), BLOCK_LEN, 0, flags | PARENT)
    }

    /** The tree that this mode hashes with. */
    function Tree(): HashTree {
      HashTree((data: seq<u8>, counter: nat) => ChunkOutput(data, counter),
               (left: CVBytes, right: CVBytes) => ParentOutput(left, right),
               (o: Output) => ChainingValue(o))
    }

    /** The root node of the whole input. */
    function RootOutput(data: seq<u8>): Output {
      Tree().Subtree(data, 0)
    }

    /** `root_hash`: the hash of the default length. */
    function RootHash(o: Output): CVBytes {
      BytesFromWords(CompressInPlace(o.inputChainingValue, o.block, o.blockLen, 0, o.flags | ROOT))
    }

    /** All the output blocks of a root node (section 2.6).  They do not depend on its counter. */
    function Blocks(o: Output): nat -> Block {
      OutputBlocks(o.inputChainingValue, o.block, o.blockLen, o.flags | ROOT)
    }

    function OutputBlocks(cv: CVWords, block: Block, blockLen: nat, rootFlags: u8): nat -> Block {
      (index: nat) => BlockFromWords(compress(cv, block, blockLen, index, rootFlags))
    }

    /** The chain over the first `n` blocks looks at those blocks only. */
    lemma {:induction false} ChunkChainPrefix(data: seq<u8>, more: seq<u8>, n: nat, counter: nat)
      requires BLOCK_LEN * n <= |data|
      ensures ChunkChain(data + more, n, counter) == ChunkChain(data, n, counter)
    {
      if n > 0 {
        ChunkChainPrefix(data, more, n - 1, counter);
        assert (data + more)[BLOCK_LEN * (n - 1)..BLOCK_LEN * n] == data[BLOCK_LEN * (n - 1)..BLOCK_LEN * n];
      }
    }

    /** The node of a chunk, by its inner blocks and its last block. */
    lemma {:induction false} ChunkOutputSplit(inner: seq<u8>, last: seq<u8>, n: nat, counter: nat)
      requires |inner| == BLOCK_LEN * n && |last| <= BLOCK_LEN && (last == [] ==> n == 0)
      ensures ChunkOutput(inner + last, counter)
           == Output(ChunkChain(inner, n, counter), Pad(last), |last|, counter, (flags | StartFlag(n)) | CHUNK_END)
    {
      InnerBlocksIs(|inner + last|, n);
      ChunkChainPrefix(inner, last, n, counter);
      assert (inner + last)[BLOCK_LEN * n..] == last;
    }
  }

  lemma {:induction false} InnerBlocksIs(len: nat, n: nat)
    requires BLOCK_LEN * n <= len <= BLOCK_LEN * n + BLOCK_LEN && (len == BLOCK_LEN * n ==> n == 0)
    ensures InnerBlocks(len) == n
  {
  }
}
