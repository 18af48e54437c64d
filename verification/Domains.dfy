/** Domain separation (BLAKE3 paper, section 2.3): which compressions carry which flag
    bits, so that no two kinds of them are ever the same. */
module Domains {
  import opened Words
  import opened Blake3Tree

  /** Bit `k` of the flags, with the bits written out. */
  predicate HasBit(flags: u8, k: nat)
    requires k < 8
  {
    if k == 0 then flags & 0x01 != 0
    else if k == 1 then flags & 0x02 != 0
    else if k == 2 then flags & 0x04 != 0
    else if k == 3 then flags & 0x08 != 0
    else if k == 4 then flags & 0x10 != 0
    else if k == 5 then flags & 0x20 != 0
    else if k == 6 then flags & 0x40 != 0
    else flags & 0x80 != 0
  }

  /** The bits that say what is compressed, rather than in which mode. */
  predicate Marks(flags: u8, start: bool, end: bool, parent: bool, root: bool) {
    HasBit(flags, 0) == start && HasBit(flags, 1) == end && HasBit(flags, 2) == parent && HasBit(flags, 3) == root
  }

  /** The flags of a mode leave those bits clear. */
  predicate IsPlain(flags: u8) {
    Marks(flags, false, false, false, false)
  }

  /** The bits of the mode. */
  predicate SameMode(a: u8, b: u8) {
    HasBit(a, 4) == HasBit(b, 4) && HasBit(a, 5) == HasBit(b, 5) && HasBit(a, 6) == HasBit(b, 6)
    && HasBit(a, 7) == HasBit(b, 7)
  }

  // ---------- the flags of every compression ----------

  /** Block `n` of a chunk, not its last one: bit 0 marks the first block. */
  lemma {:induction false} InnerBlockMarks(mode: Mode, data: seq<u8>, n: nat, counter: nat) returns (flags: u8)
    requires IsPlain(mode.flags) && BLOCK_LEN * (n + 1) <= |data|
    ensures mode.ChunkChain(data, n + 1, counter)
         == mode.compress(mode.ChunkChain(data, n, counter), data[BLOCK_LEN * n..BLOCK_LEN * (n + 1)],
                          BLOCK_LEN, counter, flags)[..8]
    ensures Marks(flags, n == 0, false, false, false) && SameMode(flags, mode.flags)
  {
    flags := mode.flags | StartFlag(n);
    StartMarks(mode.flags, n);
  }

  lemma {:induction false} StartMarks(flags: u8, n: nat)
    requires IsPlain(flags)
    ensures Marks(flags | StartFlag(n), n == 0, false, false, false) && SameMode(flags | StartFlag(n), flags)
    ensures var last := (flags | StartFlag(n)) | CHUNK_END;
            Marks(last, n == 0, true, false, false) && SameMode(last, flags)
  {
  }

  /** The last block of a chunk: bit 1, and bit 0 if it is also the first. */
  lemma {:induction false} ChunkMarks(mode: Mode, data: seq<u8>, counter: nat)
    requires IsPlain(mode.flags)
    ensures var flags := mode.ChunkOutput(data, counter).flags;
            Marks(flags, |data| <= BLOCK_LEN, true, false, false) && SameMode(flags, mode.flags)
  {
    StartMarks(mode.flags, InnerBlocks(|data|));
  }

  /** A parent: bit 2. */
  lemma {:induction false} ParentMarks(mode: Mode, left: CVBytes, right: CVBytes)
    requires IsPlain(mode.flags)
    ensures var flags := mode.ParentOutput(left, right).flags;
            Marks(flags, false, false, true, false) && SameMode(flags, mode.flags)
  {
    ParentBit(mode.flags);
  }

  lemma {:induction false} ParentBit(flags: u8)
    requires IsPlain(flags)
    ensures Marks(flags | PARENT, false, false, true, false) && SameMode(flags | PARENT, flags)
  {
  }

  /** The top node of any subtree: a parent for more than a chunk of input, else a chunk. */
  lemma {:induction false} NodeMarks(mode: Mode, data: seq<u8>, counter: nat)
    requires IsPlain(mode.flags)
    ensures var flags := mode.Tree().Subtree(data, counter).flags;
            Marks(flags, |data| <= BLOCK_LEN, |data| <= CHUNK_LEN, |data| > CHUNK_LEN, false)
            && SameMode(flags, mode.flags)
  {
    if |data| <= CHUNK_LEN {
      ChunkMarks(mode, data, counter);
    } else {
      var p := LeftChunks(|data|);
      ParentMarks(mode, mode.Tree().Cv(data[..CHUNK_LEN * p], counter),
                  mode.Tree().Cv(data[CHUNK_LEN * p..], counter + p));
    }
  }

  /** A root node is compressed to output with bit 3 on top of its own bits. */
  lemma {:induction false} RootMarks(mode: Mode, o: Output, index: nat) returns (flags: u8)
    ensures mode.RootHash(o)
         == BytesFromWords(mode.compress(o.inputChainingValue, o.block, o.blockLen, 0, flags)[..8])
    ensures mode.Blocks(o)(index)
         == BlockFromWords(mode.compress(o.inputChainingValue, o.block, o.blockLen, index, flags))
    ensures Marks(flags, HasBit(o.flags, 0), HasBit(o.flags, 1), HasBit(o.flags, 2), true)
    ensures SameMode(flags, o.flags)
  {
    flags := o.flags | ROOT;
    RootBit(o.flags);
  }

  lemma {:induction false} RootBit(flags: u8)
    ensures Marks(flags | ROOT, HasBit(flags, 0), HasBit(flags, 1), HasBit(flags, 2), true)
    ensures SameMode(flags | ROOT, flags)
  {
  }

  // ---------- what depends on which compressions ----------

  /** Two compression functions give the same words for these arguments. */
  ghost predicate SameAt(c: Compress, c': Compress, cv: CVWords, block: Block, blockLen: nat, counter: nat, flags: u8) {
    c(cv, block, blockLen, counter, flags) == c'(cv, block, blockLen, counter, flags)
  }

  /** They are the same for all arguments whose bit 3 is this. */
  ghost predicate SameWhere(c: Compress, c': Compress, root: bool) {
    forall cv, block, blockLen, counter, flags | HasBit(flags, 3) == root ::
      SameAt(c, c', cv, block, blockLen, counter, flags)
  }

  /** Every node below the root, and the root itself before it is finalized, comes from
      compressions without bit 3 alone: changing the others changes no node. */
  lemma {:induction false} NodesNeedNoRoot(c: Compress, c': Compress, key: CVWords, flags: u8, data: seq<u8>)
    requires SameWhere(c, c', false) && IsPlain(flags)
    ensures Mode(c, key, flags).RootOutput(data) == Mode(c', key, flags).RootOutput(data)
  {
    SubtreesMatch(Mode(c, key, flags), Mode(c', key, flags), data, 0);
  }

  ghost predicate Match(m: Mode, m': Mode) {
    m.key == m'.key && m.flags == m'.flags && IsPlain(m.flags) && SameWhere(m.compress, m'.compress, false)
  }

  lemma {:induction false} SubtreesMatch(m: Mode, m': Mode, data: seq<u8>, counter: nat)
    requires Match(m, m')
    ensures m.Tree().Subtree(data, counter) == m'.Tree().Subtree(data, counter)
    decreases |data|, 0
  {
    if |data| <= CHUNK_LEN {
      ChunksMatch(m, m', data, counter);
    } else {
      var p := LeftChunks(|data|);
      ValuesMatch(m, m', data[..CHUNK_LEN * p], counter);
      ValuesMatch(m, m', data[CHUNK_LEN * p..], counter + p);
      ParentsMatch(m, m', data, p, counter);
    }
  }

  lemma {:induction false} ParentsMatch(m: Mode, m': Mode, data: seq<u8>, p: nat, counter: nat)
    requires Match(m, m') && |data| > CHUNK_LEN && p == LeftChunks(|data|)
    requires m.Tree().Cv(data[..CHUNK_LEN * p], counter) == m'.Tree().Cv(data[..CHUNK_LEN * p], counter)
    requires m.Tree().Cv(data[CHUNK_LEN * p..], counter + p) == m'.Tree().Cv(data[CHUNK_LEN * p..], counter + p)
    ensures m.Tree().Subtree(data, counter) == m'.Tree().Subtree(data, counter)
  {
    TopIsParent(m, data, p, counter);
    TopIsParent(m', data, p, counter);
  }

  lemma {:induction false} TopIsParent(m: Mode, data: seq<u8>, p: nat, counter: nat)
    requires |data| > CHUNK_LEN && p == LeftChunks(|data|)
    ensures m.Tree().Subtree(data, counter)
         == m.ParentOutput(m.Tree().Cv(data[..CHUNK_LEN * p], counter), m.Tree().Cv(data[CHUNK_LEN * p..], counter + p))
  {
  }

  lemma {:induction false} ValuesMatch(m: Mode, m': Mode, data: seq<u8>, counter: nat)
    requires Match(m, m')
    ensures m.Tree().Cv(data, counter) == m'.Tree().Cv(data, counter)
    decreases |data|, 1
  {
    SubtreesMatch(m, m', data, counter);
    NodeMarks(m, data, counter);
    var o := m.Tree().Subtree(data, counter);
    assert SameAt(m.compress, m'.compress, o.inputChainingValue, o.block, o.blockLen, o.counter, o.flags);
  }

  lemma {:induction false} ChunksMatch(m: Mode, m': Mode, data: seq<u8>, counter: nat)
    requires Match(m, m')
    ensures m.ChunkOutput(data, counter) == m'.ChunkOutput(data, counter)
  {
    ChainsMatch(m, m', data, InnerBlocks(|data|), counter);
  }

  lemma {:induction false} ChainsMatch(m: Mode, m': Mode, data: seq<u8>, n: nat, counter: nat)
    requires Match(m, m') && BLOCK_LEN * n <= |data|
    ensures m.ChunkChain(data, n, counter) == m'.ChunkChain(data, n, counter)
  {
    if n > 0 {
      ChainsMatch(m, m', data, n - 1, counter);
      StartMarks(m.flags, n - 1);
      assert SameAt(m.compress, m'.compress, m.ChunkChain(data, n - 1, counter),
                    data[BLOCK_LEN * (n - 1)..BLOCK_LEN * n], BLOCK_LEN, counter, m.flags | StartFlag(n - 1));
    }
  }

  /** The hash and all the output of a node come from compressions with bit 3 alone. */
  lemma {:induction false} OutputNeedsRoot(c: Compress, c': Compress, key: CVWords, flags: u8, o: Output, index: nat)
    requires SameWhere(c, c', true)
    ensures Mode(c, key, flags).RootHash(o) == Mode(c', key, flags).RootHash(o)
    ensures Mode(c, key, flags).Blocks(o)(index) == Mode(c', key, flags).Blocks(o)(index)
  {
    RootBit(o.flags);
    assert SameAt(c, c', o.inputChainingValue, o.block, o.blockLen, 0, o.flags | ROOT);
    assert SameAt(c, c', o.inputChainingValue, o.block, o.blockLen, index, o.flags | ROOT);
  }
}
