/** The incremental state of one chunk: `ChunkState` of the Rust code and
    `blake3_chunk_state` of the C port. */
module ChunkHashing {
  import opened Sequences
  import opened Bits
  import opened Words
  import opened Blake3Tree
  import opened Platforms

  class ChunkState {
    const platform: Platform
    const mode: Mode
    var cv: CVWords
    var chunk_counter: nat
    const buf: array<u8>
    var buf_len: nat
    var blocks_compressed: nat

    /** The bytes of the chunk that are compressed into `cv`, and those in the buffer. */
    ghost var Done: seq<u8>
    ghost var Pending: seq<u8>

    ghost function Data(): seq<u8>
      reads this
    {
      Done + Pending
    }

    /** Whole blocks are accounted for in `cv`, then up to one block in the
        zero-padded buffer. */
    ghost predicate Absorbed()
      reads this, buf
    {
      && platform.Runs(mode) && buf.Length == BLOCK_LEN
      && |Done| == BLOCK_LEN * blocks_compressed && |Pending| == buf_len <= BLOCK_LEN
      && cv == mode.ChunkChain(Done, blocks_compressed, chunk_counter)
      && buf[..] == Pad(Pending)
    }

    /** The last block is never compressed, unless the chunk is empty it is not empty. */
    ghost predicate Valid()
      reads this, buf
    {
      && Absorbed()
      && |Done| + |Pending| <= CHUNK_LEN
      && (Pending == [] ==> Done == [])
    }

    constructor (platform: Platform, mode: Mode, chunk_counter: nat)
      requires platform.Runs(mode)
      ensures Valid() && fresh(buf) && this.platform == platform
      ensures Data() == [] && this.mode == mode && this.chunk_counter == chunk_counter
    {
      this.platform := platform;
      this.mode := mode;
      this.cv := mode.key;
      this.chunk_counter := chunk_counter;
      this.buf := new u8[BLOCK_LEN](i => 0);
      this.buf_len := 0;
      this.blocks_compressed := 0;
      this.Done, this.Pending := [], [];
      new;
      assert buf[..] == Pad([]);
    }

    function Len(): (n: nat)
      requires Valid()
      reads this, buf
      ensures n == |Data()|
    {
      BLOCK_LEN * blocks_compressed + buf_len
    }

    /** Moves as much of `input` into the buffer as fits. */
    method FillBuf(input: seq<u8>) returns (rest: seq<u8>)
      requires Absorbed()
      modifies this`buf_len, this`Pending, buf
      ensures Absorbed() && Pending + rest == old(Pending) + input
      ensures rest == [] || buf_len == BLOCK_LEN
      ensures Pending == [] ==> old(Pending) == [] && input == []
    {
      var want := BLOCK_LEN - buf_len;
      var take := if want < |input| then want else |input|;
      forall i | 0 <= i < take {
        buf[buf_len + i] := input[i];
      }
      buf_len := buf_len + take;
      rest := input[take..];
      Pending := Pending + input[..take];
    }

    /** Compresses one block, which becomes the last one done. */
    method CompressBlock(block: Block)
      requires platform.Runs(mode)
      requires |Done| == BLOCK_LEN * blocks_compressed && cv == mode.ChunkChain(Done, blocks_compressed, chunk_counter)
      modifies this`cv, this`blocks_compressed, this`Done
      ensures blocks_compressed == old(blocks_compressed) + 1 && Done == old(Done) + block
      ensures |Done| == BLOCK_LEN * blocks_compressed && cv == mode.ChunkChain(Done, blocks_compressed, chunk_counter)
    {
      mode.ChunkChainPrefix(Done, block, blocks_compressed, chunk_counter);
      cv := CompressInPlace(platform, mode, cv, block, BLOCK_LEN, chunk_counter,
                            mode.flags | StartFlag(blocks_compressed));
      assert (Done + block)[BLOCK_LEN * blocks_compressed..BLOCK_LEN * (blocks_compressed + 1)] == block;
      blocks_compressed := blocks_compressed + 1;
      Done := Done + block;
    }

    /** Compresses the full buffer and clears it. */
    method CompressBuf()
      requires Absorbed() && buf_len == BLOCK_LEN
      modifies this`cv, this`buf_len, this`blocks_compressed, this`Done, this`Pending, buf
      ensures Absorbed() && Pending == [] && Done == old(Data())
    {
      assert buf[..] == Pending;
      CompressBlock(buf[..]);
      buf_len := 0;
      forall i | 0 <= i < BLOCK_LEN {
        buf[i] := 0;
      }
      Pending := [];
    }

    /** Finishes a partly filled block, and compresses it once more input follows. */
    method TopUp(input: seq<u8>) returns (rest: seq<u8>)
      requires Valid()
      modifies this`cv, this`buf_len, this`blocks_compressed, this`Done, this`Pending, buf
      ensures Absorbed() && Data() + rest == old(Data()) + input
      ensures rest != [] ==> Pending == []
      ensures rest == [] && Pending == [] ==> Done == []
    {
      rest := input;
      if buf_len > 0 {
        assert (Done + Pending) + input == Done + (Pending + input);
        rest := FillBuf(input);
        ghost var done, pending := Done, Pending;
        if rest != [] {
          CompressBuf();
        }
        assert Data() == done + pending && done + (pending + rest) == (done + pending) + rest;
      }
    }

    /** Compresses whole blocks straight from `input` as long as more input follows. */
    method CompressBlocks(input: seq<u8>) returns (rest: seq<u8>)
      requires Absorbed() && (input != [] ==> Pending == [])
      modifies this`cv, this`blocks_compressed, this`Done
      ensures Absorbed() && Data() + rest == old(Data()) + input
      ensures |rest| <= BLOCK_LEN && (rest == [] <==> input == []) && (rest == [] ==> Done == old(Done))
    {
      rest := input;
      while |rest| > BLOCK_LEN
        invariant Absorbed() && Done + rest == old(Done) + input
        invariant (rest == [] <==> input == []) && (rest == [] ==> Done == old(Done))
      {
        Assoc(Done, rest[..BLOCK_LEN], rest[BLOCK_LEN..]);
        CompressBlock(rest[..BLOCK_LEN]);
        rest := rest[BLOCK_LEN..];
      }
      assert Pending == [] ==> Data() == Done && old(Data()) == old(Done);
    }

    /** Absorbs `input`, always keeping the last block of the chunk uncompressed. */
    method Update(input: seq<u8>)
      requires Valid() && |Data()| + |input| <= CHUNK_LEN
      modifies this, buf
      ensures Valid() && Data() == old(Data()) + input && chunk_counter == old(chunk_counter)
    {
      var slice := TopUp(input);
      slice := CompressBlocks(slice);
      ghost var done, pending := Done, Pending;
      var rest := FillBuf(slice);
      Refilled(done, pending, slice, Pending, rest);
      assert Data() + rest == Data();
    }

    /** Absorbs `input` as far as the chunk goes. */
    method FillChunk(input: seq<u8>) returns (rest: seq<u8>)
      requires Valid()
      modifies this, buf
      ensures Valid() && chunk_counter == old(chunk_counter)
      ensures |rest| <= |input| && Data() + rest == old(Data()) + input
      ensures |Data()| >= old(|Data()|)
      ensures rest == [] || |Data()| == CHUNK_LEN
    {
      var want := CHUNK_LEN - Len();
      var take := if want < |input| then want else |input|;
      ghost var before := Data();
      Update(input[..take]);
      rest := input[take..];
      Assoc(before, input[..take], rest);
      assert input == input[..take] + rest;
    }

    /** Starts chunk number `counter` in place: `chunk_state_reset` of the C port. */
    method Reset(counter: nat)
      requires platform.Runs(mode) && buf.Length == BLOCK_LEN
      modifies this, buf
      ensures Valid() && Data() == [] && chunk_counter == counter
    {
      cv := mode.key;
      chunk_counter := counter;
      blocks_compressed := 0;
      forall i | 0 <= i < BLOCK_LEN {
        buf[i] := 0;
      }
      buf_len := 0;
      Done, Pending := [], [];
      assert buf[..] == Pad([]);
    }

    /** Moves an empty state past chunks that were hashed elsewhere. */
    method Skip(chunks: nat)
      requires Valid() && Data() == []
      modifies this`chunk_counter
      ensures Valid() && Data() == [] && chunk_counter == old(chunk_counter) + chunks
    {
      assert Done == [];
      chunk_counter := chunk_counter + chunks;
    }

    /** However the bytes came in, the state is the same: all blocks but the last are
        compressed, and the last one is in the zero-padded buffer. */
    lemma {:induction false} StateDependsOnData()
      requires Valid()
      ensures blocks_compressed == InnerBlocks(|Data()|) && BLOCK_LEN * blocks_compressed <= |Data()|
      ensures cv == mode.ChunkChain(Data(), blocks_compressed, chunk_counter)
      ensures buf[..] == Pad(Data()[BLOCK_LEN * blocks_compressed..])
    {
      InnerBlocksIs(|Data()|, blocks_compressed);
      mode.ChunkChainPrefix(Done, Pending, blocks_compressed, chunk_counter);
      assert Data()[BLOCK_LEN * blocks_compressed..] == Pending;
    }

    /** The node this chunk becomes if no more input follows in it. */
    function Output(): (o: Output)
      requires Valid()
      reads this, buf
      ensures o == mode.ChunkOutput(Data(), chunk_counter)
    {
      mode.ChunkOutputSplit(Done, Pending, blocks_compressed, chunk_counter);
      Blake3Tree.Output(cv, buf[..], buf_len, chunk_counter,
                        (mode.flags | StartFlag(blocks_compressed)) | CHUNK_END)
    }

    /** A chunk is a subtree by itself. */
    lemma {:induction false} OutputIsSubtree()
      requires Valid()
      ensures Output() == mode.Tree().Subtree(Data(), chunk_counter)
    {
    }
  }
}
