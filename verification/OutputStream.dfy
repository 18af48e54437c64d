/** The unbounded byte stream of a root node (BLAKE3 paper, section 2.6). */
module OutputStream {
  import opened Words
  import opened Blake3Tree

  /** Output positions are 64-bit. */
  const MAX_POSITION := 0x1_0000_0000_0000_0000

  // ---------- the stream ----------

  /** The output blocks of a root node, by number. */
  type Blocks = nat -> Block

  /** Byte `i` of the unbounded output stream. */
  function StreamByte(f: Blocks, i: nat): u8 {
    f(i / BLOCK_LEN)[i % BLOCK_LEN]
  }

  /** Bytes `pos .. pos + n` of the stream. */
  function Stream(f: Blocks, pos: nat, n: nat): (s: seq<u8>)
    ensures |s| == n
  {
    if n == 0 then [] else Stream(f, pos, n - 1) + [StreamByte(f, pos + n - 1)]
  }

  /** `n` bytes of a block, beginning with byte `from`. */
  function Stretch(block: Block, from: nat, n: nat): (s: seq<u8>)
    requires from + n <= BLOCK_LEN
    ensures |s| == n && forall i | 0 <= i < n :: s[i] == block[from + i]
  {
    block[from..from + n]
  }

  lemma {:induction false} StreamAt(f: Blocks, pos: nat, n: nat, i: nat)
    requires i < n
    ensures Stream(f, pos, n)[i] == StreamByte(f, pos + i)
  {
    if i < n - 1 { StreamAt(f, pos, n - 1, i); }
  }

  /** Reading may be cut anywhere. */
  lemma {:induction false} StreamAppend(f: Blocks, pos: nat, n: nat, m: nat)
    ensures Stream(f, pos, n + m) == Stream(f, pos, n) + Stream(f, pos + n, m)
  {
    if m > 0 { StreamAppend(f, pos, n, m - 1); }
  }

  /** A stretch of the stream inside one block. */
  lemma {:induction false} StreamInBlock(f: Blocks, index: nat, from: nat, n: nat)
    requires from + n <= BLOCK_LEN
    ensures Stream(f, BLOCK_LEN * index + from, n) == Stretch(f(index), from, n)
  {
    if n > 0 {
      StreamInBlock(f, index, from, n - 1);
      BlockAndOffset(index, from + n - 1);
    }
  }

  lemma {:induction false} BlockAndOffset(index: nat, offset: nat)
    requires offset < BLOCK_LEN
    ensures (BLOCK_LEN * index + offset) / BLOCK_LEN == index && (BLOCK_LEN * index + offset) % BLOCK_LEN == offset
  {
  }

  /** The default-length hash is the start of the stream. */
  lemma {:induction false} RootHashIsPrefix(mode: Mode, o: Output)
    ensures mode.RootHash(o) == Stream(mode.Blocks(o), 0, OUT_LEN)
  {
    var ws := FirstWords(mode, o);
    StreamInBlock(mode.Blocks(o), 0, 0, OUT_LEN);
    StartOfBlock(ws);
  }

  lemma {:induction false} FirstWords(mode: Mode, o: Output) returns (ws: StateWords)
    ensures mode.Blocks(o)(0) == BlockFromWords(ws) && mode.RootHash(o) == BytesFromWords(ws[..8])
  {
    ws := mode.compress(o.inputChainingValue, o.block, o.blockLen, 0, o.flags | ROOT);
  }

  lemma {:induction false} StartOfBlock(ws: StateWords)
    ensures Stretch(BlockFromWords(ws), 0, OUT_LEN) == BytesFromWords(ws[..8])
  {
    BytesOfPrefix(ws, 8);
  }

  /** A root node always carries counter 0, so reading starts at the start. */
  lemma {:induction false} RootCounterIsZero(mode: Mode, data: seq<u8>)
    ensures mode.RootOutput(data).counter == 0
  {
  }

  /** What is written so far grows by a stretch of one block. */
  lemma {:induction false} StreamGrows(
      f: Blocks, start: nat, before: seq<u8>, index: nat, from: nat, n: nat, after: seq<u8>)
    requires before == Stream(f, start, |before|) && start + |before| == BLOCK_LEN * index + from
    requires from + n <= BLOCK_LEN && after == before + Stretch(f(index), from, n)
    ensures after == Stream(f, start, |after|)
  {
    StreamInBlock(f, index, from, n);
    StreamAppend(f, start, |before|, n);
  }

  // ---------- writing it ----------

  /** Copies `bytes` into `out`. */
  method WriteBytes(out: array<u8>, at: nat, bytes: seq<u8>)
    requires at + |bytes| <= out.Length
    modifies out
    ensures out[..at + |bytes|] == old(out[..at]) + bytes
  {
    forall i | 0 <= i < |bytes| {
      out[at + i] := bytes[i];
    }
  }
}
