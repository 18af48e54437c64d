/** Extended output: readers of the byte stream of a root node. */
module ExtendedOutput {
  import opened Words
  import opened Blake3Tree
  import opened OutputStream
  import opened Platforms

  /** Writes a stretch of output block number `index` to `out`, which holds the stream
      from `start` on. */
  method WriteStretch(
      platform: Platform, mode: Mode, o: Output, index: nat, from: nat, n: nat,
      out: array<u8>, at: nat, ghost start: nat)
    requires platform.Runs(mode) && at + n <= out.Length && from + n <= BLOCK_LEN
    requires out[..at] == Stream(mode.Blocks(o), start, at) && start + at == BLOCK_LEN * index + from
    modifies out
    ensures out[..at + n] == Stream(mode.Blocks(o), start, at + n)
  {
    var output_block := OutputBlock(platform, mode, o, index);
    WriteBytes(out, at, Stretch(output_block, from, n));
    StreamGrows(mode.Blocks(o), start, old(out[..at]), index, from, n, out[..at + n]);
  }

  // ---------- the readers ----------

  /** The reader of the Rust code, whose position is a block counter and an offset. */
  class OutputReader {
    const platform: Platform
    const mode: Mode
    var inner: Output
    var position_within_block: nat

    /** The blocks of the stream that this reader reads. */
    ghost const stream: Blocks

    ghost predicate Valid()
      reads this
    {
      platform.Runs(mode) && stream == mode.Blocks(inner) && position_within_block < BLOCK_LEN
    }

    constructor (platform: Platform, mode: Mode, inner: Output)
      requires platform.Runs(mode)
      ensures Valid() && this.inner == inner && this.mode == mode
      ensures inner.counter == 0 ==> Position() == 0
    {
      this.platform := platform;
      this.mode := mode;
      this.inner := inner;
      this.position_within_block := 0;
      this.stream := mode.Blocks(inner);
    }

    function Position(): nat
      reads this
    {
      inner.counter * BLOCK_LEN + position_within_block
    }

    method SetPosition(position: nat)
      requires Valid()
      modifies this
      ensures Valid() && Position() == position
    {
      position_within_block := position % BLOCK_LEN;
      inner := inner.(counter := position / BLOCK_LEN);
    }

    /** Whether `buf` holds the stream from `start` up to the current position. */
    ghost predicate Filled(buf: array<u8>, at: nat, start: nat)
      reads this, buf
    {
      && at <= buf.Length && Valid() && Position() == start + at
      && buf[..at] == Stream(stream, start, at)
    }

    /** Copies what fits of the rest of the current block to `buf`, from `at` on. */
    method FillOneBlock(buf: array<u8>, at: nat, ghost start: nat) returns (next: nat)
      requires Filled(buf, at, start) && at < buf.Length
      modifies this, buf
      ensures at < next && Filled(buf, next, start)
      ensures next == buf.Length || (position_within_block == 0 && next - at == BLOCK_LEN - old(position_within_block))
    {
      var available := BLOCK_LEN - position_within_block;
      var take := if buf.Length - at < available then buf.Length - at else available;
      WriteStretch(platform, mode, inner, inner.counter, position_within_block, take, buf, at, start);
      Advance(take);
      next := at + take;
    }

    /** Moves on inside the block or to the start of the next one. */
    method Advance(take: nat)
      requires Valid() && position_within_block + take <= BLOCK_LEN
      modifies this
      ensures Valid() && Position() == old(Position()) + take
      ensures old(position_within_block) + take == BLOCK_LEN ==> position_within_block == 0
    {
      position_within_block := position_within_block + take;
      if position_within_block == BLOCK_LEN {
        inner := inner.(counter := inner.counter + 1);
        position_within_block := 0;
      }
    }

    /** Writes as many whole blocks as fit into `buf` from `at` on. */
    method FillBlocks(buf: array<u8>, at: nat, ghost start: nat) returns (next: nat)
      requires Filled(buf, at, start) && position_within_block == 0
      modifies this, buf
      ensures Filled(buf, next, start) && position_within_block == 0 && buf.Length < next + BLOCK_LEN
    {
      var full_blocks := (buf.Length - at) / BLOCK_LEN;
      next := at + BLOCK_LEN * full_blocks;
      WriteBlocks(buf, at, full_blocks, start);
    }

    method WriteBlocks(buf: array<u8>, at: nat, blocks: nat, ghost start: nat)
      requires Filled(buf, at, start) && position_within_block == 0 && at + BLOCK_LEN * blocks <= buf.Length
      modifies this, buf
      ensures Filled(buf, at + BLOCK_LEN * blocks, start) && position_within_block == 0
    {
      XofMany(platform, mode, inner, inner.counter, buf, at, blocks, start);
      SkipBlocks(blocks);
    }

    method SkipBlocks(blocks: nat)
      requires Valid()
      modifies this`inner
      ensures Valid() && Position() == old(Position()) + BLOCK_LEN * blocks
    {
      inner := inner.(counter := inner.counter + blocks);
    }

    /** Fills `buf` with the next bytes of the stream. */
    method Fill(buf: array<u8>)
      requires Valid() && Position() + buf.Length < MAX_POSITION
      modifies this, buf
      ensures Valid() && Position() == old(Position()) + buf.Length < MAX_POSITION
      ensures buf[..] == Stream(stream, old(Position()), buf.Length)
    {
      ghost var start := Position();
      var at := 0;
      if position_within_block != 0 && at < buf.Length {
        at := FillOneBlock(buf, at, start);
      }
      if at < buf.Length {
        FillRest(buf, at, start);
      }
      assert buf[..buf.Length] == buf[..];
    }

    /** Fills `buf` from `at` on, beginning with a new block. */
    method FillRest(buf: array<u8>, at: nat, ghost start: nat)
      requires Filled(buf, at, start) && position_within_block == 0
      modifies this, buf
      ensures Filled(buf, buf.Length, start)
    {
      var next := FillBlocks(buf, at, start);
      if next < buf.Length {
        next := FillOneBlock(buf, next, start);
      }
    }
  }

  // ---------- whole runs ----------

  /** What a caller may ask of a reader. */
  datatype Request = Fill(len: nat) | Seek(position: nat)

  /** The position after the first `k` requests. */
  function PositionAfter(requests: seq<Request>, k: nat): nat
    requires k <= |requests|
  {
    if k == 0 then 0
    else match requests[k - 1]
         case Fill(len) => PositionAfter(requests, k - 1) + len
         case Seek(position) => position
  }

  /** What request number `i` returns. */
  function Answer(f: Blocks, requests: seq<Request>, i: nat): seq<u8>
    requires i < |requests|
  {
    match requests[i]
    case Fill(len) => Stream(f, PositionAfter(requests, i), len)
    case Seek(_) => []
  }

  /** Any interleaving of `fill` and `set_position` reads one fixed stream. */
  method RunReader(platform: Platform, mode: Mode, node: Output, requests: seq<Request>)
    returns (answers: seq<seq<u8>>)
    requires platform.Runs(mode) && node.counter == 0
    requires forall k | 0 <= k <= |requests| :: PositionAfter(requests, k) < MAX_POSITION
    ensures |answers| == |requests|
    ensures forall i | 0 <= i < |requests| :: answers[i] == Answer(mode.Blocks(node), requests, i)
  {
    var reader := new OutputReader(platform, mode, node);
    answers := [];
    for k := 0 to |requests|
      invariant fresh(reader) && reader.Valid() && reader.stream == mode.Blocks(node)
      invariant reader.Position() == PositionAfter(requests, k)
      invariant |answers| == k && forall i | 0 <= i < k :: answers[i] == Answer(mode.Blocks(node), requests, i)
    {
      assert PositionAfter(requests, k + 1) < MAX_POSITION;
      match requests[k]
      case Fill(len) =>
        var buf := new u8[len];
        reader.Fill(buf);
        answers := answers + [buf[..]];
      case Seek(position) =>
        reader.SetPosition(position);
        answers := answers + [[]];
    }
  }
}
