/** `xof_many` in lanes: consecutive output blocks of one root node at once. */
module LaneXof {
  import opened Sequences
  import opened Words
  import opened Blake3Tree
  import opened Arx
  import opened Portable
  import opened Lanes
  import opened LaneHash
  import opened RowCompress
  import opened Units
  import opened OutputStream

  /** The same words in every lane. */
  function Splat<T(!new)>(u: Unit<T>, ws: seq<u32>): (vs: seq<T>)
    ensures |vs| == |ws|
  {
    seq(|ws|, k requires 0 <= k < |ws| => u.set1(ws[k]))
  }

  lemma {:induction false} SplatLane<T(!new)>(u: Unit<T>, o: Ops<u32>, ws: seq<u32>, i: nat)
    requires Works(u, o) && i < u.degree
    ensures MapWords(LaneOf(u, i), Splat(u, ws)) == ws
  {
    forall k | 0 <= k < |ws| ensures LaneOf(u, i)(Splat(u, ws)[k]) == ws[k] {
      assert u.lane(u.set1(ws[k]), i) == ws[k];
    }
  }

  /** The sixteen output vectors. */
  function OutVectors<T(!new)>(p: Ops<T>, v: seq<T>, h: seq<T>): (out: seq<T>)
    requires |v| == 16 && |h| == 8
    ensures |out| == 16
  {
    NextVectors(p, v) + seq(8, k requires 0 <= k < 8 => p.xor(v[k + 8], h[k]))
  }

  lemma {:induction false} OutVectorsCarry<T(!new)>(h: T -> u32, p: Ops<T>, o: Ops<u32>, v: seq<T>, cvs: seq<T>)
    requires Carries(h, p, o) && |v| == 16 && |cvs| == 8
    ensures MapWords(h, OutVectors(p, v, cvs))
         == NextCv(o, MapWords(h, v)) + MoreWords(o, MapWords(h, v), MapWords(h, cvs))
  {
    NextVectorsCarry(h, p, o, v);
    MoreVectorsCarry(h, p, o, v, cvs);
    MapAppend(h, NextVectors(p, v), seq(8, k requires 0 <= k < 8 => p.xor(v[k + 8], cvs[k])));
  }

  lemma {:induction false} MoreVectorsCarry<T(!new)>(h: T -> u32, p: Ops<T>, o: Ops<u32>, v: seq<T>, cvs: seq<T>)
    requires Carries(h, p, o) && |v| == 16 && |cvs| == 8
    ensures MapWords(h, seq(8, k requires 0 <= k < 8 => p.xor(v[k + 8], cvs[k])))
         == MoreWords(o, MapWords(h, v), MapWords(h, cvs))
  {
  }

  /** The arguments that all the output blocks of one call share. */
  datatype XofJob = XofJob(cv: CVWords, block: Block, len: nat, flags: u8)

  /** The output vectors of a group whose first counter is `counter`. */
  function GroupVectors<T(!new)>(u: Unit<T>, x: XofJob, counter: nat): (v: seq<T>)
    ensures |v| == 16
  {
    var (low, high) := LoadCounters(u, true, counter);
    var h := Splat(u, x.cv);
    OutVectors(u.ops, FinalVectors(u, h, Splat(u, WordsFromBytes(x.block)), low, high, x.len, x.flags), h)
  }

  /** Lane `i` of the output vectors is the output block with the counter of lane `i`. */
  lemma {:induction false} OutLane<T(!new)>(u: Unit<T>, o: Ops<u32>, x: XofJob, counter: nat, i: nat)
    requires Works(u, o) && i < u.degree
    ensures MapWords(LaneOf(u, i), GroupVectors(u, x, counter))
         == CompressWords(o, x.cv, x.block, x.len, LaneCounter(true, counter, i), x.flags)
  {
    var (low, high) := LoadCounters(u, true, counter);
    var h, msg := Splat(u, x.cv), Splat(u, WordsFromBytes(x.block));
    SplatLane(u, o, x.cv, i);
    SplatLane(u, o, WordsFromBytes(x.block), i);
    CountersAreLanes(u, o, true, counter, i);
    FinalLane(u, o, h, msg, low, high, x.len, x.flags, i, x.block, LaneCounter(true, counter, i));
    OutVectorsCarry(LaneOf(u, i), u.ops, o, FinalVectors(u, h, msg, low, high, x.len, x.flags), h);
  }

  /** What lane `i` writes out: rows of four, two or one transposed squares. */
  function OutWords<T(!new)>(u: Unit<T>, v: seq<T>, i: nat): seq<u32>
    requires |v| == 16 && i < u.degree && Transposes(u)
  {
    if u.degree == 4 then RowOf(u, v[..4], i) + RowOf(u, v[4..8], i) + RowOf(u, v[8..12], i) + RowOf(u, v[12..], i)
    else if u.degree == 8 then RowOf(u, v[..8], i) + RowOf(u, v[8..], i)
    else if u.degree == 16 then RowOf(u, v, i)
    else []
  }

  lemma {:induction false} OutWordsAreLane<T(!new)>(u: Unit<T>, o: Ops<u32>, v: seq<T>, i: nat)
    requires Ready(u, o) && |v| == 16 && i < u.degree
    ensures OutWords(u, v, i) == MapWords(LaneOf(u, i), v)
  {
    if u.degree == 4 {
      FourRows(u, o, v, i);
    } else if u.degree == 8 {
      TwoRows(u, o, v, i);
    } else {
      RowIsLane(u, o, v, i);
    }
  }

  lemma {:induction false} TwoRows<T(!new)>(u: Unit<T>, o: Ops<u32>, v: seq<T>, i: nat)
    requires Ready(u, o) && |v| == 16 && i < u.degree == 8
    ensures OutWords(u, v, i) == MapWords(LaneOf(u, i), v)
  {
    RowIsLane(u, o, v[..8], i);
    RowIsLane(u, o, v[8..], i);
    MapAppend(LaneOf(u, i), v[..8], v[8..]);
    assert v == v[..8] + v[8..];
  }

  lemma {:induction false} FourRows<T(!new)>(u: Unit<T>, o: Ops<u32>, v: seq<T>, i: nat)
    requires Ready(u, o) && |v| == 16 && i < u.degree == 4
    ensures OutWords(u, v, i) == MapWords(LaneOf(u, i), v)
  {
    RowIsLane(u, o, v[..4], i);
    RowIsLane(u, o, v[4..8], i);
    RowIsLane(u, o, v[8..12], i);
    RowIsLane(u, o, v[12..], i);
    MapFour(LaneOf(u, i), v[..4], v[4..8], v[8..12], v[12..], MapWords(LaneOf(u, i), v));
  }

  method XofVectors<T(!new)>(u: Unit<T>, x: XofJob, counter: nat) returns (out: seq<T>)
    requires Swaps(u.ops)
    ensures out == GroupVectors(u, x, counter)
  {
    var h_vecs := Splat(u, x.cv);
    var msg_vecs := Splat(u, WordsFromBytes(x.block));
    var (counter_low_vec, counter_high_vec) := LoadCounters(u, true, counter);
    var v := CompressVectors(u, h_vecs, msg_vecs, counter_low_vec, counter_high_vec, x.len, x.flags);
    FeedForward(u.ops, v, h_vecs);
    out := v[..];
  }

  method FeedForward<T(!new)>(p: Ops<T>, v: array<T>, h_vecs: seq<T>)
    requires v.Length == 16 && |h_vecs| == 8
    modifies v
    ensures v[..] == OutVectors(p, old(v[..]), h_vecs)
  {
    forall k | 0 <= k < 8 {
      v[k] := p.xor(v[k], v[k + 8]);
    }
    forall k | 0 <= k < 8 {
      v[k + 8] := p.xor(v[k + 8], h_vecs[k]);
    }
  }

  // ---------- writing the stream ----------

  ghost predicate OutputAt(o: Ops<u32>, x: XofJob, f: Blocks, index: nat) {
    f(index) == BlockFromWords(CompressWords(o, x.cv, x.block, x.len, index, x.flags))
  }

  /** Whether `f` is the stream of output blocks of this node. */
  ghost predicate Outputs(o: Ops<u32>, x: XofJob, f: Blocks) {
    forall index: nat :: OutputAt(o, x, f, index)
  }

  /** Which output block of the node lane `i` writes. */
  lemma {:induction false} LaneBlock<T(!new)>(
      u: Unit<T>, o: Ops<u32>, x: XofJob, counter: nat, f: Blocks, i: nat)
    requires Ready(u, o) && i < u.degree && Outputs(o, x, f)
    ensures LaneOut(u, GroupVectors(u, x, counter), i) == f(counter + i)
  {
    OutWordsAreLane(u, o, GroupVectors(u, x, counter), i);
    OutLane(u, o, x, counter, i);
    assert OutputAt(o, x, f, LaneCounter(true, counter, i));
  }

  /** The blocks that the lanes of one group write. */
  method GroupBlocks<T(!new)>(u: Unit<T>, ghost o: Ops<u32>, x: XofJob, counter: nat, ghost f: Blocks)
    returns (blocks: seq<seq<u8>>)
    requires Ready(u, o) && Outputs(o, x, f)
    ensures |blocks| == u.degree && AreBlocks(blocks, f, counter)
  {
    var v := XofVectors(u, x, counter);
    blocks := LaneBlocks(u, v);
    forall i: nat | i < u.degree ensures LaneOut(u, v, i) == f(counter + i) {
      LaneBlock(u, o, x, counter, f, i);
    }
    LanesAreBlocks(u, v, counter, f);
  }

  function LaneOut<T(!new)>(u: Unit<T>, v: seq<T>, i: nat): seq<u8>
    requires |v| == 16 && i < u.degree && Transposes(u)
  {
    BytesFromWords(OutWords(u, v, i))
  }

  /** What every lane writes. */
  function LaneBlocks<T(!new)>(u: Unit<T>, v: seq<T>): (blocks: seq<seq<u8>>)
    requires |v| == 16 && Transposes(u)
    ensures |blocks| == u.degree
  {
    seq(u.degree, i requires 0 <= i < u.degree => LaneOut(u, v, i))
  }

  lemma {:induction false} LanesAreBlocks<T(!new)>(u: Unit<T>, v: seq<T>, counter: nat, f: Blocks)
    requires |v| == 16 && Transposes(u) && forall i: nat | i < u.degree :: LaneOut(u, v, i) == f(counter + i)
    ensures AreBlocks(LaneBlocks(u, v), f, counter)
  {
  }

  /** Whether these are consecutive blocks of the stream. */
  ghost predicate AreBlocks(blocks: seq<seq<u8>>, f: Blocks, counter: nat) {
    forall i: nat | i < |blocks| :: blocks[i] == f(counter + i)
  }

  lemma {:induction false} JoinedStream(blocks: seq<seq<u8>>, f: Blocks, counter: nat)
    requires AreBlocks(blocks, f, counter)
    ensures Joined(blocks) == Stream(f, BLOCK_LEN * counter, BLOCK_LEN * |blocks|)
  {
    if blocks != [] {
      JoinedStream(blocks[..|blocks| - 1], f, counter);
      OneMoreBlock(f, counter, |blocks| - 1);
    }
  }

  lemma {:induction false} OneMoreBlock(f: Blocks, counter: nat, n: nat)
    ensures Stream(f, BLOCK_LEN * counter, BLOCK_LEN * (n + 1))
         == Stream(f, BLOCK_LEN * counter, BLOCK_LEN * n) + f(counter + n)
  {
    WholeBlock(f, counter + n);
    StreamAppend(f, BLOCK_LEN * counter, BLOCK_LEN * n, BLOCK_LEN);
  }

  lemma {:induction false} WholeBlock(f: Blocks, index: nat)
    ensures Stream(f, BLOCK_LEN * index, BLOCK_LEN) == f(index)
  {
    StreamInBlock(f, index, 0, BLOCK_LEN);
    assert Stretch(f(index), 0, BLOCK_LEN) == f(index);
  }

  /** `xof4`, `xof8` and `xof16`: one output block from each lane. */
  method XofGroup<T(!new)>(u: Unit<T>, ghost o: Ops<u32>, x: XofJob, counter: nat,
                           out: array<u8>, at: nat, ghost f: Blocks, ghost start: nat)
    requires Ready(u, o) && Outputs(o, x, f) && at + BLOCK_LEN * u.degree <= out.Length
    requires out[..at] == Stream(f, start, at) && start + at == BLOCK_LEN * counter
    modifies out
    ensures out[..at + BLOCK_LEN * u.degree] == Stream(f, start, at + BLOCK_LEN * u.degree)
  {
    var blocks := GroupBlocks(u, o, x, counter, f);
    WriteBlocks(blocks, out, at, f, counter, start);
  }

  method WriteBlock(ghost f: Blocks, ghost index: nat, bytes: seq<u8>, out: array<u8>, at: nat, ghost start: nat)
    requires at + BLOCK_LEN <= out.Length && bytes == f(index)
    requires out[..at] == Stream(f, start, at) && start + at == BLOCK_LEN * index
    modifies out
    ensures out[..at + BLOCK_LEN] == Stream(f, start, at + BLOCK_LEN)
  {
    WriteBytes(out, at, bytes);
    assert Stretch(f(index), 0, BLOCK_LEN) == bytes;
    StreamGrows(f, start, old(out[..at]), index, 0, BLOCK_LEN, out[..at + BLOCK_LEN]);
  }

  method WriteBlocks(
      blocks: seq<seq<u8>>, out: array<u8>, at: nat, ghost f: Blocks, ghost counter: nat, ghost start: nat)
    requires AreBlocks(blocks, f, counter) && at + BLOCK_LEN * |blocks| <= out.Length
    requires out[..at] == Stream(f, start, at) && start + at == BLOCK_LEN * counter
    modifies out
    ensures out[..at + BLOCK_LEN * |blocks|] == Stream(f, start, at + BLOCK_LEN * |blocks|)
  {
    JoinedStream(blocks, f, counter);
    StreamAppend(f, start, at, BLOCK_LEN * |blocks|);
    WriteBytes(out, at, Joined(blocks));
  }

  /** As many whole groups as fit into `blocks` more blocks. */
  method XofGroups<T(!new)>(u: Unit<T>, ghost o: Ops<u32>, x: XofJob, counter: nat,
                            out: array<u8>, at: nat, blocks: nat, ghost f: Blocks, ghost start: nat)
    returns (next_counter: nat, next: nat, left: nat)
    requires Ready(u, o) && Outputs(o, x, f) && at + BLOCK_LEN * blocks <= out.Length
    requires out[..at] == Stream(f, start, at) && start + at == BLOCK_LEN * counter
    modifies out
    ensures left < u.degree && next + BLOCK_LEN * left == at + BLOCK_LEN * blocks
    ensures out[..next] == Stream(f, start, next) && start + next == BLOCK_LEN * next_counter
  {
    next_counter, next, left := counter, at, blocks;
    while left >= u.degree
      invariant next + BLOCK_LEN * left == at + BLOCK_LEN * blocks && start + next == BLOCK_LEN * next_counter
      invariant out[..next] == Stream(f, start, next)
      decreases left
    {
      assert u.degree > 0 && next + BLOCK_LEN * u.degree <= out.Length;
      XofGroup(u, o, x, next_counter, out, next, f, start);
      next_counter := next_counter + u.degree;
      next := next + BLOCK_LEN * u.degree;
      left := left - u.degree;
    }
  }

  /** The AVX-512 `xof_many`: groups of sixteen, eight and four, then single blocks. */
  method XofMany16(o: Ops<u32>, x: XofJob, counter: nat,
                   out: array<u8>, at: nat, blocks: nat, ghost f: Blocks, ghost start: nat)
    requires Swaps(o) && Outputs(o, x, f) && at + BLOCK_LEN * blocks <= out.Length
    requires out[..at] == Stream(f, start, at) && start + at == BLOCK_LEN * counter
    modifies out
    ensures out[..at + BLOCK_LEN * blocks] == Stream(f, start, at + BLOCK_LEN * blocks)
  {
    var c, next, left := XofSixteens(o, x, counter, out, at, blocks, f, start);
    XofMany8(o, x, c, out, next, left, f, start);
  }

  method XofMany8(o: Ops<u32>, x: XofJob, counter: nat,
                  out: array<u8>, at: nat, blocks: nat, ghost f: Blocks, ghost start: nat)
    requires Swaps(o) && Outputs(o, x, f) && at + BLOCK_LEN * blocks <= out.Length
    requires out[..at] == Stream(f, start, at) && start + at == BLOCK_LEN * counter
    modifies out
    ensures out[..at + BLOCK_LEN * blocks] == Stream(f, start, at + BLOCK_LEN * blocks)
  {
    var c, next, left := XofEights(o, x, counter, out, at, blocks, f, start);
    XofMany4(o, x, c, out, next, left, f, start);
  }

  method XofMany4(o: Ops<u32>, x: XofJob, counter: nat,
                  out: array<u8>, at: nat, blocks: nat, ghost f: Blocks, ghost start: nat)
    requires Swaps(o) && Outputs(o, x, f) && at + BLOCK_LEN * blocks <= out.Length
    requires out[..at] == Stream(f, start, at) && start + at == BLOCK_LEN * counter
    modifies out
    ensures out[..at + BLOCK_LEN * blocks] == Stream(f, start, at + BLOCK_LEN * blocks)
  {
    var c, next, left := XofFours(o, x, counter, out, at, blocks, f, start);
    XofSingles(o, x, c, out, next, left, f, start);
  }

  /** Groups of sixteen lanes. */
  method XofSixteens(o: Ops<u32>, x: XofJob, counter: nat,
                   out: array<u8>, at: nat, blocks: nat, ghost f: Blocks, ghost start: nat)
    returns (next_counter: nat, next: nat, left: nat)
    requires Swaps(o) && Outputs(o, x, f) && at + BLOCK_LEN * blocks <= out.Length
    requires out[..at] == Stream(f, start, at) && start + at == BLOCK_LEN * counter
    modifies out
    ensures left < 16 && next + BLOCK_LEN * left == at + BLOCK_LEN * blocks
    ensures out[..next] == Stream(f, start, next) && start + next == BLOCK_LEN * next_counter
  {
    Unit16Ready(o);
    next_counter, next, left := XofGroups(Unit16(o), o, x, counter, out, at, blocks, f, start);
  }

  /** Groups of eight lanes. */
  method XofEights(o: Ops<u32>, x: XofJob, counter: nat,
                   out: array<u8>, at: nat, blocks: nat, ghost f: Blocks, ghost start: nat)
    returns (next_counter: nat, next: nat, left: nat)
    requires Swaps(o) && Outputs(o, x, f) && at + BLOCK_LEN * blocks <= out.Length
    requires out[..at] == Stream(f, start, at) && start + at == BLOCK_LEN * counter
    modifies out
    ensures left < 8 && next + BLOCK_LEN * left == at + BLOCK_LEN * blocks
    ensures out[..next] == Stream(f, start, next) && start + next == BLOCK_LEN * next_counter
  {
    Unit8Ready(o);
    next_counter, next, left := XofGroups(Unit8(o), o, x, counter, out, at, blocks, f, start);
  }

  /** Groups of four lanes. */
  method XofFours(o: Ops<u32>, x: XofJob, counter: nat,
                   out: array<u8>, at: nat, blocks: nat, ghost f: Blocks, ghost start: nat)
    returns (next_counter: nat, next: nat, left: nat)
    requires Swaps(o) && Outputs(o, x, f) && at + BLOCK_LEN * blocks <= out.Length
    requires out[..at] == Stream(f, start, at) && start + at == BLOCK_LEN * counter
    modifies out
    ensures left < 4 && next + BLOCK_LEN * left == at + BLOCK_LEN * blocks
    ensures out[..next] == Stream(f, start, next) && start + next == BLOCK_LEN * next_counter
  {
    Unit4Ready(o);
    next_counter, next, left := XofGroups(Unit4(o), o, x, counter, out, at, blocks, f, start);
  }

  method XofSingles(o: Ops<u32>, x: XofJob, counter: nat,
                    out: array<u8>, at: nat, blocks: nat, ghost f: Blocks, ghost start: nat)
    requires Swaps(o) && Outputs(o, x, f) && at + BLOCK_LEN * blocks <= out.Length
    requires out[..at] == Stream(f, start, at) && start + at == BLOCK_LEN * counter
    modifies out
    ensures out[..at + BLOCK_LEN * blocks] == Stream(f, start, at + BLOCK_LEN * blocks)
  {
    var next_counter, next, left := counter, at, blocks;
    while left > 0
      invariant next + BLOCK_LEN * left == at + BLOCK_LEN * blocks && start + next == BLOCK_LEN * next_counter
      invariant out[..next] == Stream(f, start, next)
    {
      XofSingle(o, x, next_counter, out, next, f, start);
      next_counter, next, left := next_counter + 1, next + BLOCK_LEN, left - 1;
    }
  }

  method XofSingle(o: Ops<u32>, x: XofJob, counter: nat, out: array<u8>, at: nat, ghost f: Blocks, ghost start: nat)
    requires Swaps(o) && Outputs(o, x, f) && at + BLOCK_LEN <= out.Length
    requires out[..at] == Stream(f, start, at) && start + at == BLOCK_LEN * counter
    modifies out
    ensures out[..at + BLOCK_LEN] == Stream(f, start, at + BLOCK_LEN)
  {
    var bytes := XofBlock(o, x, counter, f);
    WriteBlock(f, counter, bytes, out, at, start);
  }

  method XofBlock(o: Ops<u32>, x: XofJob, counter: nat, ghost f: Blocks) returns (bytes: Block)
    requires Swaps(o) && Outputs(o, x, f)
    ensures bytes == f(counter)
  {
    bytes := RowCompress.CompressXof(SSE41, o, x.cv, x.block, x.len, counter, x.flags);
    assert OutputAt(o, x, f, counter);
  }

  /** The blocks of a root node's stream are what these calls write. */
  lemma {:induction false} RootOutputs(o: Ops<u32>, mode: Mode, node: Output)
    requires Computes(o, mode.compress)
    ensures Outputs(o, XofJob(node.inputChainingValue, node.block, node.blockLen, node.flags | ROOT), mode.Blocks(node))
  {
    var x := XofJob(node.inputChainingValue, node.block, node.blockLen, node.flags | ROOT);
    forall index: nat ensures OutputAt(o, x, mode.Blocks(node), index) {
      assert CompressAt(o, mode.compress, x.cv, x.block, x.len, index, x.flags);
    }
  }
}
