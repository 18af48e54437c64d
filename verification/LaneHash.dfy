/** `hash_many` and `xof_many` in batches of lanes, with leftovers one at a time. */
module LaneHash {
  import opened Words
  import opened Blake3Tree
  import opened Arx
  import opened Portable
  import opened HashMany
  import opened Lanes
  import opened RowCompress

  /** The vector units of the source have 4, 8 or 16 lanes. */
  ghost predicate Ready<T(!new)>(u: Unit<T>, o: Ops<u32>) {
    (u.degree == 4 || u.degree == 8 || u.degree == 16) && Works(u, o) && Transposes(u)
  }

  // ---------- transposing ----------

  /** Words `from .. from + degree` of every input, transposed: word k of input i
      becomes lane i of vector k. */
  function Square<T(!new)>(u: Unit<T>, words: seq<seq<u32>>, from: nat): seq<T>
    requires |words| == u.degree && forall i | 0 <= i < |words| :: from + u.degree <= |words[i]|
  {
    u.transpose(InputRows(u, words, from))
  }

  function InputRows<T(!new)>(u: Unit<T>, words: seq<seq<u32>>, from: nat): (rows: seq<T>)
    requires |words| == u.degree && forall i | 0 <= i < |words| :: from + u.degree <= |words[i]|
    ensures |rows| == u.degree
    ensures forall i | 0 <= i < |rows| :: rows[i] == u.load(words[i][from..from + u.degree])
  {
    seq(u.degree, i requires 0 <= i < u.degree => u.load(words[i][from..from + u.degree]))
  }

  lemma {:induction false} SquareLane<T(!new)>(u: Unit<T>, o: Ops<u32>, words: seq<seq<u32>>, from: nat, i: nat)
    requires Ready(u, o) && i < u.degree
    requires |words| == u.degree && forall i | 0 <= i < |words| :: from + u.degree <= |words[i]|
    ensures |Square(u, words, from)| == u.degree
    ensures MapWords(LaneOf(u, i), Square(u, words, from)) == words[i][from..from + u.degree]
  {
    var rows, row := InputRows(u, words, from), words[i][from..from + u.degree];
    TransposedLane(u, rows, i);
    forall k | 0 <= k < u.degree ensures u.lane(rows[i], k) == row[k] {
      assert u.lane(u.load(row), k) == row[k];
    }
  }

  lemma {:induction false} TransposedLane<T(!new)>(u: Unit<T>, rows: seq<T>, i: nat)
    requires Transposes(u) && |rows| == u.degree && i < u.degree
    ensures |u.transpose(rows)| == u.degree
    ensures forall k | 0 <= k < u.degree :: u.lane(u.transpose(rows)[k], i) == u.lane(rows[i], k)
  {
    assert IsTransposed(u, rows, u.transpose(rows));
  }

  /** `transpose_msg_vecs`: sixteen vectors from one block of every input. */
  function MessageVectors<T(!new)>(u: Unit<T>, words: seq<seq<u32>>): seq<T>
    requires u.degree == 4 || u.degree == 8 || u.degree == 16
    requires |words| == u.degree && forall i | 0 <= i < |words| :: |words[i]| == 16
  {
    if u.degree == 4 then
      Square(u, words, 0) + Square(u, words, 4) + Square(u, words, 8) + Square(u, words, 12)
    else if u.degree == 8 then Square(u, words, 0) + Square(u, words, 8)
    else Square(u, words, 0)
  }

  lemma {:induction false} MapAppend<T(!new), U(!new)>(h: T -> U, a: seq<T>, b: seq<T>)
    ensures MapWords(h, a + b) == MapWords(h, a) + MapWords(h, b)
  {
  }

  lemma {:induction false} MessageLane<T(!new)>(u: Unit<T>, o: Ops<u32>, words: seq<seq<u32>>, i: nat)
    requires Ready(u, o) && i < u.degree
    requires |words| == u.degree && forall i | 0 <= i < |words| :: |words[i]| == 16
    ensures |MessageVectors(u, words)| == 16 && MapWords(LaneOf(u, i), MessageVectors(u, words)) == words[i]
  {
    SquareLane(u, o, words, 0, i);
    if u.degree == 4 {
      FourSquares(u, o, words, i);
    } else if u.degree == 8 {
      SquareLane(u, o, words, 8, i);
      MapAppend(LaneOf(u, i), Square(u, words, 0), Square(u, words, 8));
    }
  }

  lemma {:induction false} FourSquares<T(!new)>(u: Unit<T>, o: Ops<u32>, words: seq<seq<u32>>, i: nat)
    requires Ready(u, o) && i < u.degree == 4
    requires |words| == u.degree && forall i | 0 <= i < |words| :: |words[i]| == 16
    ensures |MessageVectors(u, words)| == 16 && MapWords(LaneOf(u, i), MessageVectors(u, words)) == words[i]
  {
    var s0 := SquareOf(u, o, words, 0, 4, i);
    var s1 := SquareOf(u, o, words, 4, 8, i);
    var s2 := SquareOf(u, o, words, 8, 12, i);
    var s3 := SquareOf(u, o, words, 12, 16, i);
    MapFour(LaneOf(u, i), s0, s1, s2, s3, words[i]);
  }

  /** One square, by the words that it covers. */
  lemma {:induction false} SquareOf<T(!new)>(
      u: Unit<T>, o: Ops<u32>, words: seq<seq<u32>>, from: nat, to: nat, i: nat) returns (s: seq<T>)
    requires Ready(u, o) && i < u.degree && to == from + u.degree
    requires |words| == u.degree && forall i | 0 <= i < |words| :: to <= |words[i]|
    ensures s == Square(u, words, from) && |s| == u.degree && MapWords(LaneOf(u, i), s) == words[i][from..to]
  {
    s := Square(u, words, from);
    SquareLane(u, o, words, from, i);
  }

  lemma {:induction false} MapFour<T(!new)>(
      h: T -> u32, s0: seq<T>, s1: seq<T>, s2: seq<T>, s3: seq<T>, w: seq<u32>)
    requires |w| == 16 && MapWords(h, s0) == w[0..4] && MapWords(h, s1) == w[4..8]
    requires MapWords(h, s2) == w[8..12] && MapWords(h, s3) == w[12..16]
    ensures MapWords(h, s0 + s1 + s2 + s3) == w
  {
    MapAppend(h, s0, s1);
    MapAppend(h, s0 + s1, s2);
    MapAppend(h, s0 + s1 + s2, s3);
  }

  /** `storeu`: the lanes of a vector in memory. */
  function Stored<T(!new)>(u: Unit<T>, v: T): seq<u32> {
    seq(u.degree, j requires 0 <= j < u.degree => u.lane(v, j))
  }

  /** The lanes of vector `i` of a transposed square. */
  function RowOf<T(!new)>(u: Unit<T>, square: seq<T>, i: nat): seq<u32>
    requires |square| == |u.transpose(square)| == u.degree && i < u.degree
  {
    Stored(u, u.transpose(square)[i])
  }

  lemma {:induction false} RowIsLane<T(!new)>(u: Unit<T>, o: Ops<u32>, square: seq<T>, i: nat)
    requires Ready(u, o) && |square| == u.degree && i < u.degree
    ensures |u.transpose(square)| == u.degree && RowOf(u, square, i) == MapWords(LaneOf(u, i), square)
  {
  }

  /** What input `i` writes out of the eight vectors of chaining values: with four lanes
      from two squares, with sixteen from the lower half of a padded one. */
  function CvWords<T(!new)>(u: Unit<T>, h: seq<T>, i: nat): seq<u32>
    requires |h| == 8 && i < u.degree && Transposes(u)
  {
    if u.degree == 4 then RowOf(u, h[..4], i) + RowOf(u, h[4..], i)
    else if u.degree == 8 then RowOf(u, h, i)
    else if u.degree == 16 then
      var zero := u.set1(0);
      RowOf(u, h + [zero, zero, zero, zero, zero, zero, zero, zero], i)[..8]
    else []
  }

  lemma {:induction false} CvWordsAreLane<T(!new)>(u: Unit<T>, o: Ops<u32>, h: seq<T>, i: nat)
    requires Ready(u, o) && |h| == 8 && i < u.degree
    ensures CvWords(u, h, i) == MapWords(LaneOf(u, i), h)
  {
    if u.degree == 4 {
      RowIsLane(u, o, h[..4], i);
      RowIsLane(u, o, h[4..], i);
    } else if u.degree == 8 {
      RowIsLane(u, o, h, i);
    } else {
      var zero := u.set1(0);
      RowIsLane(u, o, h + [zero, zero, zero, zero, zero, zero, zero, zero], i);
    }
  }

  // ---------- hashing one group ----------

  /** `load_counters`: the low and the high words of all the lanes' counters. */
  function LoadCounters<T(!new)>(u: Unit<T>, increment: bool, counter: nat): (T, T) {
    var words := u.counters(increment, counter);
    (u.load(words.0), u.load(words.1))
  }

  lemma {:induction false} CountersAreLanes<T(!new)>(u: Unit<T>, o: Ops<u32>, increment: bool, counter: nat, i: nat)
    requires Works(u, o) && i < u.degree
    ensures var (low, high) := LoadCounters(u, increment, counter);
            && u.lane(low, i) == CounterLow(LaneCounter(increment, counter, i))
            && u.lane(high, i) == CounterHigh(LaneCounter(increment, counter, i))
  {
    assert AreCounters(u.counters(increment, counter), u.degree, increment, counter);
  }

  /** Block `b` of every input, in words. */
  function BlockWords(inputs: seq<seq<u8>>, b: nat): (words: seq<seq<u32>>)
    requires forall i | 0 <= i < |inputs| :: BLOCK_LEN * (b + 1) <= |inputs[i]|
    ensures |words| == |inputs| && forall i | 0 <= i < |words| :: |words[i]| == 16
  {
    seq(|inputs|, i requires 0 <= i < |inputs| => WordsFromBytes(BlockOf(inputs[i], b)))
  }

  function BlockOf(input: seq<u8>, b: nat): Block
    requires BLOCK_LEN * (b + 1) <= |input|
  {
    input[BLOCK_LEN * b..BLOCK_LEN * (b + 1)]
  }

  /** The final state, as vectors. */
  function FinalVectors<T(!new)>(
      u: Unit<T>, cvs: seq<T>, msg: seq<T>, low: T, high: T, len: nat, flags: u8): (v: seq<T>)
    requires |cvs| == 8 && |msg| == 16
    ensures |v| == 16
  {
    Flat(Rounds(OpsRound(u.ops), StateOf(StartVectors(u, cvs, low, high, len, flags)), msg, ROUNDS))
  }

  /** Lane `i` of the final vectors is the final state for the words of lane `i`. */
  lemma {:induction false} FinalLane<T(!new)>(
      u: Unit<T>, o: Ops<u32>, cvs: seq<T>, msg: seq<T>, low: T, high: T, len: nat, flags: u8,
      i: nat, block: Block, counter: nat)
    requires Works(u, o) && i < u.degree && |cvs| == 8 && |msg| == 16
    requires MapWords(LaneOf(u, i), msg) == WordsFromBytes(block)
    requires u.lane(low, i) == CounterLow(counter) && u.lane(high, i) == CounterHigh(counter)
    ensures MapWords(LaneOf(u, i), FinalVectors(u, cvs, msg, low, high, len, flags))
         == Flat(FinalState(o, MapWords(LaneOf(u, i), cvs), block, len, counter, flags))
  {
    LaneStarts(u, o, cvs, low, high, len, flags, i, counter);
    LaneCompresses(LaneOf(u, i), u.ops, o, StartVectors(u, cvs, low, high, len, flags), msg,
                   FinalVectors(u, cvs, msg, low, high, len, flags),
                   MapWords(LaneOf(u, i), cvs), block, len, counter, flags);
  }

  /** Lane `i` of the next chaining values. */
  lemma {:induction false} NextLane<T(!new)>(
      u: Unit<T>, o: Ops<u32>, job: Job, cvs: seq<T>, msg: seq<T>, low: T, high: T, flags: u8,
      i: nat, block: Block, counter: nat)
    requires Works(u, o) && i < u.degree && |cvs| == 8 && |msg| == 16 && Computes(o, job.compress)
    requires MapWords(LaneOf(u, i), msg) == WordsFromBytes(block)
    requires u.lane(low, i) == CounterLow(counter) && u.lane(high, i) == CounterHigh(counter)
    ensures MapWords(LaneOf(u, i), NextVectors(u.ops, FinalVectors(u, cvs, msg, low, high, BLOCK_LEN, flags)))
         == job.CompressBlock(MapWords(LaneOf(u, i), cvs), block, counter, flags)
  {
    FinalLane(u, o, cvs, msg, low, high, BLOCK_LEN, flags, i, block, counter);
    NextVectorsCarry(LaneOf(u, i), u.ops, o, FinalVectors(u, cvs, msg, low, high, BLOCK_LEN, flags));
    FirstWords(o, MapWords(LaneOf(u, i), cvs), block, BLOCK_LEN, counter, flags);
    assert CompressAt(o, job.compress, MapWords(LaneOf(u, i), cvs), block, BLOCK_LEN, counter, flags);
  }

  /** The transposed compression function, up to the final state. */
  method CompressVectors<T(!new)>(u: Unit<T>, cvs: seq<T>, msg: seq<T>, low: T, high: T, len: nat, flags: u8)
    returns (v: array<T>)
    requires Swaps(u.ops) && |cvs| == 8 && |msg| == 16
    ensures fresh(v) && v.Length == 16 && v[..] == FinalVectors(u, cvs, msg, low, high, len, flags)
  {
    var start := StartVectors(u, cvs, low, high, len, flags);
    v := new T[16](i requires 0 <= i < 16 => start[i]);
    assert v[..] == start;
    AllRounds(u.ops, v, msg);
    FlatState(v[..]);
  }

  /** Compresses block `b` of every input, in place on the vectors of chaining values. */
  method CompressLanes<T(!new)>(u: Unit<T>, h_vecs: array<T>, msg: seq<T>, low: T, high: T, flags: u8)
    requires Swaps(u.ops) && h_vecs.Length == 8 && |msg| == 16
    modifies h_vecs
    ensures h_vecs[..]
         == NextVectors(u.ops, FinalVectors(u, old(h_vecs[..]), msg, low, high, BLOCK_LEN, flags))
  {
    var v := CompressVectors(u, h_vecs[..], msg, low, high, BLOCK_LEN, flags);
    XorHalves(u.ops, v[..], h_vecs);
  }

  method XorHalves<T(!new)>(o: Ops<T>, v: seq<T>, h_vecs: array<T>)
    requires |v| == 16 && h_vecs.Length == 8
    modifies h_vecs
    ensures h_vecs[..] == NextVectors(o, v)
  {
    forall k | 0 <= k < 8 {
      h_vecs[k] := o.xor(v[k], v[k + 8]);
    }
  }

  /** Whether the vectors hold every input's chaining value after `b` blocks. */
  ghost predicate Chained<T(!new)>(
      u: Unit<T>, job: Job, inputs: seq<seq<u8>>, blocks: nat, b: nat, counter: nat, h: seq<T>)
    requires |inputs| == u.degree && b <= blocks
    requires forall i | 0 <= i < |inputs| :: |inputs[i]| == BLOCK_LEN * blocks
  {
    forall i: nat | i < u.degree ::
      MapWords(LaneOf(u, i), h) == job.Chain(inputs[i], b, blocks, LaneCounter(job.increment, counter, i))
  }

  lemma {:induction false} ChainedNext<T(!new)>(
      u: Unit<T>, o: Ops<u32>, job: Job, inputs: seq<seq<u8>>, blocks: nat, b: nat, counter: nat,
      h: seq<T>, h': seq<T>)
    requires Ready(u, o) && |inputs| == u.degree && b < blocks && |h| == 8 && Computes(o, job.compress)
    requires forall i | 0 <= i < |inputs| :: |inputs[i]| == BLOCK_LEN * blocks
    requires Chained(u, job, inputs, blocks, b, counter, h)
    requires var (low, high) := LoadCounters(u, job.increment, counter);
             var msg := MessageVectors(u, BlockWords(inputs, b));
             |msg| == 16
             && h' == NextVectors(u.ops, FinalVectors(u, h, msg, low, high, BLOCK_LEN, job.BlockFlags(b, blocks)))
    ensures Chained(u, job, inputs, blocks, b + 1, counter, h')
  {
    forall i: nat | i < u.degree
      ensures MapWords(LaneOf(u, i), h')
           == job.Chain(inputs[i], b + 1, blocks, LaneCounter(job.increment, counter, i))
    {
      LaneChains(u, o, job, inputs, blocks, b, counter, h, i);
    }
  }

  lemma {:induction false} LaneChains<T(!new)>(
      u: Unit<T>, o: Ops<u32>, job: Job, inputs: seq<seq<u8>>, blocks: nat, b: nat, counter: nat, h: seq<T>, i: nat)
    requires Ready(u, o) && |inputs| == u.degree && b < blocks && |h| == 8 && Computes(o, job.compress)
    requires forall i | 0 <= i < |inputs| :: |inputs[i]| == BLOCK_LEN * blocks
    requires i < u.degree
    requires MapWords(LaneOf(u, i), h) == job.Chain(inputs[i], b, blocks, LaneCounter(job.increment, counter, i))
    ensures var (low, high) := LoadCounters(u, job.increment, counter);
            var msg := MessageVectors(u, BlockWords(inputs, b));
            |msg| == 16
            && MapWords(LaneOf(u, i), NextVectors(u.ops, FinalVectors(u, h, msg, low, high, BLOCK_LEN,
                                                                      job.BlockFlags(b, blocks))))
               == job.Chain(inputs[i], b + 1, blocks, LaneCounter(job.increment, counter, i))
  {
    var (low, high) := LoadCounters(u, job.increment, counter);
    var msg := MessageVectors(u, BlockWords(inputs, b));
    MessageLane(u, o, BlockWords(inputs, b), i);
    CountersAreLanes(u, o, job.increment, counter, i);
    NextLane(u, o, job, h, msg, low, high, job.BlockFlags(b, blocks), i, BlockOf(inputs[i], b),
             LaneCounter(job.increment, counter, i));
  }

  /** Whether `out` holds the hashes of a group whose first counter is `counter`. */
  ghost predicate GroupHashed(
      job: Job, inputs: seq<seq<u8>>, blocks: nat, counter: nat, out: seq<CVBytes>, at: nat)
    requires forall i | 0 <= i < |inputs| :: |inputs[i]| == BLOCK_LEN * blocks
  {
    && at + |inputs| <= |out|
    && forall i | 0 <= i < |inputs| ::
         out[at + i] == BytesFromWords(job.Chain(inputs[i], blocks, blocks, LaneCounter(job.increment, counter, i)))
  }

  /** Whether nothing but `n` slots from `at` on has changed. */
  ghost predicate OnlyThese(before: seq<CVBytes>, after: seq<CVBytes>, at: nat, n: nat) {
    |before| == |after| && forall j | 0 <= j < |after| && !(at <= j < at + n) :: after[j] == before[j]
  }

  /** `hash4`, `hash8` and `hash16`: hashes one input in each lane. */
  method HashGroup<T(!new)>(u: Unit<T>, ghost o: Ops<u32>, job: Job, inputs: seq<seq<u8>>, blocks: nat,
                            counter: nat, out: array<CVBytes>, at: nat)
    requires Ready(u, o) && |inputs| == u.degree && Computes(o, job.compress)
    requires forall i | 0 <= i < |inputs| :: |inputs[i]| == BLOCK_LEN * blocks
    requires at + u.degree <= out.Length
    modifies out
    ensures GroupHashed(job, inputs, blocks, counter, out[..], at)
    ensures OnlyThese(old(out[..]), out[..], at, u.degree)
  {
    var h := ChainVectors(u, o, job, inputs, blocks, counter);
    StoreGroup(u, o, h, out, at);
    StoredIsHashed(u, job, inputs, blocks, counter, h, out[..], at);
  }

  /** Whether `out` holds the chaining values of all lanes from slot `at` on. */
  ghost predicate LanesStored<T(!new)>(u: Unit<T>, h: seq<T>, out: seq<CVBytes>, at: nat) {
    |h| == 8 && at + u.degree <= |out| && forall i | 0 <= i < u.degree :: out[at + i] == LaneBytes(u, h, i)
  }

  lemma {:induction false} StoredIsHashed<T(!new)>(
      u: Unit<T>, job: Job, inputs: seq<seq<u8>>, blocks: nat, counter: nat, h: seq<T>, out: seq<CVBytes>, at: nat)
    requires |inputs| == u.degree && forall i | 0 <= i < |inputs| :: |inputs[i]| == BLOCK_LEN * blocks
    requires Chained(u, job, inputs, blocks, blocks, counter, h) && LanesStored(u, h, out, at)
    ensures GroupHashed(job, inputs, blocks, counter, out, at)
  {
    forall i | 0 <= i < |inputs|
      ensures out[at + i]
           == BytesFromWords(job.Chain(inputs[i], blocks, blocks, LaneCounter(job.increment, counter, i)))
    {
      assert out[at + i] == LaneBytes(u, h, i);
    }
  }

  /** The chaining values of all inputs after all blocks, still transposed. */
  method ChainVectors<T(!new)>(
      u: Unit<T>, ghost o: Ops<u32>, job: Job, inputs: seq<seq<u8>>, blocks: nat, counter: nat)
    returns (h: seq<T>)
    requires Ready(u, o) && |inputs| == u.degree && Computes(o, job.compress)
    requires forall i | 0 <= i < |inputs| :: |inputs[i]| == BLOCK_LEN * blocks
    ensures |h| == 8 && Chained(u, job, inputs, blocks, blocks, counter, h)
  {
    var h_vecs := new T[8](k requires 0 <= k < 8 => u.set1(job.key[k]));
    var (counter_low_vec, counter_high_vec) := LoadCounters(u, job.increment, counter);
    var block_flags := job.flags | job.flagsStart;
    ChainedAtFirst(u, o, job, inputs, blocks, counter, h_vecs[..]);
    for b := 0 to blocks
      invariant Chained(u, job, inputs, blocks, b, counter, h_vecs[..])
      invariant block_flags == job.StartFlags(b)
    {
      if b + 1 == blocks {
        block_flags := block_flags | job.flagsEnd;
      }
      NextBlock(u, o, job, inputs, blocks, b, counter, h_vecs, counter_low_vec, counter_high_vec, block_flags);
      block_flags := job.flags;
    }
    h := h_vecs[..];
  }

  /** Compresses block number `b` of every input. */
  method NextBlock<T(!new)>(u: Unit<T>, ghost o: Ops<u32>, ghost job: Job, inputs: seq<seq<u8>>, ghost blocks: nat,
                            b: nat, ghost counter: nat, h_vecs: array<T>, low: T, high: T, block_flags: u8)
    requires Ready(u, o) && |inputs| == u.degree && b < blocks && h_vecs.Length == 8
    requires Computes(o, job.compress) && (low, high) == LoadCounters(u, job.increment, counter)
    requires block_flags == job.BlockFlags(b, blocks)
    requires forall i | 0 <= i < |inputs| :: |inputs[i]| == BLOCK_LEN * blocks
    requires Chained(u, job, inputs, blocks, b, counter, h_vecs[..])
    modifies h_vecs
    ensures Chained(u, job, inputs, blocks, b + 1, counter, h_vecs[..])
  {
    ghost var h := h_vecs[..];
    MessageLane(u, o, BlockWords(inputs, b), 0);
    var msg_vecs := MessageVectors(u, BlockWords(inputs, b));
    CompressLanes(u, h_vecs, msg_vecs, low, high, block_flags);
    ChainedNext(u, o, job, inputs, blocks, b, counter, h, h_vecs[..]);
  }

  lemma {:induction false} ChainedAtFirst<T(!new)>(
      u: Unit<T>, o: Ops<u32>, job: Job, inputs: seq<seq<u8>>, blocks: nat, counter: nat, h: seq<T>)
    requires Ready(u, o) && |inputs| == u.degree && |h| == 8
    requires forall i | 0 <= i < |inputs| :: |inputs[i]| == BLOCK_LEN * blocks
    requires forall k | 0 <= k < 8 :: h[k] == u.set1(job.key[k])
    ensures Chained(u, job, inputs, blocks, 0, counter, h)
  {
    forall i: nat | i < u.degree ensures MapWords(LaneOf(u, i), h) == job.key {
      forall k | 0 <= k < 8 ensures LaneOf(u, i)(h[k]) == job.key[k] {
        assert u.lane(u.set1(job.key[k]), i) == job.key[k];
      }
    }
  }

  /** Transposes the chaining values back and writes them out. */
  method StoreGroup<T(!new)>(u: Unit<T>, ghost o: Ops<u32>, h: seq<T>, out: array<CVBytes>, at: nat)
    requires Ready(u, o) && |h| == 8 && at + u.degree <= out.Length
    modifies out
    ensures LanesStored(u, h, out[..], at)
    ensures forall j | 0 <= j < out.Length && !(at <= j < at + u.degree) :: out[j] == old(out[j])
  {
    for i := 0 to u.degree
      invariant StoredSoFar(u, h, old(out[..]), out[..], at, i)
    {
      StoredStep(u, h, old(out[..]), out[..], at, i);
      StoreLane(u, o, h, out, at + i, i);
    }
  }

  /** Whether the first `n` lanes are in their slots and no other slot has changed. */
  ghost predicate StoredSoFar<T(!new)>(
      u: Unit<T>, h: seq<T>, was: seq<CVBytes>, now: seq<CVBytes>, at: nat, n: nat)
  {
    && |h| == 8 && |now| == |was| && at + n <= |was|
    && (forall i | 0 <= i < n :: now[at + i] == LaneBytes(u, h, i))
    && (forall j | 0 <= j < |was| && !(at <= j < at + n) :: now[j] == was[j])
  }

  lemma {:induction false} StoredStep<T(!new)>(
      u: Unit<T>, h: seq<T>, was: seq<CVBytes>, now: seq<CVBytes>, at: nat, n: nat)
    requires StoredSoFar(u, h, was, now, at, n) && at + n < |was|
    ensures StoredSoFar(u, h, was, now[at + n := LaneBytes(u, h, n)], at, n + 1)
  {
  }

  method StoreLane<T(!new)>(u: Unit<T>, ghost o: Ops<u32>, h: seq<T>, out: array<CVBytes>, slot: nat, i: nat)
    requires Ready(u, o) && |h| == 8 && i < u.degree && slot < out.Length
    modifies out
    ensures out[..] == old(out[..])[slot := LaneBytes(u, h, i)]
  {
    CvWordsAreLane(u, o, h, i);
    out[slot] := BytesFromWords(CvWords(u, h, i));
  }

  /** The bytes of lane `i` of the chaining values. */
  function LaneBytes<T(!new)>(u: Unit<T>, h: seq<T>, i: nat): CVBytes
    requires |h| == 8
  {
    BytesFromWords(MapWords(LaneOf(u, i), h))
  }

  // ---------- hash_many ----------

  /** Hashes whole groups of the inputs from number `first` on. */
  method HashGroups<T(!new)>(u: Unit<T>, ghost o: Ops<u32>, job: Job, inputs: seq<seq<u8>>, blocks: nat,
                             out: array<CVBytes>, at: nat, first: nat, counter: nat)
    returns (next: nat, next_counter: nat)
    requires Ready(u, o) && Computes(o, job.compress)
    requires forall i | 0 <= i < |inputs| :: |inputs[i]| == BLOCK_LEN * blocks
    requires at + |inputs| <= out.Length && first <= |inputs| && counter == job.CounterOf(first)
    requires HashedUpTo(job, inputs, blocks, first, out[..], at)
    modifies out
    ensures first <= next <= |inputs| < next + u.degree && next_counter == job.CounterOf(next)
    ensures HashedUpTo(job, inputs, blocks, next, out[..], at)
    ensures forall j | 0 <= j < out.Length && !(at <= j < at + |inputs|) :: out[j] == old(out[j])
  {
    next, next_counter := first, counter;
    while |inputs| - next >= u.degree
      invariant first <= next <= |inputs| && next_counter == job.CounterOf(next)
      invariant HashedUpTo(job, inputs, blocks, next, out[..], at)
      invariant forall j | 0 <= j < out.Length && !(at <= j < at + |inputs|) :: out[j] == old(out[j])
      decreases |inputs| - next
    {
      HashNextGroup(u, o, job, inputs, blocks, out, at, next, next_counter);
      if job.increment {
        next_counter := next_counter + u.degree;
      }
      next := next + u.degree;
    }
  }

  method HashNextGroup<T(!new)>(u: Unit<T>, ghost o: Ops<u32>, job: Job, inputs: seq<seq<u8>>, blocks: nat,
                                out: array<CVBytes>, at: nat, next: nat, counter: nat)
    requires Ready(u, o) && Computes(o, job.compress)
    requires forall i | 0 <= i < |inputs| :: |inputs[i]| == BLOCK_LEN * blocks
    requires at + |inputs| <= out.Length && next + u.degree <= |inputs| && counter == job.CounterOf(next)
    requires HashedUpTo(job, inputs, blocks, next, out[..], at)
    modifies out
    ensures HashedUpTo(job, inputs, blocks, next + u.degree, out[..], at)
    ensures forall j | 0 <= j < out.Length && !(at <= j < at + |inputs|) :: out[j] == old(out[j])
  {
    ghost var before := out[..];
    var group := GroupOf(inputs, next, u.degree, blocks);
    HashGroup(u, o, job, group, blocks, counter, out, at + next);
    GroupIsHashed(job, inputs, group, blocks, counter, before, out[..], at, next);
    SlotsKept(before, out, at + next, |group|);
  }

  lemma {:induction false} SlotsKept(before: seq<CVBytes>, out: array<CVBytes>, at: nat, n: nat)
    requires OnlyThese(before, out[..], at, n)
    ensures forall j | 0 <= j < out.Length && !(at <= j < at + n) :: out[j] == before[j]
  {
    forall j | 0 <= j < out.Length && !(at <= j < at + n) ensures out[j] == before[j] {
      assert out[..][j] == before[j];
    }
  }

  /** The inputs of one group. */
  function GroupOf(inputs: seq<seq<u8>>, next: nat, degree: nat, ghost blocks: nat): (group: seq<seq<u8>>)
    requires next + degree <= |inputs| && forall i | 0 <= i < |inputs| :: |inputs[i]| == BLOCK_LEN * blocks
    ensures |group| == degree && forall i | 0 <= i < |group| :: |group[i]| == BLOCK_LEN * blocks
    ensures group == inputs[next..next + |group|]
  {
    inputs[next..next + degree]
  }

  /** Hashing a group extends what is hashed. */
  lemma {:induction false} GroupIsHashed(
      job: Job, inputs: seq<seq<u8>>, group: seq<seq<u8>>, blocks: nat, counter: nat,
      before: seq<CVBytes>, after: seq<CVBytes>, at: nat, next: nat)
    requires forall i | 0 <= i < |inputs| :: |inputs[i]| == BLOCK_LEN * blocks
    requires next + |group| <= |inputs| && group == inputs[next..next + |group|] && counter == job.CounterOf(next)
    requires at + |inputs| <= |before| == |after|
    requires HashedUpTo(job, inputs, blocks, next, before, at)
    requires OnlyThese(before, after, at + next, |group|)
    requires GroupHashed(job, group, blocks, counter, after, at + next)
    ensures HashedUpTo(job, inputs, blocks, next + |group|, after, at)
  {
    forall i | 0 <= i < next + |group| ensures after[at + i] == job.Hash(inputs[i], blocks, i) {
      if i >= next {
        var d := i - next;
        assert after[at + next + d]
            == BytesFromWords(job.Chain(group[d], blocks, blocks, LaneCounter(job.increment, counter, d)));
        assert group[d] == inputs[i];
        assert LaneCounter(job.increment, counter, d) == job.CounterOf(i);
      }
    }
  }
}
