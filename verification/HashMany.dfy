/** Hashing many equally long inputs one at a time: the portable `hash1` and
    `hash_many`, which the vector versions must agree with. */
module HashMany {
  import opened Words
  import opened Blake3Tree

  /** The arguments that all the inputs of one `hash_many` call share. */
  datatype Job = Job(compress: Compress, key: CVWords, counter: nat, increment: bool,
                     flags: u8, flagsStart: u8, flagsEnd: u8) {

    /** One whole block, `compress_in_place`. */
    function CompressBlock(cv: CVWords, block: Block, count: nat, blockFlags: u8): CVWords {
      compress(cv, block, BLOCK_LEN, count, blockFlags)[..8]
    }

    /** The counter of input number `i`. */
    function CounterOf(i: nat): nat {
      if increment then counter + i else counter
    }

    function StartFlags(b: nat): u8 {
      if b == 0 then flags | flagsStart else flags
    }

    /** The flags of block `b` of `blocks`. */
    function BlockFlags(b: nat, blocks: nat): u8 {
      if b + 1 == blocks then StartFlags(b) | flagsEnd else StartFlags(b)
    }

    /** The chaining value of `input` after its first `b` of `blocks` blocks. */
    function Chain(input: seq<u8>, b: nat, blocks: nat, count: nat): CVWords
      requires |input| == BLOCK_LEN * blocks && b <= blocks
    {
      if b == 0 then key
      else CompressBlock(Chain(input, b - 1, blocks, count), input[BLOCK_LEN * (b - 1)..BLOCK_LEN * b],
                         count, BlockFlags(b - 1, blocks))
    }

    /** The hash of input number `i`. */
    function Hash(input: seq<u8>, blocks: nat, i: nat): CVBytes
      requires |input| == BLOCK_LEN * blocks
    {
      BytesFromWords(Chain(input, blocks, blocks, CounterOf(i)))
    }
  }

  /** Whether `out` holds the hashes of `inputs` from slot `at` on. */
  ghost predicate Hashed(job: Job, inputs: seq<seq<u8>>, blocks: nat, out: seq<CVBytes>, at: nat)
    requires forall i | 0 <= i < |inputs| :: |inputs[i]| == BLOCK_LEN * blocks
  {
    at + |inputs| <= |out| && forall i | 0 <= i < |inputs| :: out[at + i] == job.Hash(inputs[i], blocks, i)
  }

  /** Whether `out` holds the hashes of the first `n` inputs from slot `at` on. */
  ghost predicate HashedUpTo(job: Job, inputs: seq<seq<u8>>, blocks: nat, n: nat, out: seq<CVBytes>, at: nat)
    requires forall i | 0 <= i < |inputs| :: |inputs[i]| == BLOCK_LEN * blocks
    requires n <= |inputs|
  {
    at + n <= |out| && forall i | 0 <= i < n :: out[at + i] == job.Hash(inputs[i], blocks, i)
  }

  method Hash1(job: Job, input: seq<u8>, blocks: nat, counter: nat) returns (out: CVBytes)
    requires |input| == BLOCK_LEN * blocks
    ensures out == BytesFromWords(job.Chain(input, blocks, blocks, counter))
  {
    var cv := job.key;
    var block_flags := job.flags | job.flagsStart;
    var slice := input;
    ghost var done, b := [], 0;
    while |slice| >= BLOCK_LEN
      invariant input == done + slice && |done| == BLOCK_LEN * b && b <= blocks
      invariant cv == job.Chain(input, b, blocks, counter)
      invariant block_flags == job.StartFlags(b)
    {
      ChainStep(job, done, slice, b, blocks, counter);
      if |slice| == BLOCK_LEN {
        block_flags := block_flags | job.flagsEnd;
      }
      cv := job.CompressBlock(cv, slice[..BLOCK_LEN], counter, block_flags);
      block_flags := job.flags;
      done, slice, b := done + slice[..BLOCK_LEN], slice[BLOCK_LEN..], b + 1;
    }
    out := BytesFromWords(cv);
  }

  /** The next block of an input that is hashed up to `slice`. */
  lemma {:induction false} ChainStep(job: Job, done: seq<u8>, slice: seq<u8>, b: nat, blocks: nat, counter: nat)
    requires |done| == BLOCK_LEN * b && |done| + |slice| == BLOCK_LEN * blocks && |slice| >= BLOCK_LEN
    ensures b < blocks && (|slice| == BLOCK_LEN <==> b + 1 == blocks)
    ensures done + slice == (done + slice[..BLOCK_LEN]) + slice[BLOCK_LEN..]
    ensures job.Chain(done + slice, b + 1, blocks, counter)
         == job.CompressBlock(job.Chain(done + slice, b, blocks, counter), slice[..BLOCK_LEN], counter,
                              job.BlockFlags(b, blocks))
  {
    assert (done + slice)[BLOCK_LEN * b..BLOCK_LEN * (b + 1)] == slice[..BLOCK_LEN];
  }

  /** The portable `hash_many`, writing from slot `at` of `out` on. */
  method HashMany(job: Job, inputs: seq<seq<u8>>, blocks: nat, out: array<CVBytes>, at: nat)
    requires forall i | 0 <= i < |inputs| :: |inputs[i]| == BLOCK_LEN * blocks
    requires at + |inputs| <= out.Length
    modifies out
    ensures Hashed(job, inputs, blocks, out[..], at)
    ensures forall j | 0 <= j < out.Length && !(at <= j < at + |inputs|) :: out[j] == old(out[j])
  {
    var counter := job.counter;
    for i := 0 to |inputs|
      invariant counter == job.CounterOf(i)
      invariant forall j | 0 <= j < i :: out[at + j] == job.Hash(inputs[j], blocks, j)
      invariant forall j | 0 <= j < out.Length && !(at <= j < at + i) :: out[j] == old(out[j])
    {
      out[at + i] := Hash1(job, inputs[i], blocks, counter);
      if job.increment {
        counter := counter + 1;
      }
    }
  }
}
