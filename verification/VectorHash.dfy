/** `hash_many` of each instruction set: groups as wide as the vectors
    are, then narrower ones, and the leftovers one at a time. */
module VectorHash {
  import opened Words
  import opened Blake3Tree
  import opened Arx
  import opened Portable
  import opened HashMany
  import opened Lanes
  import opened LaneHash
  import opened RowCompress
  import opened Units

  // ---------- one at a time ----------

  /** How single inputs are compressed: on an array of words, or on four rows. */
  datatype Single = ByWords | ByRows(isa: Isa)

  /** `hash1`, in either form of compression. */
  method Hash1(single: Single, o: Ops<u32>, job: Job, input: seq<u8>, blocks: nat, counter: nat) returns (out: CVBytes)
    requires Swaps(o) && |input| == BLOCK_LEN * blocks && Computes(o, job.compress)
    ensures out == BytesFromWords(job.Chain(input, blocks, blocks, counter))
  {
    var cv := job.key;
    var block_flags := job.flags | job.flagsStart;
    var slice := input;
    ghost var done, b := [], 0;
    while |slice| >= BLOCK_LEN
      invariant input == done + slice && |done| == BLOCK_LEN * b && b <= blocks
      invariant cv == job.Chain(input, b, blocks, counter)
      invariant block_flags == job.StartFlags(b)
    {
      cv, block_flags := HashBlock(single, o, job, done, slice, b, blocks, counter, cv, block_flags);
      done, slice, b := done + slice[..BLOCK_LEN], slice[BLOCK_LEN..], b + 1;
    }
    assert b == blocks;
    out := BytesFromWords(cv);
  }

  /** Hashes the block at the start of `slice`; flags_end goes with the last one. */
  method HashBlock(
      single: Single, o: Ops<u32>, job: Job, ghost done: seq<u8>, slice: seq<u8>, ghost b: nat, ghost blocks: nat,
      counter: nat, cv: CVWords, flags: u8)
    returns (next: CVWords, next_flags: u8)
    requires Swaps(o) && Computes(o, job.compress)
    requires |done| == BLOCK_LEN * b && |done| + |slice| == BLOCK_LEN * blocks && |slice| >= BLOCK_LEN && b <= blocks
    requires cv == job.Chain(done + slice, b, blocks, counter) && flags == job.StartFlags(b)
    ensures b < blocks && next == job.Chain(done + slice, b + 1, blocks, counter) && next_flags == job.StartFlags(b + 1)
    ensures done + slice == (done + slice[..BLOCK_LEN]) + slice[BLOCK_LEN..]
  {
    ChainStep(job, done, slice, b, blocks, counter);
    var block_flags := flags;
    if |slice| == BLOCK_LEN {
      block_flags := block_flags | job.flagsEnd;
    }
    next := CompressBlock(single, o, job, cv, slice[..BLOCK_LEN], counter, block_flags);
    next_flags := job.flags;
  }

  /** One block of an input. */
  method CompressBlock(single: Single, o: Ops<u32>, job: Job, cv: CVWords, block: Block, counter: nat, flags: u8)
    returns (next: CVWords)
    requires Swaps(o) && Computes(o, job.compress)
    ensures next == job.CompressBlock(cv, block, counter, flags)
  {
    var words := new u32[8](k requires 0 <= k < 8 => cv[k]);
    assert words[..] == cv;
    match single {
      case ByWords => Portable.CompressInPlace(o, words, block, BLOCK_LEN, counter, flags);
      case ByRows(isa) => RowCompress.CompressInPlace(isa, o, words, block, BLOCK_LEN, counter, flags);
    }
    assert CompressAt(o, job.compress, cv, block, BLOCK_LEN, counter, flags);
    next := words[..];
  }

  /** The rest of the inputs, from number `first` on, one at a time. */
  method HashSingles(single: Single, o: Ops<u32>, job: Job, inputs: seq<seq<u8>>, blocks: nat,
                     out: array<CVBytes>, at: nat, first: nat, counter: nat)
    requires Swaps(o) && Computes(o, job.compress)
    requires forall i | 0 <= i < |inputs| :: |inputs[i]| == BLOCK_LEN * blocks
    requires at + |inputs| <= out.Length && first <= |inputs| && counter == job.CounterOf(first)
    requires HashedUpTo(job, inputs, blocks, first, out[..], at)
    modifies out
    ensures HashedUpTo(job, inputs, blocks, |inputs|, out[..], at)
    ensures forall j | 0 <= j < out.Length && !(at <= j < at + |inputs|) :: out[j] == old(out[j])
  {
    var next_counter := counter;
    for i := first to |inputs|
      invariant next_counter == job.CounterOf(i)
      invariant HashedUpTo(job, inputs, blocks, i, out[..], at)
      invariant forall j | 0 <= j < out.Length && !(at <= j < at + |inputs|) :: out[j] == old(out[j])
    {
      HashSingle(single, o, job, inputs, blocks, out, at, i, next_counter);
      if job.increment {
        next_counter := next_counter + 1;
      }
    }
  }

  method HashSingle(single: Single, o: Ops<u32>, job: Job, inputs: seq<seq<u8>>, blocks: nat,
                    out: array<CVBytes>, at: nat, i: nat, counter: nat)
    requires Swaps(o) && Computes(o, job.compress)
    requires forall i | 0 <= i < |inputs| :: |inputs[i]| == BLOCK_LEN * blocks
    requires at + |inputs| <= out.Length && i < |inputs| && counter == job.CounterOf(i)
    requires HashedUpTo(job, inputs, blocks, i, out[..], at)
    modifies out
    ensures HashedUpTo(job, inputs, blocks, i + 1, out[..], at)
    ensures forall j | 0 <= j < out.Length && !(at <= j < at + |inputs|) :: out[j] == old(out[j])
  {
    ghost var before := out[..];
    out[at + i] := Hash1(single, o, job, inputs[i], blocks, counter);
    HashedMore(job, inputs, blocks, before, out[..], at, i);
  }

  lemma {:induction false} HashedMore(
      job: Job, inputs: seq<seq<u8>>, blocks: nat, before: seq<CVBytes>, after: seq<CVBytes>, at: nat, i: nat)
    requires forall i | 0 <= i < |inputs| :: |inputs[i]| == BLOCK_LEN * blocks
    requires i < |inputs| && at + |inputs| <= |before| && HashedUpTo(job, inputs, blocks, i, before, at)
    requires after == before[at + i := job.Hash(inputs[i], blocks, i)]
    ensures HashedUpTo(job, inputs, blocks, i + 1, after, at)
  {
  }

  // ---------- hash_many ----------

  /** The portable `hash_many`. */
  method HashMany1(o: Ops<u32>, job: Job, inputs: seq<seq<u8>>, blocks: nat, out: array<CVBytes>, at: nat)
    requires Swaps(o) && Computes(o, job.compress)
    requires forall i | 0 <= i < |inputs| :: |inputs[i]| == BLOCK_LEN * blocks
    requires at + |inputs| <= out.Length
    modifies out
    ensures Hashed(job, inputs, blocks, out[..], at)
    ensures forall j | 0 <= j < out.Length && !(at <= j < at + |inputs|) :: out[j] == old(out[j])
  {
    HashSingles(ByWords, o, job, inputs, blocks, out, at, 0, job.counter);
  }

  /** SSE2 and SSE4.1: groups of four. */
  method HashMany4(isa: Isa, o: Ops<u32>, job: Job, inputs: seq<seq<u8>>, blocks: nat, out: array<CVBytes>, at: nat)
    requires Swaps(o) && Computes(o, job.compress)
    requires forall i | 0 <= i < |inputs| :: |inputs[i]| == BLOCK_LEN * blocks
    requires at + |inputs| <= out.Length
    modifies out
    ensures Hashed(job, inputs, blocks, out[..], at)
    ensures forall j | 0 <= j < out.Length && !(at <= j < at + |inputs|) :: out[j] == old(out[j])
  {
    HashFours(isa, o, job, inputs, blocks, out, at, 0, job.counter);
  }

  /** The SSE4.1 code, from input number `first` on. */
  method HashFours(isa: Isa, o: Ops<u32>, job: Job, inputs: seq<seq<u8>>, blocks: nat,
                   out: array<CVBytes>, at: nat, first: nat, counter: nat)
    requires Swaps(o) && Computes(o, job.compress)
    requires forall i | 0 <= i < |inputs| :: |inputs[i]| == BLOCK_LEN * blocks
    requires at + |inputs| <= out.Length && first <= |inputs| && counter == job.CounterOf(first)
    requires HashedUpTo(job, inputs, blocks, first, out[..], at)
    modifies out
    ensures HashedUpTo(job, inputs, blocks, |inputs|, out[..], at)
    ensures forall j | 0 <= j < out.Length && !(at <= j < at + |inputs|) :: out[j] == old(out[j])
  {
    Unit4Ready(o);
    var next, next_counter := HashGroups(Unit4(o), o, job, inputs, blocks, out, at, first, counter);
    HashSingles(ByRows(isa), o, job, inputs, blocks, out, at, next, next_counter);
  }

  /** The C port's SSE4.1 code: groups of four with its own counter loads. */
  method CHashMany4(o: Ops<u32>, job: Job, inputs: seq<seq<u8>>, blocks: nat, out: array<CVBytes>, at: nat)
    requires Swaps(o) && Computes(o, job.compress)
    requires forall i | 0 <= i < |inputs| :: |inputs[i]| == BLOCK_LEN * blocks
    requires at + |inputs| <= out.Length
    modifies out
    ensures Hashed(job, inputs, blocks, out[..], at)
    ensures forall j | 0 <= j < out.Length && !(at <= j < at + |inputs|) :: out[j] == old(out[j])
  {
    Unit4Ready(o);
    var next, next_counter := HashGroups(CUnit4(o), o, job, inputs, blocks, out, at, 0, job.counter);
    HashSingles(ByRows(SSE41), o, job, inputs, blocks, out, at, next, next_counter);
  }

  /** AVX2: groups of eight, and then the SSE4.1 code. */
  method HashMany8(o: Ops<u32>, job: Job, inputs: seq<seq<u8>>, blocks: nat, out: array<CVBytes>, at: nat)
    requires Swaps(o) && Computes(o, job.compress)
    requires forall i | 0 <= i < |inputs| :: |inputs[i]| == BLOCK_LEN * blocks
    requires at + |inputs| <= out.Length
    modifies out
    ensures Hashed(job, inputs, blocks, out[..], at)
    ensures forall j | 0 <= j < out.Length && !(at <= j < at + |inputs|) :: out[j] == old(out[j])
  {
    Unit8Ready(o);
    var next, next_counter := HashGroups(Unit8(o), o, job, inputs, blocks, out, at, 0, job.counter);
    HashFours(SSE41, o, job, inputs, blocks, out, at, next, next_counter);
  }

  /** AVX-512: groups of sixteen, eight and four. */
  method HashMany16(o: Ops<u32>, job: Job, inputs: seq<seq<u8>>, blocks: nat, out: array<CVBytes>, at: nat)
    requires Swaps(o) && Computes(o, job.compress)
    requires forall i | 0 <= i < |inputs| :: |inputs[i]| == BLOCK_LEN * blocks
    requires at + |inputs| <= out.Length
    modifies out
    ensures Hashed(job, inputs, blocks, out[..], at)
    ensures forall j | 0 <= j < out.Length && !(at <= j < at + |inputs|) :: out[j] == old(out[j])
  {
    Unit16Ready(o);
    Unit8Ready(o);
    var next, next_counter := HashGroups(Unit16(o), o, job, inputs, blocks, out, at, 0, job.counter);
    next, next_counter := HashGroups(Unit8(o), o, job, inputs, blocks, out, at, next, next_counter);
    HashFours(SSE41, o, job, inputs, blocks, out, at, next, next_counter);
  }
}
