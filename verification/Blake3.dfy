/** The hash function itself: the tree with the real compression function on the real
    vector units, and key derivation. */
module Blake3 {
  import opened Bits
  import opened Sequences
  import opened Words
  import opened Blake3Tree
  import opened Domains
  import opened Arx
  import opened Portable
  import opened Platforms
  import opened OutputStream
  import opened ExtendedOutput
  import opened Subtree
  import opened CvStack
  import opened CHashing

  const IV: CVWords := [IV0, IV1, IV2, IV3, 0x510E527F, 0x9B05688C, 0x1F83D9AB, 0x5BE0CD19]

  /** The compression function of BLAKE3. */
  function Blake3Compress(): Compress {
    CompressWith(WordOps())
  }

  /** Every vector unit runs it, in every build whose buffers are made for the unit. */
  lemma {:induction false} EveryUnitRuns(unit: Detected, max: nat, key: CVWords, flags: u8)
    requires BuiltFor(unit, max)
    ensures PlatformOf(unit, max).Runs(Mode(Blake3Compress(), key, flags))
  {
    PlatformsAreValid(unit, max);
    WithComputes(WordOps());
  }

  /** The hash function itself: any two vector units, either port, any cut of the same
      input, and any part of the output give the same bytes. */
  method SameOnEveryUnit(
      rust_unit: Detected, rust_max: nat, c_unit: Detected, c_max: nat, key: CVWords, flags: u8,
      rust_parts: seq<seq<u8>>, c_parts: seq<seq<u8>>, seek: nat, n: nat)
    returns (rust_bytes: seq<u8>, c_bytes: seq<u8>)
    requires BuiltFor(rust_unit, rust_max) && BuiltFor(c_unit, c_max)
    requires Joined(rust_parts) == Joined(c_parts) && |Joined(c_parts)| < MAX_INPUT && seek + n < MAX_POSITION
    ensures var mode := Mode(Blake3Compress(), key, flags);
            rust_bytes == c_bytes == Stream(mode.Blocks(mode.RootOutput(Joined(c_parts))), seek, n)
  {
    EveryUnitRuns(rust_unit, rust_max, key, flags);
    EveryUnitRuns(c_unit, c_max, key, flags);
    rust_bytes, c_bytes := BothPorts(PlatformOf(rust_unit, rust_max), PlatformOf(c_unit, c_max),
                                     Mode(Blake3Compress(), key, flags), rust_parts, c_parts, seek, n);
  }

  // ---------- the initial vector ----------

  /** Whether `w` holds the first 32 fractional bits of the square root of `p`. */
  predicate IsRootFraction(w: u32, p: nat, whole: nat) {
    var x := 0x1_0000_0000 * whole + w as nat;
    whole * whole <= p < (whole + 1) * (whole + 1)
    && x * x <= p * 0x1_0000_0000_0000_0000 < (x + 1) * (x + 1)
  }

  /** The initial vector is made of the square roots of the first eight primes, as in
      section 5.3.3 of FIPS 180-4. */
  lemma {:induction false} IvIsRoots()
    ensures IsRootFraction(IV[0], 2, 1) && IsRootFraction(IV[1], 3, 1)
    ensures IsRootFraction(IV[2], 5, 2) && IsRootFraction(IV[3], 7, 2)
    ensures IsRootFraction(IV[4], 11, 3) && IsRootFraction(IV[5], 13, 3)
    ensures IsRootFraction(IV[6], 17, 4) && IsRootFraction(IV[7], 19, 4)
  {
    FirstRoots();
    MoreRoots();
  }

  lemma {:induction false} FirstRoots()
    ensures IsRootFraction(IV[0], 2, 1) && IsRootFraction(IV[1], 3, 1)
    ensures IsRootFraction(IV[2], 5, 2) && IsRootFraction(IV[3], 7, 2)
  {
  }

  lemma {:induction false} MoreRoots()
    ensures IsRootFraction(IV[4], 11, 3) && IsRootFraction(IV[5], 13, 3)
    ensures IsRootFraction(IV[6], 17, 4) && IsRootFraction(IV[7], 19, 4)
  {
  }

  // ---------- the modes ----------

  function HashMode(compress: Compress): Mode {
    Mode(compress, IV, 0)
  }

  function KeyedMode(compress: Compress, key: CVBytes): Mode {
    Mode(compress, WordsFromBytes(key), KEYED_HASH)
  }

  function ContextMode(compress: Compress): Mode {
    Mode(compress, IV, DERIVE_KEY_CONTEXT)
  }

  function MaterialMode(compress: Compress, context_key: CVBytes): Mode {
    Mode(compress, WordsFromBytes(context_key), DERIVE_KEY_MATERIAL)
  }

  /** Each mode has its own bit: none for hashing, 4 for a keyed hash, 5 for the context
      of a key derivation and 6 for its material. */
  lemma {:induction false} ModesApart(compress: Compress, key: CVBytes)
    ensures IsPlain(HashMode(compress).flags) && IsPlain(KeyedMode(compress, key).flags)
    ensures IsPlain(ContextMode(compress).flags) && IsPlain(MaterialMode(compress, key).flags)
    ensures forall k: nat | 4 <= k < 8 ::
              && !HasBit(HashMode(compress).flags, k) && (HasBit(KeyedMode(compress, key).flags, k) <==> k == 4)
              && (HasBit(ContextMode(compress).flags, k) <==> k == 5)
              && (HasBit(MaterialMode(compress, key).flags, k) <==> k == 6)
  {
  }

  /** Key bytes are not lost: other keys make other modes. */
  lemma {:induction false} KeysCount(compress: Compress, key: CVBytes, key': CVBytes)
    ensures BytesFromWords(KeyedMode(compress, key).key) == key
    ensures BytesFromWords(MaterialMode(compress, key).key) == key
    ensures KeyedMode(compress, key) == KeyedMode(compress, key') <==> key == key'
    ensures MaterialMode(compress, key) == MaterialMode(compress, key') <==> key == key'
  {
    BytesRoundTrip(key);
    BytesRoundTrip(key');
  }

  /** `hash`. */
  method Hash(platform: Platform, compress: Compress, input: seq<u8>) returns (hash: CVBytes)
    requires platform.Valid() && platform.RunsJobs(compress)
    ensures var mode := Mode(compress, IV, 0); hash == mode.RootHash(mode.RootOutput(input))
  {
    hash := HashIn(platform, HashMode(compress), input);
  }

  /** `keyed_hash`. */
  method KeyedHash(platform: Platform, compress: Compress, key: CVBytes, input: seq<u8>) returns (hash: CVBytes)
    requires platform.Valid() && platform.RunsJobs(compress)
    ensures var mode := Mode(compress, WordsFromBytes(key), 0x10); hash == mode.RootHash(mode.RootOutput(input))
  {
    hash := HashIn(platform, KeyedMode(compress, key), input);
  }

  method HashIn(platform: Platform, mode: Mode, input: seq<u8>) returns (hash: CVBytes)
    requires platform.Runs(mode)
    ensures hash == mode.RootHash(mode.RootOutput(input))
  {
    var output := HashAllAtOnce(platform, mode, input);
    RootCounterIsZero(mode, input);
    hash := RootHash(platform, mode, output);
  }

  // ---------- key derivation ----------

  /** The key for the material: the hash of the context. */
  function ContextKey(compress: Compress, context: seq<u8>): CVBytes {
    ContextMode(compress).RootHash(ContextMode(compress).RootOutput(context))
  }

  /** `derive_key` of the Rust code: the hash of the material, keyed with the hash of the
      context. */
  method DeriveKey(platform: Platform, compress: Compress, context: seq<u8>, material: seq<u8>)
    returns (key: CVBytes)
    requires platform.Valid() && platform.RunsJobs(compress)
    ensures var outer := Mode(compress, IV, 0x20);
            var inner := Mode(compress, WordsFromBytes(outer.RootHash(outer.RootOutput(context))), 0x40);
            key == inner.RootHash(inner.RootOutput(material))
  {
    var context_key := HashIn(platform, ContextMode(compress), context);
    key := HashIn(platform, MaterialMode(compress, context_key), material);
  }

  /** `blake3_hasher_init_derive_key_raw` of the C port, and then hashing the material. */
  method DeriveKeyRaw(platform: Platform, compress: Compress, context: seq<u8>, material: seq<seq<u8>>,
                      out: array<u8>)
    requires platform.Valid() && platform.RunsJobs(compress) && |context| < MAX_INPUT && |Joined(material)| < MAX_INPUT
    requires out.Length == OUT_LEN
    modifies out
    ensures var outer := Mode(compress, IV, 0x20);
            var inner := Mode(compress, WordsFromBytes(outer.RootHash(outer.RootOutput(context))), 0x40);
            out[..] == inner.RootHash(inner.RootOutput(Joined(material)))
  {
    var context_key := ContextKeyRaw(platform, compress, context);
    var mode := MaterialMode(compress, context_key);
    HashPartsAndSeek(platform, mode, material, 0, out);
    RootHashIsPrefix(mode, mode.RootOutput(Joined(material)));
  }

  /** The first of the two hashes. */
  method ContextKeyRaw(platform: Platform, compress: Compress, context: seq<u8>) returns (key: CVBytes)
    requires platform.Valid() && platform.RunsJobs(compress) && |context| < MAX_INPUT
    ensures key == ContextKey(compress, context)
  {
    var context_hasher := new CHasher(platform, ContextMode(compress));
    context_hasher.Update(context);
    assert [] + context == context;
    var context_key := new u8[OUT_LEN];
    context_hasher.FinalizeSeek(0, context_key);
    RootHashIsPrefix(ContextMode(compress), ContextMode(compress).RootOutput(context));
    key := context_key[..];
  }

  // ---------- limits ----------

  /** Input and output positions are 64-bit, and so many bytes are 2^54 chunks. */
  lemma {:induction false} Limits()
    ensures MAX_INPUT == MAX_POSITION == Pow2(64) == CHUNK_LEN * Pow2(MAX_DEPTH)
  {
    MaxChunksIsPow2();
    Times512(MAX_DEPTH);
    assert Pow2(64) == 2 * Pow2(63);
  }
}
