/** The stack of subtree chaining values that an incremental hasher keeps, as a
    function of the whole chunks hashed so far.

    Both hashers merge lazily: the piece pushed last stays unmerged on top until
    the next piece arrives, because it may yet turn out to complete the root. */
module CvStack {
  import opened Sequences
  import opened Bits
  import opened Words
  import opened Blake3Tree

  const MAX_DEPTH := 54

  /** 2^54 chunks hold 2^64 bytes. */
  const MAX_CHUNKS := 0x40_0000_0000_0000

  /** The chaining values of consecutive subtrees of `sizes` chunks. */
  ghost function Cvs(t: HashTree, data: seq<u8>, sizes: seq<nat>, counter: nat): (s: seq<CVBytes>)
    requires |data| == CHUNK_LEN * Sum(sizes)
    ensures |s| == |sizes|
  {
    if sizes == [] then []
    else
      var l := CHUNK_LEN * sizes[0];
      [t.Cv(data[..l], counter)] + Cvs(t, data[l..], sizes[1..], counter + sizes[0])
  }

  /** The chaining values of the subtrees for the binary digits of `n`, largest first. */
  ghost function DigitCvs(t: HashTree, data: seq<u8>, n: nat): (s: seq<CVBytes>)
    requires |data| == CHUNK_LEN * n
    ensures |s| == |Digits(n)|
  {
    DigitsSum(n);
    Cvs(t, data, Digits(n), 0)
  }

  /** The whole chunks hashed so far: `n` chunks `low`, and then a piece of `q` chunks
      that is not merged yet (`q` is 0 when there is none). */
  datatype Pieces = Pieces(low: seq<u8>, n: nat, piece: seq<u8>, q: nat) {
    function Bytes(): seq<u8> { low + piece }

    function Count(): nat { n + q }

    function Merged(): Pieces { Pieces(low + piece, n + q, [], 0) }

    lemma {:induction false} MergedSame()
      ensures Merged().Bytes() == Bytes() && Merged().Count() == Count() && Merged().q == 0
    {
      assert Merged().Bytes() == Merged().low;
    }
  }

  /** The stack for these pieces: one subtree per binary digit of `n`, largest
      first, and then the unmerged piece. */
  ghost predicate Shape(t: HashTree, stack: seq<CVBytes>, p: Pieces) {
    && |p.low| == CHUNK_LEN * p.n && |p.piece| == CHUNK_LEN * p.q
    && (p.q > 0 ==> IsPow2(p.q) && Aligned(p.q, p.n))
    && stack == DigitCvs(t, p.low, p.n) + (if p.q == 0 then [] else [t.Cv(p.piece, p.n)])
  }

  /** What finalization computes from the stack and the node of the rest of the input. */
  ghost function Fold(t: HashTree, stack: seq<CVBytes>, top: Output): Output {
    if stack == [] then top
    else t.parent(stack[0], t.cv(Fold(t, stack[1..], top)))
  }

  /** The merge loop: pops two values and pushes their parent while the stack is
      longer than `target`. */
  function MergeAll(t: HashTree, stack: seq<CVBytes>, target: nat): (s: seq<CVBytes>)
    ensures |s| <= |stack|
    decreases |stack|
  {
    var k := |stack| - 2;
    if |stack| <= target || k < 0 then stack
    else MergeAll(t, stack[..k] + [t.Parent(stack[k], stack[k + 1])], target)
  }

  /** Merging for `total` chunks, then pushing one more value: `push_cv`. */
  function Push(t: HashTree, stack: seq<CVBytes>, cv: CVBytes, total: nat): seq<CVBytes> {
    MergeAll(t, stack, CountOnes(total)) + [cv]
  }

  lemma {:induction false} CvsSnoc(
      t: HashTree, data: seq<u8>, sizes: seq<nat>, piece: seq<u8>, q: nat, counter: nat)
    requires |data| == CHUNK_LEN * Sum(sizes) && |piece| == CHUNK_LEN * q
    ensures Sum(sizes + [q]) == Sum(sizes) + q
    ensures Cvs(t, data + piece, sizes + [q], counter)
         == Cvs(t, data, sizes, counter) + [t.Cv(piece, counter + Sum(sizes))]
  {
    SumSnoc(sizes, q);
    if sizes == [] {
      assert data + piece == piece == piece[..CHUNK_LEN * q];
    } else {
      var l := CHUNK_LEN * sizes[0];
      CvsSnoc(t, data[l..], sizes[1..], piece, q, counter + sizes[0]);
      CvsUnder(t, data, data[..l], data[l..], sizes, piece, q, counter);
    }
  }

  /** One subtree on the left of a stack that grows. */
  lemma {:induction false} CvsUnder(
      t: HashTree, data: seq<u8>, first: seq<u8>, more: seq<u8>, sizes: seq<nat>, piece: seq<u8>, q: nat, counter: nat)
    requires sizes != [] && data == first + more && |first| == CHUNK_LEN * sizes[0]
    requires |data| == CHUNK_LEN * Sum(sizes) && |piece| == CHUNK_LEN * q && Sum(sizes + [q]) == Sum(sizes) + q
    requires |more| == CHUNK_LEN * Sum(sizes[1..]) && Sum(sizes[1..] + [q]) == Sum(sizes[1..]) + q
    requires Cvs(t, more + piece, sizes[1..] + [q], counter + sizes[0])
          == Cvs(t, more, sizes[1..], counter + sizes[0]) + [t.Cv(piece, counter + Sum(sizes))]
    ensures Cvs(t, data + piece, sizes + [q], counter)
         == Cvs(t, data, sizes, counter) + [t.Cv(piece, counter + Sum(sizes))]
  {
    assert (sizes + [q])[1..] == sizes[1..] + [q];
    CvsCons(t, data, first, more, sizes, counter);
    Assoc(first, more, piece);
    CvsCons(t, data + piece, first, more + piece, sizes + [q], counter);
    Assoc([t.Cv(first, counter)], Cvs(t, more, sizes[1..], counter + sizes[0]),
          [t.Cv(piece, counter + Sum(sizes))]);
  }

  /** A merged stack grows by a piece that is smaller than all its subtrees. */
  lemma {:induction false} DigitCvsSnoc(t: HashTree, low: seq<u8>, n: nat, piece: seq<u8>, q: nat)
    requires |low| == CHUNK_LEN * n && |piece| == CHUNK_LEN * q && IsPow2(q) && Aligned(2 * q, n)
    ensures DigitCvs(t, low + piece, n + q) == DigitCvs(t, low, n) + [t.Cv(piece, n)]
  {
    DigitsSum(n);
    CvsSnoc(t, low, Digits(n), piece, q, 0);
    DigitsSnoc(n, q);
  }

  /** A stack longer than the popcount holds a lazy piece and, below it, its
      sibling of equal size. */
  lemma {:induction false} MergeIsDue(t: HashTree, stack: seq<CVBytes>, p: Pieces)
    requires Shape(t, stack, p) && |stack| > CountOnes(p.Count())
    ensures 0 < p.q <= p.n && Aligned(2 * p.q, p.n - p.q)
  {
    DigitsCount(p.n);
    if p.q > 0 && Aligned(2 * p.q, p.n) {
      CountOnesSetBit(p.n, p.q);
      assert false;
    }
    AlignedLowBit(p.q, p.n);
  }

  lemma {:induction false} TwicePow2(q: nat)
    requires IsPow2(q)
    ensures IsPow2(2 * q) && CHUNK_LEN * (2 * q) == CHUNK_LEN * q + CHUNK_LEN * q
  {
  }

  lemma {:induction false} SiblingsOnTop(
      t: HashTree, stack: seq<CVBytes>, rest: seq<u8>, n: nat, left: seq<u8>, piece: seq<u8>, q: nat)
    requires |rest| == CHUNK_LEN * n && |left| == CHUNK_LEN * q && IsPow2(q) && Aligned(2 * q, n)
    requires Shape(t, stack, Pieces(rest + left, n + q, piece, q))
    ensures stack == DigitCvs(t, rest, n) + [t.Cv(left, n), t.Cv(piece, n + q)]
  {
    DigitCvsSnoc(t, rest, n, left, q);
  }

  /** Merging the two siblings on top keeps the shape. */
  lemma {:induction false} MergeSiblings(
      t: HashTree, stack: seq<CVBytes>, rest: seq<u8>, n: nat, left: seq<u8>, piece: seq<u8>, q: nat)
    requires |rest| == CHUNK_LEN * n && |left| == CHUNK_LEN * q && IsPow2(q) && Aligned(2 * q, n)
    requires Shape(t, stack, Pieces(rest + left, n + q, piece, q))
    ensures |stack| >= 2
    ensures Shape(t, stack[..|stack| - 2] + [t.Parent(stack[|stack| - 2], stack[|stack| - 1])],
                  Pieces(rest, n, left + piece, 2 * q))
  {
    SiblingsOnTop(t, stack, rest, n, left, piece, q);
    SiblingsMerge(t, left, piece, q, n);
    TwicePow2(q);
    assert stack[..|stack| - 2] == DigitCvs(t, rest, n);
  }

  lemma {:induction false} SiblingsMerge(t: HashTree, left: seq<u8>, right: seq<u8>, q: nat, counter: nat)
    requires IsPow2(q) && |left| == |right| == CHUNK_LEN * q
    ensures t.Parent(t.Cv(left, counter), t.Cv(right, counter + q)) == t.Cv(left + right, counter)
  {
    t.SubtreeSplit(left, right, q, counter);
  }

  /** One step of the merge loop: pop two chaining values, push their parent. */
  lemma {:induction false} MergeStep(t: HashTree, stack: seq<CVBytes>, p: Pieces) returns (p': Pieces)
    requires Shape(t, stack, p) && |stack| > CountOnes(p.Count())
    ensures |stack| >= 2
    ensures Shape(t, stack[..|stack| - 2] + [t.Parent(stack[|stack| - 2], stack[|stack| - 1])], p')
    ensures p'.Bytes() == p.Bytes() && p'.Count() == p.Count()
  {
    MergeIsDue(t, stack, p);
    var cut := CHUNK_LEN * (p.n - p.q);
    var rest, left := p.low[..cut], p.low[cut..];
    assert p.low == rest + left;
    MergeSiblings(t, stack, rest, p.n - p.q, left, p.piece, p.q);
    p' := Pieces(rest, p.n - p.q, left + p.piece, 2 * p.q);
  }

  lemma {:induction false} NoMergeIsDue(t: HashTree, stack: seq<CVBytes>, p: Pieces)
    requires Shape(t, stack, p) && |stack| <= CountOnes(p.Count()) && p.q > 0
    ensures Aligned(2 * p.q, p.n)
  {
    DigitsCount(p.n);
    MoreOnes(p.n, p.q);
  }

  /** Adding a power of two sets one more bit only where that bit was clear. */
  lemma {:induction false} MoreOnes(n: nat, q: nat)
    requires IsPow2(q) && Aligned(q, n) && CountOnes(n + q) > CountOnes(n)
    ensures Aligned(2 * q, n)
  {
    if !Aligned(2 * q, n) { CarriedOnes(n, q); }
  }

  lemma {:induction false} CarriedOnes(n: nat, q: nat)
    requires IsPow2(q) && Aligned(q, n) && !Aligned(2 * q, n)
    ensures CountOnes(n + q) <= CountOnes(n)
  {
    AlignedLowBit(q, n);
    OnesCarried(n - q, q);
    assert (n - q) + q == n && (n - q) + 2 * q == n + q;
  }

  lemma {:induction false} OnesCarried(m: nat, q: nat)
    requires IsPow2(q) && Aligned(2 * q, m)
    ensures CountOnes(m + 2 * q) <= CountOnes(m + q)
  {
    CountOnesSetBit(m, q);
    TwicePow2(q);
    CountOnesAddPow2(m, 2 * q);
  }

  lemma {:induction false} MergedShape(t: HashTree, stack: seq<CVBytes>, low: seq<u8>, n: nat)
    requires |low| == CHUNK_LEN * n && stack == DigitCvs(t, low, n)
    ensures Shape(t, stack, Pieces(low, n, [], 0))
  {
  }

  /** A stack no longer than the popcount is fully merged. */
  lemma {:induction false} MergeDone(t: HashTree, stack: seq<CVBytes>, p: Pieces)
    requires Shape(t, stack, p) && |stack| <= CountOnes(p.Count())
    ensures Shape(t, stack, p.Merged())
  {
    if p.q == 0 {
      assert p.low + p.piece == p.low;
      assert p.Merged() == p;
    } else {
      LazyPieceIsDigit(t, stack, p);
    }
  }

  lemma {:induction false} LazyPieceIsDigit(t: HashTree, stack: seq<CVBytes>, p: Pieces)
    requires Shape(t, stack, p) && |stack| <= CountOnes(p.Count()) && p.q > 0
    ensures Shape(t, stack, p.Merged())
  {
    NoMergeIsDue(t, stack, p);
    MergedDigit(t, stack, p.low, p.n, p.piece, p.q);
  }

  lemma {:induction false} MergedDigit(
      t: HashTree, stack: seq<CVBytes>, low: seq<u8>, n: nat, piece: seq<u8>, q: nat)
    requires |low| == CHUNK_LEN * n && |piece| == CHUNK_LEN * q && IsPow2(q) && Aligned(2 * q, n)
    requires stack == DigitCvs(t, low, n) + [t.Cv(piece, n)]
    ensures Shape(t, stack, Pieces(low + piece, n + q, [], 0))
  {
    DigitCvsSnoc(t, low, n, piece, q);
    MergedShape(t, stack, low + piece, n + q);
  }

  lemma {:induction false} EmptyShape(t: HashTree)
    ensures Shape(t, [], Pieces([], 0, [], 0))
  {
  }

  lemma {:induction false} MergeOnce(t: HashTree, stack: seq<CVBytes>, target: nat)
    requires |stack| > target && |stack| >= 2
    ensures var k := |stack| - 2;
            MergeAll(t, stack, target)
            == MergeAll(t, stack[..k] + [t.Parent(stack[k], stack[k + 1])], target)
  {
  }

  /** The merge loop leaves the fully merged stack. */
  lemma {:induction false} MergeAllShape(t: HashTree, stack: seq<CVBytes>, p: Pieces)
    requires Shape(t, stack, p)
    ensures Shape(t, MergeAll(t, stack, CountOnes(p.Count())), p.Merged())
    decreases |stack|, 1
  {
    if |stack| <= CountOnes(p.Count()) {
      MergeDone(t, stack, p);
    } else {
      var p' := MergeStep(t, stack, p);
      MergeRest(t, stack, p, p');
    }
  }

  /** After one step of the loop, the rest of it. */
  lemma {:induction false} MergeRest(t: HashTree, stack: seq<CVBytes>, p: Pieces, p': Pieces)
    requires |stack| > CountOnes(p.Count()) && |stack| >= 2
    requires Shape(t, stack[..|stack| - 2] + [t.Parent(stack[|stack| - 2], stack[|stack| - 1])], p')
    requires p'.Bytes() == p.Bytes() && p'.Count() == p.Count()
    ensures Shape(t, MergeAll(t, stack, CountOnes(p.Count())), p.Merged())
    decreases |stack|, 0
  {
    var k := |stack| - 2;
    MergeAllShape(t, stack[..k] + [t.Parent(stack[k], stack[k + 1])], p');
    MergeOnce(t, stack, CountOnes(p.Count()));
    assert p'.Merged() == p.Merged();
  }

  /** What a merged stack stands for. */
  lemma {:induction false} MergedPieces(t: HashTree, stack: seq<CVBytes>, p: Pieces) returns (p': Pieces)
    requires Shape(t, stack, p)
    ensures p.Count() > 0 || stack == []
    ensures Shape(t, MergeAll(t, stack, CountOnes(p.Count())), p')
    ensures p'.Bytes() == p.Bytes() && p'.Count() == p.Count() && p'.q == 0
  {
    ShapeCount(t, stack, p);
    MergeAllShape(t, stack, p);
    p' := p.Merged();
    p.MergedSame();
  }

  /** Pushing the value of an aligned piece. */
  lemma {:induction false} PushShape(t: HashTree, stack: seq<CVBytes>, p: Pieces, piece: seq<u8>, q: nat)
    requires Shape(t, stack, p) && p.Count() < MAX_CHUNKS
    requires |piece| == CHUNK_LEN * q && IsPow2(q) && Aligned(q, p.Count())
    ensures |MergeAll(t, stack, CountOnes(p.Count()))| <= MAX_DEPTH
    ensures Shape(t, Push(t, stack, t.Cv(piece, p.Count()), p.Count()), Pieces(p.Bytes(), p.Count(), piece, q))
  {
    var merged := MergeAll(t, stack, CountOnes(p.Count()));
    MergeAllShape(t, stack, p);
    ShapeFits(t, merged, p.Merged());
    PushOnto(t, merged, p.Merged(), piece, q);
  }

  lemma {:induction false} PushOnto(t: HashTree, stack: seq<CVBytes>, p: Pieces, piece: seq<u8>, q: nat)
    requires Shape(t, stack, p) && p.q == 0
    requires |piece| == CHUNK_LEN * q && IsPow2(q) && Aligned(q, p.n)
    ensures Shape(t, stack + [t.Cv(piece, p.n)], Pieces(p.low, p.n, piece, q))
  {
    assert stack == DigitCvs(t, p.low, p.n);
  }

  /** The stack after hashing an aligned subtree of `k` chunks that follows `c` chunks:
      a single chunk is pushed as it is, anything larger as its two halves. */
  function PushSubtree(t: HashTree, stack: seq<CVBytes>, data: seq<u8>, c: nat, k: nat): seq<CVBytes>
    requires CHUNK_LEN * (k / 2) <= |data|
  {
    if k < 2 then Push(t, stack, t.Cv(data, c), c)
    else
      var cut := CHUNK_LEN * (k / 2);
      PushTwo(t, stack, t.Cv(data[..cut], c), c, t.Cv(data[cut..], c + k / 2), c + k / 2)
  }

  function PushTwo(t: HashTree, stack: seq<CVBytes>, left: CVBytes, c: nat, right: CVBytes, d: nat): seq<CVBytes> {
    Push(t, Push(t, stack, left, c), right, d)
  }

  /** Either way the new stack has the right shape, and a subtree of several chunks
      leaves a lazy piece on top of a merged stack. */
  lemma {:induction false} SubtreeShape(t: HashTree, stack: seq<CVBytes>, p: Pieces, data: seq<u8>, k: nat)
    returns (p': Pieces)
    requires Shape(t, stack, p) && p.Count() + k <= MAX_CHUNKS && |data| == CHUNK_LEN * k
    requires IsPow2(k) && Aligned(k, p.Count())
    ensures Shape(t, PushSubtree(t, stack, data, p.Count(), k), p')
    ensures p'.Bytes() == p.Bytes() + data && p'.Count() == p.Count() + k
    ensures k >= 2 ==> p'.q > 0 && p'.n > 0
  {
    if k < 2 {
      PushShape(t, stack, p, data, 1);
      p' := Pieces(p.Bytes(), p.Count(), data, 1);
    } else {
      var h := k / 2;
      HalvesAligned(k, p.Count());
      p' := HalvesShape(t, stack, p, data[..CHUNK_LEN * h], data[CHUNK_LEN * h..], h);
      assert data == data[..CHUNK_LEN * h] + data[CHUNK_LEN * h..];
    }
  }

  lemma {:induction false} HalvesShape(
      t: HashTree, stack: seq<CVBytes>, p: Pieces, left: seq<u8>, right: seq<u8>, h: nat) returns (p': Pieces)
    requires Shape(t, stack, p) && p.Count() + h < MAX_CHUNKS && |left| == |right| == CHUNK_LEN * h
    requires IsPow2(h) && Aligned(h, p.Count()) && Aligned(h, p.Count() + h)
    ensures var c := p.Count();
            Shape(t, PushTwo(t, stack, t.Cv(left, c), c, t.Cv(right, c + h), c + h), p')
    ensures p'.Bytes() == p.Bytes() + (left + right) && p'.Count() == p.Count() + h + h
    ensures p'.q > 0 && p'.n > 0
  {
    var c := p.Count();
    PushShape(t, stack, p, left, h);
    p' := PushSecond(t, Push(t, stack, t.Cv(left, c), c), Pieces(p.Bytes(), c, left, h), right, c + h);
    Assoc(p.Bytes(), left, right);
  }

  lemma {:induction false} PushSecond(t: HashTree, stack: seq<CVBytes>, half: Pieces, right: seq<u8>, c: nat)
    returns (p': Pieces)
    requires Shape(t, stack, half) && c == half.Count() < MAX_CHUNKS && |right| == CHUNK_LEN * half.q
    requires IsPow2(half.q) && Aligned(half.q, c) && half.q > 0
    ensures Shape(t, Push(t, stack, t.Cv(right, c), c), p')
    ensures p'.Bytes() == half.Bytes() + right && p'.Count() == c + half.q && p'.q > 0 && p'.n > 0
  {
    PushShape(t, stack, half, right, half.q);
    p' := Pieces(half.Bytes(), c, right, half.q);
  }

  /** Whether one more value may be pushed after `total` chunks: there is a free slot. */
  ghost predicate Fits(t: HashTree, stack: seq<CVBytes>, total: nat) {
    (total > 0 || stack == []) && |MergeAll(t, stack, CountOnes(total))| <= MAX_DEPTH
  }

  /** Whether two values may be pushed. */
  ghost predicate FitsTwo(t: HashTree, stack: seq<CVBytes>, left: CVBytes, c: nat, d: nat) {
    Fits(t, stack, c) && d > 0 && Fits(t, Push(t, stack, left, c), d)
  }

  /** There is room for every piece of an input below 2^64 bytes. */
  lemma {:induction false} PieceFits(t: HashTree, stack: seq<CVBytes>, p: Pieces, piece: seq<u8>, q: nat)
    requires Shape(t, stack, p) && p.Count() < MAX_CHUNKS
    requires |piece| == CHUNK_LEN * q && IsPow2(q) && Aligned(q, p.Count())
    ensures Fits(t, stack, p.Count())
  {
    ShapeCount(t, stack, p);
    PushShape(t, stack, p, piece, q);
  }

  lemma {:induction false} ChunkFits(t: HashTree, stack: seq<CVBytes>, p: Pieces, chunk: seq<u8>)
    requires Shape(t, stack, p) && p.Count() < MAX_CHUNKS && |chunk| == CHUNK_LEN
    ensures Fits(t, stack, p.Count())
  {
    PieceFits(t, stack, p, chunk, 1);
  }

  /** And for both values of a larger subtree. */
  lemma {:induction false} HalvesFit(
      t: HashTree, stack: seq<CVBytes>, p: Pieces, left: seq<u8>, right: seq<u8>, h: nat)
    requires Shape(t, stack, p) && p.Count() + h < MAX_CHUNKS && |left| == |right| == CHUNK_LEN * h
    requires IsPow2(h) && Aligned(h, p.Count()) && Aligned(h, p.Count() + h)
    ensures FitsTwo(t, stack, t.Cv(left, p.Count()), p.Count(), p.Count() + h)
  {
    var c := p.Count();
    PieceFits(t, stack, p, left, h);
    PushShape(t, stack, p, left, h);
    PieceFits(t, Push(t, stack, t.Cv(left, c), c), Pieces(p.Bytes(), c, left, h), right, h);
  }

  lemma {:induction false} HalvesAligned(k: nat, c: nat)
    requires IsPow2(k) && k >= 2 && Aligned(k, c)
    ensures k == 2 * (k / 2) && IsPow2(k / 2) && Aligned(k / 2, c) && Aligned(k / 2, c + k / 2)
  {
    AlignedWeaken(k / 2, c);
    AlignedPow2(k / 2, k / 2);
    AlignedSum(k / 2, c, k / 2);
  }

  /** The number of entries: the popcount of the merged chunks, and one more for a
      lazy piece. */
  lemma {:induction false} ShapeCount(t: HashTree, stack: seq<CVBytes>, p: Pieces)
    requires Shape(t, stack, p)
    ensures |stack| == CountOnes(p.n) + (if p.q == 0 then 0 else 1)
    ensures p.n > 0 ==> CountOnes(p.n) > 0
  {
    DigitsCount(p.n);
    if p.n > 0 { CountOnesPositive(p.n); }
  }

  /** An input below 2^64 bytes needs at most 54 entries and the lazy one. */
  lemma {:induction false} ShapeFits(t: HashTree, stack: seq<CVBytes>, p: Pieces)
    requires Shape(t, stack, p) && p.n < MAX_CHUNKS
    ensures |stack| <= MAX_DEPTH + (if p.q == 0 then 0 else 1)
  {
    DigitsCount(p.n);
    MaxChunksIsPow2();
    CountOnesBound(p.n, MAX_DEPTH);
  }

  lemma {:induction false} CountFits(t: HashTree, stack: seq<CVBytes>, p: Pieces, more: nat)
    requires Shape(t, stack, p) && |p.Bytes()| + CHUNK_LEN * more <= MAX_INPUT
    ensures p.Count() + more <= MAX_CHUNKS
  {
  }

  lemma {:induction false} MaxChunksIsPow2()
    ensures Pow2(MAX_DEPTH) == MAX_CHUNKS && MAX_CHUNKS * CHUNK_LEN == MAX_INPUT
  {
    Times512(0);
    Times512(9);
    Times512(18);
    MoreTimes512();
  }

  lemma {:induction false} MoreTimes512()
    requires Pow2(27) == 0x800_0000
    ensures Pow2(54) == 0x40_0000_0000_0000
  {
    Times512(27);
    Times512(36);
    Times512(45);
  }

  lemma {:induction false} Times512(k: nat)
    ensures Pow2(k + 9) == 512 * Pow2(k)
  {
    Times8(k);
    Times8(k + 3);
    Times8(k + 6);
  }

  lemma {:induction false} Times8(k: nat)
    ensures Pow2(k + 3) == 8 * Pow2(k)
  {
    assert Pow2(k + 1) == 2 * Pow2(k) && Pow2(k + 2) == 2 * Pow2(k + 1);
  }

  lemma {:induction false} FoldSnoc(t: HashTree, stack: seq<CVBytes>, x: CVBytes, top: Output)
    ensures Fold(t, stack + [x], top) == Fold(t, stack, t.parent(x, t.cv(top)))
  {
    if stack == [] {
      assert [x][1..] == [];
    } else {
      FoldSnoc(t, stack[1..], x, top);
      assert (stack + [x])[1..] == stack[1..] + [x];
    }
  }

  /** Folding a stack of nested subtrees over the node of the rest of the input
      gives the node of everything. */
  lemma {:induction false} FoldCvs(
      t: HashTree, data: seq<u8>, sizes: seq<nat>, rest: seq<u8>, q: nat, counter: nat)
    requires |data| == CHUNK_LEN * Sum(sizes) && Nested(sizes, q)
    requires 0 < |rest| <= CHUNK_LEN * q
    ensures Fold(t, Cvs(t, data, sizes, counter), t.Subtree(rest, counter + Sum(sizes)))
         == t.Subtree(data + rest, counter)
  {
    if sizes == [] {
      assert data + rest == rest;
    } else {
      var l := CHUNK_LEN * sizes[0];
      var first, more := data[..l], data[l..];
      CvsCons(t, data, first, more, sizes, counter);
      FoldCvs(t, more, sizes[1..], rest, q, counter + sizes[0]);
      FoldOver(t, first, Cvs(t, more, sizes[1..], counter + sizes[0]), t.Subtree(rest, counter + Sum(sizes)),
               more, data, rest, sizes[0], counter);
    }
  }

  lemma {:induction false} FoldOver(
      t: HashTree, first: seq<u8>, stack: seq<CVBytes>, top: Output, more: seq<u8>, data: seq<u8>, rest: seq<u8>,
      size: nat, counter: nat)
    requires IsPow2(size) && |first| == CHUNK_LEN * size && data == first + more
    requires 0 < |more| + |rest| <= |first|
    requires Fold(t, stack, top) == t.Subtree(more + rest, counter + size)
    ensures Fold(t, [t.Cv(first, counter)] + stack, top) == t.Subtree(data + rest, counter)
  {
    FoldCv(t, first, more, data, rest, size, counter);
    FoldCons(t, t.Cv(first, counter), stack, top);
  }

  lemma {:induction false} CvsCons(
      t: HashTree, data: seq<u8>, first: seq<u8>, more: seq<u8>, sizes: seq<nat>, counter: nat)
    requires sizes != [] && |data| == CHUNK_LEN * Sum(sizes) && |first| == CHUNK_LEN * sizes[0] && data == first + more
    ensures |more| == CHUNK_LEN * Sum(sizes[1..])
    ensures Cvs(t, data, sizes, counter) == [t.Cv(first, counter)] + Cvs(t, more, sizes[1..], counter + sizes[0])
  {
    assert data[..|first|] == first && data[|first|..] == more;
  }

  lemma {:induction false} FoldCons(t: HashTree, x: CVBytes, stack: seq<CVBytes>, top: Output)
    ensures Fold(t, [x] + stack, top) == t.parent(x, t.cv(Fold(t, stack, top)))
  {
    assert ([x] + stack)[1..] == stack;
  }

  /** The largest subtree is the left child of everything after it. */
  lemma {:induction false} FoldCv(
      t: HashTree, first: seq<u8>, more: seq<u8>, data: seq<u8>, rest: seq<u8>, size: nat, counter: nat)
    requires IsPow2(size) && |first| == CHUNK_LEN * size && data == first + more
    requires 0 < |more| + |rest| <= |first|
    ensures t.parent(t.Cv(first, counter), t.Cv(more + rest, counter + size)) == t.Subtree(data + rest, counter)
  {
    Assoc(first, more, rest);
    t.SubtreeSplit(first, more + rest, size, counter);
  }

  /** So a merged stack and at most `q` more chunks give the root of the whole input. */
  lemma {:induction false} FoldMerged(
      t: HashTree, stack: seq<CVBytes>, low: seq<u8>, n: nat, rest: seq<u8>, q: nat)
    requires |low| == CHUNK_LEN * n && stack == DigitCvs(t, low, n)
    requires IsPow2(q) && Aligned(q, n) && 0 < |rest| <= CHUNK_LEN * q
    ensures Fold(t, stack, t.Subtree(rest, n)) == t.Subtree(low + rest, 0)
  {
    DigitsNested(n, q);
    DigitsSum(n);
    FoldCvs(t, low, Digits(n), rest, q, 0);
  }

  /** And a stack with a lazy piece on top gives it without any more input: the two
      topmost values are the children of one node. */
  lemma {:induction false} FoldLazy(t: HashTree, stack: seq<CVBytes>, p: Pieces)
    requires Shape(t, stack, p) && p.q > 0 && p.n > 0
    ensures var k := |stack| - 2;
            k >= 0 && Fold(t, stack[..k], t.parent(stack[k], stack[k + 1])) == t.Subtree(p.Bytes(), 0)
  {
    ShapeCount(t, stack, p);
    var k := |stack| - 2;
    var below := stack[..k + 1];
    assert below == DigitCvs(t, p.low, p.n) && below == stack[..k] + [stack[k]];
    FoldMerged(t, below, p.low, p.n, p.piece, p.q);
    FoldSnoc(t, stack[..k], stack[k], t.Subtree(p.piece, p.n));
  }

  /** A merged stack and the node of a last partial chunk give the root. */
  lemma {:induction false} FoldPartial(t: HashTree, stack: seq<CVBytes>, p: Pieces, last: seq<u8>)
    requires Shape(t, stack, p) && p.q == 0 && 0 < |last| <= CHUNK_LEN
    ensures Fold(t, stack, t.Subtree(last, p.n)) == t.Subtree(p.Bytes() + last, 0)
  {
    assert stack == DigitCvs(t, p.low, p.n);
    assert p.Bytes() == p.low;
    FoldMerged(t, stack, p.low, p.n, last, 1);
  }
}
