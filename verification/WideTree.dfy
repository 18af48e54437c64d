/** Reducing a row of chaining values to one by pairing neighbours, level by level,
    and why that builds the left-full tree. */
module WideTree {
  import opened Sequences
  import opened Bits
  import opened Words
  import opened Blake3Tree

  /** The left-full tree over a row of chaining values. */
  function MergeTree(t: HashTree, cvs: seq<CVBytes>): CVBytes
    requires cvs != []
    decreases |cvs|
  {
    if |cvs| == 1 then cvs[0]
    else
      var p := LeftCount(|cvs|);
      t.Parent(MergeTree(t, cvs[..p]), MergeTree(t, cvs[p..]))
  }

  /** The two chaining values that the top node of that tree compresses. */
  function TopPair(t: HashTree, cvs: seq<CVBytes>): (CVBytes, CVBytes)
    requires |cvs| >= 2
  {
    var p := LeftCount(|cvs|);
    (MergeTree(t, cvs[..p]), MergeTree(t, cvs[p..]))
  }

  /** One level of parents; an odd value at the end is carried up. */
  function PairLevel(t: HashTree, cvs: seq<CVBytes>): (s: seq<CVBytes>)
    ensures |s| == (|cvs| + 1) / 2
  {
    if |cvs| < 2 then cvs else [t.Parent(cvs[0], cvs[1])] + PairLevel(t, cvs[2..])
  }

  /** The chaining values of the chunks of `data`. */
  function Leaves(t: HashTree, data: seq<u8>, counter: nat): (s: seq<CVBytes>)
    requires data != []
    ensures CHUNK_LEN * |s| - CHUNK_LEN < |data| <= CHUNK_LEN * |s|
  {
    if |data| <= CHUNK_LEN then [t.Cv(data, counter)]
    else [t.Cv(data[..CHUNK_LEN], counter)] + Leaves(t, data[CHUNK_LEN..], counter + 1)
  }

  /** The chaining values of the two children of the node over `data`. */
  function Children(t: HashTree, data: seq<u8>, counter: nat): (CVBytes, CVBytes)
    requires |data| > CHUNK_LEN
  {
    var p := LeftChunks(|data|);
    (t.Cv(data[..CHUNK_LEN * p], counter), t.Cv(data[CHUNK_LEN * p..], counter + p))
  }

  /** How many chaining values the wide hasher returns for `n` chunks. */
  function WideCount(n: nat, degree: nat): nat
    requires n > 0 && degree > 0
    decreases n
  {
    if n <= degree then n
    else
      var p := LeftCount(n);
      var left, right := WideCount(p, degree), WideCount(n - p, degree);
      JoinedCount(left, right)
  }

  /** The length of a row made of two rows. */
  function JoinedCount(left: nat, right: nat): nat {
    if left == 1 then left + right else (left + right + 1) / 2
  }

  lemma {:induction false} PairLevelStep(t: HashTree, cvs: seq<CVBytes>, i: nat)
    requires 2 * i + 2 <= |cvs|
    ensures PairLevel(t, cvs)[i] == t.Parent(cvs[2 * i], cvs[2 * i + 1])
  {
    if i > 0 { PairLevelStep(t, cvs[2..], i - 1); }
  }

  lemma {:induction false} PairLevelOdd(t: HashTree, cvs: seq<CVBytes>)
    requires |cvs| % 2 == 1
    ensures PairLevel(t, cvs)[|cvs| / 2] == cvs[|cvs| - 1]
  {
    if |cvs| > 1 { PairLevelOdd(t, cvs[2..]); }
  }

  lemma {:induction false} PairLevelAppend(t: HashTree, a: seq<CVBytes>, b: seq<CVBytes>)
    requires |a| % 2 == 0
    ensures PairLevel(t, a + b) == PairLevel(t, a) + PairLevel(t, b)
  {
    if a == [] {
      assert a + b == b;
    } else {
      PairLevelAppend(t, a[2..], b);
      assert (a + b)[2..] == a[2..] + b;
      Assoc([t.Parent(a[0], a[1])], PairLevel(t, a[2..]), PairLevel(t, b));
    }
  }

  lemma {:induction false} MergeTreeSplit(t: HashTree, left: seq<CVBytes>, right: seq<CVBytes>)
    requires IsPow2(|left|) && 0 < |right| <= |left|
    ensures TopPair(t, left + right) == (MergeTree(t, left), MergeTree(t, right))
  {
    LeftCountIs(|left + right|, |left|);
    assert (left + right)[..|left|] == left && (left + right)[|left|..] == right;
  }

  /** A level of pairing, applied to both children at once, keeps the top pair. */
  lemma {:induction false} PairLevelKeepsTop(t: HashTree, cvs: seq<CVBytes>)
    requires |cvs| > 2
    ensures TopPair(t, PairLevel(t, cvs)) == TopPair(t, cvs)
    decreases |cvs|, 0
  {
    var p := LeftCount(|cvs|);
    var left, right := cvs[..p], cvs[p..];
    assert cvs == left + right;
    HalfPow2(p);
    PairLevelAppend(t, left, right);
    PairLevelKeepsTree(t, left);
    PairLevelKeepsTree(t, right);
    assert |PairLevel(t, left)| == p / 2;
    MergeTreeSplit(t, PairLevel(t, left), PairLevel(t, right));
  }

  lemma {:induction false} HalfPow2(p: nat)
    requires IsPow2(p) && p > 1
    ensures p % 2 == 0 && (p + 1) / 2 == p / 2 && IsPow2(p / 2)
  {
  }

  lemma {:induction false} PairLevelKeepsTree(t: HashTree, cvs: seq<CVBytes>)
    requires cvs != []
    ensures MergeTree(t, PairLevel(t, cvs)) == MergeTree(t, cvs)
    decreases |cvs|, 1
  {
    if |cvs| > 2 {
      PairLevelKeepsTop(t, cvs);
    } else if |cvs| == 2 {
      assert cvs[..1] == [cvs[0]] && cvs[1..] == [cvs[1]];
    }
  }

  /** The rows of two neighbouring subtrees reduce to their common parent. */
  lemma {:induction false} RowsMeet(
      t: HashTree, left: seq<CVBytes>, right: seq<CVBytes>, data: seq<u8>, counter: nat)
    requires |data| > CHUNK_LEN && IsPow2(|left|) && 0 < |right| <= |left|
    requires Children(t, data, counter) == (MergeTree(t, left), MergeTree(t, right))
    ensures TopPair(t, left + right) == Children(t, data, counter)
    ensures |left + right| > 2 ==> TopPair(t, PairLevel(t, left + right)) == Children(t, data, counter)
  {
    MergeTreeSplit(t, left, right);
    if |left + right| > 2 { PairLevelKeepsTop(t, left + right); }
  }

  /** A row whose top pair is right reduces to the right chaining value. */
  lemma {:induction false} TopPairMerges(t: HashTree, cvs: seq<CVBytes>, data: seq<u8>, counter: nat)
    requires |cvs| >= 2 && |data| > CHUNK_LEN
    requires TopPair(t, cvs) == Children(t, data, counter)
    ensures MergeTree(t, cvs) == t.Cv(data, counter)
  {
  }

  lemma {:induction false} LeavesSplit(t: HashTree, left: seq<u8>, right: seq<u8>, p: nat, counter: nat)
    requires |left| == CHUNK_LEN * p && right != []
    ensures p > 0 ==> left != []
    ensures Leaves(t, left + right, counter)
         == (if p == 0 then [] else Leaves(t, left, counter)) + Leaves(t, right, counter + p)
    decreases p
  {
    if p == 0 {
      assert left + right == right;
    } else if p == 1 {
      LeavesCons(t, left + right, left, right, counter);
    } else {
      var head, tail := left[..CHUNK_LEN], left[CHUNK_LEN..];
      LeavesSplit(t, tail, right, p - 1, counter + 1);
      LeavesSplitStep(t, head, tail, right, p, counter);
      assert left == head + tail;
    }
  }

  lemma {:induction false} LeavesSplitStep(
      t: HashTree, head: seq<u8>, tail: seq<u8>, right: seq<u8>, p: nat, counter: nat)
    requires |head| == CHUNK_LEN && tail != [] && right != []
    requires Leaves(t, tail + right, counter + 1) == Leaves(t, tail, counter + 1) + Leaves(t, right, counter + p)
    ensures Leaves(t, (head + tail) + right, counter) == Leaves(t, head + tail, counter) + Leaves(t, right, counter + p)
  {
    LeavesCons(t, head + tail, head, tail, counter);
    Assoc(head, tail, right);
    LeavesCons(t, (head + tail) + right, head, tail + right, counter);
    Assoc([t.Cv(head, counter)], Leaves(t, tail, counter + 1), Leaves(t, right, counter + p));
  }

  lemma {:induction false} LeavesCons(t: HashTree, data: seq<u8>, head: seq<u8>, tail: seq<u8>, counter: nat)
    requires |head| == CHUNK_LEN && tail != [] && data == head + tail
    ensures Leaves(t, data, counter) == [t.Cv(head, counter)] + Leaves(t, tail, counter + 1)
  {
    assert data[..CHUNK_LEN] == head && data[CHUNK_LEN..] == tail;
  }

  lemma {:induction false} LeavesCount(t: HashTree, data: seq<u8>, counter: nat)
    requires data != []
    ensures |Leaves(t, data, counter)| == Chunks(|data|)
  {
  }

  /** The row of all chunks reduces to the subtree over them. */
  lemma {:induction false} LeavesMerge(t: HashTree, data: seq<u8>, counter: nat)
    requires data != []
    ensures MergeTree(t, Leaves(t, data, counter)) == t.Cv(data, counter)
    decreases |data|, 1
  {
    if |data| > CHUNK_LEN {
      LeavesTop(t, data, counter);
      TopPairMerges(t, Leaves(t, data, counter), data, counter);
    }
  }

  /** And its top pair is the pair of chaining values below the subtree's top node. */
  lemma {:induction false} LeavesTop(t: HashTree, data: seq<u8>, counter: nat)
    requires |data| > CHUNK_LEN
    ensures |Leaves(t, data, counter)| >= 2 && TopPair(t, Leaves(t, data, counter)) == Children(t, data, counter)
    decreases |data|, 0
  {
    var p, left, right := ChildrenSplit(t, data, counter);
    LeavesMerge(t, left, counter);
    LeavesMerge(t, right, counter + p);
    LeavesMeet(t, left, right, data, p, counter);
  }

  lemma {:induction false} ChildrenSplit(t: HashTree, data: seq<u8>, counter: nat)
    returns (p: nat, left: seq<u8>, right: seq<u8>)
    requires |data| > CHUNK_LEN
    ensures IsPow2(p) && |left| == CHUNK_LEN * p && data == left + right && 0 < |right| <= |left|
    ensures Children(t, data, counter) == (t.Cv(left, counter), t.Cv(right, counter + p))
  {
    p := LeftChunks(|data|);
    left, right := data[..CHUNK_LEN * p], data[CHUNK_LEN * p..];
  }

  lemma {:induction false} LeavesMeet(
      t: HashTree, left: seq<u8>, right: seq<u8>, data: seq<u8>, p: nat, counter: nat)
    requires IsPow2(p) && |left| == CHUNK_LEN * p && data == left + right && 0 < |right| <= |left|
    requires |data| > CHUNK_LEN && Children(t, data, counter) == (t.Cv(left, counter), t.Cv(right, counter + p))
    requires MergeTree(t, Leaves(t, left, counter)) == t.Cv(left, counter)
    requires MergeTree(t, Leaves(t, right, counter + p)) == t.Cv(right, counter + p)
    ensures |Leaves(t, data, counter)| >= 2 && TopPair(t, Leaves(t, data, counter)) == Children(t, data, counter)
  {
    LeavesHalves(t, left, right, data, p, counter);
    RowsMeet(t, Leaves(t, left, counter), Leaves(t, right, counter + p), data, counter);
  }

  lemma {:induction false} LeavesHalves(
      t: HashTree, left: seq<u8>, right: seq<u8>, data: seq<u8>, p: nat, counter: nat)
    requires IsPow2(p) && |left| == CHUNK_LEN * p && data == left + right && 0 < |right| <= |left|
    ensures |Leaves(t, left, counter)| == p && 0 < |Leaves(t, right, counter + p)| <= p
    ensures Leaves(t, data, counter) == Leaves(t, left, counter) + Leaves(t, right, counter + p)
  {
    LeavesSplit(t, left, right, p, counter);
    LeavesCount(t, left, counter);
    LeavesCount(t, right, counter + p);
    ChunksIs(|left|, p);
    ChunksBound(|right|, p);
  }

  // ---------- how many values come back ----------

  /** A power of two of chunks comes back as exactly the degree, but at least two. */
  lemma {:induction false} WideCountPow2(p: nat, degree: nat)
    requires IsPow2(p) && IsPow2(degree) && p >= degree && p >= 2
    ensures WideCount(p, degree) == if degree == 1 then 2 else degree
  {
    if p > degree {
      Pow2Gap(degree, p);
      HalfPow2(p);
      LeftCountIs(p, p / 2);
      if p > 2 { WideCountPow2(p / 2, degree); }
    }
  }

  /** The row of the left half is full, and the right half's is no longer. */
  lemma {:induction false} WideHalves(n: nat, degree: nat)
    requires IsPow2(degree) && n > degree
    ensures n >= 2
    ensures var p := LeftCount(n);
            var left, right := WideCount(p, degree), WideCount(n - p, degree);
            && left == (if p == 1 then 1 else if degree == 1 then 2 else degree)
            && IsPow2(left) && 1 <= right <= left
    decreases n, 0
  {
    var p := LeftCount(n);
    WideCountLeft(p, degree);
    WideCountBounds(n - p, degree);
  }

  lemma {:induction false} WideCountLeft(p: nat, degree: nat)
    requires IsPow2(p) && IsPow2(degree) && degree < 2 * p
    ensures var left := WideCount(p, degree);
            IsPow2(left) && left == (if p == 1 then 1 else if degree == 1 then 2 else degree)
    ensures p >= degree
  {
    if p < degree { Pow2Gap(p, degree); }
    if p >= 2 { WideCountPow2(p, degree); }
  }

  /** At least one value and at most the degree come back, and at least two for
      more than a chunk. */
  lemma {:induction false} WideCountBounds(n: nat, degree: nat)
    requires n > 0 && IsPow2(degree)
    ensures 1 <= WideCount(n, degree) <= (if degree == 1 then 2 else degree)
    ensures n > 1 ==> WideCount(n, degree) >= 2
    decreases n, 1
  {
    if n > degree { WideHalves(n, degree); }
  }

  /** `x` halved `m` times. */
  function Halved(x: nat, m: nat): nat {
    if m == 0 then x else Halved(x / 2, m - 1)
  }

  /** How many subtrees of the size of the degree or larger the left edge is made of, and
      how many chunks are left at the right edge. */
  function LargeSubtrees(n: nat, degree: nat): nat
    requires n > 0 && degree > 0
  {
    if n <= degree then 0 else 1 + LargeSubtrees(n - LeftCount(n), degree)
  }

  function RightEdge(n: nat, degree: nat): (edge: nat)
    requires n > 0 && degree > 0
    ensures 1 <= edge <= degree
  {
    if n <= degree then n else RightEdge(n - LeftCount(n), degree)
  }

  /** Exactly how many values come back: every large subtree halves what the right edge is
      short of the degree. */
  lemma {:induction false} WideCountExactly(n: nat, degree: nat)
    requires n > 0 && IsPow2(degree) && degree >= 2
    ensures WideCount(n, degree) == degree - Halved(degree - RightEdge(n, degree), LargeSubtrees(n, degree))
    decreases n
  {
    if n > degree {
      WideCountExactly(n - LeftCount(n), degree);
      WideCountStep(n, LeftCount(n), degree, WideCount(n - LeftCount(n), degree));
      OneLargeSubtree(n, degree);
    }
  }

  /** What one large subtree does to the count. */
  lemma {:induction false} WideCountStep(n: nat, p: nat, degree: nat, right: nat)
    requires n > degree >= 2 && IsPow2(degree) && p == LeftCount(n) && right == WideCount(n - p, degree) <= degree
    ensures WideCount(n, degree) == degree - (degree - right) / 2
  {
    WideCountLeft(p, degree);
    HalfMissing(degree, right);
  }

  lemma {:induction false} HalfMissing(degree: nat, right: nat)
    requires right <= degree
    ensures (degree + right + 1) / 2 == degree - (degree - right) / 2
  {
  }

  lemma {:induction false} OneLargeSubtree(n: nat, degree: nat)
    requires n > degree > 0
    ensures var m, x := n - LeftCount(n), degree - RightEdge(n, degree);
            Halved(x, LargeSubtrees(n, degree)) == Halved(degree - RightEdge(m, degree), LargeSubtrees(m, degree)) / 2
  {
    var m := n - LeftCount(n);
    HalvedOnce(degree - RightEdge(m, degree), LargeSubtrees(m, degree));
  }

  /** In binary: the large subtrees are the one bits above the degree of the number of the
      last chunk, and the bits below it say where the right edge ends. */
  lemma {:induction false} LargeSubtreesAreOnes(degree: nat, all: nat, r: nat)
    requires IsPow2(degree) && degree >= 2 && r < degree && Aligned(degree, all)
    ensures LargeSubtrees(all + r + 1, degree) == CountOnes(all) && RightEdge(all + r + 1, degree) == r + 1
    decreases all
  {
    if all > 0 {
      var top := LeftCount(all + 1);
      AlignedTop(degree, all, top);
      LargeSubtreesAreOnes(degree, all - top, r);
      LargeTop(degree, all + r + 1, top);
      CountOnesTopBit(all, top);
    }
  }

  lemma {:induction false} LargeTop(degree: nat, n: nat, top: nat)
    requires IsPow2(top) && 0 < degree <= top < n <= 2 * top
    ensures LargeSubtrees(n, degree) == 1 + LargeSubtrees(n - top, degree)
    ensures RightEdge(n, degree) == RightEdge(n - top, degree)
  {
    LeftCountIs(n, top);
  }

  lemma {:induction false} HalvedOnce(x: nat, m: nat)
    ensures Halved(x, m + 1) == Halved(x, m) / 2
  {
    if m > 0 { HalvedOnce(x / 2, m - 1); }
  }

  lemma {:induction false} HalvedIsZero(x: nat, m: nat)
    ensures Halved(x, m) == 0 <==> x < Pow2(m)
  {
    if m > 0 { HalvedIsZero(x / 2, m - 1); }
  }

  /** Fewer values than the degree come back exactly when the right edge is at least `2^k`
      chunks short, `k` being the number of large subtrees. */
  lemma {:induction false} WideCountIsShort(n: nat, degree: nat)
    requires n > 0 && IsPow2(degree) && degree >= 2
    ensures WideCount(n, degree) < degree
       <==> Pow2(LargeSubtrees(n, degree)) <= degree - RightEdge(n, degree)
  {
    WideCountExactly(n, degree);
    HalvedIsZero(degree - RightEdge(n, degree), LargeSubtrees(n, degree));
  }

  /** That is possible even for an input of more chunks.  With `all + r` the number of the last
      chunk, `all` a multiple of the degree: exactly when two to the popcount of `all` is at
      most what `r` lacks to the last lane. */
  lemma {:induction false} WideCountFallsShort(degree: nat, all: nat, r: nat)
    requires IsPow2(degree) && degree >= 2 && r < degree && Aligned(degree, all)
    ensures WideCount(all + r + 1, degree) < degree <==> Pow2(CountOnes(all)) <= degree - 1 - r
  {
    WideCountIsShort(all + r + 1, degree);
    LargeSubtreesAreOnes(degree, all, r);
  }

  /** For one: five chunks at degree four. */
  lemma {:induction false} WideCountCanFallShort()
    ensures WideCount(5, 4) == 3
  {
    assert WideCount(4, 4) == 4 && WideCount(1, 4) == 1 && LeftCount(5) == 4;
  }

  // ---------- the row of values itself ----------

  /** The row that the wide hasher returns for a subtree with the given leaves. */
  function WideRow(t: HashTree, leaves: seq<CVBytes>, degree: nat): (row: seq<CVBytes>)
    requires leaves != [] && degree > 0
    decreases |leaves|
  {
    if |leaves| <= degree then leaves
    else
      var p := LeftCount(|leaves|);
      var left, right := WideRow(t, leaves[..p], degree), WideRow(t, leaves[p..], degree);
      if |left| == 1 then left + right else PairLevel(t, left + right)
  }

  lemma {:induction false} WideRowCount(t: HashTree, leaves: seq<CVBytes>, degree: nat)
    requires leaves != [] && degree > 0
    ensures |WideRow(t, leaves, degree)| == WideCount(|leaves|, degree)
    decreases |leaves|
  {
    if |leaves| > degree {
      var left, right := SplitRow(leaves);
      WideRowCount(t, left, degree);
      WideRowCount(t, right, degree);
      WideRowCountStep(t, leaves, left, right, degree);
    }
  }

  lemma {:induction false} SplitRow(leaves: seq<CVBytes>) returns (left: seq<CVBytes>, right: seq<CVBytes>)
    requires |leaves| > 1
    ensures leaves == left + right && left != [] && right != [] && |left| == LeftCount(|leaves|)
  {
    var p := LeftCount(|leaves|);
    left, right := leaves[..p], leaves[p..];
  }

  lemma {:induction false} WideRowCountStep(
      t: HashTree, leaves: seq<CVBytes>, left: seq<CVBytes>, right: seq<CVBytes>, degree: nat)
    requires |leaves| > degree > 0 && |left| == LeftCount(|leaves|) && leaves == left + right && right != []
    requires |WideRow(t, left, degree)| == WideCount(|left|, degree)
    requires |WideRow(t, right, degree)| == WideCount(|right|, degree)
    ensures |WideRow(t, leaves, degree)| == WideCount(|leaves|, degree)
  {
    assert leaves[..|left|] == left && leaves[|left|..] == right;
  }

  /** Slots that a row needs at most. */
  function RowSpace(degree: nat): nat {
    if degree < 2 then 2 else degree
  }

  lemma {:induction false} WideRowFits(t: HashTree, leaves: seq<CVBytes>, degree: nat)
    requires leaves != [] && IsPow2(degree)
    ensures 1 <= |WideRow(t, leaves, degree)| <= RowSpace(degree)
    ensures |leaves| > 1 ==> |WideRow(t, leaves, degree)| >= 2
  {
    WideRowCount(t, leaves, degree);
    WideCountBounds(|leaves|, degree);
  }

  /** How the rows of the two halves make the row of the whole. */
  lemma {:induction false} WideRowStep(
      t: HashTree, left: seq<CVBytes>, right: seq<CVBytes>, degree: nat)
    requires IsPow2(degree) && |left + right| > degree
    requires IsPow2(|left|) && 0 < |right| <= |left|
    ensures var lrow, rrow := WideRow(t, left, degree), WideRow(t, right, degree);
            && |lrow| == (if |left| < 2 then 1 else RowSpace(degree))
            && 1 <= |rrow| <= |lrow|
            && WideRow(t, left + right, degree) == if |lrow| < 2 then lrow + rrow else PairLevel(t, lrow + rrow)
  {
    var leaves := left + right;
    LeftCountIs(|leaves|, |left|);
    assert leaves[..|left|] == left && leaves[|left|..] == right;
    WideHalves(|leaves|, degree);
    WideRowCount(t, left, degree);
    WideRowCount(t, right, degree);
  }

  /** A row that reduces to the same tree as `leaves`, and that stops short of its
      top node. */
  ghost predicate StandsFor(t: HashTree, row: seq<CVBytes>, leaves: seq<CVBytes>)
    requires leaves != []
  {
    && row != []
    && MergeTree(t, row) == MergeTree(t, leaves)
    && (|leaves| > 1 ==> |row| >= 2 && TopPair(t, row) == TopPair(t, leaves))
  }

  /** Two rows side by side stand for the whole, and so does a level of pairing over them. */
  lemma {:induction false} RowsJoin(
      t: HashTree, left: seq<CVBytes>, right: seq<CVBytes>, leaves: seq<CVBytes>, p: nat)
    requires |leaves| > 1 && p == LeftCount(|leaves|)
    requires StandsFor(t, left, leaves[..p]) && StandsFor(t, right, leaves[p..])
    requires IsPow2(|left|) && |right| <= |left|
    ensures StandsFor(t, left + right, leaves)
    ensures |left| > 1 ==> StandsFor(t, PairLevel(t, left + right), leaves)
  {
    MergeTreeSplit(t, left, right);
    if |left| > 1 { PairLevelKeepsTop(t, left + right); }
  }

  /** The row of a split subtree, and the rows of its halves. */
  lemma {:induction false} WideRowHalves(t: HashTree, leaves: seq<CVBytes>, degree: nat, p: nat)
    requires IsPow2(degree) && |leaves| > degree && |leaves| > 1 && p == LeftCount(|leaves|)
    ensures var left, right := WideRow(t, leaves[..p], degree), WideRow(t, leaves[p..], degree);
            && IsPow2(|left|) && |right| <= |left|
            && WideRow(t, leaves, degree) == if |left| == 1 then left + right else PairLevel(t, left + right)
  {
    WideHalves(|leaves|, degree);
    WideRowCount(t, leaves[..p], degree);
    WideRowCount(t, leaves[p..], degree);
  }

  /** The wide hasher's row stands for its leaves, at every SIMD degree. */
  lemma {:induction false} WideRowStands(t: HashTree, leaves: seq<CVBytes>, degree: nat)
    requires leaves != [] && IsPow2(degree)
    ensures StandsFor(t, WideRow(t, leaves, degree), leaves)
    decreases |leaves|
  {
    if |leaves| > degree {
      var p := LeftCount(|leaves|);
      WideRowStands(t, leaves[..p], degree);
      WideRowStands(t, leaves[p..], degree);
      WideRowHalves(t, leaves, degree, p);
      RowsJoin(t, WideRow(t, leaves[..p], degree), WideRow(t, leaves[p..], degree), leaves, p);
    }
  }
}
