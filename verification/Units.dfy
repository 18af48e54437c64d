/** The vector units: 128-bit vectors of four words, 256-bit vectors of two such halves,
    and 512-bit vectors of four. */
module Units {
  import opened Words
  import opened Arx
  import opened RowCompress
  import opened Lanes
  import opened Counters
  import opened LaneHash

  const ZERO: u32 := 0

  function Set1<T>(x: T): Quad<T> { Quad(x, x, x, x) }

  // ---------- four lanes ----------

  type M128 = Quad<u32>

  function Load4(ws: seq<u32>): M128 {
    if |ws| == 4 then Quad(ws[0], ws[1], ws[2], ws[3]) else Set1(ZERO)
  }

  /** `transpose_vecs` of four vectors. */
  function Transpose4(vecs: seq<M128>): seq<M128> {
    if |vecs| != 4 then vecs else
      // Interleave words.
      var ab_01, ab_23 := UnpackLo32(vecs[0], vecs[1]), UnpackHi32(vecs[0], vecs[1]);
      var cd_01, cd_23 := UnpackLo32(vecs[2], vecs[3]), UnpackHi32(vecs[2], vecs[3]);
      // Interleave pairs of words.
      [UnpackLo64(ab_01, cd_01), UnpackHi64(ab_01, cd_01), UnpackLo64(ab_23, cd_23), UnpackHi64(ab_23, cd_23)]
  }

  function Unit4(o: Ops<u32>): Unit<M128> {
    Unit4With(o, SplitCounters(4))
  }

  /** The four-lane unit of the C port, which differs in how it loads counters. */
  function CUnit4(o: Ops<u32>): Unit<M128> {
    Unit4With(o, BiasedCounters(4))
  }

  function Unit4With(o: Ops<u32>, loader: Loader): Unit<M128> {
    Unit(4, QuadOps(o), (v: M128, i: nat) => At(v, i), (x: u32) => Set1(x), (ws: seq<u32>) => Load4(ws), loader,
         (vecs: seq<M128>) => Transpose4(vecs))
  }

  lemma {:induction false} QuadLaneCarries<T(!new)>(o: Ops<T>, h: Quad<T> -> T, i: nat)
    requires i < 4 && forall q :: h(q) == At(q, i)
    ensures Carries(h, QuadOps(o), o)
  {
  }

  lemma {:induction false} Transpose4Lane(vs: seq<M128>, i: nat, k: nat)
    requires |vs| == 4 && i < 4 && k < 4
    ensures At(Transpose4(vs)[k], i) == At(vs[i], k)
  {
  }

  lemma {:induction false} Unit4Transposes(o: Ops<u32>, loader: Loader)
    ensures Transposes(Unit4With(o, loader))
  {
    var u := Unit4With(o, loader);
    forall vs | |vs| == 4 ensures IsTransposed(u, vs, u.transpose(vs)) {
      Transpose4Lanes(o, loader, vs, Transpose4(vs));
    }
  }

  lemma {:induction false} Transpose4Lanes(o: Ops<u32>, loader: Loader, vs: seq<M128>, ts: seq<M128>)
    requires |vs| == 4 && ts == Transpose4(vs)
    ensures IsTransposed(Unit4With(o, loader), vs, ts)
  {
    forall i, k | 0 <= i < 4 && 0 <= k < 4 ensures At(ts[k], i) == At(vs[i], k) {
      Transpose4Lane(vs, i, k);
    }
  }

  lemma {:induction false} Unit4Ready(o: Ops<u32>)
    requires Swaps(o)
    ensures Ready(Unit4(o), o) && Ready(CUnit4(o), o)
  {
    LoadersCount(4);
    Unit4IsReady(o, SplitCounters(4));
    Unit4IsReady(o, BiasedCounters(4));
  }

  lemma {:induction false} Unit4IsReady(o: Ops<u32>, loader: Loader)
    requires Swaps(o) && Counts(loader, 4)
    ensures Ready(Unit4With(o, loader), o)
  {
    var u := Unit4With(o, loader);
    QuadsSwap(o);
    Unit4Transposes(o, loader);
    forall i: nat | i < 4 ensures Carries(LaneOf(u, i), u.ops, o) {
      QuadLaneCarries(o, LaneOf(u, i), i);
    }
  }

  // ---------- eight lanes ----------

  /** Two halves. */
  datatype Pair<T> = Pair(lo: T, hi: T)

  type M256 = Pair<M128>

  function PairOps<T(!new)>(o: Ops<T>): Ops<Pair<T>> {
    Ops((a: Pair<T>, b: Pair<T>) => Pair(o.add(a.lo, b.lo), o.add(a.hi, b.hi)),
        (a: Pair<T>, b: Pair<T>) => Pair(o.xor(a.lo, b.lo), o.xor(a.hi, b.hi)),
        (a: Pair<T>) => Pair(o.rot16(a.lo), o.rot16(a.hi)), (a: Pair<T>) => Pair(o.rot12(a.lo), o.rot12(a.hi)),
        (a: Pair<T>) => Pair(o.rot8(a.lo), o.rot8(a.hi)), (a: Pair<T>) => Pair(o.rot7(a.lo), o.rot7(a.hi)))
  }

  function At8(v: M256, i: nat): u32 {
    if i < 4 then At(v.lo, i) else At(v.hi, i - 4)
  }

  function Load8(ws: seq<u32>): M256 {
    if |ws| == 8 then Pair(Load4(ws[..4]), Load4(ws[4..])) else Pair(Set1(ZERO), Set1(ZERO))
  }

  /** The 256-bit unpacks stay inside each half. */
  function UnpackLo32x8(a: M256, b: M256): M256 { Pair(UnpackLo32(a.lo, b.lo), UnpackLo32(a.hi, b.hi)) }

  function UnpackHi32x8(a: M256, b: M256): M256 { Pair(UnpackHi32(a.lo, b.lo), UnpackHi32(a.hi, b.hi)) }

  function UnpackLo64x8(a: M256, b: M256): M256 { Pair(UnpackLo64(a.lo, b.lo), UnpackLo64(a.hi, b.hi)) }

  function UnpackHi64x8(a: M256, b: M256): M256 { Pair(UnpackHi64(a.lo, b.lo), UnpackHi64(a.hi, b.hi)) }

  /** `interleave128`, by `permute2x128` with 0x20 and 0x31. */
  function Interleave128(a: M256, b: M256): (M256, M256) {
    (Pair(a.lo, b.lo), Pair(a.hi, b.hi))
  }

  /** The first two stages on four of the vectors. */
  function Interleaved8(a: M256, b: M256, c: M256, d: M256): Quad<M256> {
    var ab_0145, ab_2367 := UnpackLo32x8(a, b), UnpackHi32x8(a, b);
    var cd_0145, cd_2367 := UnpackLo32x8(c, d), UnpackHi32x8(c, d);
    Quad(UnpackLo64x8(ab_0145, cd_0145), UnpackHi64x8(ab_0145, cd_0145),
         UnpackLo64x8(ab_2367, cd_2367), UnpackHi64x8(ab_2367, cd_2367))
  }

  /** `transpose_vecs` of eight vectors. */
  function Transpose8(vecs: seq<M256>): seq<M256> {
    if |vecs| != 8 then vecs else seq(8, k requires 0 <= k < 8 => Vector8(vecs, k))
  }

  /** Output vector `k`. */
  function Vector8(vecs: seq<M256>, k: nat): M256
    requires |vecs| == 8 && k < 8
  {
    var abcd := At(Interleaved8(vecs[0], vecs[1], vecs[2], vecs[3]), k % 4);
    var efgh := At(Interleaved8(vecs[4], vecs[5], vecs[6], vecs[7]), k % 4);
    if k < 4 then Interleave128(abcd, efgh).0 else Interleave128(abcd, efgh).1
  }

  function Unit8(o: Ops<u32>): Unit<M256> {
    Unit(8, PairOps(QuadOps(o)), (v: M256, i: nat) => At8(v, i), (x: u32) => Pair(Set1(x), Set1(x)),
         (ws: seq<u32>) => Load8(ws), SplitCounters(8), (vecs: seq<M256>) => Transpose8(vecs))
  }

  /** After two stages each half is transposed. */
  lemma {:induction false} Interleaved8Is(a: M256, b: M256, c: M256, d: M256, k: nat)
    requires k < 4
    ensures At(Interleaved8(a, b, c, d), k)
         == Pair(Quad(At(a.lo, k), At(b.lo, k), At(c.lo, k), At(d.lo, k)),
                 Quad(At(a.hi, k), At(b.hi, k), At(c.hi, k), At(d.hi, k)))
  {
  }

  lemma {:induction false} Vector8Is(vecs: seq<M256>, k: nat)
    requires |vecs| == 8 && k < 8
    ensures Vector8(vecs, k)
         == Pair(Quad(At8(vecs[0], k), At8(vecs[1], k), At8(vecs[2], k), At8(vecs[3], k)),
                 Quad(At8(vecs[4], k), At8(vecs[5], k), At8(vecs[6], k), At8(vecs[7], k)))
  {
    var m := if k < 4 then k else k - 4;
    Interleaved8Is(vecs[0], vecs[1], vecs[2], vecs[3], m);
    Interleaved8Is(vecs[4], vecs[5], vecs[6], vecs[7], m);
  }

  lemma {:induction false} Unit8Transposes(o: Ops<u32>)
    ensures Transposes(Unit8(o))
  {
    forall vs | |vs| == 8 ensures IsTransposed(Unit8(o), vs, Unit8(o).transpose(vs)) {
      Transpose8Lanes(o, vs, Transpose8(vs));
    }
  }

  lemma {:induction false} Transpose8Lanes(o: Ops<u32>, vs: seq<M256>, ts: seq<M256>)
    requires |vs| == 8 && ts == Transpose8(vs)
    ensures IsTransposed(Unit8(o), vs, ts)
  {
    forall i, k | 0 <= i < 8 && 0 <= k < 8 ensures At8(ts[k], i) == At8(vs[i], k) {
      Vector8Is(vs, k);
    }
  }

  lemma {:induction false} HalfCarries<T(!new)>(p: Ops<T>, o: Ops<u32>, g: T -> u32, h: Pair<T> -> u32)
    requires Carries(g, p, o)
    requires (forall v: Pair<T> :: h(v) == g(v.lo)) || (forall v: Pair<T> :: h(v) == g(v.hi))
    ensures Carries(h, PairOps(p), o)
  {
  }

  lemma {:induction false} PairsSwap<T(!new)>(o: Ops<T>)
    requires Swaps(o)
    ensures Swaps(PairOps(o))
  {
    var p := PairOps(o);
    forall a, b, c ensures SwapAt(p, a, b, c) {
      assert SwapAt(o, a.lo, b.lo, c.lo) && SwapAt(o, a.hi, b.hi, c.hi);
    }
  }

  lemma {:induction false} Unit8Lane(o: Ops<u32>, i: nat)
    requires i < 8
    ensures Carries(LaneOf(Unit8(o), i), Unit8(o).ops, o)
  {
    var m := if i < 4 then i else i - 4;
    var g := (q: M128) => At(q, m);
    QuadLaneCarries(o, g, m);
    HalfCarries(QuadOps(o), o, g, LaneOf(Unit8(o), i));
  }

  lemma {:induction false} Unit8Loads(o: Ops<u32>, ws: seq<u32>, i: nat)
    requires |ws| == 8 && i < 8
    ensures At8(Load8(ws), i) == ws[i]
  {
  }

  lemma {:induction false} Unit8Ready(o: Ops<u32>)
    requires Swaps(o)
    ensures Ready(Unit8(o), o)
  {
    var u := Unit8(o);
    QuadsSwap(o);
    PairsSwap(QuadOps(o));
    LoadersCount(8);
    Unit8Transposes(o);
    forall i: nat | i < 8 ensures Carries(LaneOf(u, i), u.ops, o) {
      Unit8Lane(o, i);
    }
    forall ws, i: nat | |ws| == u.degree && i < u.degree ensures u.lane(u.load(ws), i) == ws[i] {
      Unit8Loads(o, ws, i);
    }
  }

  // ---------- sixteen lanes ----------

  type M512 = Quad<M128>

  function At16(v: M512, i: nat): u32 {
    At(At(v, i / 4), i % 4)
  }

  function Load16(ws: seq<u32>): M512 {
    if |ws| == 16 then Quad(Load4(ws[..4]), Load4(ws[4..8]), Load4(ws[8..12]), Load4(ws[12..]))
    else Set1(Set1(ZERO))
  }

  function Zip<T>(f: (T, T) -> T, a: Quad<T>, b: Quad<T>): Quad<T> {
    Quad(f(a.x0, b.x0), f(a.x1, b.x1), f(a.x2, b.x2), f(a.x3, b.x3))
  }

  /** The 512-bit unpacks stay inside each 128-bit lane. */
  function UnpackLo32x16(a: M512, b: M512): M512 { Zip(UnpackLo32, a, b) }

  function UnpackHi32x16(a: M512, b: M512): M512 { Zip(UnpackHi32, a, b) }

  function UnpackLo64x16(a: M512, b: M512): M512 { Zip(UnpackLo64, a, b) }

  function UnpackHi64x16(a: M512, b: M512): M512 { Zip(UnpackHi64, a, b) }

  /** `shuffle_i32x4` with 0x88 and with 0xdd. */
  function UnpackLo128(a: M512, b: M512): M512 { Quad(a.x0, a.x2, b.x0, b.x2) }

  function UnpackHi128(a: M512, b: M512): M512 { Quad(a.x1, a.x3, b.x1, b.x3) }

  /** The first two stages on four of the vectors. */
  function Interleaved16(a: M512, b: M512, c: M512, d: M512): Quad<M512> {
    var ab_0, ab_2 := UnpackLo32x16(a, b), UnpackHi32x16(a, b);
    var cd_0, cd_2 := UnpackLo32x16(c, d), UnpackHi32x16(c, d);
    Quad(UnpackLo64x16(ab_0, cd_0), UnpackHi64x16(ab_0, cd_0), UnpackLo64x16(ab_2, cd_2), UnpackHi64x16(ab_2, cd_2))
  }

  /** The third and the fourth stage, for vectors `k`, `k + 4`, `k + 8` and `k + 12`. */
  function Joined16(abcd: M512, efgh: M512, ijkl: M512, mnop: M512): Quad<M512> {
    var abcdefgh_0, abcdefgh_4 := UnpackLo128(abcd, efgh), UnpackHi128(abcd, efgh);
    var ijklmnop_0, ijklmnop_4 := UnpackLo128(ijkl, mnop), UnpackHi128(ijkl, mnop);
    Quad(UnpackLo128(abcdefgh_0, ijklmnop_0), UnpackLo128(abcdefgh_4, ijklmnop_4),
         UnpackHi128(abcdefgh_0, ijklmnop_0), UnpackHi128(abcdefgh_4, ijklmnop_4))
  }

  /** `transpose_vecs_512`. */
  function Transpose16(vecs: seq<M512>): seq<M512> {
    if |vecs| != 16 then vecs else seq(16, k requires 0 <= k < 16 => Vector16(vecs, k % 4, k / 4))
  }

  /** Output vector `m + 4 * j`. */
  function Vector16(vecs: seq<M512>, m: nat, j: nat): M512
    requires |vecs| == 16 && m < 4 && j < 4
  {
    var abcd := At(Interleaved16(vecs[0], vecs[1], vecs[2], vecs[3]), m);
    var efgh := At(Interleaved16(vecs[4], vecs[5], vecs[6], vecs[7]), m);
    var ijkl := At(Interleaved16(vecs[8], vecs[9], vecs[10], vecs[11]), m);
    var mnop := At(Interleaved16(vecs[12], vecs[13], vecs[14], vecs[15]), m);
    At(Joined16(abcd, efgh, ijkl, mnop), j)
  }

  function Unit16(o: Ops<u32>): Unit<M512> {
    Unit(16, QuadOps(QuadOps(o)), (v: M512, i: nat) => At16(v, i), (x: u32) => Set1(Set1(x)),
         (ws: seq<u32>) => Load16(ws), AndNotCounters(16), (vecs: seq<M512>) => Transpose16(vecs))
  }

  /** Word `m` of each of four vectors' 128-bit lanes. */
  function Gathered(a: M128, b: M128, c: M128, d: M128, m: nat): M128 {
    Quad(At(a, m), At(b, m), At(c, m), At(d, m))
  }

  lemma {:induction false} Interleaved16Is(a: M512, b: M512, c: M512, d: M512, m: nat)
    requires m < 4
    ensures At(Interleaved16(a, b, c, d), m)
         == Quad(Gathered(a.x0, b.x0, c.x0, d.x0, m), Gathered(a.x1, b.x1, c.x1, d.x1, m),
                 Gathered(a.x2, b.x2, c.x2, d.x2, m), Gathered(a.x3, b.x3, c.x3, d.x3, m))
  {
  }

  lemma {:induction false} Joined16Is(abcd: M512, efgh: M512, ijkl: M512, mnop: M512, j: nat)
    requires j < 4
    ensures At(Joined16(abcd, efgh, ijkl, mnop), j) == Quad(At(abcd, j), At(efgh, j), At(ijkl, j), At(mnop, j))
  {
  }

  lemma {:induction false} Vector16Is(vecs: seq<M512>, m: nat, j: nat)
    requires |vecs| == 16 && m < 4 && j < 4
    ensures Vector16(vecs, m, j)
            == Quad(Gathered(At(vecs[0], j), At(vecs[1], j), At(vecs[2], j), At(vecs[3], j), m),
                    Gathered(At(vecs[4], j), At(vecs[5], j), At(vecs[6], j), At(vecs[7], j), m),
                    Gathered(At(vecs[8], j), At(vecs[9], j), At(vecs[10], j), At(vecs[11], j), m),
                    Gathered(At(vecs[12], j), At(vecs[13], j), At(vecs[14], j), At(vecs[15], j), m))
  {
    Interleaved16Is(vecs[0], vecs[1], vecs[2], vecs[3], m);
    Interleaved16Is(vecs[4], vecs[5], vecs[6], vecs[7], m);
    Interleaved16Is(vecs[8], vecs[9], vecs[10], vecs[11], m);
    Interleaved16Is(vecs[12], vecs[13], vecs[14], vecs[15], m);
    Joined16Is(At(Interleaved16(vecs[0], vecs[1], vecs[2], vecs[3]), m),
               At(Interleaved16(vecs[4], vecs[5], vecs[6], vecs[7]), m),
               At(Interleaved16(vecs[8], vecs[9], vecs[10], vecs[11]), m),
               At(Interleaved16(vecs[12], vecs[13], vecs[14], vecs[15]), m), j);
  }

  lemma {:induction false} Transpose16Lane(vecs: seq<M512>, i: nat, m: nat, j: nat)
    requires |vecs| == 16 && i < 16 && m < 4 && j < 4
    ensures At16(Vector16(vecs, m, j), i) == At(At(vecs[i], j), m)
  {
    Vector16Is(vecs, m, j);
  }

  lemma {:induction false} Unit16Transposes(o: Ops<u32>)
    ensures Transposes(Unit16(o))
  {
    forall vs | |vs| == 16 ensures IsTransposed(Unit16(o), vs, Unit16(o).transpose(vs)) {
      Transpose16Lanes(o, vs, Transpose16(vs));
    }
  }

  lemma {:induction false} Transpose16Lanes(o: Ops<u32>, vs: seq<M512>, ts: seq<M512>)
    requires |vs| == 16 && ts == Transpose16(vs)
    ensures IsTransposed(Unit16(o), vs, ts)
  {
    forall i, k | 0 <= i < 16 && 0 <= k < 16 ensures At16(ts[k], i) == At16(vs[i], k) {
      Transpose16Lane(vs, i, k % 4, k / 4);
    }
  }

  lemma {:induction false} Composed<T(!new), U(!new), V(!new)>(
      f: T -> U, g: U -> V, h: T -> V, p: Ops<T>, q: Ops<U>, o: Ops<V>)
    requires Carries(f, p, q) && Carries(g, q, o) && forall v :: h(v) == g(f(v))
    ensures Carries(h, p, o)
  {
  }

  lemma {:induction false} Unit16Lane(o: Ops<u32>, i: nat)
    requires i < 16
    ensures Carries(LaneOf(Unit16(o), i), Unit16(o).ops, o)
  {
    var f := (v: M512) => At(v, i / 4);
    var g := (q: M128) => At(q, i % 4);
    QuadLaneCarries(QuadOps(o), f, i / 4);
    QuadLaneCarries(o, g, i % 4);
    Composed(f, g, LaneOf(Unit16(o), i), QuadOps(QuadOps(o)), QuadOps(o), o);
  }

  lemma {:induction false} Unit16Loads(ws: seq<u32>, i: nat)
    requires |ws| == 16 && i < 16
    ensures At16(Load16(ws), i) == ws[i]
  {
    var m := i % 4;
    if i < 4 {
      Load4At(ws[..4], m);
    } else if i < 8 {
      Load4At(ws[4..8], m);
    } else if i < 12 {
      Load4At(ws[8..12], m);
    } else {
      Load4At(ws[12..], m);
    }
  }

  lemma {:induction false} Load4At(ws: seq<u32>, m: nat)
    requires |ws| == 4 && m < 4
    ensures At(Load4(ws), m) == ws[m]
  {
  }

  lemma {:induction false} Unit16Ready(o: Ops<u32>)
    requires Swaps(o)
    ensures Ready(Unit16(o), o)
  {
    var u := Unit16(o);
    QuadsSwap(o);
    QuadsSwap(QuadOps(o));
    LoadersCount(16);
    Unit16Transposes(o);
    forall i: nat | i < 16 ensures Carries(LaneOf(u, i), u.ops, o) {
      Unit16Lane(o, i);
    }
    forall ws, i: nat | |ws| == u.degree && i < u.degree ensures u.lane(u.load(ws), i) == ws[i] {
      Unit16Loads(ws, i);
    }
  }

  // ---------- the units of the source ----------

  /** Every lane operates on words as the portable code does: by shifts in the Rust code,
      also by shuffling bytes in the C port, and by a rotate instruction with AVX-512. */
  lemma {:induction false} SourceUnitsReady()
    ensures Ready(Unit4(ShiftOps()), WordOps()) && Ready(Unit8(ShiftOps()), WordOps())
    ensures Ready(CUnit4(ShuffleOps()), WordOps()) && Ready(Unit16(WordOps()), WordOps())
  {
    WordsSwap();
    ShiftOpsAgree();
    ShuffleOpsAgree();
    AgreeingSwap(ShiftOps(), WordOps());
    AgreeingSwap(ShuffleOps(), WordOps());
    Unit4Ready(ShiftOps());
    Unit4Ready(ShuffleOps());
    Unit8Ready(ShiftOps());
    Unit16Ready(WordOps());
    ReadyAgrees(Unit4(ShiftOps()), ShiftOps(), WordOps());
    ReadyAgrees(Unit8(ShiftOps()), ShiftOps(), WordOps());
    ReadyAgrees(CUnit4(ShuffleOps()), ShuffleOps(), WordOps());
  }

  lemma {:induction false} ReadyAgrees<T(!new)>(u: Unit<T>, q: Ops<u32>, o: Ops<u32>)
    requires Ready(u, q) && Agree(q, o)
    ensures Ready(u, o)
  {
    AgreeingCarry(q, o);
    forall i: nat {:trigger LaneOf(u, i)} | i < u.degree ensures Carries(LaneOf(u, i), u.ops, o) {
      Composed(LaneOf(u, i), (x: u32) => x, LaneOf(u, i), u.ops, q, o);
    }
  }
}
