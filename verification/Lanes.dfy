/** Hashing several inputs at once: vector k of the state holds word k of every input,
    one lane each, so that mixing vectors mixes all the inputs in parallel. */
module Lanes {
  import opened Words
  import opened Blake3Tree
  import opened Arx
  import opened Portable
  import opened HashMany

  // ---------- one round, in place ----------

  method AddMessage<T(!new)>(o: Ops<T>, v: array<T>, m: Quad<T>)
    requires v.Length == 16
    modifies v
    ensures var s := old(StateOf(v[..])); StateOf(v[..]) == s.(r0 := QuadOps(o).add(s.r0, m))
  {
    v[0] := o.add(v[0], m.x0);
    v[1] := o.add(v[1], m.x1);
    v[2] := o.add(v[2], m.x2);
    v[3] := o.add(v[3], m.x3);
  }

  method RotateRow3<T(!new)>(rot: T -> T, v: array<T>)
    requires v.Length == 16
    modifies v
    ensures var s := old(StateOf(v[..])); StateOf(v[..]) == s.(r3 := MapQuad(rot, s.r3))
  {
    v[12] := rot(v[12]);
    v[13] := rot(v[13]);
    v[14] := rot(v[14]);
    v[15] := rot(v[15]);
  }

  method RotateRow1<T(!new)>(rot: T -> T, v: array<T>)
    requires v.Length == 16
    modifies v
    ensures var s := old(StateOf(v[..])); StateOf(v[..]) == s.(r1 := MapQuad(rot, s.r1))
  {
    v[4] := rot(v[4]);
    v[5] := rot(v[5]);
    v[6] := rot(v[6]);
    v[7] := rot(v[7]);
  }

  method AddColumns01<T(!new)>(o: Ops<T>, v: array<T>)
    requires v.Length == 16
    modifies v
    ensures var s := old(StateOf(v[..])); StateOf(v[..]) == s.(r0 := QuadOps(o).add(s.r0, s.r1))
  {
    v[0] := o.add(v[0], v[4]);
    v[1] := o.add(v[1], v[5]);
    v[2] := o.add(v[2], v[6]);
    v[3] := o.add(v[3], v[7]);
  }

  method XorColumns30<T(!new)>(o: Ops<T>, v: array<T>)
    requires v.Length == 16
    modifies v
    ensures var s := old(StateOf(v[..])); StateOf(v[..]) == s.(r3 := QuadOps(o).xor(s.r3, s.r0))
  {
    v[12] := o.xor(v[12], v[0]);
    v[13] := o.xor(v[13], v[1]);
    v[14] := o.xor(v[14], v[2]);
    v[15] := o.xor(v[15], v[3]);
  }

  method AddColumns23<T(!new)>(o: Ops<T>, v: array<T>)
    requires v.Length == 16
    modifies v
    ensures var s := old(StateOf(v[..])); StateOf(v[..]) == s.(r2 := QuadOps(o).add(s.r2, s.r3))
  {
    v[8] := o.add(v[8], v[12]);
    v[9] := o.add(v[9], v[13]);
    v[10] := o.add(v[10], v[14]);
    v[11] := o.add(v[11], v[15]);
  }

  method XorColumns12<T(!new)>(o: Ops<T>, v: array<T>)
    requires v.Length == 16
    modifies v
    ensures var s := old(StateOf(v[..])); StateOf(v[..]) == s.(r1 := QuadOps(o).xor(s.r1, s.r2))
  {
    v[4] := o.xor(v[4], v[8]);
    v[5] := o.xor(v[5], v[9]);
    v[6] := o.xor(v[6], v[10]);
    v[7] := o.xor(v[7], v[11]);
  }

  method AddDiagonals01<T(!new)>(o: Ops<T>, v: array<T>)
    requires v.Length == 16
    modifies v
    ensures var s := old(Diagonals(StateOf(v[..])));
            Diagonals(StateOf(v[..])) == s.(r0 := QuadOps(o).add(s.r0, s.r1))
  {
    v[0] := o.add(v[0], v[5]);
    v[1] := o.add(v[1], v[6]);
    v[2] := o.add(v[2], v[7]);
    v[3] := o.add(v[3], v[4]);
  }

  method XorDiagonals30<T(!new)>(o: Ops<T>, v: array<T>)
    requires v.Length == 16
    modifies v
    ensures var s := old(Diagonals(StateOf(v[..])));
            Diagonals(StateOf(v[..])) == s.(r3 := QuadOps(o).xor(s.r3, s.r0))
  {
    v[15] := o.xor(v[15], v[0]);
    v[12] := o.xor(v[12], v[1]);
    v[13] := o.xor(v[13], v[2]);
    v[14] := o.xor(v[14], v[3]);
  }

  method AddDiagonals23<T(!new)>(o: Ops<T>, v: array<T>)
    requires v.Length == 16
    modifies v
    ensures var s := old(Diagonals(StateOf(v[..])));
            Diagonals(StateOf(v[..])) == s.(r2 := QuadOps(o).add(s.r2, s.r3))
  {
    v[10] := o.add(v[10], v[15]);
    v[11] := o.add(v[11], v[12]);
    v[8] := o.add(v[8], v[13]);
    v[9] := o.add(v[9], v[14]);
  }

  method XorDiagonals12<T(!new)>(o: Ops<T>, v: array<T>)
    requires v.Length == 16
    modifies v
    ensures var s := old(Diagonals(StateOf(v[..])));
            Diagonals(StateOf(v[..])) == s.(r1 := QuadOps(o).xor(s.r1, s.r2))
  {
    v[5] := o.xor(v[5], v[10]);
    v[6] := o.xor(v[6], v[11]);
    v[7] := o.xor(v[7], v[8]);
    v[4] := o.xor(v[4], v[9]);
  }

  /** Rotating every word of a row is the same for columns and diagonals. */
  lemma {:induction false} RotationsTurn<T(!new)>(rot: T -> T, s: State<T>)
    ensures Diagonals(s.(r3 := MapQuad(rot, s.r3))) == Diagonals(s).(r3 := MapQuad(rot, Diagonals(s).r3))
    ensures Diagonals(s.(r1 := MapQuad(rot, s.r1))) == Diagonals(s).(r1 := MapQuad(rot, Diagonals(s).r1))
  {
  }

  method MixColumnsOf<T(!new)>(o: Ops<T>, v: array<T>, x: Quad<T>, y: Quad<T>)
    requires Swaps(o) && v.Length == 16
    modifies v
    ensures StateOf(v[..]) == MixColumns(SecondHalf(o), MixColumns(FirstHalf(o), old(StateOf(v[..])), x), y)
  {
    RowsMix(o, StateOf(v[..]), x);
    AddMessage(o, v, x);
    AddColumns01(o, v);
    XorColumns30(o, v);
    RotateRow3(o.rot16, v);
    AddColumns23(o, v);
    XorColumns12(o, v);
    RotateRow1(o.rot12, v);
    RowsMix(o, StateOf(v[..]), y);
    AddMessage(o, v, y);
    AddColumns01(o, v);
    XorColumns30(o, v);
    RotateRow3(o.rot8, v);
    AddColumns23(o, v);
    XorColumns12(o, v);
    RotateRow1(o.rot7, v);
  }

  method MixDiagonalsOf<T(!new)>(o: Ops<T>, v: array<T>, x: Quad<T>, y: Quad<T>)
    requires Swaps(o) && v.Length == 16
    modifies v
    ensures Diagonals(StateOf(v[..]))
         == MixColumns(SecondHalf(o), MixColumns(FirstHalf(o), old(Diagonals(StateOf(v[..]))), x), y)
  {
    RowsMix(o, Diagonals(StateOf(v[..])), x);
    AddMessage(o, v, x);
    AddDiagonals01(o, v);
    XorDiagonals30(o, v);
    RotationsTurn(o.rot16, StateOf(v[..]));
    RotateRow3(o.rot16, v);
    AddDiagonals23(o, v);
    XorDiagonals12(o, v);
    RotationsTurn(o.rot12, StateOf(v[..]));
    RotateRow1(o.rot12, v);
    RowsMix(o, Diagonals(StateOf(v[..])), y);
    AddMessage(o, v, y);
    AddDiagonals01(o, v);
    XorDiagonals30(o, v);
    RotationsTurn(o.rot8, StateOf(v[..]));
    RotateRow3(o.rot8, v);
    AddDiagonals23(o, v);
    XorDiagonals12(o, v);
    RotationsTurn(o.rot7, StateOf(v[..]));
    RotateRow1(o.rot7, v);
  }

  /** `round`, on vectors. */
  method RoundInPlace<T(!new)>(o: Ops<T>, v: array<T>, m: seq<T>, r: nat)
    requires Swaps(o) && v.Length == 16 && |m| == 16 && r < ROUNDS
    modifies v
    ensures StateOf(v[..]) == OpsRound(o)(old(StateOf(v[..])), Scheduled(m, r))
  {
    var k := Scheduled(m, r);
    MixColumnsOf(o, v, k.m0, k.m1);
    MixDiagonalsOf(o, v, k.m2, k.m3);
    UndoDiagonals(StateOf(v[..]));
  }

  lemma {:induction false} UndoDiagonals<T>(s: State<T>)
    ensures Undo(Diagonals(s)) == s
  {
  }

  method AllRounds<T(!new)>(o: Ops<T>, v: array<T>, m: seq<T>)
    requires Swaps(o) && v.Length == 16 && |m| == 16
    modifies v
    ensures StateOf(v[..]) == Rounds(OpsRound(o), old(StateOf(v[..])), m, ROUNDS)
  {
    ghost var start := StateOf(v[..]);
    NoRounds(OpsRound(o), start, m);
    NextRound(o, v, m, 0, start);
    NextRound(o, v, m, 1, start);
    NextRound(o, v, m, 2, start);
    NextRound(o, v, m, 3, start);
    NextRound(o, v, m, 4, start);
    NextRound(o, v, m, 5, start);
    NextRound(o, v, m, 6, start);
  }

  method NextRound<T(!new)>(o: Ops<T>, v: array<T>, m: seq<T>, r: nat, ghost start: State<T>)
    requires Swaps(o) && v.Length == 16 && |m| == 16 && r < ROUNDS
    requires StateOf(v[..]) == Rounds(OpsRound(o), start, m, r)
    modifies v
    ensures StateOf(v[..]) == Rounds(OpsRound(o), start, m, r + 1)
  {
    RoundInPlace(o, v, m, r);
    OneMoreRound(OpsRound(o), start, m, r);
  }

  // ---------- kinds of vectors ----------

  /** The low and the high words of all the lanes' counters. */
  type Loader = (bool, nat) -> (seq<u32>, seq<u32>)

  /** A kind of vector: how many lanes it has, how to read and make one, how counters are
      loaded, and how a square of vectors is transposed. */
  datatype Unit<!T> = Unit(
    degree: nat, ops: Ops<T>, lane: (T, nat) -> u32, set1: u32 -> T, load: seq<u32> -> T,
    counters: Loader, transpose: seq<T> -> seq<T>)

  /** The counter of lane `i` of a group that begins with `counter`. */
  function LaneCounter(increment: bool, counter: nat, i: nat): nat {
    if increment then counter + i else counter
  }

  /** Whether these words are the words of every lane's counter. */
  ghost predicate AreCounters(words: (seq<u32>, seq<u32>), degree: nat, increment: bool, counter: nat) {
    && |words.0| == |words.1| == degree
    && forall i: nat | i < degree ::
         && words.0[i] == CounterLow(LaneCounter(increment, counter, i))
         && words.1[i] == CounterHigh(LaneCounter(increment, counter, i))
  }

  ghost predicate Counts(loader: Loader, degree: nat) {
    forall increment, counter: nat :: AreCounters(loader(increment, counter), degree, increment, counter)
  }

  function LaneOf<T(!new)>(u: Unit<T>, i: nat): T -> u32 {
    (v: T) => u.lane(v, i)
  }

  /** Word `k` of vector `i` moves to word `i` of vector `k`. */
  ghost predicate IsTransposed<T(!new)>(u: Unit<T>, vs: seq<T>, ts: seq<T>)
    requires |vs| == u.degree
  {
    && |ts| == u.degree
    && forall i, k {:trigger u.lane(ts[k], i)} | 0 <= i < u.degree && 0 <= k < u.degree ::
         u.lane(ts[k], i) == u.lane(vs[i], k)
  }

  ghost predicate Transposes<T(!new)>(u: Unit<T>) {
    forall vs | |vs| == u.degree :: IsTransposed(u, vs, u.transpose(vs))
  }

  /** The vector operations act lane by lane on words that `o` operates on. */
  ghost predicate Works<T(!new)>(u: Unit<T>, o: Ops<u32>) {
    && Swaps(u.ops) && Counts(u.counters, u.degree)
    && (forall i: nat {:trigger LaneOf(u, i)} | i < u.degree :: Carries(LaneOf(u, i), u.ops, o))
    && (forall x, i: nat | i < u.degree :: u.lane(u.set1(x), i) == x)
    && (forall ws, i: nat | |ws| == u.degree && i < u.degree :: u.lane(u.load(ws), i) == ws[i])
  }

  /** Compressing vectors compresses each lane. */
  lemma {:induction false} LaneCompresses<T(!new)>(
      h: T -> u32, p: Ops<T>, o: Ops<u32>, v0: seq<T>, msg: seq<T>, v: seq<T>,
      cv: CVWords, block: Block, blockLen: nat, counter: nat, flags: u8)
    requires Carries(h, p, o) && |v0| == |msg| == |v| == 16
    requires MapState(h, StateOf(v0)) == Start(cv, blockLen, counter, flags)
    requires MapWords(h, msg) == WordsFromBytes(block)
    requires StateOf(v) == Rounds(OpsRound(p), StateOf(v0), msg, ROUNDS)
    ensures MapWords(h, v) == Flat(FinalState(o, cv, block, blockLen, counter, flags))
  {
    RoundIsCarried(h, p, o);
    RoundsCarry(h, OpsRound(p), OpsRound(o), StateOf(v0), msg, ROUNDS);
    FlatCarries(h, v);
  }

  lemma {:induction false} FlatCarries<T(!new)>(h: T -> u32, v: seq<T>)
    requires |v| == 16
    ensures MapWords(h, v) == Flat(MapState(h, StateOf(v)))
  {
  }

  /** The starting state of lane `i`. */
  lemma {:induction false} LaneStarts<T(!new)>(
      u: Unit<T>, o: Ops<u32>, cvs: seq<T>, low: T, high: T, len: nat, flags: u8, i: nat, counter: nat)
    requires Works(u, o) && |cvs| == 8 && i < u.degree
    requires u.lane(low, i) == CounterLow(counter) && u.lane(high, i) == CounterHigh(counter)
    ensures MapState(LaneOf(u, i), StateOf(StartVectors(u, cvs, low, high, len, flags)))
         == Start(MapWords(LaneOf(u, i), cvs), len, counter, flags)
  {
  }

  function StartVectors<T(!new)>(u: Unit<T>, cvs: seq<T>, low: T, high: T, len: nat, flags: u8): (v: seq<T>)
    requires |cvs| == 8
    ensures |v| == 16
  {
    [cvs[0], cvs[1], cvs[2], cvs[3], cvs[4], cvs[5], cvs[6], cvs[7],
     u.set1(IV0), u.set1(IV1), u.set1(IV2), u.set1(IV3), low, high, u.set1(BlockLenWord(len)), u.set1(flags as u32)]
  }

  /** Xoring the halves of the state, on vectors. */
  function NextVectors<T(!new)>(o: Ops<T>, v: seq<T>): (h: seq<T>)
    requires |v| == 16
    ensures |h| == 8
  {
    seq(8, k requires 0 <= k < 8 => o.xor(v[k], v[k + 8]))
  }

  lemma {:induction false} NextVectorsCarry<T(!new)>(h: T -> u32, p: Ops<T>, o: Ops<u32>, v: seq<T>)
    requires Carries(h, p, o) && |v| == 16
    ensures MapWords(h, NextVectors(p, v)) == NextCv(o, MapWords(h, v))
  {
  }
}
