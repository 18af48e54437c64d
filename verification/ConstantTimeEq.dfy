/** Comparing byte strings a word or a vector at a time, without stopping early. */
module ConstantTimeEq {
  import opened Words

  /** A machine word, as its bytes with the least significant first. */
  type Word = seq<u8>

  predicate IsZero(w: Word) {
    forall i | 0 <= i < |w| :: w[i] == 0
  }

  function Zero(width: nat): (w: Word)
    ensures |w| == width && IsZero(w)
  {
    seq(width, i => 0)
  }

  function Xor(a: Word, b: Word): (w: Word)
    requires |a| == |b|
    ensures |w| == |a| && forall i | 0 <= i < |w| :: w[i] == a[i] ^ b[i]
  {
    seq(|a|, i requires 0 <= i < |a| => a[i] ^ b[i])
  }

  function Or(a: Word, b: Word): (w: Word)
    requires |a| == |b|
    ensures |w| == |a| && forall i | 0 <= i < |w| :: w[i] == a[i] | b[i]
  {
    seq(|a|, i requires 0 <= i < |a| => a[i] | b[i])
  }

  /** A cast to a word of `width` bytes, which pads with zeros or truncates. */
  function Cast(w: Word, width: nat): (r: Word)
    ensures |r| == width && forall i | 0 <= i < width :: r[i] == if i < |w| then w[i] else 0
  {
    seq(width, i requires 0 <= i < width => if i < |w| then w[i] else 0)
  }

  lemma {:induction false} XorByte(a: u8, b: u8)
    ensures a ^ b == 0 <==> a == b
  {
  }

  lemma {:induction false} OrByte(a: u8, b: u8)
    ensures a | b == 0 <==> a == 0 && b == 0
  {
  }

  lemma {:induction false} XorIsZero(a: Word, b: Word)
    requires |a| == |b|
    ensures IsZero(Xor(a, b)) <==> a == b
  {
    forall i | 0 <= i < |a| ensures Xor(a, b)[i] == 0 <==> a[i] == b[i] {
      XorByte(a[i], b[i]);
    }
    if IsZero(Xor(a, b)) {
      assert forall i | 0 <= i < |a| :: Xor(a, b)[i] == 0 && a[i] == b[i];
    }
  }

  lemma {:induction false} OrIsZero(a: Word, b: Word)
    requires |a| == |b|
    ensures IsZero(Or(a, b)) <==> IsZero(a) && IsZero(b)
  {
    forall i | 0 <= i < |a| ensures Or(a, b)[i] == 0 <==> a[i] == 0 && b[i] == 0 {
      OrByte(a[i], b[i]);
    }
    if IsZero(Or(a, b)) {
      assert forall i | 0 <= i < |a| :: Or(a, b)[i] == 0 && a[i] == 0 && b[i] == 0;
    }
  }

  /** Casting to a word that is wide enough loses no difference. */
  lemma {:induction false} CastIsZero(w: Word, width: nat)
    requires |w| <= width
    ensures IsZero(Cast(w, width)) <==> IsZero(w)
  {
    if IsZero(Cast(w, width)) {
      assert forall i | 0 <= i < |w| :: Cast(w, width)[i] == w[i];
    }
  }

  /** A narrower word can lose one. */
  lemma {:induction false} NarrowCastCanLose()
    ensures IsZero(Cast([0, 1], 1)) && !IsZero([0, 1])
  {
    var w: Word := [0, 1];
    assert w[1] == 1;
  }

  // ---------- a word at a time ----------

  /** Compares the first `n` bytes and moves past them. */
  method CmpStep(n: nat, a: seq<u8>, b: seq<u8>) returns (cmp: Word, a': seq<u8>, b': seq<u8>)
    requires n <= |a| == |b|
    ensures |cmp| == n && |a'| == |b'| == |a| - n
    ensures a == b <==> IsZero(cmp) && a' == b'
  {
    cmp := Xor(a[..n], b[..n]);
    a', b' := a[n..], b[n..];
    XorIsZero(a[..n], b[..n]);
    assert a == a[..n] + a' && b == b[..n] + b';
  }

  /** A step with `n`-byte words, whose result goes into the accumulator. */
  method Accumulate(n: nat, a: seq<u8>, b: seq<u8>, tmp: Word) returns (a': seq<u8>, b': seq<u8>, tmp': Word)
    requires n <= |a| == |b| && n <= |tmp|
    ensures |a'| == |b'| == |a| - n && |tmp'| == |tmp|
    ensures a == b && IsZero(tmp) <==> a' == b' && IsZero(tmp')
  {
    var cmp;
    cmp, a', b' := CmpStep(n, a, b);
    CastIsZero(cmp, |tmp|);
    OrIsZero(tmp, Cast(cmp, |tmp|));
    tmp' := Or(tmp, Cast(cmp, |tmp|));
  }

  /** `constant_time_eq_impl`, for words of any size: the byte strings are equal and the
      accumulator is zero.  No step with a word wider than the accumulator is reached. */
  method ConstantTimeEqImpl(a0: seq<u8>, b0: seq<u8>, tmp0: Word) returns (equal: bool)
    requires |tmp0| == 1 || |tmp0| == 2 || |tmp0| == 4 || |tmp0| == 8 || |tmp0| == 16 || |tmp0| == 32
    ensures equal <==> a0 == b0 && IsZero(tmp0)
  {
    if |a0| != |b0| {
      return false;
    }
    if a0 == [] {
      return tmp0 == Zero(|tmp0|);
    }
    var a, b, tmp := a0, b0, tmp0;
    while |a| >= |tmp|
      invariant |a| == |b| && |tmp| == |tmp0|
      invariant a == b && IsZero(tmp) <==> a0 == b0 && IsZero(tmp0)
    {
      a, b, tmp := Accumulate(|tmp|, a, b, tmp);
    }
    while |a| >= 16
      invariant |a| == |b| && |a| < |tmp| == |tmp0|
      invariant a == b && IsZero(tmp) <==> a0 == b0 && IsZero(tmp0)
    {
      a, b, tmp := Accumulate(16, a, b, tmp);
    }
    if |a| >= 8 {
      a, b, tmp := Accumulate(8, a, b, tmp);
    }
    if |a| >= 4 {
      a, b, tmp := Accumulate(4, a, b, tmp);
    }
    if |a| >= 2 {
      a, b, tmp := Accumulate(2, a, b, tmp);
    }
    if |a| >= 1 {
      a, b, tmp := Accumulate(1, a, b, tmp);
    }
    equal := tmp == Zero(|tmp|);
  }

  // ---------- sixteen lanes at a time ----------

  const LANES := 16

  type Vector = v: seq<u8> | |v| == LANES witness seq(LANES, i => 0)

  /** `cmpeq_epi8` and `vceqq_u8`: all ones in the lanes that are equal. */
  function CmpEq(a: Vector, b: Vector): (v: Vector)
    ensures forall i | 0 <= i < LANES :: v[i] == if a[i] == b[i] then 0xFF else 0
  {
    seq(LANES, i requires 0 <= i < LANES => if a[i] == b[i] then 0xFF else 0)
  }

  /** `and_si128` and `vandq_u8`. */
  function And(a: Vector, b: Vector): (v: Vector)
    ensures forall i | 0 <= i < LANES :: v[i] == a[i] & b[i]
  {
    seq(LANES, i requires 0 <= i < LANES => a[i] & b[i])
  }

  predicate IsMask(v: Vector) {
    forall i | 0 <= i < LANES :: v[i] == 0 || v[i] == 0xFF
  }

  predicate AllOnes(v: Vector) {
    forall i | 0 <= i < LANES :: v[i] == 0xFF
  }

  lemma {:induction false} CmpEqMask(a: Vector, b: Vector)
    ensures IsMask(CmpEq(a, b)) && (AllOnes(CmpEq(a, b)) <==> a == b)
  {
    if AllOnes(CmpEq(a, b)) {
      forall i | 0 <= i < LANES ensures a[i] == b[i] {
        assert CmpEq(a, b)[i] == 0xFF;
      }
    }
  }

  lemma {:induction false} AndMask(a: Vector, b: Vector)
    requires IsMask(a) && IsMask(b)
    ensures IsMask(And(a, b)) && (AllOnes(And(a, b)) <==> AllOnes(a) && AllOnes(b))
  {
    if AllOnes(And(a, b)) {
      forall i | 0 <= i < LANES ensures a[i] == 0xFF && b[i] == 0xFF {
        assert And(a, b)[i] == 0xFF;
      }
    }
  }

  /** One step over a pair of vectors: both masks so far, and the rest of the input. */
  ghost predicate Compared(a0: seq<u8>, b0: seq<u8>, a: seq<u8>, b: seq<u8>, mask0: Vector, mask1: Vector) {
    && |a| == |b| && IsMask(mask0) && IsMask(mask1)
    && (a == b && AllOnes(mask0) && AllOnes(mask1) <==> a0 == b0)
  }

  lemma {:induction false} SplitsEqual(a: seq<u8>, b: seq<u8>, n: nat)
    requires n <= |a| == |b|
    ensures a == b <==> a[..n] == b[..n] && a[n..] == b[n..]
  {
    assert a == a[..n] + a[n..] && b == b[..n] + b[n..];
  }

  /** Compares vectors as long as there are any, two at a time, and the last one into the
      first mask. */
  method CompareVectors(a0: seq<u8>, b0: seq<u8>) returns (a: seq<u8>, b: seq<u8>, mask: Vector)
    requires |a0| == |b0| >= LANES
    ensures |a| == |b| < LANES && IsMask(mask)
    ensures a == b && AllOnes(mask) <==> a0 == b0
  {
    a, b := a0, b0;
    if |a| >= LANES * 2 {
      var mask0, mask1;
      a, b, mask0, mask1 := CompareTwo(a, b);
      while |a| >= LANES * 2
        invariant Compared(a0, b0, a, b, mask0, mask1)
      {
        var tmp0, tmp1;
        a, b, tmp0, tmp1 := CompareTwo(a, b);
        AndMask(mask0, tmp0);
        AndMask(mask1, tmp1);
        mask0 := And(mask0, tmp0);
        mask1 := And(mask1, tmp1);
      }
      if |a| >= LANES {
        var tmp;
        a, b, tmp := CompareOne(a, b);
        AndMask(mask0, tmp);
        mask0 := And(mask0, tmp);
      }
      AndMask(mask0, mask1);
      mask := And(mask0, mask1);
    } else {
      a, b, mask := CompareOne(a, b);
    }
  }

  method CompareOne(a: seq<u8>, b: seq<u8>) returns (a': seq<u8>, b': seq<u8>, mask: Vector)
    requires |a| == |b| >= LANES
    ensures |a'| == |b'| == |a| - LANES && IsMask(mask)
    ensures a' == b' && AllOnes(mask) <==> a == b
  {
    var tmpa, tmpb := a[..LANES], b[..LANES];
    SplitsEqual(a, b, LANES);
    a', b' := a[LANES..], b[LANES..];
    CmpEqMask(tmpa, tmpb);
    mask := CmpEq(tmpa, tmpb);
  }

  method CompareTwo(a: seq<u8>, b: seq<u8>) returns (a': seq<u8>, b': seq<u8>, mask0: Vector, mask1: Vector)
    requires |a| == |b| >= LANES * 2
    ensures |a'| == |a| - LANES * 2 && Compared(a, b, a', b', mask0, mask1)
  {
    a', b', mask0 := CompareOne(a, b);
    a', b', mask1 := CompareOne(a', b');
  }

  // ---------- SSE2 ----------

  /** The topmost bit of a byte. */
  function TopBit(x: u8): u32 {
    ((x >> 7) & 1) as u32
  }

  /** `movemask_epi8`: the topmost bits of all lanes. */
  function MoveMask(v: Vector): u32 {
    TopBit(v[0]) | (TopBit(v[1]) << 1) | (TopBit(v[2]) << 2) | (TopBit(v[3]) << 3)
    | (TopBit(v[4]) << 4) | (TopBit(v[5]) << 5) | (TopBit(v[6]) << 6) | (TopBit(v[7]) << 7)
    | (TopBit(v[8]) << 8) | (TopBit(v[9]) << 9) | (TopBit(v[10]) << 10) | (TopBit(v[11]) << 11)
    | (TopBit(v[12]) << 12) | (TopBit(v[13]) << 13) | (TopBit(v[14]) << 14) | (TopBit(v[15]) << 15)
  }

  lemma {:induction false} MoveMaskIsFull(v: Vector)
    requires IsMask(v)
    ensures MoveMask(v) ^ 0xFFFF == 0 <==> AllOnes(v)
  {
  }

  /** `constant_time_eq_sse2`, with words of four or eight bytes. */
  method ConstantTimeEqSse2(a: seq<u8>, b: seq<u8>, width: nat) returns (equal: bool)
    requires width == 4 || width == 8
    ensures equal <==> a == b
  {
    if |a| != |b| {
      return false;
    }
    var a', b', tmp := a, b, 0;
    if |a| >= LANES {
      var mask;
      a', b', mask := CompareVectors(a, b);
      MoveMaskIsFull(mask);
      tmp := MoveMask(mask) ^ 0xFFFF;
    }
    WordBytesZero(tmp);
    CastIsZero(BytesFromWords([tmp]), width);
    equal := ConstantTimeEqImpl(a', b', Cast(BytesFromWords([tmp]), width));
  }

  lemma {:induction false} WordBytesZero(w: u32)
    ensures IsZero(BytesFromWords([w])) <==> w == 0
  {
    var bytes := BytesFromWords([w]);
    assert bytes[0] == ByteOf(w, 0) && bytes[1] == ByteOf(w, 1) && bytes[2] == ByteOf(w, 2) && bytes[3] == ByteOf(w, 3);
    ZeroBytes(w);
  }

  lemma {:induction false} ZeroBytes(w: u32)
    ensures w == 0 <==> ByteOf(w, 0) == 0 && ByteOf(w, 1) == 0 && ByteOf(w, 2) == 0 && ByteOf(w, 3) == 0
  {
  }

  // ---------- NEON ----------

  /** `get_mask_u64`: shifting each pair of lanes right by four and narrowing leaves half
      a byte of every lane. */
  function GetMask(v: Vector): (w: Word)
    ensures |w| == 8 && forall k | 0 <= k < 8 :: w[k] == Narrowed(v[2 * k], v[2 * k + 1])
  {
    seq(8, k requires 0 <= k < 8 => Narrowed(v[2 * k], v[2 * k + 1]))
  }

  /** `shrn` by four on one pair of lanes. */
  function Narrowed(low: u8, high: u8): u8 {
    (low >> 4) | (high << 4)
  }

  function Not(w: Word): (r: Word)
    ensures |r| == |w| && forall i | 0 <= i < |w| :: r[i] == w[i] ^ 0xFF
  {
    seq(|w|, i requires 0 <= i < |w| => w[i] ^ 0xFF)
  }

  lemma {:induction false} HalfBytes(low: u8, high: u8)
    requires (low == 0 || low == 0xFF) && (high == 0 || high == 0xFF)
    ensures Narrowed(low, high) ^ 0xFF == 0 <==> low == 0xFF && high == 0xFF
  {
  }

  lemma {:induction false} GetMaskIsFull(v: Vector)
    requires IsMask(v)
    ensures IsZero(Not(GetMask(v))) <==> AllOnes(v)
  {
    var w := Not(GetMask(v));
    forall k | 0 <= k < 8 ensures w[k] == 0 <==> v[2 * k] == 0xFF && v[2 * k + 1] == 0xFF {
      HalfBytes(v[2 * k], v[2 * k + 1]);
    }
    if IsZero(w) {
      forall i | 0 <= i < LANES ensures v[i] == 0xFF {
        assert w[i / 2] == 0;
      }
    }
  }

  /** `constant_time_eq_neon`, with words of eight bytes. */
  method ConstantTimeEqNeon(a: seq<u8>, b: seq<u8>) returns (equal: bool)
    ensures equal <==> a == b
  {
    if |a| != |b| {
      return false;
    }
    var a', b', tmp := a, b, Zero(8);
    if |a| >= LANES {
      var mask;
      a', b', mask := CompareVectors(a, b);
      GetMaskIsFull(mask);
      tmp := Not(GetMask(mask));
    }
    equal := ConstantTimeEqImpl(a', b', tmp);
  }
}
