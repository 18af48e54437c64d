/** Powers of two and the bits of a natural number.

    The unsigned machine words of the hashing code are natural numbers here, and
    their bit operations are defined by halving.  Everything is phrased with
    division by the constant 2, so that alignment (divisibility by a power of
    two) needs no multiplication of two variables. */
module Bits {
  import opened Sequences

  /** Holds of 1, 2, 4, 8, ... */
  predicate IsPow2(n: nat) {
    n == 1 || (n >= 2 && n % 2 == 0 && IsPow2(n / 2))
  }

  /** For a power of two `q`: `q` divides `n`. */
  predicate Aligned(q: nat, n: nat) {
    q <= 1 || (n % 2 == 0 && Aligned(q / 2, n / 2))
  }

  /** The number of one bits: `u64::count_ones`. */
  function CountOnes(n: nat): nat {
    if n == 0 then 0 else n % 2 + CountOnes(n / 2)
  }

  /** The bitwise `&` of two unsigned words. */
  function BitAnd(a: nat, b: nat): nat {
    if a == 0 || b == 0 then 0
    else 2 * BitAnd(a / 2, b / 2) + (if a % 2 == 1 && b % 2 == 1 then 1 else 0)
  }

  /** `usize::next_power_of_two`: the least power of two that is at least `n`. */
  function NextPowerOfTwo(n: nat): (p: nat)
    ensures IsPow2(p) && n <= p && (n >= 1 ==> p < 2 * n)
  {
    if n <= 1 then 1 else 2 * NextPowerOfTwo((n + 1) / 2)
  }

  /** How many of `n >= 2` leaves go to the left child of a left-full tree: the
      largest power of two that leaves at least one leaf on the right. */
  function LeftCount(n: nat): (p: nat)
    requires n >= 2
    ensures IsPow2(p) && p < n <= 2 * p
  {
    if n == 2 then 1 else 2 * LeftCount((n + 1) / 2)
  }

  // ---------- powers of two ----------

  lemma {:induction false} Pow2Gap(p: nat, q: nat)
    requires IsPow2(p) && IsPow2(q) && p < q
    ensures 2 * p <= q
  {
    if p > 1 { Pow2Gap(p / 2, q / 2); }
  }

  /** A number lies in the half-open octave of only one power of two. */
  lemma {:induction false} Pow2Unique(p: nat, q: nat, n: nat)
    requires IsPow2(p) && IsPow2(q)
    requires p < n <= 2 * p && q < n <= 2 * q
    ensures p == q
  {
    if p < q { Pow2Gap(p, q); }
    if q < p { Pow2Gap(q, p); }
  }

  lemma {:induction false} LeftCountIs(n: nat, p: nat)
    requires IsPow2(p) && p < n <= 2 * p
    ensures n >= 2 && LeftCount(n) == p
  {
    Pow2Unique(p, LeftCount(n), n);
  }

  /** `largest_power_of_two_leq` of the Rust code. */
  function LargestPowerOfTwoLeq(n: nat): (p: nat)
    ensures IsPow2(p) && p <= (if n == 0 then 1 else n) < 2 * p
  {
    NextPowerOfTwo(n / 2 + 1)
  }

  // ---------- alignment ----------

  lemma {:induction false} AlignedSum(q: nat, a: nat, b: nat)
    requires Aligned(q, a) && Aligned(q, b)
    ensures Aligned(q, a + b)
    ensures a <= b ==> Aligned(q, b - a)
  {
    if q > 1 {
      AlignedSum(q / 2, a / 2, b / 2);
      assert (a + b) / 2 == a / 2 + b / 2;
      assert a <= b ==> (b - a) / 2 == b / 2 - a / 2;
    }
  }

  lemma {:induction false} AlignedPow2(q: nat, p: nat)
    requires IsPow2(q) && IsPow2(p) && q <= p
    ensures Aligned(q, p)
  {
    if q > 1 { AlignedPow2(q / 2, p / 2); }
  }

  lemma {:induction false} AlignedWeaken(q: nat, n: nat)
    requires IsPow2(q) && Aligned(2 * q, n)
    ensures Aligned(q, n)
  {
    if q > 1 { AlignedWeaken(q / 2, n / 2); }
  }

  lemma {:induction false} AlignedTo(r: nat, q: nat, n: nat)
    requires IsPow2(q) && IsPow2(r) && r <= q && Aligned(q, n)
    ensures Aligned(r, n)
  {
    if r > 1 { AlignedTo(r / 2, q / 2, n / 2); }
  }

  /** Two different multiples of `q` are at least `q` apart. */
  lemma {:induction false} AlignedGap(q: nat, a: nat, b: nat)
    requires IsPow2(q) && Aligned(q, a) && Aligned(q, b) && a < b
    ensures a + q <= b
  {
    if q > 1 { AlignedGap(q / 2, a / 2, b / 2); }
  }

  /** If `q` divides `n` but `2q` does not, then bit `q` of `n` is set. */
  lemma {:induction false} AlignedLowBit(q: nat, n: nat)
    requires IsPow2(q) && Aligned(q, n) && !Aligned(2 * q, n)
    ensures q <= n && Aligned(2 * q, n - q)
  {
    if q > 1 {
      AlignedLowBit(q / 2, n / 2);
      assert (n - q) / 2 == n / 2 - q / 2;
    } else {
      assert Aligned(1, n / 2) && Aligned(1, (n - 1) / 2);
    }
  }

  /** `Aligned` is divisibility. */
  lemma {:induction false} AlignedIsModulo(q: nat, n: nat)
    requires IsPow2(q)
    ensures Aligned(q, n) <==> n % q == 0
  {
    if q > 1 {
      var h, m := q / 2, n / 2;
      AlignedIsModulo(h, m);
      DivMod(m, h);
      DoubleTimes(h, m / h);
      ModuloIs(n, q, m / h, 2 * (m % h) + n % 2);
    }
  }

  lemma {:induction false} DivMod(m: nat, h: nat)
    requires h > 0
    ensures 0 <= m / h && 0 <= m % h < h && m == h * (m / h) + m % h
  {
  }

  lemma {:induction false} DoubleTimes(h: nat, k: nat)
    ensures (2 * h) * k == 2 * (h * k)
  {
  }

  lemma {:induction false} ModuloIs(n: nat, q: nat, k: nat, t: nat)
    requires q > 0 && n == q * k + t && t < q
    ensures n % q == t
  {
    var k', t' := n / q, n % q;
    assert n == q * k' + t';
    if k < k' { MulStep(q, k, k'); }
    if k' < k { MulStep(q, k', k); }
  }

  lemma {:induction false} MulStep(q: nat, a: nat, b: nat)
    requires a < b
    ensures q * a + q <= q * b
  {
    assert q * b == q * (b - 1) + q;
    if a < b - 1 { MulStep(q, a, b - 1); }
  }

  /** Masking with `q - 1` tests divisibility by `q`. */
  lemma {:induction false} MaskTestsAlignment(q: nat, n: nat)
    requires IsPow2(q)
    ensures BitAnd(q - 1, n) == 0 <==> Aligned(q, n)
  {
    if q > 1 && n > 0 {
      MaskTestsAlignment(q / 2, n / 2);
      assert (q - 1) / 2 == q / 2 - 1;
    } else if n == 0 {
      AlignedZero(q);
    }
  }

  lemma {:induction false} AlignedZero(q: nat)
    ensures Aligned(q, 0)
  {
    if q > 1 { AlignedZero(q / 2); }
  }

  // ---------- counting ones ----------

  /** Adding a power of two below every set bit sets one more bit. */
  lemma {:induction false} CountOnesSetBit(n: nat, q: nat)
    requires IsPow2(q) && Aligned(2 * q, n)
    ensures CountOnes(n + q) == CountOnes(n) + 1
  {
    if q > 1 {
      CountOnesSetBit(n / 2, q / 2);
      assert (n + q) / 2 == n / 2 + q / 2;
    } else {
      assert (n + 1) / 2 == n / 2;
    }
  }

  /** Adding a power of two above every set bit sets one more bit. */
  lemma {:induction false} CountOnesHighBit(n: nat, p: nat)
    requires IsPow2(p) && n < p
    ensures CountOnes(n + p) == CountOnes(n) + 1
  {
    if p > 1 {
      CountOnesHighBit(n / 2, p / 2);
      assert (n + p) / 2 == n / 2 + p / 2;
    }
  }

  /** Adding a power of two sets at most one more bit. */
  lemma {:induction false} CountOnesAddPow2(n: nat, q: nat)
    requires IsPow2(q)
    ensures 1 <= CountOnes(n + q) <= CountOnes(n) + 1
  {
    if q > 1 {
      CountOnesAddPow2(n / 2, q / 2);
      assert (n + q) / 2 == n / 2 + q / 2;
    } else {
      CountOnesAddOne(n);
    }
  }

  lemma {:induction false} CountOnesAddOne(n: nat)
    ensures 1 <= CountOnes(n + 1) <= CountOnes(n) + 1
  {
    if n % 2 == 1 {
      CountOnesAddOne(n / 2);
      assert (n + 1) / 2 == n / 2 + 1;
    } else {
      assert (n + 1) / 2 == n / 2;
    }
  }

  lemma {:induction false} CountOnesPositive(n: nat)
    requires n > 0
    ensures CountOnes(n) > 0
  {
    if n % 2 == 0 { CountOnesPositive(n / 2); }
  }

  function Pow2(k: nat): nat {
    if k == 0 then 1 else 2 * Pow2(k - 1)
  }

  /** A `k`-bit number has at most `k` ones. */
  lemma {:induction false} CountOnesBound(n: nat, k: nat)
    requires n < Pow2(k)
    ensures CountOnes(n) <= k
  {
    if k > 0 { CountOnesBound(n / 2, k - 1); }
  }

  // ---------- binary digits ----------

  function Sum(s: seq<nat>): nat {
    if s == [] then 0 else s[0] + Sum(s[1..])
  }

  /** The topmost bit of a multiple of `q` is at least `q`, what is below it is a multiple, and
      there is room for `q` more below the next bit. */
  lemma {:induction false} AlignedTop(q: nat, n: nat, p: nat)
    requires IsPow2(q) && Aligned(q, n) && IsPow2(p) && p <= n < 2 * p
    ensures q <= p && Aligned(q, n - p) && n + q <= 2 * p
  {
    AlignedTopSize(q, n, p);
    AlignedTopRest(q, n, p);
    AlignedTopRoom(q, n, p);
  }

  lemma {:induction false} AlignedTopSize(q: nat, n: nat, p: nat)
    requires IsPow2(q) && Aligned(q, n) && IsPow2(p) && p <= n < 2 * p
    ensures q <= p
  {
    AlignedZero(q);
    AlignedGap(q, 0, n);
    if p < q { Pow2Gap(p, q); }
  }

  lemma {:induction false} AlignedTopRest(q: nat, n: nat, p: nat)
    requires IsPow2(q) && Aligned(q, n) && IsPow2(p) && q <= p <= n
    ensures Aligned(q, n - p)
  {
    AlignedPow2(q, p);
    AlignedSum(q, p, n);
  }

  lemma {:induction false} AlignedTopRoom(q: nat, n: nat, p: nat)
    requires IsPow2(q) && Aligned(q, n) && IsPow2(p) && q <= p && n < 2 * p
    ensures n + q <= 2 * p
  {
    AlignedPow2(q, 2 * p);
    AlignedGap(q, n, 2 * p);
  }

  /** The topmost bit of a positive number. */
  ghost function TopBit(n: nat): (p: nat)
    requires n > 0
    ensures IsPow2(p) && p <= n < 2 * p
  {
    var q := LeftCount(n + 1);
    assert IsPow2(q) && q <= n < 2 * q;
    var p: nat :| IsPow2(p) && p <= n < 2 * p;
    p
  }

  lemma {:induction false} TopBitIs(n: nat, p: nat)
    requires IsPow2(p) && p <= n < 2 * p
    ensures n > 0 && TopBit(n) == p
  {
    Pow2Unique(p, TopBit(n), n + 1);
  }

  /** The powers of two that add up to `n`, largest first. */
  ghost function Digits(n: nat): seq<nat> {
    if n == 0 then [] else [TopBit(n)] + Digits(n - TopBit(n))
  }

  lemma {:induction false} DigitsSum(n: nat)
    ensures Sum(Digits(n)) == n
  {
    if n > 0 {
      var p := TopBit(n);
      DigitsSum(n - p);
      assert ([p] + Digits(n - p))[1..] == Digits(n - p);
    }
  }

  lemma {:induction false} SumSnoc(s: seq<nat>, x: nat)
    ensures Sum(s + [x]) == Sum(s) + x
  {
    if s == [] {
      assert s + [x] == [x];
    } else {
      SumSnoc(s[1..], x);
      assert (s + [x])[1..] == s[1..] + [x];
    }
  }

  lemma {:induction false} DigitsCount(n: nat)
    ensures |Digits(n)| == CountOnes(n)
  {
    if n > 0 {
      DigitsCount(n - TopBit(n));
      CountOnesTopBit(n, TopBit(n));
    }
  }

  lemma {:induction false} CountOnesTopBit(n: nat, p: nat)
    requires IsPow2(p) && p <= n < 2 * p
    ensures CountOnes(n) == CountOnes(n - p) + 1
  {
    CountOnesHighBit(n - p, p);
  }

  lemma {:induction false} DigitsGrow(m: nat, p: nat, q: nat)
    requires IsPow2(p) && m + q < p && Digits(m + q) == Digits(m) + [q]
    ensures Digits(p + m + q) == Digits(p + m) + [q]
  {
    DigitsTop(m, p);
    DigitsTop(m + q, p);
    Assoc([p], Digits(m), [q]);
  }

  lemma {:induction false} DigitsTop(m: nat, p: nat)
    requires IsPow2(p) && m < p
    ensures Digits(p + m) == [p] + Digits(m)
  {
    TopBitIs(p + m, p);
    assert p + m - p == m;
  }

  lemma {:induction false} FirstDigit(q: nat)
    requires IsPow2(q)
    ensures Digits(0 + q) == Digits(0) + [q]
  {
    DigitsTop(0, q);
    assert [q] + Digits(0) == Digits(0) + [q];
  }

  /** A power of two below every digit becomes the last digit. */
  lemma {:induction false} DigitsSnoc(n: nat, q: nat)
    requires IsPow2(q) && Aligned(2 * q, n)
    ensures Digits(n + q) == Digits(n) + [q]
    decreases n, 1
  {
    if n == 0 {
      FirstDigit(q);
    } else {
      var p, m := TopDigit(n, q);
      LowerDigits(p, m, q);
    }
  }

  lemma {:induction false} LowerDigits(p: nat, m: nat, q: nat)
    requires IsPow2(p) && p > 0 && m + q < p && IsPow2(q) && Aligned(2 * q, m)
    ensures Digits(p + m + q) == Digits(p + m) + [q]
    decreases p + m, 0
  {
    DigitsSnoc(m, q);
    DigitsGrow(m, p, q);
  }

  lemma {:induction false} TopDigit(n: nat, q: nat) returns (p: nat, m: nat)
    requires n > 0 && IsPow2(q) && Aligned(2 * q, n)
    ensures IsPow2(p) && p > 0 && n == p + m && m + q < p && Aligned(2 * q, m)
  {
    p := TopBit(n);
    m := n - p;
    AlignedTop(2 * q, n, p);
  }

  /** Each entry is a power of two and has room below it for everything that
      follows it and `q` more. */
  predicate Nested(s: seq<nat>, q: nat) {
    s == [] || (IsPow2(s[0]) && Sum(s[1..]) + q <= s[0] && Nested(s[1..], q))
  }

  /** The digits of a multiple of `q` leave room for `q` more below each of them. */
  lemma {:induction false} DigitsNested(n: nat, q: nat)
    requires IsPow2(q) && Aligned(q, n)
    ensures Nested(Digits(n), q)
  {
    if n > 0 {
      var p := TopBit(n);
      AlignedTop(q, n, p);
      DigitsNested(n - p, q);
      DigitsSum(n - p);
      assert Digits(n)[1..] == Digits(n - p);
    }
  }

  /** Clearing the lowest one bit: one step of the `x &= x - 1` loop. */
  lemma {:induction false} ClearLowestBit(x: nat)
    requires x > 0
    ensures BitAnd(x, x - 1) < x
    ensures CountOnes(BitAnd(x, x - 1)) == CountOnes(x) - 1
  {
    var y := BitAnd(x, x - 1);
    if x % 2 == 1 {
      BitAndSelf(x / 2);
      assert (x - 1) / 2 == x / 2;
      assert y == 2 * (x / 2);
    } else {
      ClearLowestBit(x / 2);
      assert (x - 1) / 2 == x / 2 - 1;
      assert y == 2 * BitAnd(x / 2, x / 2 - 1);
    }
  }

  lemma {:induction false} BitAndSelf(x: nat)
    ensures BitAnd(x, x) == x
  {
    if x > 0 { BitAndSelf(x / 2); }
  }
}
