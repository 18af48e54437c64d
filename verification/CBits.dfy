/** The bit tricks of the C port, and why they agree with the Rust ones. */
module CBits {
  import opened Bits

  /** The index of the highest one bit of a natural number. */
  function HighestBit(x: nat): nat
    requires x > 0
  {
    if x == 1 then 0 else 1 + HighestBit(x / 2)
  }

  function Shr(x: nat, k: nat): nat {
    if k == 0 then x else Shr(x / 2, k - 1)
  }

  function Shl(x: nat, k: nat): nat {
    if k == 0 then x else 2 * Shl(x, k - 1)
  }

  /** A number of `k` ones. */
  function Ones(k: nat): nat {
    if k == 0 then 0 else 2 * Ones(k - 1) + 1
  }

  lemma {:induction false} ShrTwice(x: nat, j: nat, k: nat)
    ensures Shr(Shr(x, j), k) == Shr(x, j + k)
  {
    if j > 0 { ShrTwice(x / 2, j - 1, k); }
  }

  lemma {:induction false} ShlTwice(x: nat, j: nat, k: nat)
    ensures Shl(Shl(x, j), k) == Shl(x, j + k)
  {
    if k > 0 { ShlTwice(x, j, k - 1); }
  }

  /** Masking with shifted ones looks at the bits from `k` on only. */
  lemma {:induction false} MaskShifts(x: nat, m: nat, k: nat)
    ensures BitAnd(x, Shl(m, k)) == Shl(BitAnd(Shr(x, k), m), k)
  {
    if k > 0 {
      DoubleMask(x, Shl(m, k - 1));
      MaskShifts(x / 2, m, k - 1);
    }
  }

  lemma {:induction false} DoubleMask(x: nat, m: nat)
    ensures BitAnd(x, 2 * m) == 2 * BitAnd(x / 2, m)
  {
  }

  lemma {:induction false} LowMask(y: nat, k: nat)
    requires Shr(y, k) == 0
    ensures BitAnd(y, Ones(k)) == y
  {
    if k > 0 {
      LowMask(y / 2, k - 1);
      assert Ones(k) / 2 == Ones(k - 1) && Ones(k) % 2 == 1;
      ShrZero(k - 1);
    }
  }

  lemma {:induction false} ShrZero(k: nat)
    ensures Shr(0, k) == 0 && Shl(0, k) == 0
  {
    if k > 0 { ShrZero(k - 1); }
  }

  lemma {:induction false} ShlPositive(x: nat, k: nat)
    requires x > 0
    ensures Shl(x, k) > 0
  {
    if k > 0 { ShlPositive(x, k - 1); }
  }

  lemma {:induction false} HighestBitShifts(x: nat, k: nat)
    requires Shr(x, k) > 0
    ensures x > 0 && HighestBit(x) == k + HighestBit(Shr(x, k))
  {
    if k > 0 { HighestBitShifts(x / 2, k - 1); }
  }

  /** One line of the cascade, on a number of at most `2 * k` bits: moves the upper half
      down if it holds a one. */
  method UpperHalf(x: nat, c: nat, k: nat, mask: nat) returns (x': nat, c': nat)
    requires x > 0 && Shr(x, 2 * k) == 0 && mask == Shl(Ones(k), k)
    ensures x' > 0 && Shr(x', k) == 0 && c' + HighestBit(x') == c + HighestBit(x)
  {
    MaskShifts(x, Ones(k), k);
    ShrTwice(x, k, k);
    LowMask(Shr(x, k), k);
    ShrZero(k);
    if BitAnd(x, mask) != 0 {
      HighestBitShifts(x, k);
      return Shr(x, k), c + k;
    }
    if Shr(x, k) > 0 { ShlPositive(Shr(x, k), k); }
    x', c' := x, c;
  }

  lemma {:induction false} TwoShifts(x: nat, k: nat)
    ensures Shr(x, 2) == x / 4 && Shl(x, 2) == 4 * x && Ones(k + 2) == 4 * Ones(k) + 3
  {
    OneShift(x, k);
    OneShift(x / 2, k + 1);
    assert Shr(x, 2) == Shr(x / 2, 1) && Shl(x, 2) == 2 * Shl(x, 1);
  }

  lemma {:induction false} OneShift(x: nat, k: nat)
    ensures Shr(x, 1) == x / 2 && Shl(x, 1) == 2 * x && Ones(k + 1) == 2 * Ones(k) + 1
  {
    assert Shr(x / 2, 0) == x / 2 && Shl(x, 0) == x;
  }

  lemma {:induction false} FourShifts(x: nat, k: nat)
    ensures Shr(x, 4) == x / 16 && Shl(x, 4) == 16 * x && Ones(k + 4) == 16 * Ones(k) + 15
  {
    TwoShifts(x, k);
    TwoShifts(x / 4, k + 2);
    TwoShifts(4 * x, k);
    ShrTwice(x, 2, 2);
    ShlTwice(x, 2, 2);
  }

  lemma {:induction false} ByteShifts(x: nat, k: nat)
    ensures Shr(x, 8) == x / 0x100 && Shl(x, 8) == 0x100 * x && Ones(k + 8) == 0x100 * Ones(k) + 0xFF
  {
    FourShifts(x, k);
    FourShifts(x / 16, k + 4);
    FourShifts(16 * x, k);
    ShrTwice(x, 4, 4);
    ShlTwice(x, 4, 4);
  }

  /** A 64-bit number has nothing beyond bit 63. */
  lemma {:induction false} NoMoreBits(word: nat)
    requires word < 0x1_0000_0000_0000_0000
    ensures Shr(word, 64) == 0
  {
    var upper := word / 0x1_0000 / 0x1_0000;
    ShiftsBy16(word);
    ShiftsBy16(word / 0x1_0000);
    ShrTwice(word, 16, 48);
    ShrTwice(word / 0x1_0000, 16, 32);
    ShiftedAway(upper);
  }

  lemma {:induction false} ShiftedAway(upper: nat)
    requires upper < 0x1_0000_0000
    ensures Shr(upper, 32) == 0
  {
    ShiftsBy16(upper);
    ShiftsBy16(upper / 0x1_0000);
    ShrTwice(upper, 16, 16);
  }

  /** The masks of the cascade. */
  lemma {:induction false} TopMask()
    ensures 0xffff_ffff_0000_0000 == Shl(Ones(32), 32)
  {
    ManyOnes();
    ShiftsBy16(Ones(32));
    ShiftsBy16(Shl(Ones(32), 16));
    ShlTwice(Ones(32), 16, 16);
  }

  lemma {:induction false} Masks()
    ensures 0xffff_0000 == Shl(Ones(16), 16)
    ensures 0xff00 == Shl(Ones(8), 8) && 0xf0 == Shl(Ones(4), 4) && 0xc == Shl(Ones(2), 2) && 0x2 == Shl(Ones(1), 1)
  {
    ManyOnes();
    ShiftsBy16(Ones(16));
    ByteShifts(Ones(8), 0);
    FourShifts(Ones(4), 0);
    TwoShifts(Ones(2), 0);
    OneShift(Ones(1), 0);
  }

  lemma {:induction false} ManyOnes()
    ensures Ones(8) == 0xff && Ones(16) == 0xffff && Ones(32) == 0xffff_ffff
  {
    ByteShifts(0, 0);
    ByteShifts(0, 8);
    ByteShifts(0, 16);
    ByteShifts(0, 24);
  }

  lemma {:induction false} ShiftsBy16(x: nat)
    ensures Shr(x, 16) == x / 0x1_0000 && Shl(x, 16) == 0x1_0000 * x
  {
    ByteShifts(x, 0);
    ByteShifts(x / 0x100, 0);
    ByteShifts(Shl(x, 8), 0);
    ShrTwice(x, 8, 8);
    ShlTwice(x, 8, 8);
  }

  /** `highest_one` without compiler support. */
  method HighestOne(word: nat) returns (c: nat)
    requires 0 < word < 0x1_0000_0000_0000_0000
    ensures c == HighestBit(word)
  {
    TopMask();
    NoMoreBits(word);
    var x;
    x, c := UpperHalf(word, 0, 32, 0xffff_ffff_0000_0000);
    c := HighestInWord(x, c);
  }

  method HighestInWord(word: nat, below: nat) returns (c: nat)
    requires word > 0 && Shr(word, 32) == 0
    ensures c == below + HighestBit(word)
  {
    Masks();
    var x;
    x, c := UpperHalf(word, below, 16, 0x0000_0000_ffff_0000);
    x, c := UpperHalf(x, c, 8, 0x0000_0000_0000_ff00);
    c := HighestInByte(x, c);
  }

  /** The rest of the cascade. */
  method HighestInByte(byte: nat, below: nat) returns (c: nat)
    requires byte > 0 && Shr(byte, 8) == 0
    ensures c == below + HighestBit(byte)
  {
    Masks();
    var x;
    x, c := UpperHalf(byte, below, 4, 0x0000_0000_0000_00f0);
    x, c := UpperHalf(x, c, 2, 0x0000_0000_0000_000c);
    x, c := UpperHalf(x, c, 1, 0x0000_0000_0000_0002);
  }

  /** `round_down_to_power_of_2`: `1 << highest_one(x | 1)`. */
  function RoundDownToPowerOf2(x: nat): nat {
    Pow2(HighestBit(if x % 2 == 0 then x + 1 else x))
  }

  lemma {:induction false} HighestBitBounds(x: nat)
    requires x > 0
    ensures IsPow2(Pow2(HighestBit(x))) && Pow2(HighestBit(x)) <= x < 2 * Pow2(HighestBit(x))
  {
    if x > 1 { HighestBitBounds(x / 2); }
  }

  /** And so does the code. */
  method RoundDown(x: nat) returns (p: nat)
    requires x < 0x1_0000_0000_0000_0000
    ensures p == RoundDownToPowerOf2(x)
  {
    var c := HighestOne(if x % 2 == 0 then x + 1 else x);
    p := Pow2(c);
  }

  /** Both languages round down to the same power of two, also for 0. */
  lemma {:induction false} RoundDownAgrees(n: nat)
    ensures RoundDownToPowerOf2(n) == LargestPowerOfTwoLeq(n)
  {
    var odd := if n % 2 == 0 then n + 1 else n;
    var p, q := Pow2(HighestBit(odd)), LargestPowerOfTwoLeq(n);
    HighestBitBounds(odd);
    EvenOrOne(p);
    EvenOrOne(q);
    Pow2Unique(p, q, (if n == 0 then 1 else n) + 1);
  }

  lemma {:induction false} EvenOrOne(p: nat)
    requires IsPow2(p)
    ensures p == 1 || p % 2 == 0
  {
  }

  /** `popcnt` without compiler support. */
  method PopCnt(word: nat) returns (count: nat)
    ensures count == CountOnes(word)
  {
    var x := word;
    count := 0;
    while x != 0
      invariant count + CountOnes(x) == CountOnes(word)
      decreases x
    {
      ClearLowestBit(x);
      count := count + 1;
      x := BitAnd(x, x - 1);
    }
  }
}
