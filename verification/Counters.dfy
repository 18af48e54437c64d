/** How the C vector code finds the two words of each lane's 64-bit counter without a
    64-bit addition.  Words are natural numbers below 2^32 here. */
module Counters {
  import opened Words
  import opened Arx
  import opened Portable
  import opened Lanes

  const WORD := 0x1_0000_0000
  const TOP := 0x8000_0000

  type Word = x: nat | x < WORD

  function LowWord(counter: nat): Word { counter % WORD }

  function HighWord(counter: nat): Word { counter / WORD % WORD }

  /** Both words of a 64-bit counter together are the counter. */
  lemma {:induction false} WordsOfCounter(counter: nat)
    requires counter < 0x1_0000_0000_0000_0000
    ensures WORD * HighWord(counter) + LowWord(counter) == counter
  {
  }

  /** Exclusive or with 0x80000000. */
  function FlipTop(x: Word): Word {
    if x < TOP then x + TOP else x - TOP
  }

  /** A word as a signed number. */
  function Signed(x: Word): int {
    if x < TOP then x else x - WORD
  }

  /** `cmpgt_epi32` in one lane: all ones where `a` is greater as a signed number. */
  function CmpGt(a: Word, b: Word): Word {
    if Signed(a) > Signed(b) then WORD - 1 else 0
  }

  /** `and_si128` of a lane number with a mask that is all ones or all zeros. */
  function Masked(increment: bool, i: Word): Word {
    if increment then i else 0
  }

  /** One lane of `load_counters` with 128-bit vectors. */
  function LoadLow(counter: nat, added: Word): Word {
    (LowWord(counter) + added) % WORD
  }

  function LoadHigh(counter: nat, added: Word): Word {
    (HighWord(counter) - CmpGt(FlipTop(added), FlipTop(LoadLow(counter, added)))) % WORD
  }

  /** One lane of `load_counters16`: the carry is the topmost bit of `~low & before`. */
  function LoadHigh16(counter: nat, added: Word): Word {
    var carry := if LoadLow(counter, added) < TOP && LowWord(counter) >= TOP then 1 else 0;
    (HighWord(counter) + carry) % WORD
  }

  /** The words of a sum, by the carry out of the low word. */
  lemma {:induction false} SumWords(counter: nat, added: Word)
    ensures LowWord(counter + added) == (LowWord(counter) + added) % WORD
    ensures HighWord(counter + added)
         == if LowWord(counter) + added >= WORD then (HighWord(counter) + 1) % WORD else HighWord(counter)
  {
    var q := counter / WORD;
    assert counter == WORD * q + LowWord(counter);
    if LowWord(counter) + added >= WORD {
      DivMod(counter + added, q + 1, LowWord(counter) + added - WORD);
    } else {
      DivMod(counter + added, q, LowWord(counter) + added);
    }
  }

  lemma {:induction false} DivMod(n: nat, q: nat, r: Word)
    requires n == WORD * q + r
    ensures n / WORD == q && n % WORD == r
  {
  }

  /** The biased signed comparison finds the carry, whatever is added. */
  lemma {:induction false} LoadedCounter(counter: nat, added: Word)
    ensures LoadLow(counter, added) == LowWord(counter + added)
    ensures LoadHigh(counter, added) == HighWord(counter + added)
  {
    SumWords(counter, added);
    BiasedCompare(added, LoadLow(counter, added));
    SumWraps(LowWord(counter), added);
  }

  /** With both topmost bits flipped the signed comparison is the unsigned one. */
  lemma {:induction false} BiasedCompare(a: Word, b: Word)
    ensures CmpGt(FlipTop(a), FlipTop(b)) == if a > b then WORD - 1 else 0
  {
    assert Signed(FlipTop(a)) == a - TOP && Signed(FlipTop(b)) == b - TOP;
  }

  /** A wrapped sum is smaller than what was added exactly when it wrapped. */
  lemma {:induction false} SumWraps(low: Word, added: Word)
    ensures (low + added) % WORD < added <==> low + added >= WORD
  {
    if low + added >= WORD { DivMod(low + added, 1, low + added - WORD); }
  }

  /** Looking at the topmost bits finds it whenever less than 2^31 is added, as the
      lane numbers are. */
  lemma {:induction false} LoadedCounter16(counter: nat, added: Word)
    requires added < TOP
    ensures LoadLow(counter, added) == LowWord(counter + added)
    ensures LoadHigh16(counter, added) == HighWord(counter + added)
  {
    SumWords(counter, added);
  }

  /** Beyond that it can miss one. */
  lemma {:induction false} LoadedCounter16CanFail()
    ensures LoadHigh16(0xC000_0000, 0xC000_0000) != HighWord(0xC000_0000 + 0xC000_0000)
  {
  }

  /** So the C code loads the words of the counters that the Rust code takes apart. */
  lemma {:induction false} LoadsAgree(increment: bool, counter: nat, i: Word)
    requires i < 16
    ensures var added, lane := Masked(increment, i), LaneCounter(increment, counter, i);
            && LoadLow(counter, added) == LowWord(lane)
            && LoadHigh(counter, added) == LoadHigh16(counter, added) == HighWord(lane)
  {
    LoadedCounter(counter, Masked(increment, i));
    LoadedCounter16(counter, Masked(increment, i));
  }

  /** A word as the lanes hold it. */
  function ToWord(x: Word): u32 { x as u32 }

  lemma {:induction false} LanesLoadThese(counter: nat)
    ensures CounterLow(counter) == ToWord(LowWord(counter)) && CounterHigh(counter) == ToWord(HighWord(counter))
  {
  }

  // ---------- the loaders ----------

  /** What one lane holds. */
  function LaneLow(increment: bool, counter: nat, i: Word): u32 {
    ToWord(LoadLow(counter, Masked(increment, i)))
  }

  function LaneHigh(increment: bool, counter: nat, i: Word): u32 {
    ToWord(LoadHigh(counter, Masked(increment, i)))
  }

  function LaneHigh16(increment: bool, counter: nat, i: Word): u32 {
    ToWord(LoadHigh16(counter, Masked(increment, i)))
  }

  lemma {:induction false} LaneLoads(increment: bool, counter: nat, i: Word)
    requires i < 16
    ensures var lane := LaneCounter(increment, counter, i);
            && LaneLow(increment, counter, i) == CounterLow(lane)
            && LaneHigh(increment, counter, i) == LaneHigh16(increment, counter, i) == CounterHigh(lane)
  {
    LoadsAgree(increment, counter, i);
    LanesLoadThese(LaneCounter(increment, counter, i));
  }

  /** The Rust code takes each lane's 64-bit counter apart. */
  function SplitCounters(degree: nat): Loader {
    (increment: bool, counter: nat) =>
      (seq(degree, i requires 0 <= i < degree => CounterLow(LaneCounter(increment, counter, i))),
       seq(degree, i requires 0 <= i < degree => CounterHigh(LaneCounter(increment, counter, i))))
  }

  /** The C code for 128-bit vectors, with the biased comparison. */
  function BiasedCounters(degree: nat): Loader
    requires degree <= 16
  {
    (increment: bool, counter: nat) =>
      (seq(degree, i requires 0 <= i < degree => LaneLow(increment, counter, i)),
       seq(degree, i requires 0 <= i < degree => LaneHigh(increment, counter, i)))
  }

  /** The C code for 512-bit vectors, with the and-not. */
  function AndNotCounters(degree: nat): Loader
    requires degree <= 16
  {
    (increment: bool, counter: nat) =>
      (seq(degree, i requires 0 <= i < degree => LaneLow(increment, counter, i)),
       seq(degree, i requires 0 <= i < degree => LaneHigh16(increment, counter, i)))
  }

  /** All three give every lane the words of its own counter. */
  lemma {:induction false} LoadersCount(degree: nat)
    requires degree <= 16
    ensures Counts(SplitCounters(degree), degree)
    ensures Counts(BiasedCounters(degree), degree) && Counts(AndNotCounters(degree), degree)
  {
    forall increment, counter: nat
      ensures AreCounters(BiasedCounters(degree)(increment, counter), degree, increment, counter)
    {
      BiasedAreCounters(degree, increment, counter);
    }
    forall increment, counter: nat
      ensures AreCounters(AndNotCounters(degree)(increment, counter), degree, increment, counter)
    {
      AndNotAreCounters(degree, increment, counter);
    }
  }

  lemma {:induction false} BiasedAreCounters(degree: nat, increment: bool, counter: nat)
    requires degree <= 16
    ensures AreCounters(BiasedCounters(degree)(increment, counter), degree, increment, counter)
  {
    var words := BiasedCounters(degree)(increment, counter);
    forall i: nat | i < degree
      ensures words.0[i] == CounterLow(LaneCounter(increment, counter, i))
      ensures words.1[i] == CounterHigh(LaneCounter(increment, counter, i))
    {
      LaneLoads(increment, counter, i);
    }
  }

  lemma {:induction false} AndNotAreCounters(degree: nat, increment: bool, counter: nat)
    requires degree <= 16
    ensures AreCounters(AndNotCounters(degree)(increment, counter), degree, increment, counter)
  {
    var words := AndNotCounters(degree)(increment, counter);
    forall i: nat | i < degree
      ensures words.0[i] == CounterLow(LaneCounter(increment, counter, i))
      ensures words.1[i] == CounterHigh(LaneCounter(increment, counter, i))
    {
      LaneLoads(increment, counter, i);
    }
  }
}
