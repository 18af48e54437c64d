/** The compression function with the state held in four vector registers, one for each
    row, and the message words kept in four more that are shuffled between rounds. */
module RowCompress {
  import opened Words
  import opened Blake3Tree
  import opened Arx
  import opened Portable

  /** The two instruction sets that differ in how they blend registers. */
  datatype Isa = SSE2 | SSE41

  // ---------- what the instructions do to the lanes ----------

  /** `shuffle_epi32` and `shuffle_ps`, with the selectors in the order of the source. */
  function Shuffle<T>(a: Quad<T>, z: nat, y: nat, x: nat, w: nat): Quad<T>
    requires z < 4 && y < 4 && x < 4 && w < 4
  {
    Quad(At(a, w), At(a, x), At(a, y), At(a, z))
  }

  function Shuffle2<T>(a: Quad<T>, b: Quad<T>, z: nat, y: nat, x: nat, w: nat): Quad<T>
    requires z < 4 && y < 4 && x < 4 && w < 4
  {
    Quad(At(a, w), At(a, x), At(b, y), At(b, z))
  }

  function UnpackLo32<T>(a: Quad<T>, b: Quad<T>): Quad<T> { Quad(a.x0, b.x0, a.x1, b.x1) }

  function UnpackHi32<T>(a: Quad<T>, b: Quad<T>): Quad<T> { Quad(a.x2, b.x2, a.x3, b.x3) }

  function UnpackLo64<T>(a: Quad<T>, b: Quad<T>): Quad<T> { Quad(a.x0, a.x1, b.x0, b.x1) }

  function UnpackHi64<T>(a: Quad<T>, b: Quad<T>): Quad<T> { Quad(a.x2, a.x3, b.x2, b.x3) }

  /** `blend_epi16` inside one word: each half comes from `b` where its bit is set. */
  function BlendWord(a: u32, b: u32, low: bool, high: bool): u32 {
    (if low then b & 0xFFFF else a & 0xFFFF) | (if high then b & 0xFFFF_0000 else a & 0xFFFF_0000)
  }

  function BlendEpi16(a: Quad<u32>, b: Quad<u32>, imm8: u8): Quad<u32> {
    Quad(BlendWord(a.x0, b.x0, imm8 & 0x01 != 0, imm8 & 0x02 != 0),
         BlendWord(a.x1, b.x1, imm8 & 0x04 != 0, imm8 & 0x08 != 0),
         BlendWord(a.x2, b.x2, imm8 & 0x10 != 0, imm8 & 0x20 != 0),
         BlendWord(a.x3, b.x3, imm8 & 0x40 != 0, imm8 & 0x80 != 0))
  }

  /** `cmpeq_epi16` inside one word. */
  function CmpEq16(a: u32, b: u32): u32 {
    (if a & 0xFFFF == b & 0xFFFF then 0xFFFF else 0) |
    (if a & 0xFFFF_0000 == b & 0xFFFF_0000 then 0xFFFF_0000 else 0)
  }

  /** The emulation's mask for one word, from that word's pair of selector bits. */
  function SelectorMask(imm8: u8, bits: u32): u32 {
    CmpEq16(((imm8 as u32) | ((imm8 as u32) << 16)) & bits, bits)
  }

  function Masked(mask: u32, a: u32, b: u32): u32 {
    (mask & b) | (!mask & a)
  }

  /** The emulation of `blend_epi16` with masks. */
  function MaskedBlend(a: Quad<u32>, b: Quad<u32>, imm8: u8): Quad<u32> {
    Quad(Masked(SelectorMask(imm8, 0x0002_0001), a.x0, b.x0),
         Masked(SelectorMask(imm8, 0x0008_0004), a.x1, b.x1),
         Masked(SelectorMask(imm8, 0x0020_0010), a.x2, b.x2),
         Masked(SelectorMask(imm8, 0x0080_0040), a.x3, b.x3))
  }

  /** The emulation is the instruction, for every selector. */
  lemma {:induction false} MaskedBlendIsBlend(a: Quad<u32>, b: Quad<u32>, imm8: u8)
    ensures MaskedBlend(a, b, imm8) == BlendEpi16(a, b, imm8)
  {
    MasksSelect(imm8);
    MaskSelects(a.x0, b.x0, imm8 & 0x01 != 0, imm8 & 0x02 != 0);
    MaskSelects(a.x1, b.x1, imm8 & 0x04 != 0, imm8 & 0x08 != 0);
    MaskSelects(a.x2, b.x2, imm8 & 0x10 != 0, imm8 & 0x20 != 0);
    MaskSelects(a.x3, b.x3, imm8 & 0x40 != 0, imm8 & 0x80 != 0);
  }

  function HalvesMask(low: bool, high: bool): u32 {
    if low then (if high then 0xFFFF_FFFF else 0xFFFF) else (if high then 0xFFFF_0000 else 0)
  }

  lemma {:induction false} MasksSelect(imm8: u8)
    ensures SelectorMask(imm8, 0x0002_0001) == HalvesMask(imm8 & 0x01 != 0, imm8 & 0x02 != 0)
    ensures SelectorMask(imm8, 0x0008_0004) == HalvesMask(imm8 & 0x04 != 0, imm8 & 0x08 != 0)
    ensures SelectorMask(imm8, 0x0020_0010) == HalvesMask(imm8 & 0x10 != 0, imm8 & 0x20 != 0)
    ensures SelectorMask(imm8, 0x0080_0040) == HalvesMask(imm8 & 0x40 != 0, imm8 & 0x80 != 0)
  {
  }

  lemma {:induction false} MaskSelects(a: u32, b: u32, low: bool, high: bool)
    ensures Masked(HalvesMask(low, high), a, b) == BlendWord(a, b, low, high)
  {
    if low && high {
    } else if low {
    } else if high {
    } else {
    }
  }

  lemma {:induction false} BlendWholeWords(a: u32, b: u32)
    ensures BlendWord(a, b, false, false) == a && BlendWord(a, b, true, true) == b
  {
  }

  function Blend(isa: Isa, a: Quad<u32>, b: Quad<u32>, imm8: u8): Quad<u32> {
    if isa.SSE2? then MaskedBlend(a, b, imm8) else BlendEpi16(a, b, imm8)
  }

  lemma {:induction false} BlendIsEpi16(isa: Isa, a: Quad<u32>, b: Quad<u32>, imm8: u8)
    ensures Blend(isa, a, b, imm8) == BlendEpi16(a, b, imm8)
  {
    MaskedBlendIsBlend(a, b, imm8);
  }

  lemma {:induction false} SelectorBits()
    ensures 0xCC as u8 & 0x01 == 0 && 0xCC as u8 & 0x02 == 0 && 0xCC as u8 & 0x04 != 0 && 0xCC as u8 & 0x08 != 0
    ensures 0xCC as u8 & 0x10 == 0 && 0xCC as u8 & 0x20 == 0 && 0xCC as u8 & 0x40 != 0 && 0xCC as u8 & 0x80 != 0
    ensures 0xC0 as u8 & 0x01 == 0 && 0xC0 as u8 & 0x02 == 0 && 0xC0 as u8 & 0x04 == 0 && 0xC0 as u8 & 0x08 == 0
    ensures 0xC0 as u8 & 0x10 == 0 && 0xC0 as u8 & 0x20 == 0 && 0xC0 as u8 & 0x40 != 0 && 0xC0 as u8 & 0x80 != 0
  {
  }

  lemma {:induction false} BlendEpi16Is(a: Quad<u32>, b: Quad<u32>)
    ensures BlendEpi16(a, b, 0xCC) == Quad(a.x0, b.x1, a.x2, b.x3)
    ensures BlendEpi16(a, b, 0xC0) == Quad(a.x0, a.x1, a.x2, b.x3)
  {
    SelectorBits();
    BlendWholeWords(a.x0, b.x0);
    BlendWholeWords(a.x1, b.x1);
    BlendWholeWords(a.x2, b.x2);
    BlendWholeWords(a.x3, b.x3);
  }

  /** The two blends that the compression function uses. */
  lemma {:induction false} Blends(isa: Isa, a: Quad<u32>, b: Quad<u32>)
    ensures Blend(isa, a, b, 0xCC) == Quad(a.x0, b.x1, a.x2, b.x3)
    ensures Blend(isa, a, b, 0xC0) == Quad(a.x0, a.x1, a.x2, b.x3)
  {
    BlendIsEpi16(isa, a, b, 0xCC);
    BlendIsEpi16(isa, a, b, 0xC0);
    BlendEpi16Is(a, b);
  }

  // ---------- mixing rows ----------

  /** `g1`: half of mixing all columns at once. */
  method G1(o: Ops<u32>, rows: State<u32>, m: Quad<u32>) returns (next: State<u32>)
    requires Swaps(o)
    ensures next == MixColumns(FirstHalf(o), rows, m)
  {
    RowsMix(o, rows, m);
    var p := QuadOps(o);
    var row0 := p.add(p.add(rows.r0, m), rows.r1);
    var row3 := p.rot16(p.xor(rows.r3, row0));
    var row2 := p.add(rows.r2, row3);
    var row1 := p.rot12(p.xor(rows.r1, row2));
    next := State(row0, row1, row2, row3);
  }

  method G2(o: Ops<u32>, rows: State<u32>, m: Quad<u32>) returns (next: State<u32>)
    requires Swaps(o)
    ensures next == MixColumns(SecondHalf(o), rows, m)
  {
    RowsMix(o, rows, m);
    var p := QuadOps(o);
    var row0 := p.add(p.add(rows.r0, m), rows.r1);
    var row3 := p.rot8(p.xor(rows.r3, row0));
    var row2 := p.add(rows.r2, row3);
    var row1 := p.rot7(p.xor(rows.r1, row2));
    next := State(row0, row1, row2, row3);
  }

  /** Turns diagonals into columns, leaving row 1 where it is. */
  function Diagonalize<T>(s: State<T>): State<T> {
    State(Shuffle(s.r0, 2, 1, 0, 3), s.r1, Shuffle(s.r2, 0, 3, 2, 1), Shuffle(s.r3, 1, 0, 3, 2))
  }

  function Undiagonalize<T>(s: State<T>): State<T> {
    State(Shuffle(s.r0, 0, 3, 2, 1), s.r1, Shuffle(s.r2, 2, 1, 0, 3), Shuffle(s.r3, 1, 0, 3, 2))
  }

  /** The registers that a round leaves its message words in: those for the diagonals
      are rotated with them. */
  function Registers<T>(m: Message<T>): Message<T> {
    Message(m.m0, m.m1, Left3(m.m2), Left3(m.m3))
  }

  /** Rotating another row does not matter when the message words rotate along. */
  lemma {:induction false} RowsRotate<T(!new)>(f: Half<T>, g: Half<T>, s: State<T>, x: Quad<T>, y: Quad<T>)
    ensures Undiagonalize(MixColumns(g, MixColumns(f, Diagonalize(s), Left3(x)), Left3(y)))
         == Undo(MixColumns(g, MixColumns(f, Diagonals(s), x), y))
  {
  }

  // ---------- the message schedule by shuffling ----------

  /** The words of a round in terms of those of the round before. */
  function Permuted<T>(m: Message<T>): Message<T> {
    Message(Quad(m.m0.x1, m.m1.x1, m.m1.x3, m.m0.x2), Quad(m.m0.x3, m.m2.x1, m.m0.x0, m.m3.x2),
            Quad(m.m1.x0, m.m2.x2, m.m3.x0, m.m3.x3), Quad(m.m3.x1, m.m1.x2, m.m2.x3, m.m2.x0))
  }

  /** Every row of the schedule is the same permutation of the row before. */
  lemma {:induction false} SchedulePermutes(r: nat)
    requires 0 < r < ROUNDS
    ensures Schedule(r) == Permuted(Schedule(r - 1))
  {
  }

  lemma {:induction false} ScheduledPermutes<T>(w: seq<T>, r: nat)
    requires |w| == 16 && 0 < r < ROUNDS
    ensures Scheduled(w, r) == Permuted(Scheduled(w, r - 1))
  {
    SchedulePermutes(r);
  }

  // ---------- the rounds ----------

  /** The part of a round after the loads for its columns. */
  method MixRound(o: Ops<u32>, rows: State<u32>, ghost m: Message<u32>,
                  t0: Quad<u32>, t1: Quad<u32>, t2: Quad<u32>, t3: Quad<u32>)
    returns (next: State<u32>)
    requires Swaps(o) && Message(t0, t1, t2, t3) == Registers(m)
    ensures next == Round(FirstHalf(o), SecondHalf(o), rows, m)
  {
    next := G1(o, rows, t0);
    next := G2(o, next, t1);
    RowsRotate(FirstHalf(o), SecondHalf(o), next, m.m2, m.m3);
    next := Diagonalize(next);
    next := G1(o, next, t2);
    next := G2(o, next, t3);
    next := Undiagonalize(next);
  }

  /** The first round sorts the message words into the registers. */
  method FirstRound(o: Ops<u32>, rows: State<u32>, w: seq<u32>)
    returns (next: State<u32>, t0: Quad<u32>, t1: Quad<u32>, t2: Quad<u32>, t3: Quad<u32>)
    requires Swaps(o) && |w| == 16
    ensures next == Rounds(OpsRound(o), rows, w, 1)
    ensures Message(t0, t1, t2, t3) == Registers(Scheduled(w, 0))
  {
    var m0 := Quad(w[0], w[1], w[2], w[3]);
    var m1 := Quad(w[4], w[5], w[6], w[7]);
    var m2 := Quad(w[8], w[9], w[10], w[11]);
    var m3 := Quad(w[12], w[13], w[14], w[15]);
    t0 := Shuffle2(m0, m1, 2, 0, 2, 0);
    t1 := Shuffle2(m0, m1, 3, 1, 3, 1);
    t2 := Shuffle2(m2, m3, 2, 0, 2, 0);
    t2 := Shuffle(t2, 2, 1, 0, 3);
    t3 := Shuffle2(m2, m3, 3, 1, 3, 1);
    t3 := Shuffle(t3, 2, 1, 0, 3);
    next := MixRound(o, rows, Scheduled(w, 0), t0, t1, t2, t3);
    OneRound(OpsRound(o), rows, w);
  }

  /** The loads of every later round, from the registers of the round before. */
  method NextMessage(isa: Isa, m0: Quad<u32>, m1: Quad<u32>, m2: Quad<u32>, m3: Quad<u32>, ghost m: Message<u32>)
    returns (t0: Quad<u32>, t1: Quad<u32>, t2: Quad<u32>, t3: Quad<u32>)
    requires Message(m0, m1, m2, m3) == Registers(m)
    ensures Message(t0, t1, t2, t3) == Registers(Permuted(m))
  {
    t0 := Shuffle2(m0, m1, 3, 1, 1, 2);
    t0 := Shuffle(t0, 0, 3, 2, 1);
    t1 := Shuffle2(m2, m3, 3, 3, 2, 2);
    var tt := Shuffle(m0, 0, 0, 3, 3);
    Blends(isa, tt, t1);
    t1 := Blend(isa, tt, t1, 0xCC);
    t2 := UnpackLo64(m3, m1);
    Blends(isa, t2, m2);
    tt := Blend(isa, t2, m2, 0xC0);
    t2 := Shuffle(tt, 1, 3, 2, 0);
    t3 := UnpackHi32(m1, m3);
    tt := UnpackLo32(m2, t3);
    t3 := Shuffle(tt, 0, 1, 3, 2);
  }

  method NextRound(isa: Isa, o: Ops<u32>, rows: State<u32>, m0: Quad<u32>, m1: Quad<u32>, m2: Quad<u32>, m3: Quad<u32>,
                   ghost start: State<u32>, ghost w: seq<u32>, ghost r: nat)
    returns (next: State<u32>, t0: Quad<u32>, t1: Quad<u32>, t2: Quad<u32>, t3: Quad<u32>)
    requires Swaps(o) && |w| == 16 && 0 < r < ROUNDS && rows == Rounds(OpsRound(o), start, w, r)
    requires Message(m0, m1, m2, m3) == Registers(Scheduled(w, r - 1))
    ensures next == Rounds(OpsRound(o), start, w, r + 1)
    ensures Message(t0, t1, t2, t3) == Registers(Scheduled(w, r))
  {
    ScheduledPermutes(w, r);
    t0, t1, t2, t3 := NextMessage(isa, m0, m1, m2, m3, Scheduled(w, r - 1));
    next := MixRound(o, rows, Scheduled(w, r), t0, t1, t2, t3);
    OneMoreRound(OpsRound(o), start, w, r);
  }

  /** `compress_pre` over rows ends in the same state as the portable one. */
  method CompressPre(isa: Isa, o: Ops<u32>, cv: CVWords, block: Block, blockLen: nat, counter: nat, flags: u8)
    returns (rows: State<u32>)
    requires Swaps(o)
    ensures rows == FinalState(o, cv, block, blockLen, counter, flags)
  {
    var w := WordsFromBytes(block);
    ghost var start := Start(cv, blockLen, counter, flags);
    rows := State(Loaded(cv, 0), Loaded(cv, 4), Quad(IV0, IV1, IV2, IV3),
                  Quad(CounterLow(counter), CounterHigh(counter), BlockLenWord(blockLen), flags as u32));
    var m0, m1, m2, m3;
    rows, m0, m1, m2, m3 := FirstRound(o, rows, w);
    rows, m0, m1, m2, m3 := NextRound(isa, o, rows, m0, m1, m2, m3, start, w, 1);
    rows, m0, m1, m2, m3 := NextRound(isa, o, rows, m0, m1, m2, m3, start, w, 2);
    rows, m0, m1, m2, m3 := NextRound(isa, o, rows, m0, m1, m2, m3, start, w, 3);
    rows, m0, m1, m2, m3 := NextRound(isa, o, rows, m0, m1, m2, m3, start, w, 4);
    rows, m0, m1, m2, m3 := NextRound(isa, o, rows, m0, m1, m2, m3, start, w, 5);
    rows, m0, m1, m2, m3 := NextRound(isa, o, rows, m0, m1, m2, m3, start, w, 6);
  }

  // ---------- the outputs ----------

  /** A register in memory. */
  function Stored<T>(q: Quad<T>): (s: seq<T>)
    ensures |s| == 4
  {
    [q.x0, q.x1, q.x2, q.x3]
  }

  function Loaded<T>(s: seq<T>, i: nat): Quad<T>
    requires i + 4 <= |s|
  {
    Quad(s[i], s[i + 1], s[i + 2], s[i + 3])
  }

  /** Xor of rows is xor of words. */
  lemma {:induction false} RowsNextCv(o: Ops<u32>, s: State<u32>)
    ensures Stored(QuadOps(o).xor(s.r0, s.r2)) + Stored(QuadOps(o).xor(s.r1, s.r3)) == NextCv(o, Flat(s))
  {
  }

  lemma {:induction false} RowsMoreWords(o: Ops<u32>, s: State<u32>, cv: CVWords)
    ensures Stored(QuadOps(o).xor(s.r2, Loaded(cv, 0))) + Stored(QuadOps(o).xor(s.r3, Loaded(cv, 4)))
         == MoreWords(o, Flat(s), cv)
  {
  }

  /** `storeu`: a register to four words of memory. */
  method StoreU(q: Quad<u32>, dest: array<u32>, at: nat)
    requires at + 4 <= dest.Length
    modifies dest
    ensures dest[..] == old(dest[..at]) + Stored(q) + old(dest[at + 4..])
  {
    dest[at], dest[at + 1], dest[at + 2], dest[at + 3] := q.x0, q.x1, q.x2, q.x3;
  }

  /** `compress_in_place`: the same chaining value as the portable code. */
  method CompressInPlace(
      isa: Isa, o: Ops<u32>, cv: array<u32>, block: Block, blockLen: nat, counter: nat, flags: u8)
    requires Swaps(o) && cv.Length == 8
    modifies cv
    ensures cv[..] == CompressWords(o, old(cv[..]), block, blockLen, counter, flags)[..8]
  {
    ghost var was := cv[..];
    var rows := CompressPre(isa, o, cv[..], block, blockLen, counter, flags);
    StoreRows(QuadOps(o).xor(rows.r0, rows.r2), QuadOps(o).xor(rows.r1, rows.r3), cv);
    RowsNextCv(o, rows);
    FirstWords(o, was, block, blockLen, counter, flags);
  }

  method StoreRows(low: Quad<u32>, high: Quad<u32>, dest: array<u32>)
    requires dest.Length == 8
    modifies dest
    ensures dest[..] == Stored(low) + Stored(high)
  {
    StoreU(low, dest, 0);
    StoreU(high, dest, 4);
  }

  /** `compress_xof`: the same output block as the portable code. */
  method CompressXof(isa: Isa, o: Ops<u32>, cv: CVWords, block: Block, blockLen: nat, counter: nat, flags: u8)
    returns (out: Block)
    requires Swaps(o)
    ensures out == BlockFromWords(CompressWords(o, cv, block, blockLen, counter, flags))
  {
    var rows := CompressPre(isa, o, cv, block, blockLen, counter, flags);
    RowsNextCv(o, rows);
    RowsMoreWords(o, rows, cv);
    var p := QuadOps(o);
    var row0, row1 := p.xor(rows.r0, rows.r2), p.xor(rows.r1, rows.r3);
    var row2, row3 := p.xor(rows.r2, Loaded(cv, 0)), p.xor(rows.r3, Loaded(cv, 4));
    var words := (Stored(row0) + Stored(row1)) + (Stored(row2) + Stored(row3));
    assert words == CompressWords(o, cv, block, blockLen, counter, flags);
    out := BytesFromWords(words);
  }
}
