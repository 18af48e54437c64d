/** The mixing network of the compression function (BLAKE3 paper, section 2.2), for any
    kind of word: 32-bit words in the portable code, vectors of them in the others. */
module Arx {
  import opened Words

  /** Four of a kind: a row of the state, or a 128-bit vector of words. */
  datatype Quad<T> = Quad(x0: T, x1: T, x2: T, x3: T)

  /** Which lane of four. */
  function At<T>(q: Quad<T>, i: nat): T {
    if i == 0 then q.x0 else if i == 1 then q.x1 else if i == 2 then q.x2 else q.x3
  }

  datatype Column<T> = Column(a: T, b: T, c: T, d: T)

  /** The sixteen words of the state, as four rows. */
  datatype State<T> = State(r0: Quad<T>, r1: Quad<T>, r2: Quad<T>, r3: Quad<T>)

  /** The sixteen message words of a round: those that the columns take first and
      second, and those that the diagonals take first and second. */
  datatype Message<T> = Message(m0: Quad<T>, m1: Quad<T>, m2: Quad<T>, m3: Quad<T>)

  /** The word operations that the network is made of. */
  datatype Ops<!T> = Ops(
    add: (T, T) -> T, xor: (T, T) -> T, rot16: T -> T, rot12: T -> T, rot8: T -> T, rot7: T -> T)

  /** The first and second half of mixing one column. */
  function First<T>(o: Ops<T>, c: Column<T>, m: T): Column<T> {
    var a := o.add(o.add(c.a, c.b), m);
    var d := o.rot16(o.xor(c.d, a));
    var s := o.add(c.c, d);
    Column(a, o.rot12(o.xor(c.b, s)), s, d)
  }

  function Second<T>(o: Ops<T>, c: Column<T>, m: T): Column<T> {
    var a := o.add(o.add(c.a, c.b), m);
    var d := o.rot8(o.xor(c.d, a));
    var s := o.add(c.c, d);
    Column(a, o.rot7(o.xor(c.b, s)), s, d)
  }

  type Half<!T> = (Column<T>, T) -> Column<T>

  function FirstHalf<T(!new)>(o: Ops<T>): Half<T> {
    (c: Column<T>, m: T) => First(o, c, m)
  }

  function SecondHalf<T(!new)>(o: Ops<T>): Half<T> {
    (c: Column<T>, m: T) => Second(o, c, m)
  }

  /** One half of mixing all four columns. */
  function MixColumns<T>(f: Half<T>, s: State<T>, m: Quad<T>): State<T> {
    var c0 := f(Column(s.r0.x0, s.r1.x0, s.r2.x0, s.r3.x0), m.x0);
    var c1 := f(Column(s.r0.x1, s.r1.x1, s.r2.x1, s.r3.x1), m.x1);
    var c2 := f(Column(s.r0.x2, s.r1.x2, s.r2.x2, s.r3.x2), m.x2);
    var c3 := f(Column(s.r0.x3, s.r1.x3, s.r2.x3, s.r3.x3), m.x3);
    State(Quad(c0.a, c1.a, c2.a, c3.a), Quad(c0.b, c1.b, c2.b, c3.b),
          Quad(c0.c, c1.c, c2.c, c3.c), Quad(c0.d, c1.d, c2.d, c3.d))
  }

  /** Rotates a row to the left by one, two or three places. */
  function Left1<T>(q: Quad<T>): Quad<T> { Quad(q.x1, q.x2, q.x3, q.x0) }

  function Left2<T>(q: Quad<T>): Quad<T> { Quad(q.x2, q.x3, q.x0, q.x1) }

  function Left3<T>(q: Quad<T>): Quad<T> { Quad(q.x3, q.x0, q.x1, q.x2) }

  /** Turns the diagonals into columns, and back. */
  function Diagonals<T>(s: State<T>): State<T> {
    State(s.r0, Left1(s.r1), Left2(s.r2), Left3(s.r3))
  }

  function Undo<T>(s: State<T>): State<T> {
    State(s.r0, Left3(s.r1), Left2(s.r2), Left1(s.r3))
  }

  /** One round: the columns, then the diagonals. */
  function Round<T>(first: Half<T>, second: Half<T>, s: State<T>, m: Message<T>): State<T> {
    var columns := MixColumns(second, MixColumns(first, s, m.m0), m.m1);
    Undo(MixColumns(second, MixColumns(first, Diagonals(columns), m.m2), m.m3))
  }

  // ---------- words ----------

  function RotateRight(w: u32, n: nat): u32
    requires n < 32
  {
    w.RotateRight(n)
  }

  function Add(a: u32, b: u32): u32 { a + b }

  function Xor(a: u32, b: u32): u32 { a ^ b }

  /** The operations on 32-bit words, with wrap-around addition. */
  function WordOps(): Ops<u32> {
    Ops((a: u32, b: u32) => Add(a, b), (a: u32, b: u32) => Xor(a, b),
        (a: u32) => RotateRight(a, 16), (a: u32) => RotateRight(a, 12),
        (a: u32) => RotateRight(a, 8), (a: u32) => RotateRight(a, 7))
  }

  /** The order of three summands does not matter. */
  predicate SwapAt<T(==)>(o: Ops<T>, a: T, b: T, c: T) {
    o.add(o.add(a, b), c) == o.add(o.add(a, c), b)
  }

  ghost predicate Swaps<T(!new)>(o: Ops<T>) {
    forall a, b, c :: SwapAt(o, a, b, c)
  }

  function Sum(a: u32, b: u32, c: u32): u32 { a + b + c }

  lemma {:induction false} AddIs(a: u32, b: u32)
    ensures Add(a, b) == a + b
  {
  }

  lemma {:induction false} AddTwice(a: u32, b: u32, c: u32)
    ensures Add(a + b, c) == Sum(a, b, c)
  {
  }

  lemma {:induction false} SumSwap(a: u32, b: u32, c: u32)
    ensures Sum(a, b, c) == Sum(a, c, b)
  {
  }

  lemma {:induction false} AddSwap(a: u32, b: u32, c: u32)
    ensures Add(Add(a, b), c) == Add(Add(a, c), b)
  {
    AddIs(a, b);
    AddTwice(a, b, c);
    AddIs(a, c);
    AddTwice(a, c, b);
    SumSwap(a, b, c);
  }

  lemma {:induction false} WordsSwap()
    ensures Swaps(WordOps())
  {
    var o := WordOps();
    forall a, b, c ensures SwapAt(o, a, b, c) {
      AddSwap(a, b, c);
    }
  }

  /** The shifts of the vector code rotate. */
  lemma {:induction false} ShiftsRotate(a: u32)
    ensures (a >> 16) | (a << 16) == RotateRight(a, 16)
    ensures (a >> 12) | (a << 20) == RotateRight(a, 12)
    ensures (a >> 8) | (a << 24) == RotateRight(a, 8)
    ensures (a >> 7) | (a << 25) == RotateRight(a, 7)
  {
  }

  /** Which operation is which. */
  lemma {:induction false} WordsAddAndXor(a: u32, b: u32)
    ensures WordOps().add(a, b) == a + b && WordOps().xor(a, b) == a ^ b
  {
    AddIs(a, b);
  }

  lemma {:induction false} WordsRotate(a: u32)
    ensures WordOps().rot16(a) == (a >> 16) | (a << 16) && WordOps().rot12(a) == (a >> 12) | (a << 20)
    ensures WordOps().rot8(a) == (a >> 8) | (a << 24) && WordOps().rot7(a) == (a >> 7) | (a << 25)
  {
    ShiftsRotate(a);
  }

  // ---------- words inside vectors ----------

  /** `srli_epi32` and `slli_epi32`, put together by `or_si128`. */
  function Shifted16(a: u32): u32 { (a >> 16) | (a << 16) }

  function Shifted12(a: u32): u32 { (a >> 12) | (a << 20) }

  function Shifted8(a: u32): u32 { (a >> 8) | (a << 24) }

  function Shifted7(a: u32): u32 { (a >> 7) | (a << 25) }

  /** What the Rust SSE2, SSE4.1 and AVX2 code does to each word of a vector. */
  function ShiftOps(): Ops<u32> {
    Ops((a: u32, b: u32) => Add(a, b), (a: u32, b: u32) => Xor(a, b),
        (a: u32) => Shifted16(a), (a: u32) => Shifted12(a), (a: u32) => Shifted8(a), (a: u32) => Shifted7(a))
  }

  /** `shuffle_epi8` inside one word: which byte goes where, the least significant first. */
  function ShuffleBytes(a: u32, k0: nat, k1: nat, k2: nat, k3: nat): u32
    requires k0 < 4 && k1 < 4 && k2 < 4 && k3 < 4
  {
    WordOf(ByteOf(a, k0), ByteOf(a, k1), ByteOf(a, k2), ByteOf(a, k3))
  }

  /** The shifts, put together by `xor_si128`. */
  function Xored12(a: u32): u32 { (a >> 12) ^ (a << 20) }

  function Xored7(a: u32): u32 { (a >> 7) ^ (a << 25) }

  /** What the C port's SSE4.1 code does: two rotations by shuffling bytes, two by shifts. */
  function ShuffleOps(): Ops<u32> {
    Ops((a: u32, b: u32) => Add(a, b), (a: u32, b: u32) => Xor(a, b),
        (a: u32) => ShuffleBytes(a, 2, 3, 0, 1), (a: u32) => Xored12(a),
        (a: u32) => ShuffleBytes(a, 1, 2, 3, 0), (a: u32) => Xored7(a))
  }

  /** Both act on every word as the operations of the portable code do. */
  lemma {:induction false} ShiftOpsAgree()
    ensures Agree(ShiftOps(), WordOps())
  {
    forall a, b ensures AgreeAt(ShiftOps(), WordOps(), a, b) {
      ShiftsRotate(a);
    }
  }

  lemma {:induction false} ShuffleOpsAgree()
    ensures Agree(ShuffleOps(), WordOps())
  {
    forall a, b ensures AgreeAt(ShuffleOps(), WordOps(), a, b) {
      ShufflesRotate(a);
      ShiftsRotate(a);
      XoredIs(a);
    }
  }

  lemma {:induction false} ShufflesRotate(a: u32)
    ensures ShuffleBytes(a, 2, 3, 0, 1) == RotateRight(a, 16)
    ensures ShuffleBytes(a, 1, 2, 3, 0) == RotateRight(a, 8)
  {
  }

  lemma {:induction false} XoredIs(a: u32)
    ensures Xored12(a) == (a >> 12) | (a << 20) && Xored7(a) == (a >> 7) | (a << 25)
  {
  }

  /** Whether two ways to operate on words give the same results. */
  predicate AgreeAt(q: Ops<u32>, o: Ops<u32>, a: u32, b: u32) {
    && q.add(a, b) == o.add(a, b) && q.xor(a, b) == o.xor(a, b)
    && q.rot16(a) == o.rot16(a) && q.rot12(a) == o.rot12(a) && q.rot8(a) == o.rot8(a) && q.rot7(a) == o.rot7(a)
  }

  ghost predicate Agree(q: Ops<u32>, o: Ops<u32>) {
    forall a, b :: AgreeAt(q, o, a, b)
  }

  lemma {:induction false} AgreeingSwap(q: Ops<u32>, o: Ops<u32>)
    requires Agree(q, o) && Swaps(o)
    ensures Swaps(q)
  {
    forall a, b, c ensures SwapAt(q, a, b, c) {
      assert AgreeAt(q, o, a, b) && AgreeAt(q, o, a, c) && SwapAt(o, a, b, c);
      assert AgreeAt(q, o, o.add(a, b), c) && AgreeAt(q, o, o.add(a, c), b);
    }
  }

  /** Then nothing is lost in going from one to the other. */
  lemma {:induction false} AgreeingCarry(q: Ops<u32>, o: Ops<u32>)
    requires Agree(q, o)
    ensures Carries((x: u32) => x, q, o)
  {
    forall a, b ensures q.add(a, b) == o.add(a, b) {
      assert AgreeAt(q, o, a, b);
    }
    forall a, b ensures q.xor(a, b) == o.xor(a, b) {
      assert AgreeAt(q, o, a, b);
    }
    forall a: u32
      ensures q.rot16(a) == o.rot16(a) && q.rot12(a) == o.rot12(a) && q.rot8(a) == o.rot8(a) && q.rot7(a) == o.rot7(a)
    {
      assert AgreeAt(q, o, a, a);
    }
  }

  // ---------- vectors of words ----------

  /** Word operations lane by lane. */
  function QuadOps<T(!new)>(o: Ops<T>): Ops<Quad<T>> {
    Ops((a: Quad<T>, b: Quad<T>) => Quad(o.add(a.x0, b.x0), o.add(a.x1, b.x1), o.add(a.x2, b.x2), o.add(a.x3, b.x3)),
        (a: Quad<T>, b: Quad<T>) => Quad(o.xor(a.x0, b.x0), o.xor(a.x1, b.x1), o.xor(a.x2, b.x2), o.xor(a.x3, b.x3)),
        (a: Quad<T>) => Quad(o.rot16(a.x0), o.rot16(a.x1), o.rot16(a.x2), o.rot16(a.x3)),
        (a: Quad<T>) => Quad(o.rot12(a.x0), o.rot12(a.x1), o.rot12(a.x2), o.rot12(a.x3)),
        (a: Quad<T>) => Quad(o.rot8(a.x0), o.rot8(a.x1), o.rot8(a.x2), o.rot8(a.x3)),
        (a: Quad<T>) => Quad(o.rot7(a.x0), o.rot7(a.x1), o.rot7(a.x2), o.rot7(a.x3)))
  }

  lemma {:induction false} QuadsSwap<T(!new)>(o: Ops<T>)
    requires Swaps(o)
    ensures Swaps(QuadOps(o))
  {
    var p := QuadOps(o);
    forall a, b, c ensures SwapAt(p, a, b, c) {
      QuadSwap(o, a, b, c);
    }
  }

  lemma {:induction false} QuadSwap<T(!new)>(o: Ops<T>, a: Quad<T>, b: Quad<T>, c: Quad<T>)
    requires Swaps(o)
    ensures SwapAt(QuadOps(o), a, b, c)
  {
    assert SwapAt(o, a.x0, b.x0, c.x0) && SwapAt(o, a.x1, b.x1, c.x1);
    assert SwapAt(o, a.x2, b.x2, c.x2) && SwapAt(o, a.x3, b.x3, c.x3);
  }

  /** Whether `h`, a lane of a vector, carries the operations `p` over to `o`. */
  ghost predicate Carries<T(!new), U(!new)>(h: T -> U, p: Ops<T>, o: Ops<U>) {
    && (forall a, b :: h(p.add(a, b)) == o.add(h(a), h(b)))
    && (forall a, b :: h(p.xor(a, b)) == o.xor(h(a), h(b)))
    && (forall a :: h(p.rot16(a)) == o.rot16(h(a)))
    && (forall a :: h(p.rot12(a)) == o.rot12(h(a)))
    && (forall a :: h(p.rot8(a)) == o.rot8(h(a)))
    && (forall a :: h(p.rot7(a)) == o.rot7(h(a)))
  }

  function MapColumn<T, U>(h: T -> U, c: Column<T>): Column<U> {
    Column(h(c.a), h(c.b), h(c.c), h(c.d))
  }

  function MapQuad<T, U>(h: T -> U, q: Quad<T>): Quad<U> {
    Quad(h(q.x0), h(q.x1), h(q.x2), h(q.x3))
  }

  function MapState<T, U>(h: T -> U, s: State<T>): State<U> {
    State(MapQuad(h, s.r0), MapQuad(h, s.r1), MapQuad(h, s.r2), MapQuad(h, s.r3))
  }

  function MapMessage<T, U>(h: T -> U, m: Message<T>): Message<U> {
    Message(MapQuad(h, m.m0), MapQuad(h, m.m1), MapQuad(h, m.m2), MapQuad(h, m.m3))
  }

  function MapWords<T, U>(h: T -> U, w: seq<T>): (v: seq<U>)
    ensures |v| == |w|
  {
    seq(|w|, i requires 0 <= i < |w| => h(w[i]))
  }

  lemma {:induction false} HalvesCarry<T(!new), U(!new)>(h: T -> U, p: Ops<T>, o: Ops<U>, c: Column<T>, m: T)
    requires Carries(h, p, o)
    ensures MapColumn(h, FirstHalf(p)(c, m)) == FirstHalf(o)(MapColumn(h, c), h(m))
    ensures MapColumn(h, SecondHalf(p)(c, m)) == SecondHalf(o)(MapColumn(h, c), h(m))
  {
  }

  /** Whether `h` carries one way of mixing columns over to another. */
  ghost predicate CarriesHalf<T(!new), U(!new)>(h: T -> U, f: Half<T>, g: Half<U>) {
    forall c, m :: MapColumn(h, f(c, m)) == g(MapColumn(h, c), h(m))
  }

  lemma {:induction false} MixColumnsCarry<T(!new), U(!new)>(h: T -> U, f: Half<T>, g: Half<U>, s: State<T>, m: Quad<T>)
    requires CarriesHalf(h, f, g)
    ensures MapState(h, MixColumns(f, s, m)) == MixColumns(g, MapState(h, s), MapQuad(h, m))
  {
  }

  /** Mixing vectors mixes each lane. */
  lemma {:induction false} RoundCarries<T(!new), U(!new)>(
      h: T -> U, p: Ops<T>, o: Ops<U>, s: State<T>, m: Message<T>)
    requires Carries(h, p, o)
    ensures MapState(h, Round(FirstHalf(p), SecondHalf(p), s, m))
         == Round(FirstHalf(o), SecondHalf(o), MapState(h, s), MapMessage(h, m))
  {
    forall c, x ensures MapColumn(h, FirstHalf(p)(c, x)) == FirstHalf(o)(MapColumn(h, c), h(x))
                     && MapColumn(h, SecondHalf(p)(c, x)) == SecondHalf(o)(MapColumn(h, c), h(x)) {
      HalvesCarry(h, p, o, c, x);
    }
    HalvesRoundCarries(h, FirstHalf(p), FirstHalf(o), SecondHalf(p), SecondHalf(o), s, m);
  }

  lemma {:induction false} HalvesRoundCarries<T(!new), U(!new)>(
      h: T -> U, f: Half<T>, f': Half<U>, g: Half<T>, g': Half<U>, s: State<T>, m: Message<T>)
    requires CarriesHalf(h, f, f') && CarriesHalf(h, g, g')
    ensures MapState(h, Round(f, g, s, m)) == Round(f', g', MapState(h, s), MapMessage(h, m))
  {
    MixColumnsCarry(h, f, f', s, m.m0);
    var s1 := MixColumns(f, s, m.m0);
    MixColumnsCarry(h, g, g', s1, m.m1);
    var s2 := Diagonals(MixColumns(g, s1, m.m1));
    MixColumnsCarry(h, f, f', s2, m.m2);
    var s3 := MixColumns(f, s2, m.m2);
    MixColumnsCarry(h, g, g', s3, m.m3);
  }

  /** Mixing whole rows, message words first, mixes the columns. */
  lemma {:induction false} RowsMix<T(!new)>(o: Ops<T>, s: State<T>, m: Quad<T>)
    requires Swaps(o)
    ensures var p := QuadOps(o);
            var r0 := p.add(p.add(s.r0, m), s.r1);
            var r3 := p.rot16(p.xor(s.r3, r0));
            var r2 := p.add(s.r2, r3);
            State(r0, p.rot12(p.xor(s.r1, r2)), r2, r3) == MixColumns(FirstHalf(o), s, m)
    ensures var p := QuadOps(o);
            var r0 := p.add(p.add(s.r0, m), s.r1);
            var r3 := p.rot8(p.xor(s.r3, r0));
            var r2 := p.add(s.r2, r3);
            State(r0, p.rot7(p.xor(s.r1, r2)), r2, r3) == MixColumns(SecondHalf(o), s, m)
  {
    assert SwapAt(o, s.r0.x0, m.x0, s.r1.x0) && SwapAt(o, s.r0.x1, m.x1, s.r1.x1);
    assert SwapAt(o, s.r0.x2, m.x2, s.r1.x2) && SwapAt(o, s.r0.x3, m.x3, s.r1.x3);
  }
}
