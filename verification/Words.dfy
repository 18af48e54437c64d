/** Bytes, 32-bit words, and the little-endian conversions between them. */
module Words {
  type u8 = bv8
  type u32 = bv32

  type CVWords = s: seq<u32> | |s| == 8 witness seq(8, i => 0)
  type StateWords = s: seq<u32> | |s| == 16 witness seq(16, i => 0)
  type CVBytes = s: seq<u8> | |s| == 32 witness seq(32, i => 0)
  type Block = s: seq<u8> | |s| == 64 witness seq(64, i => 0)

  /** Byte `k` of a word, counting from the least significant. */
  function ByteOf(w: u32, k: nat): u8
    requires k < 4
  {
    if k == 0 then (w & 0xFF) as u8
    else if k == 1 then ((w >> 8) & 0xFF) as u8
    else if k == 2 then ((w >> 16) & 0xFF) as u8
    else ((w >> 24) & 0xFF) as u8
  }

  /** `u32::from_le_bytes`. */
  function WordOf(b0: u8, b1: u8, b2: u8, b3: u8): u32 {
    (b0 as u32) | ((b1 as u32) << 8) | ((b2 as u32) << 16) | ((b3 as u32) << 24)
  }

  /** `le_bytes_from_words_32` and `le_bytes_from_words_64`. */
  function BytesFromWords(ws: seq<u32>): (bs: seq<u8>)
    ensures |bs| == 4 * |ws|
  {
    seq(4 * |ws|, i requires 0 <= i < 4 * |ws| => ByteOf(ws[i / 4], i % 4))
  }

  /** All sixteen output words as one output block. */
  function BlockFromWords(ws: StateWords): Block {
    BytesFromWords(ws)
  }

  /** `words_from_le_bytes_32` and `words_from_le_bytes_64`. */
  function WordsFromBytes(bs: seq<u8>): (ws: seq<u32>)
    requires |bs| % 4 == 0
    ensures |ws| == |bs| / 4
  {
    seq(|bs| / 4, i requires 0 <= i < |bs| / 4 => WordOf(bs[4 * i], bs[4 * i + 1], bs[4 * i + 2], bs[4 * i + 3]))
  }

  lemma {:induction false} WordOfBytes(w: u32)
    ensures WordOf(ByteOf(w, 0), ByteOf(w, 1), ByteOf(w, 2), ByteOf(w, 3)) == w
  {
  }

  lemma {:induction false} BytesOfWord(b0: u8, b1: u8, b2: u8, b3: u8)
    ensures var w := WordOf(b0, b1, b2, b3);
            ByteOf(w, 0) == b0 && ByteOf(w, 1) == b1 && ByteOf(w, 2) == b2 && ByteOf(w, 3) == b3
  {
  }

  lemma {:induction false} WordAt(ws: seq<u32>, i: nat)
    requires i < |ws|
    ensures WordsFromBytes(BytesFromWords(ws))[i] == ws[i]
  {
    var bs := BytesFromWords(ws);
    assert bs[4 * i] == ByteOf(ws[i], 0) && bs[4 * i + 1] == ByteOf(ws[i], 1);
    assert bs[4 * i + 2] == ByteOf(ws[i], 2) && bs[4 * i + 3] == ByteOf(ws[i], 3);
    WordOfBytes(ws[i]);
  }

  /** A chaining value survives the trip through the byte form of the CV stack. */
  lemma {:induction false} WordsRoundTrip(ws: seq<u32>)
    ensures WordsFromBytes(BytesFromWords(ws)) == ws
  {
    forall i | 0 <= i < |ws| ensures WordsFromBytes(BytesFromWords(ws))[i] == ws[i] {
      WordAt(ws, i);
    }
  }

  lemma {:induction false} BytesRoundTrip(bs: seq<u8>)
    requires |bs| % 4 == 0
    ensures BytesFromWords(WordsFromBytes(bs)) == bs
  {
    var ws := WordsFromBytes(bs);
    forall i | 0 <= i < |bs| ensures BytesFromWords(ws)[i] == bs[i] {
      var k := i / 4;
      assert ws[k] == WordOf(bs[4 * k], bs[4 * k + 1], bs[4 * k + 2], bs[4 * k + 3]);
      BytesOfWord(bs[4 * k], bs[4 * k + 1], bs[4 * k + 2], bs[4 * k + 3]);
    }
  }

  // ---------- what the conversions mean ----------

  function Power(b: nat, k: nat): (p: nat)
    ensures b > 0 ==> p > 0
  {
    if k == 0 then 1 else b * Power(b, k - 1)
  }

  /** Little-endian: byte `k` of a word counts 256 to the `k`. */
  lemma {:induction false} WordOfValue(b0: u8, b1: u8, b2: u8, b3: u8)
    ensures WordOf(b0, b1, b2, b3) as nat
         == b0 as nat + 0x100 * b1 as nat + 0x1_0000 * b2 as nat + 0x100_0000 * b3 as nat
  {
    ShiftedBytes(WordOf(b0, b1, b2, b3), b0, b1, b2, b3);
  }

  lemma {:induction false} ShiftedBytes(w: u32, b0: u8, b1: u8, b2: u8, b3: u8)
    requires w == (b0 as u32) | ((b1 as u32) << 8) | ((b2 as u32) << 16) | ((b3 as u32) << 24)
    ensures w as nat == b0 as nat + 0x100 * b1 as nat + 0x1_0000 * b2 as nat + 0x100_0000 * b3 as nat
  {
  }

  lemma {:induction false} ByteOfValue(w: u32, k: nat)
    requires k < 4
    ensures ByteOf(w, k) as nat == w as nat / Power(256, k) % 256
  {
    var d0, d1, d2, d3 := DigitsOfWord(w);
    DigitAt(w as nat, d0, d1, d2, d3, k);
  }

  lemma {:induction false} DigitAt(n: nat, d0: nat, d1: nat, d2: nat, d3: nat, k: nat)
    requires n == d0 + 0x100 * d1 + 0x1_0000 * d2 + 0x100_0000 * d3
    requires d0 < 256 && d1 < 256 && d2 < 256 && d3 < 256 && k < 4
    ensures n / Power(256, k) % 256 == if k == 0 then d0 else if k == 1 then d1 else if k == 2 then d2 else d3
  {
    PowersOf256();
    LowDigits(d0, d1, d2 + 0x100 * d3);
    HighDigits(d0 + 0x100 * d1, d2, d3);
  }

  /** A word by its bytes. */
  lemma {:induction false} DigitsOfWord(w: u32) returns (d0: nat, d1: nat, d2: nat, d3: nat)
    ensures d0 == ByteOf(w, 0) as nat && d1 == ByteOf(w, 1) as nat
    ensures d2 == ByteOf(w, 2) as nat && d3 == ByteOf(w, 3) as nat
    ensures w as nat == d0 + 0x100 * d1 + 0x1_0000 * d2 + 0x100_0000 * d3
    ensures d0 < 256 && d1 < 256 && d2 < 256 && d3 < 256
  {
    WordOfBytes(w);
    WordOfValue(ByteOf(w, 0), ByteOf(w, 1), ByteOf(w, 2), ByteOf(w, 3));
    d0, d1, d2, d3 := ByteOf(w, 0) as nat, ByteOf(w, 1) as nat, ByteOf(w, 2) as nat, ByteOf(w, 3) as nat;
  }

  lemma {:induction false} PowersOf256()
    ensures Power(256, 0) == 1 && Power(256, 1) == 0x100
    ensures Power(256, 2) == 0x1_0000 && Power(256, 3) == 0x100_0000
  {
    assert Power(256, 1) == 256 * Power(256, 0) && Power(256, 2) == 256 * Power(256, 1);
  }

  lemma {:induction false} LowDigits(d0: nat, d1: nat, rest: nat)
    requires d0 < 256 && d1 < 256
    ensures var n := d0 + 0x100 * d1 + 0x1_0000 * rest; n % 256 == d0 && n / 0x100 % 256 == d1
  {
    var n := d0 + 0x100 * d1 + 0x1_0000 * rest;
    assert n / 0x100 == d1 + 0x100 * rest;
  }

  lemma {:induction false} HighDigits(rest: nat, d2: nat, d3: nat)
    requires rest < 0x1_0000 && d2 < 256 && d3 < 256
    ensures var n := rest + 0x1_0000 * d2 + 0x100_0000 * d3; n / 0x1_0000 % 256 == d2 && n / 0x100_0000 % 256 == d3
  {
    var n := rest + 0x1_0000 * d2 + 0x100_0000 * d3;
    assert n / 0x1_0000 == d2 + 0x100 * d3;
    assert n / 0x100_0000 == d3;
  }

  /** Byte `k` of word `i` in memory. */
  lemma {:induction false} BytesFromWordsAre(ws: seq<u32>, i: nat, k: nat)
    requires i < |ws| && k < 4
    ensures BytesFromWords(ws)[4 * i + k] as nat == ws[i] as nat / Power(256, k) % 256
  {
    ByteOfValue(ws[i], k);
  }

  /** Word `i` read from memory. */
  lemma {:induction false} WordsFromBytesAre(bs: seq<u8>, i: nat)
    requires |bs| % 4 == 0 && 4 * i < |bs|
    ensures WordsFromBytes(bs)[i] as nat
         == bs[4 * i] as nat + 0x100 * bs[4 * i + 1] as nat + 0x1_0000 * bs[4 * i + 2] as nat
            + 0x100_0000 * bs[4 * i + 3] as nat
  {
    WordOfValue(bs[4 * i], bs[4 * i + 1], bs[4 * i + 2], bs[4 * i + 3]);
  }

  /** A number below 2^32 is its own word. */
  lemma {:induction false} WordOfNumber(n: nat)
    requires n < 0x1_0000_0000
    ensures (n as u32) as nat == n
  {
    var d0, d1, d2, d3 := DigitsOfNumber(n);
    var w := WordWithBytes(d0, d1, d2, d3);
    WordBack(w, n);
  }

  lemma {:induction false} DigitsOfNumber(n: nat) returns (d0: nat, d1: nat, d2: nat, d3: nat)
    requires n < 0x1_0000_0000
    ensures n == d0 + 0x100 * d1 + 0x1_0000 * d2 + 0x100_0000 * d3
    ensures d0 < 256 && d1 < 256 && d2 < 256 && d3 < 256
  {
    var high, low := n / 0x1_0000, n % 0x1_0000;
    d0, d1, d2, d3 := low % 0x100, low / 0x100, high % 0x100, high / 0x100;
  }

  lemma {:induction false} WordWithBytes(d0: nat, d1: nat, d2: nat, d3: nat) returns (w: u32)
    requires d0 < 256 && d1 < 256 && d2 < 256 && d3 < 256
    ensures w as nat == d0 + 0x100 * d1 + 0x1_0000 * d2 + 0x100_0000 * d3
  {
    w := WordOf(d0 as u8, d1 as u8, d2 as u8, d3 as u8);
    WordOfValue(d0 as u8, d1 as u8, d2 as u8, d3 as u8);
    ByteOfNumber(d0);
    ByteOfNumber(d1);
    ByteOfNumber(d2);
    ByteOfNumber(d3);
  }

  lemma {:induction false} ByteOfNumber(n: nat)
    requires n < 256
    ensures (n as u8) as nat == n
  {
    NibbleOfNumber(n % 16);
    NibbleOfNumber(n / 16);
    var b := ByteWithNibbles((n / 16) as bv4, (n % 16) as bv4);
    ByteBack(b, n);
  }

  lemma {:induction false} NibbleOfNumber(n: nat)
    requires n < 16
    ensures (n as bv4) as nat == n
  {
  }

  lemma {:induction false} ByteWithNibbles(high: bv4, low: bv4) returns (b: u8)
    ensures b as nat == 16 * high as nat + low as nat
  {
    b := ((high as u8) << 4) | (low as u8);
  }

  lemma {:induction false} ByteBack(b: u8, n: nat)
    requires b as nat == n
    ensures n as u8 == b
  {
    ByteThere(b);
  }

  lemma {:induction false} ByteThere(b: u8)
    ensures (b as nat) as u8 == b
  {
  }

  lemma {:induction false} WordBack(w: u32, n: nat)
    requires w as nat == n
    ensures n as u32 == w
  {
    WordThere(w);
  }

  lemma {:induction false} WordThere(w: u32)
    ensures (w as nat) as u32 == w
  {
  }

  /** The byte form of a prefix of the words is a prefix of the byte form. */
  lemma {:induction false} BytesOfPrefix(ws: seq<u32>, n: nat)
    requires n <= |ws|
    ensures BytesFromWords(ws[..n]) == BytesFromWords(ws)[..4 * n]
  {
  }
}
