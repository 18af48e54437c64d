/** Buffers that cut input into blocks.  An eager buffer hands a block on as soon as it
    is full and keeps its cursor in the last byte of the block; a lazy one keeps a full
    block until more input follows, and has a separate cursor. */
module BlockBuffers {
  import opened Sequences
  import opened ByteBlocks

  datatype Kind = Eager | Lazy {
    /** Which cursor positions the kind allows. */
    predicate Invariant(pos: nat, size: nat) {
      if Eager? then pos < size else pos <= size
    }

    /** How many bytes longer than a block a serialized buffer is. */
    function Overhead(): nat {
      if Eager? then 0 else 1
    }

    /** Splits off what stays in the buffer: for a lazy buffer, never nothing. */
    function SplitBlocks(data: seq<byte>, size: nat): (seq<seq<byte>>, seq<byte>)
      requires size > 0
    {
      var (blocks, tail) := SliceAsChunks(data, size);
      if Eager? || data == [] || tail != [] then (blocks, tail)
      else (blocks[..|blocks| - 1], blocks[|blocks| - 1])
    }

    lemma {:induction false} SplitBlocksIs(data: seq<byte>, size: nat)
      requires size > 0
      ensures var (blocks, tail) := SplitBlocks(data, size);
              && AreBlocks(blocks, size) && Joined(blocks) + tail == data
              && Invariant(|tail|, size) && (data != [] && Lazy? ==> tail != [])
    {
      SliceAsChunksIs(data, size);
      var (blocks, tail) := SliceAsChunks(data, size);
      if data != [] && tail == [] { assert Joined(blocks) + tail == Joined(blocks); }
    }
  }

  /** Whole blocks from the start of the data, and the rest. */
  function SliceAsChunks(data: seq<byte>, size: nat): (r: (seq<seq<byte>>, seq<byte>))
    requires size > 0
    ensures r.0 == [] ==> r.1 == data
  {
    if |data| < size then ([], data)
    else
      var (blocks, tail) := SliceAsChunks(data[size..], size);
      ([data[..size]] + blocks, tail)
  }

  lemma {:induction false} SliceAsChunksIs(data: seq<byte>, size: nat)
    requires size > 0
    ensures var (blocks, tail) := SliceAsChunks(data, size);
            AreBlocks(blocks, size) && Joined(blocks) + tail == data && |tail| < size
  {
    if |data| >= size {
      var first, rest := data[..size], data[size..];
      SliceAsChunksIs(rest, size);
      var (blocks, tail) := SliceAsChunks(rest, size);
      JoinedAppend([first], blocks);
      JoinedOne(first);
      Assoc(first, Joined(blocks), tail);
      assert data == first + rest;
    }
  }

  class BlockBuffer {
    const kind: Kind
    const size: nat
    const buffer: array<byte>
    var pos: byte

    /** The cursor, wherever this kind keeps it. */
    function Cursor(): nat
      requires 0 < size == buffer.Length
      reads this, buffer
    {
      if kind.Eager? then buffer[size - 1] as nat else pos as nat
    }

    ghost predicate Valid()
      reads this, buffer
    {
      IsBlockSize(size) && buffer.Length == size && kind.Invariant(Cursor(), size)
    }

    /** The bytes that wait for the rest of their block. */
    function Data(): (data: seq<byte>)
      requires Valid()
      reads this, buffer
      ensures kind.Invariant(|data|, size)
    {
      buffer[..Cursor()]
    }

    constructor (kind: Kind, size: nat)
      requires IsBlockSize(size)
      ensures Valid() && fresh(buffer) && this.kind == kind && this.size == size && Data() == []
    {
      this.kind := kind;
      this.size := size;
      this.buffer := new byte[size](i => 0);
      this.pos := 0;
    }

    /** Sets the cursor, which for an eager buffer overwrites the last byte. */
    method SetPos(val: nat)
      requires IsBlockSize(size) && buffer.Length == size && kind.Invariant(val, size)
      modifies this`pos, buffer
      ensures Valid() && Cursor() == val
      ensures buffer[..val] == old(buffer[..val])
    {
      if kind.Eager? {
        buffer[size - 1] := val as byte;
      } else {
        pos := val as byte;
      }
    }

    /** Copies bytes to the buffer from `at` on. */
    method Copy(bytes: seq<byte>, at: nat)
      requires at + |bytes| <= buffer.Length
      modifies buffer
      ensures buffer[..at + |bytes|] == old(buffer[..at]) + bytes
      ensures at + |bytes| < buffer.Length ==> buffer[buffer.Length - 1] == old(buffer[buffer.Length - 1])
    {
      forall i | 0 <= i < |bytes| {
        buffer[at + i] := bytes[i];
      }
    }

    /** `set_data_unchecked`: the cursor first, then the data, which does not reach it. */
    method SetData(data: seq<byte>)
      requires IsBlockSize(size) && buffer.Length == size && kind.Invariant(|data|, size)
      modifies this`pos, buffer
      ensures Valid() && Data() == data
    {
      SetPos(|data|);
      Copy(data, 0);
      assert buffer[..0] == [];
    }

    /** `try_new`: a buffer that holds `data` already. */
    static method TryNew(kind: Kind, size: nat, data: seq<byte>) returns (r: Option<BlockBuffer>)
      requires IsBlockSize(size)
      ensures r.None? <==> !kind.Invariant(|data|, size)
      ensures r.Some? ==> fresh(r.value) && fresh(r.value.buffer) && r.value.Valid() && r.value.Data() == data
      ensures r.Some? ==> r.value.kind == kind && r.value.size == size
    {
      if !kind.Invariant(|data|, size) {
        return None;
      }
      var res := new BlockBuffer(kind, size);
      res.SetData(data);
      r := Some(res);
    }

    /** `deserialize`. */
    static method Deserialize(kind: Kind, size: nat, buf: seq<byte>) returns (r: Option<BlockBuffer>)
      requires IsBlockSize(size) && |buf| == size + kind.Overhead()
      ensures r.None? <==> Deserialized(kind, size, buf).None?
      ensures r.Some? ==> fresh(r.value) && fresh(r.value.buffer) && r.value.Valid()
      ensures r.Some? ==> r.value.kind == kind && r.value.size == size
                          && Some(r.value.Data()) == Deserialized(kind, size, buf)
    {
      var pos := buf[0] as nat;
      if !kind.Invariant(pos, size) {
        return None;
      }
      var block := buf[1..];
      if exists i | pos <= i < |block| :: block[i] != 0 {
        return None;
      }
      var res := new BlockBuffer(kind, size);
      res.SetData(block[..pos]);
      r := Some(res);
    }

    /** Takes in input; `emitted` are the blocks passed to the compression callback. */
    method DigestBlocks(input: seq<byte>) returns (emitted: seq<seq<byte>>)
      requires Valid()
      modifies this`pos, buffer
      ensures Valid() && AreBlocks(emitted, size)
      ensures Joined(emitted) + Data() == old(Data()) + input
      ensures kind.Lazy? && old(Data()) + input != [] ==> Data() != []
    {
      var pos := Cursor();
      var rem := size - pos;
      if kind.Invariant(|input|, rem) {
        Append(input);
        return [];
      }
      var rest;
      emitted, rest := FillBlock(input);
      ghost var first := Joined(emitted);
      var (blocks, leftover) := kind.SplitBlocks(rest, size);
      kind.SplitBlocksIs(rest, size);
      JoinedAppend(emitted, blocks);
      Assoc(first, Joined(blocks), leftover);
      emitted := emitted + blocks;
      SetData(leftover);
    }

    /** Fills up the block that is begun, if any, and emits it. */
    method FillBlock(input: seq<byte>) returns (emitted: seq<seq<byte>>, rest: seq<byte>)
      requires Valid() && !kind.Invariant(|input|, size - Cursor())
      modifies buffer
      ensures AreBlocks(emitted, size) && Joined(emitted) + rest == old(Data()) + input
      ensures kind.Lazy? ==> rest != []
    {
      var pos := Cursor();
      var rem := size - pos;
      if pos == 0 {
        assert [] + input == input;
        return [], input;
      }
      rest := input[rem..];
      Copy(input[..rem], pos);
      emitted := [buffer[..]];
      JoinedOne(buffer[..]);
      Assoc(old(Data()), input[..rem], rest);
      assert input == input[..rem] + rest;
    }

    /** Input that does not fill the block. */
    method Append(input: seq<byte>)
      requires Valid() && kind.Invariant(|input|, size - Cursor())
      modifies this`pos, buffer
      ensures Valid() && Data() == old(Data()) + input
    {
      var pos := Cursor();
      Copy(input, pos);
      SetPos(pos + |input|);
    }

    method Reset()
      requires Valid()
      modifies this`pos, buffer
      ensures Valid() && Data() == []
    {
      SetPos(0);
    }

    /** The data padded to a whole block; the buffer is empty afterwards. */
    method PadWithZeros() returns (block: seq<byte>)
      requires Valid()
      modifies this`pos, buffer
      ensures Valid() && Data() == []
      ensures |block| == size && block == old(Data()) + Zeros(size - |old(Data())|)
    {
      var data := Data();
      block := data + Zeros(size - |data|);
      Reset();
    }

    /** `set`, whose assertion fails (here: which refuses) exactly when the kind does not
        allow the position. */
    method Set(buf: seq<byte>, pos: nat) returns (ok: bool)
      requires Valid() && |buf| == size
      modifies this`pos, buffer
      ensures Valid() && (ok <==> kind.Invariant(pos, size))
      ensures if ok then pos <= size && Data() == buf[..pos] else Data() == old(Data())
    {
      if !kind.Invariant(pos, size) {
        return false;
      }
      ok := true;
      forall i | 0 <= i < size {
        buffer[i] := buf[i];
      }
      SetPos(pos);
    }

    /** `digest_pad`: the data, `delim`, zeros and `suffix` in one or two blocks. */
    method DigestPad(delim: byte, suffix: seq<byte>) returns (emitted: seq<seq<byte>>)
      requires Valid() && kind.Eager? && |suffix| <= size
      modifies this`pos, buffer
      ensures Valid() && Data() == [] && AreBlocks(emitted, size)
      ensures |emitted| == if |old(Data())| + 1 + |suffix| <= size then 1 else 2
      ensures Joined(emitted) == Padded(old(Data()), delim, suffix, size)
    {
      var pos := Cursor();
      ghost var data := Data();
      var buf := Delimited(delim);
      var n := size - |suffix|;
      if size - pos - 1 < |suffix| {
        emitted := [buf[..], Zeros(n) + suffix];
        TwoBlocks(data + [delim], size - pos - 1, n, suffix);
      } else {
        PutSuffix(buf, data + [delim], suffix);
        emitted := [buf[..]];
        JoinedOne(buf[..]);
      }
    }

    /** A copy of the data with `delim` and zeros after it; the buffer is empty afterwards. */
    method Delimited(delim: byte) returns (buf: array<byte>)
      requires Valid() && kind.Eager?
      modifies this`pos, buffer
      ensures Valid() && Data() == [] && fresh(buf) && buf.Length == size
      ensures buf[..] == old(Data()) + [delim] + Zeros(size - |old(Data())| - 1)
    {
      var pos := Cursor();
      buf := new byte[size];
      var padded := PadWithZeros();
      forall i | 0 <= i < size {
        buf[i] := padded[i];
      }
      buf[pos] := delim;
    }

    /** `len64_padding_be`, `len64_padding_le` and `len128_padding_be`. */
    method Len64PaddingBe(data_len: nat) returns (emitted: seq<seq<byte>>)
      requires Valid() && kind.Eager? && 8 <= size && data_len < 0x1_0000_0000_0000_0000
      modifies this`pos, buffer
      ensures Valid() && Data() == [] && AreBlocks(emitted, size)
      ensures Joined(emitted) == Padded(old(Data()), 0x80, BeBytes(data_len, 8), size)
    {
      emitted := DigestPad(0x80, BeBytes(data_len, 8));
    }

    method Len64PaddingLe(data_len: nat) returns (emitted: seq<seq<byte>>)
      requires Valid() && kind.Eager? && 8 <= size && data_len < 0x1_0000_0000_0000_0000
      modifies this`pos, buffer
      ensures Valid() && Data() == [] && AreBlocks(emitted, size)
      ensures Joined(emitted) == Padded(old(Data()), 0x80, LeBytes(data_len, 8), size)
    {
      emitted := DigestPad(0x80, LeBytes(data_len, 8));
    }

    method Len128PaddingBe(data_len: nat) returns (emitted: seq<seq<byte>>)
      requires Valid() && kind.Eager? && 16 <= size && data_len < 0x1_0000_0000_0000_0000_0000_0000_0000_0000
      modifies this`pos, buffer
      ensures Valid() && Data() == [] && AreBlocks(emitted, size)
      ensures Joined(emitted) == Padded(old(Data()), 0x80, BeBytes(data_len, 16), size)
    {
      emitted := DigestPad(0x80, BeBytes(data_len, 16));
    }

    /** `serialize`: an array that deserializes to the same data.  There is only one. */
    method Serialize() returns (buf: seq<byte>)
      requires Valid()
      ensures |buf| == size + kind.Overhead() && Deserialized(kind, size, buf) == Some(Data())
      ensures forall other: seq<byte> | |other| == |buf| ::
                Deserialized(kind, size, other) == Some(Data()) ==> other == buf
      ensures |buf| == (if kind.Eager? then size else size + 1) && HasLayout(buf, Data())
    {
      var data := Data();
      buf := [|data| as byte] + data + Zeros(size + kind.Overhead() - 1 - |data|);
      SerializeRoundTrip(kind, size, data);
      forall other: seq<byte> | |other| == |buf| && Deserialized(kind, size, other) == Some(data)
        ensures other == buf
      {
        DeserializeRoundTrip(kind, size, other);
      }
    }
  }

  // ---------- padding ----------

  /** How many zeros fit between the delimiter and the suffix so that a block ends. */
  function PadZeros(data_len: nat, suffix_len: nat, size: nat): nat
    requires data_len < size && suffix_len <= size
  {
    if data_len + 1 + suffix_len <= size then size - data_len - 1 - suffix_len
    else 2 * size - data_len - 1 - suffix_len
  }

  function Padded(data: seq<byte>, delim: byte, suffix: seq<byte>, size: nat): seq<byte>
    requires |data| < size && |suffix| <= size
  {
    data + [delim] + Zeros(PadZeros(|data|, |suffix|, size)) + suffix
  }

  /** Overwrites the last zeros with `suffix`. */
  method PutSuffix(buf: array<byte>, ghost start: seq<byte>, suffix: seq<byte>)
    requires |start| + |suffix| <= buf.Length && buf[..] == start + Zeros(buf.Length - |start|)
    modifies buf
    ensures buf[..] == start + Zeros(buf.Length - |start| - |suffix|) + suffix
  {
    forall i | 0 <= i < |suffix| {
      buf[buf.Length - |suffix| + i] := suffix[i];
    }
  }

  lemma {:induction false} TwoBlocks(start: seq<byte>, m: nat, n: nat, suffix: seq<byte>)
    ensures Joined([start + Zeros(m), Zeros(n) + suffix]) == start + Zeros(m + n) + suffix
  {
    JoinedOne(start + Zeros(m));
    JoinedSnoc([start + Zeros(m)], Zeros(n) + suffix);
    assert [start + Zeros(m)] + [Zeros(n) + suffix] == [start + Zeros(m), Zeros(n) + suffix];
    assert Zeros(m) + Zeros(n) == Zeros(m + n);
    Assoc(start, Zeros(m), Zeros(n) + suffix);
    Assoc(Zeros(m), Zeros(n), suffix);
    Assoc(start, Zeros(m + n), suffix);
  }

  function BeBytes(n: nat, k: nat): (bytes: seq<byte>)
    ensures |bytes| == k
  {
    if k == 0 then [] else BeBytes(n / 256, k - 1) + [(n % 256) as byte]
  }

  function LeBytes(n: nat, k: nat): (bytes: seq<byte>)
    ensures |bytes| == k
  {
    if k == 0 then [] else [(n % 256) as byte] + LeBytes(n / 256, k - 1)
  }

  function BeValue(bytes: seq<byte>): nat {
    if bytes == [] then 0 else 256 * BeValue(bytes[..|bytes| - 1]) + bytes[|bytes| - 1] as nat
  }

  function Reversed(bytes: seq<byte>): seq<byte> {
    if bytes == [] then [] else Reversed(bytes[1..]) + [bytes[0]]
  }

  function Power256(k: nat): nat {
    if k == 0 then 1 else 256 * Power256(k - 1)
  }

  lemma {:induction false} BeBytesValue(n: nat, k: nat)
    requires n < Power256(k)
    ensures BeValue(BeBytes(n, k)) == n
  {
    if k > 0 {
      BeBytesValue(n / 256, k - 1);
      assert BeBytes(n, k)[..k - 1] == BeBytes(n / 256, k - 1);
    }
  }

  lemma {:induction false} LeIsReversedBe(n: nat, k: nat)
    ensures LeBytes(n, k) == Reversed(BeBytes(n, k))
  {
    if k > 0 {
      LeIsReversedBe(n / 256, k - 1);
      ReversedSnoc(BeBytes(n / 256, k - 1), (n % 256) as byte);
    }
  }

  lemma {:induction false} ReversedSnoc(bytes: seq<byte>, last: byte)
    ensures Reversed(bytes + [last]) == [last] + Reversed(bytes)
  {
    if bytes != [] {
      ReversedSnoc(bytes[1..], last);
      assert (bytes + [last])[1..] == bytes[1..] + [last];
    } else {
      assert bytes + [last] == [last];
    }
  }

  /** The zeros are the fewest that reach a block boundary. */
  lemma {:induction false} PadZerosFewest(blocks: nat, data_len: nat, suffix_len: nat, size: nat, z: nat)
    requires data_len < size && suffix_len <= size
    ensures var zeros := PadZeros(data_len, suffix_len, size);
            && (blocks * size + data_len + 1 + zeros + suffix_len) % size == 0
            && ((blocks * size + data_len + 1 + z + suffix_len) % size == 0 ==> zeros <= z)
  {
    var zeros := PadZeros(data_len, suffix_len, size);
    var more := if data_len + 1 + suffix_len <= size then 1 else 2;
    var total := blocks * size + data_len + 1 + zeros + suffix_len;
    Distribute(blocks, size);
    Distribute(blocks + 1, size);
    QuotientIs(total, size, blocks + more, 0);
    var other := blocks * size + data_len + 1 + z + suffix_len;
    if other % size == 0 && z < zeros {
      var q := other / size;
      assert other == q * size;
      if q < blocks + more {
        LessTimes(q, blocks + more, size);
      } else {
        if q > blocks + more { LessTimes(blocks + more, q, size); }
      }
    }
  }

  // ---------- which positions may be set ----------

  /** The documentation of `set` says that it panics for these positions. */
  predicate DocumentedSetPanics(pos: nat, size: nat) {
    pos >= size
  }

  /** That is what the code does, except for a lazy buffer at exactly the block size. */
  lemma {:induction false} SetPanicsAsDocumented(kind: Kind, pos: nat, size: nat)
    ensures (DocumentedSetPanics(pos, size) <==> !kind.Invariant(pos, size)) <==> !(kind.Lazy? && pos == size)
  {
  }

  /** Such a position is accepted, and the whole block becomes data. */
  method SetFullLazyBlock(size: nat, buf: seq<byte>) returns (buffer: BlockBuffer, ok: bool)
    requires IsBlockSize(size) && |buf| == size
    ensures DocumentedSetPanics(size, size)
    ensures ok && fresh(buffer) && buffer.Valid() && buffer.kind == Lazy && buffer.Data() == buf
  {
    buffer := new BlockBuffer(Lazy, size);
    ok := buffer.Set(buf, size);
    assert buf[..size] == buf;
  }

  // ---------- serialized form ----------

  function Serialized(kind: Kind, size: nat, data: seq<byte>): (buf: seq<byte>)
    requires IsBlockSize(size) && kind.Invariant(|data|, size)
    ensures |buf| == size + kind.Overhead()
  {
    [|data| as byte] + data + Zeros(size + kind.Overhead() - 1 - |data|)
  }

  /** The number of bytes, then the bytes, and zeros after them. */
  predicate HasLayout(buf: seq<byte>, data: seq<byte>) {
    && |buf| > |data| && buf[0] as nat == |data| && buf[1..|data| + 1] == data
    && forall i | |data| < i < |buf| :: buf[i] == 0
  }

  /** What `deserialize` accepts, and the data it finds. */
  function Deserialized(kind: Kind, size: nat, buf: seq<byte>): Option<seq<byte>>
    requires IsBlockSize(size) && |buf| == size + kind.Overhead()
  {
    var pos := buf[0] as nat;
    if !kind.Invariant(pos, size) then None
    else
      var block := buf[1..];
      if exists i | pos <= i < |block| :: block[i] != 0 then None else Some(block[..pos])
  }

  /** Deserializing what was serialized gives the data back. */
  lemma {:induction false} SerializeRoundTrip(kind: Kind, size: nat, data: seq<byte>)
    requires IsBlockSize(size) && kind.Invariant(|data|, size)
    ensures Deserialized(kind, size, Serialized(kind, size, data)) == Some(data)
  {
    var block := Serialized(kind, size, data)[1..];
    assert block == data + Zeros(size + kind.Overhead() - 1 - |data|);
  }

  /** Every accepted array is the serialized form of what it deserializes to. */
  lemma {:induction false} DeserializeRoundTrip(kind: Kind, size: nat, buf: seq<byte>)
    requires IsBlockSize(size) && |buf| == size + kind.Overhead()
    ensures match Deserialized(kind, size, buf)
            case Some(data) => kind.Invariant(|data|, size) && Serialized(kind, size, data) == buf
            case None => forall data | kind.Invariant(|data|, size) :: Serialized(kind, size, data) != buf
  {
    match Deserialized(kind, size, buf)
    case Some(data) =>
      var block := buf[1..];
      assert block == data + Zeros(|block| - |data|);
    case None =>
      forall data | kind.Invariant(|data|, size) ensures Serialized(kind, size, data) != buf {
        SerializeRoundTrip(kind, size, data);
      }
  }

  // ---------- whole runs ----------

  /** How many blocks a buffer has emitted after `total` bytes: all the whole ones, and
      from a lazy buffer all but the last one begun. */
  function BlocksEmitted(kind: Kind, total: nat, size: nat): nat
    requires size > 0
  {
    if kind.Eager? then total / size else if total == 0 then 0 else (total - 1) / size
  }

  lemma {:induction false} EmittedCount(kind: Kind, size: nat, emitted: seq<seq<byte>>, data: seq<byte>)
    requires IsBlockSize(size) && AreBlocks(emitted, size) && kind.Invariant(|data|, size)
    requires kind.Lazy? && Joined(emitted) + data != [] ==> data != []
    ensures |emitted| == BlocksEmitted(kind, |Joined(emitted) + data|, size)
  {
    JoinedLength(emitted, size);
    var total := |emitted| * size + |data|;
    if kind.Eager? {
      QuotientIs(total, size, |emitted|, |data|);
    } else if total > 0 {
      QuotientIs(total - 1, size, |emitted|, |data| - 1);
    } else if emitted != [] {
      LessTimes(0, |emitted|, size);
    }
  }

  /** Any run of `digest_blocks` calls: the emitted blocks and the data in the buffer are
      the inputs one after the other. */
  method DigestAll(kind: Kind, size: nat, parts: seq<seq<byte>>)
    returns (buffer: BlockBuffer, emitted: seq<seq<byte>>)
    requires IsBlockSize(size)
    ensures fresh(buffer) && fresh(buffer.buffer) && buffer.Valid() && buffer.kind == kind && buffer.size == size
    ensures AreBlocks(emitted, size) && Joined(emitted) + buffer.Data() == Joined(parts)
    ensures |emitted| == BlocksEmitted(kind, |Joined(parts)|, size)
  {
    buffer := new BlockBuffer(kind, size);
    emitted := [];
    for i := 0 to |parts|
      invariant fresh(buffer) && fresh(buffer.buffer) && buffer.Valid() && buffer.kind == kind && buffer.size == size
      invariant AreBlocks(emitted, size) && Joined(emitted) + buffer.Data() == Joined(parts[..i])
      invariant kind.Lazy? && Joined(parts[..i]) != [] ==> buffer.Data() != []
    {
      ghost var before, data := Joined(emitted), buffer.Data();
      var more := buffer.DigestBlocks(parts[i]);
      JoinedAppend(emitted, more);
      Assoc(before, Joined(more), buffer.Data());
      Assoc(before, data, parts[i]);
      JoinedSnoc(parts[..i], parts[i]);
      assert parts[..i + 1] == parts[..i] + [parts[i]];
      emitted := emitted + more;
    }
    assert parts[..|parts|] == parts;
    EmittedCount(kind, size, emitted, buffer.Data());
  }

  predicate EndsBlock(len: nat, zeros: nat, suffix_len: nat, size: nat)
    requires size > 0
  {
    (len + 1 + zeros + suffix_len) % size == 0
  }

  /** `zeros` is the least number of zeros that makes a padded message of `len` bytes end
      with a block. */
  ghost predicate FewestZeros(len: nat, zeros: nat, suffix_len: nat, size: nat)
    requires size > 0
  {
    EndsBlock(len, zeros, suffix_len, size) && forall z: nat | EndsBlock(len, z, suffix_len, size) :: zeros <= z
  }

  lemma {:induction false} PadZerosAreFewest(blocks: nat, data_len: nat, suffix_len: nat, size: nat)
    requires data_len < size && suffix_len <= size
    ensures FewestZeros(blocks * size + data_len, PadZeros(data_len, suffix_len, size), suffix_len, size)
  {
    var len := blocks * size + data_len;
    PadZerosFewest(blocks, data_len, suffix_len, size, 0);
    forall z: nat | EndsBlock(len, z, suffix_len, size)
      ensures PadZeros(data_len, suffix_len, size) <= z
    {
      PadZerosFewest(blocks, data_len, suffix_len, size, z);
    }
  }

  /** A whole message with its padding, as blocks. */
  method PadMessage(size: nat, parts: seq<seq<byte>>, delim: byte, suffix: seq<byte>)
    returns (emitted: seq<seq<byte>>, ghost zeros: nat)
    requires IsBlockSize(size) && |suffix| <= size
    ensures AreBlocks(emitted, size) && Joined(emitted) == Joined(parts) + [delim] + Zeros(zeros) + suffix
    ensures FewestZeros(|Joined(parts)|, zeros, |suffix|, size)
  {
    var buffer, first := DigestAll(Eager, size, parts);
    ghost var data := buffer.Data();
    var last := buffer.DigestPad(delim, suffix);
    emitted := first + last;
    zeros := PadZeros(|data|, |suffix|, size);
    JoinedAppend(first, last);
    PaddedMessage(Joined(first), data, [delim], Zeros(zeros), suffix);
    JoinedLength(first, size);
    PadZerosAreFewest(|first|, |data|, |suffix|, size);
  }

  lemma {:induction false} PaddedMessage(
      first: seq<byte>, data: seq<byte>, delim: seq<byte>, zeros: seq<byte>, suffix: seq<byte>)
    ensures first + (data + delim + zeros + suffix) == (first + data) + delim + zeros + suffix
  {
    Assoc(first, data + delim + zeros, suffix);
    Assoc(first, data + delim, zeros);
    Assoc(first, data, delim);
  }

  /** Whether a one bit and `k` zero bits after `l` bits leave just the length field of the
      last block, as sections 5.1.1 and 5.1.2 of FIPS 180-4 ask. */
  predicate FitsField(l: nat, k: nat, block_bits: nat, field_bits: nat)
    requires 0 < field_bits <= block_bits
  {
    (l + 1 + k) % block_bits == block_bits - field_bits
  }

  /** `k` is the smallest such number. */
  ghost predicate FipsZeros(l: nat, k: nat, block_bits: nat, field_bits: nat)
    requires 0 < field_bits <= block_bits
  {
    FitsField(l, k, block_bits, field_bits) && forall k': nat | FitsField(l, k', block_bits, field_bits) :: k <= k'
  }

  lemma {:induction false} ZeroBytes(k: nat, zeros: int)
    requires k == 8 * zeros + 7
    ensures k % 8 == 7 && k / 8 == zeros
  {
  }

  /** Zero bytes after 0x80 and zero bits after a one bit. */
  lemma {:induction false} FipsBits64(len: nat, k: nat)
    ensures FitsField(8 * len, k, 512, 64) <==> k % 8 == 7 && EndsBlock(len, k / 8, 8, 64)
  {
    if FitsField(8 * len, k, 512, 64) {
      ZeroBytes(k, 64 * ((8 * len + 1 + k) / 512) + 55 - len);
    }
    if k % 8 == 7 && EndsBlock(len, k / 8, 8, 64) {
      WholeBlocks64(len, k / 8, (len + 1 + k / 8 + 8) / 64);
    }
  }

  lemma {:induction false} WholeBlocks64(len: nat, zeros: nat, blocks: nat)
    requires len + 1 + zeros + 8 == 64 * blocks
    ensures FitsField(8 * len, 8 * zeros + 7, 512, 64)
  {
    assert 8 * len + 1 + (8 * zeros + 7) == 512 * (blocks - 1) + 448;
  }

  lemma {:induction false} FipsBits128(len: nat, k: nat)
    ensures FitsField(8 * len, k, 1024, 128) <==> k % 8 == 7 && EndsBlock(len, k / 8, 16, 128)
  {
    if FitsField(8 * len, k, 1024, 128) {
      ZeroBytes(k, 128 * ((8 * len + 1 + k) / 1024) + 111 - len);
    }
    if k % 8 == 7 && EndsBlock(len, k / 8, 16, 128) {
      WholeBlocks128(len, k / 8, (len + 1 + k / 8 + 16) / 128);
    }
  }

  lemma {:induction false} WholeBlocks128(len: nat, zeros: nat, blocks: nat)
    requires len + 1 + zeros + 16 == 128 * blocks
    ensures FitsField(8 * len, 8 * zeros + 7, 1024, 128)
  {
    assert 8 * len + 1 + (8 * zeros + 7) == 1024 * (blocks - 1) + 896;
  }

  lemma {:induction false} FipsPadding64(len: nat, zeros: nat)
    requires FewestZeros(len, zeros, 8, 64)
    ensures FipsZeros(8 * len, 8 * zeros + 7, 512, 64)
  {
    FipsBits64(len, 8 * zeros + 7);
    forall k: nat | FitsField(8 * len, k, 512, 64) ensures 8 * zeros + 7 <= k {
      FipsBits64(len, k);
    }
  }

  lemma {:induction false} FipsPadding128(len: nat, zeros: nat)
    requires FewestZeros(len, zeros, 16, 128)
    ensures FipsZeros(8 * len, 8 * zeros + 7, 1024, 128)
  {
    FipsBits128(len, 8 * zeros + 7);
    forall k: nat | FitsField(8 * len, k, 1024, 128) ensures 8 * zeros + 7 <= k {
      FipsBits128(len, k);
    }
  }

  /** SHA-256 padding of a message in any number of parts. */
  method Sha256Blocks(parts: seq<seq<byte>>) returns (emitted: seq<seq<byte>>, ghost zeros: nat)
    requires 8 * |Joined(parts)| < 0x1_0000_0000_0000_0000
    ensures AreBlocks(emitted, 64)
    ensures var l := 8 * |Joined(parts)|;
            && Joined(emitted) == Joined(parts) + [0x80] + Zeros(zeros) + BeBytes(l, 8)
            && BeValue(BeBytes(l, 8)) == l && FipsZeros(l, 8 * zeros + 7, 512, 64)
  {
    var l := 8 * |Joined(parts)|;
    emitted, zeros := PadMessage(64, parts, 0x80, BeBytes(l, 8));
    Power256Of8();
    BeBytesValue(l, 8);
    FipsPadding64(|Joined(parts)|, zeros);
  }

  /** SHA-512 padding. */
  method Sha512Blocks(parts: seq<seq<byte>>) returns (emitted: seq<seq<byte>>, ghost zeros: nat)
    requires 8 * |Joined(parts)| < 0x1_0000_0000_0000_0000_0000_0000_0000_0000
    ensures AreBlocks(emitted, 128)
    ensures var l := 8 * |Joined(parts)|;
            && Joined(emitted) == Joined(parts) + [0x80] + Zeros(zeros) + BeBytes(l, 16)
            && BeValue(BeBytes(l, 16)) == l && FipsZeros(l, 8 * zeros + 7, 1024, 128)
  {
    var l := 8 * |Joined(parts)|;
    emitted, zeros := PadMessage(128, parts, 0x80, BeBytes(l, 16));
    Power256Of8();
    BeBytesValue(l, 16);
    FipsPadding128(|Joined(parts)|, zeros);
  }

  lemma {:induction false} Power256Of8()
    ensures Power256(8) == 0x1_0000_0000_0000_0000
    ensures Power256(16) == 0x1_0000_0000_0000_0000_0000_0000_0000_0000
  {
  }
}
