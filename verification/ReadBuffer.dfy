/** A buffer for reading generated blocks in pieces of any length.  Its cursor overwrites
    the first byte of the stored block, which by then has always been read. */
module ReadBuffers {
  import opened Sequences
  import opened ByteBlocks

  type Stream = nat -> seq<byte>

  /** A source of blocks, one after the other. */
  class Generator {
    const size: nat
    const stream: Stream
    var next: nat

    ghost predicate Valid()
      reads this
    {
      forall i: nat :: |stream(i)| == size
    }

    constructor (size: nat, stream: Stream)
      requires forall i: nat :: |stream(i)| == size
      ensures Valid() && this.size == size && this.stream == stream && next == 0
    {
      this.size, this.stream, this.next := size, stream, 0;
    }

    /** Generates the next block into `out`, from `at` on. */
    method Generate(out: array<byte>, at: nat)
      requires Valid() && at + size <= out.Length
      modifies this, out
      ensures Valid() && next == old(next) + 1
      ensures out[..at + size] == old(out[..at]) + stream(old(next))
    {
      var block := stream(next);
      forall i | 0 <= i < size {
        out[at + i] := block[i];
      }
      next := next + 1;
    }
  }

  /** Blocks `from .. to` of a stream. */
  function Generated(f: Stream, from: nat, to: nat): seq<byte>
    requires from <= to
  {
    if from == to then [] else Generated(f, from, to - 1) + f(to - 1)
  }

  lemma {:induction false} GeneratedAppend(f: Stream, a: nat, b: nat, c: nat)
    requires a <= b <= c
    ensures Generated(f, a, c) == Generated(f, a, b) + Generated(f, b, c)
  {
    if b < c {
      GeneratedAppend(f, a, b, c - 1);
      Assoc(Generated(f, a, b), Generated(f, b, c - 1), f(c - 1));
    } else {
      assert Generated(f, b, c) == [];
    }
  }

  class ReadBuffer {
    const size: nat
    const buffer: array<byte>

    ghost predicate Valid()
      reads this, buffer
    {
      IsBlockSize(size) && buffer.Length == size && 1 <= buffer[0] as nat <= size
    }

    function Cursor(): nat
      requires buffer.Length > 0
      reads this, buffer
    {
      buffer[0] as nat
    }

    /** The bytes that are generated but not read yet. */
    function Unread(): (data: seq<byte>)
      requires Valid()
      reads this, buffer
      ensures |data| < size
    {
      buffer[Cursor()..]
    }

    constructor (size: nat)
      requires IsBlockSize(size)
      ensures Valid() && fresh(buffer) && this.size == size && Unread() == []
    {
      this.size := size;
      this.buffer := new byte[size](i => 0);
      new;
      buffer[0] := size as byte;
    }

    /** Sets the cursor, which overwrites the first byte of the block. */
    method SetPos(pos: nat)
      requires IsBlockSize(size) && buffer.Length == size && 1 <= pos <= size
      modifies buffer
      ensures Valid() && Cursor() == pos && buffer[1..] == old(buffer[1..])
      ensures Unread() == old(buffer[pos..])
    {
      buffer[0] := pos as byte;
    }

    /** Takes up to `len` of the unread bytes. */
    method ReadCached(len: nat) returns (read: seq<byte>)
      requires Valid()
      modifies buffer
      ensures Valid() && read + Unread() == old(Unread())
      ensures |read| == if |old(Unread())| < len then |old(Unread())| else len
    {
      var rem := size - Cursor();
      var new_len := if rem < len then rem else len;
      var pos := Cursor();
      ghost var unread := Unread();
      SetPos(pos + new_len);
      assert buffer[pos..] == buffer[1..][pos - 1..] == unread;
      read := buffer[pos..][..new_len];
      assert read == unread[..new_len] && Unread() == unread[new_len..];
    }

    /** `write_block`: generates a block and takes its first `read_len` bytes; nothing at all
        for 0.  Its assertion fails (here: it gives nothing back) exactly when that is not
        less than a block. */
    method WriteBlock(read_len: nat, gen: Generator) returns (read: Option<seq<byte>>)
      requires Valid() && gen.Valid() && gen.size == size
      modifies buffer, gen
      ensures Valid() && gen.Valid()
      ensures read == None <==> !Writes(read_len, size)
      ensures read_len == 0 || read == None ==> gen.next == old(gen.next) && buffer[..] == old(buffer[..])
      ensures read_len == 0 ==> read == Some([])
      ensures read_len > 0 && read != None ==>
                |read.value| == read_len && gen.next == old(gen.next) + 1
                && read.value + Unread() == gen.stream(old(gen.next))
    {
      if read_len == 0 {
        return Some([]);
      }
      if !(read_len < size) {
        return None;
      }
      gen.Generate(buffer, 0);
      ghost var block := buffer[..];
      assert block == buffer[..0 + size] && buffer[..0] == [];
      read := Some(buffer[..read_len]);
      SetPos(read_len);
      assert read.value == block[..read_len] && Unread() == block[read_len..];
    }

    /** Marks everything as read. */
    method Reset()
      requires Valid()
      modifies buffer
      ensures Valid() && Unread() == []
    {
      buffer[0] := size as byte;
    }

    /** Fills `buf` with unread bytes, then whole generated blocks, then the start of one
        more block, whose rest stays for later. */
    method Read(buf: array<byte>, gen: Generator)
      requires Valid() && gen.Valid() && gen.size == size && buf != buffer
      modifies buffer, buf, gen
      ensures Valid() && gen.Valid() && old(gen.next) <= gen.next
      ensures buf[..] + Unread() == old(Unread()) + Generated(gen.stream, old(gen.next), gen.next)
    {
      var head := ReadCached(buf.Length);
      ghost var unread := Unread();
      Copy(head, buf, 0);
      assert buf[..0] == [];
      var at := ReadBlocks(buf, |head|, gen);
      ReadTail(buf, at, gen, head, unread, old(gen.next));
    }

    /** The last bytes of `buf`, which holds the bytes before `at` already. */
    method ReadTail(buf: array<byte>, at: nat, gen: Generator,
                    ghost head: seq<byte>, ghost unread: seq<byte>, ghost start: nat)
      requires Valid() && gen.Valid() && gen.size == size && buf != buffer && at <= buf.Length < at + size
      requires start <= gen.next && buf[..at] == head + Generated(gen.stream, start, gen.next)
      requires Unread() == unread && (unread == [] || (at == buf.Length && gen.next == start))
      modifies buffer, buf, gen
      ensures Valid() && gen.Valid() && start <= gen.next
      ensures buf[..] + Unread() == (head + unread) + Generated(gen.stream, start, gen.next)
    {
      ghost var n := gen.next;
      ghost var before := buf[..at];
      var written := WriteBlock(buf.Length - at, gen);
      var tail := written.value;
      Copy(tail, buf, at);
      assert buf[..at + |tail|] == buf[..];
      TailFollows(before, tail, Unread(), head, unread, gen.stream, start, n, gen.next);
    }

    lemma {:induction false} TailFollows(
        before: seq<byte>, tail: seq<byte>, rest: seq<byte>, head: seq<byte>, unread: seq<byte>,
        f: Stream, start: nat, n: nat, next: nat)
      requires start <= n && before == head + Generated(f, start, n)
      requires (next == n && tail == [] && rest == unread && (unread == [] || n == start))
            || (next == n + 1 && tail + rest == f(n) && unread == [])
      ensures (before + tail) + rest == (head + unread) + Generated(f, start, next)
    {
      if next == n + 1 {
        Assoc(before, tail, rest);
        Assoc(head, Generated(f, start, n), f(n));
        assert head + unread == head;
      } else {
        assert before + tail == before;
        if unread == [] {
          assert before + rest == before && head + unread == head;
        } else {
          assert before == head && (head + unread) + [] == head + unread;
        }
      }
    }

    method Copy(bytes: seq<byte>, buf: array<byte>, at: nat)
      requires at + |bytes| <= buf.Length
      modifies buf
      ensures buf[..at + |bytes|] == old(buf[..at]) + bytes
    {
      forall i | 0 <= i < |bytes| {
        buf[at + i] := bytes[i];
      }
    }

    /** Generates whole blocks straight into `buf`. */
    method ReadBlocks(buf: array<byte>, from: nat, gen: Generator) returns (at: nat)
      requires gen.Valid() && gen.size == size > 0 && from <= buf.Length
      modifies buf, gen
      ensures gen.Valid() && old(gen.next) <= gen.next && from <= at <= buf.Length < at + size
      ensures buf[..at] == old(buf[..from]) + Generated(gen.stream, old(gen.next), gen.next)
      ensures from == buf.Length ==> gen.next == old(gen.next)
    {
      at := from;
      while buf.Length - at >= size
        invariant gen.Valid() && old(gen.next) <= gen.next && from <= at <= buf.Length
        invariant buf[..at] == old(buf[..from]) + Generated(gen.stream, old(gen.next), gen.next)
        invariant from == buf.Length ==> gen.next == old(gen.next)
      {
        ghost var n := gen.next;
        gen.Generate(buf, at);
        Assoc(old(buf[..from]), Generated(gen.stream, old(gen.next), n), gen.stream(n));
        at := at + size;
      }
    }

    /** The unread bytes with the cursor before them and zeros in between. */
    method Serialize() returns (res: seq<byte>)
      requires Valid()
      ensures res == Serialized(size, Unread())
      ensures |res| == size && HasLayout(res, Unread())
    {
      var pos := Cursor();
      res := [buffer[0]] + Zeros(pos - 1) + buffer[pos..];
    }

    static method Deserialize(size: nat, buf: seq<byte>) returns (r: Option<ReadBuffer>)
      requires IsBlockSize(size) && |buf| == size
      ensures r.None? <==> Deserialized(size, buf).None?
      ensures r.Some? ==> fresh(r.value) && fresh(r.value.buffer) && r.value.Valid() && r.value.size == size
                          && Some(r.value.Unread()) == Deserialized(size, buf)
    {
      var pos := buf[0] as nat;
      if pos == 0 || pos > size || exists i | 1 <= i < pos :: buf[i] != 0 {
        return None;
      }
      var res := new ReadBuffer(size);
      res.Load(buf);
      r := Some(res);
    }

    /** Takes over a stored block with its cursor. */
    method Load(buf: seq<byte>)
      requires IsBlockSize(size) && buffer.Length == size == |buf| && 1 <= buf[0] as nat <= size
      modifies buffer
      ensures Valid() && Unread() == buf[buf[0] as nat..]
    {
      forall i | 0 <= i < size {
        buffer[i] := buf[i];
      }
      assert buffer[..] == buf;
    }
  }

  // ---------- how much one block may be asked for ----------

  /** Which lengths `write_block` serves. */
  predicate Writes(read_len: nat, size: nat) {
    read_len == 0 || read_len < size
  }

  /** Its documentation says that it panics for these. */
  predicate DocumentedWritePanics(read_len: nat, size: nat) {
    read_len > size
  }

  /** That is what the code does, except for exactly a whole block, which it refuses, too. */
  lemma {:induction false} WritePanicsAsDocumented(read_len: nat, size: nat)
    requires IsBlockSize(size)
    ensures (DocumentedWritePanics(read_len, size) <==> !Writes(read_len, size)) <==> read_len != size
  {
  }

  /** A whole block is refused, and nothing is generated. */
  method WriteFullBlock(size: nat, stream: Stream) returns (read: Option<seq<byte>>, generated: nat)
    requires IsBlockSize(size) && forall i: nat :: |stream(i)| == size
    ensures !DocumentedWritePanics(size, size) && read == None && generated == 0
  {
    var buffer := new ReadBuffer(size);
    var gen := new Generator(size, stream);
    read := buffer.WriteBlock(size, gen);
    generated := gen.next;
  }

  // ---------- serialized form ----------

  function Serialized(size: nat, unread: seq<byte>): (buf: seq<byte>)
    requires IsBlockSize(size) && |unread| < size
    ensures |buf| == size
  {
    [(size - |unread|) as byte] + Zeros(size - |unread| - 1) + unread
  }

  /** The position of the unread bytes, zeros up to there, and the unread bytes. */
  predicate HasLayout(buf: seq<byte>, unread: seq<byte>) {
    && |unread| < |buf| && buf[0] as nat == |buf| - |unread| && buf[|buf| - |unread|..] == unread
    && forall i | 1 <= i < |buf| - |unread| :: buf[i] == 0
  }

  function Deserialized(size: nat, buf: seq<byte>): Option<seq<byte>>
    requires IsBlockSize(size) && |buf| == size
  {
    var pos := buf[0] as nat;
    if pos == 0 || pos > size || exists i | 1 <= i < pos :: buf[i] != 0 then None else Some(buf[pos..])
  }

  lemma {:induction false} SerializeRoundTrip(size: nat, unread: seq<byte>)
    requires IsBlockSize(size) && |unread| < size
    ensures Deserialized(size, Serialized(size, unread)) == Some(unread)
  {
    var buf := Serialized(size, unread);
    assert buf[size - |unread|..] == unread;
  }

  lemma {:induction false} DeserializeRoundTrip(size: nat, buf: seq<byte>)
    requires IsBlockSize(size) && |buf| == size
    ensures match Deserialized(size, buf)
            case Some(unread) => |unread| < size && Serialized(size, unread) == buf
            case None => forall unread | |unread| < size :: Serialized(size, unread) != buf
  {
    match Deserialized(size, buf)
    case Some(unread) =>
      var pos := buf[0] as nat;
      assert buf[1..pos] == Zeros(pos - 1);
      assert buf == [buf[0]] + buf[1..pos] + buf[pos..];
    case None =>
      forall unread | |unread| < size ensures Serialized(size, unread) != buf {
        SerializeRoundTrip(size, unread);
      }
  }

  // ---------- whole runs ----------

  /** The fewest blocks that `len` bytes take. */
  function BlocksFor(len: nat, size: nat): nat
    requires size > 0
  {
    if len == 0 then 0 else (len - 1) / size + 1
  }

  lemma {:induction false} GeneratedLength(f: Stream, n: nat, size: nat)
    requires forall i: nat :: |f(i)| == size
    ensures |Generated(f, 0, n)| == n * size
  {
    if n > 0 {
      GeneratedLength(f, n - 1, size);
      Distribute(n - 1, size);
    }
  }

  /** With less than a block unread, no block was generated before it was needed. */
  lemma {:induction false} FewestBlocks(len: nat, unread: nat, n: nat, size: nat)
    requires len + unread == n * size && unread < size
    ensures n == BlocksFor(len, size)
  {
    if len > 0 {
      assert n > 0;
      Distribute(n - 1, size);
      QuotientIs(len - 1, size, n - 1, size - 1 - unread);
    } else if n > 0 {
      LessTimes(0, n, size);
    }
  }

  /** Any run of reads, of any lengths: together they are the start of the stream, and
      only the blocks that they take were generated. */
  method ReadAll(size: nat, stream: Stream, lens: seq<nat>) returns (out: seq<seq<byte>>, generated: nat)
    requires IsBlockSize(size) && forall i: nat :: |stream(i)| == size
    ensures |out| == |lens| && forall i | 0 <= i < |lens| :: |out[i]| == lens[i]
    ensures generated == BlocksFor(|Joined(out)|, size)
    ensures Joined(out) <= Generated(stream, 0, generated)
  {
    var buffer := new ReadBuffer(size);
    var gen := new Generator(size, stream);
    out := [];
    for k := 0 to |lens|
      invariant fresh(buffer) && fresh(buffer.buffer) && fresh(gen)
      invariant buffer.Valid() && gen.Valid() && gen.size == size == buffer.size && gen.stream == stream
      invariant |out| == k && forall i | 0 <= i < k :: |out[i]| == lens[i]
      invariant Joined(out) + buffer.Unread() == Generated(stream, 0, gen.next)
    {
      ghost var done, unread, n := Joined(out), buffer.Unread(), gen.next;
      var buf := new byte[lens[k]];
      buffer.Read(buf, gen);
      RunContinues(done, unread, buf[..], buffer.Unread(), stream, n, gen.next);
      JoinedSnoc(out, buf[..]);
      out := out + [buf[..]];
    }
    generated := gen.next;
    GeneratedLength(stream, gen.next, size);
    FewestBlocks(|Joined(out)|, |buffer.Unread()|, gen.next, size);
  }

  lemma {:induction false} RunContinues(
      done: seq<byte>, unread: seq<byte>, read: seq<byte>, left: seq<byte>, f: Stream, n: nat, next: nat)
    requires n <= next && done + unread == Generated(f, 0, n)
    requires read + left == unread + Generated(f, n, next)
    ensures (done + read) + left == Generated(f, 0, next)
  {
    GeneratedAppend(f, 0, n, next);
    Assoc(done, read, left);
    Assoc(done, unread, Generated(f, n, next));
  }
}
