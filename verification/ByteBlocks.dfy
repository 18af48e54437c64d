/** Byte strings cut into blocks. */
module ByteBlocks {
  import opened Sequences

  newtype byte = x: int | 0 <= x < 256

  datatype Option<T> = None | Some(value: T)

  /** Supported block sizes. */
  predicate IsBlockSize(size: nat) { 0 < size < 256 }

  predicate AreBlocks(blocks: seq<seq<byte>>, size: nat) {
    forall i | 0 <= i < |blocks| :: |blocks[i]| == size
  }

  function Zeros(n: nat): (z: seq<byte>)
    ensures |z| == n && forall i | 0 <= i < n :: z[i] == 0
  {
    seq(n, i => 0)
  }

  lemma {:induction false} JoinedLength(blocks: seq<seq<byte>>, size: nat)
    requires AreBlocks(blocks, size)
    ensures |Joined(blocks)| == |blocks| * size
  {
    if blocks != [] {
      var k := |blocks| - 1;
      JoinedLength(blocks[..k], size);
      Distribute(k, size);
    }
  }

  lemma {:induction false} Distribute(k: nat, size: nat)
    ensures (k + 1) * size == k * size + size
  {
  }

  /** The quotient and the remainder of a division. */
  lemma {:induction false} QuotientIs(total: nat, size: nat, n: nat, rest: nat)
    requires total == n * size + rest && rest < size
    ensures total / size == n && total % size == rest
  {
    var q, r := total / size, total % size;
    assert total == q * size + r;
    if q < n {
      LessTimes(q, n, size);
    } else if q > n {
      LessTimes(n, q, size);
    }
  }

  lemma {:induction false} LessTimes(a: nat, b: nat, size: nat)
    requires a < b
    ensures a * size + size <= b * size
    decreases b - a
  {
    Distribute(b - 1, size);
    if a + 1 < b { LessTimes(a, b - 1, size); }
  }
}
