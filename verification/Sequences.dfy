/** Putting sequences one after the other. */
module Sequences {

  lemma {:induction false} Assoc<T>(a: seq<T>, b: seq<T>, c: seq<T>)
    ensures (a + b) + c == a + (b + c)
  {
  }

  /** All the parts, one after the other. */
  function Joined<T>(parts: seq<seq<T>>): seq<T> {
    if parts == [] then [] else Joined(parts[..|parts| - 1]) + parts[|parts| - 1]
  }

  lemma {:induction false} JoinedSnoc<T>(parts: seq<seq<T>>, part: seq<T>)
    ensures Joined(parts + [part]) == Joined(parts) + part
  {
    assert (parts + [part])[..|parts|] == parts;
  }

  lemma {:induction false} JoinedOne<T>(part: seq<T>)
    ensures Joined([part]) == part
  {
    JoinedSnoc([], part);
    assert [] + [part] == [part] && [] + part == part;
  }

  lemma {:induction false} JoinedAppend<T>(a: seq<seq<T>>, b: seq<seq<T>>)
    ensures Joined(a + b) == Joined(a) + Joined(b)
  {
    if b == [] {
      assert a + b == a && Joined(a) + [] == Joined(a);
    } else {
      var k := |b| - 1;
      JoinedAppend(a, b[..k]);
      assert a + b == (a + b[..k]) + [b[k]];
      JoinedSnoc(a + b[..k], b[k]);
      Assoc(Joined(a), Joined(b[..k]), b[k]);
    }
  }

  /** One part after those before it, which are never longer than all of them. */
  lemma {:induction false} JoinedStep<T>(parts: seq<seq<T>>, i: nat)
    requires i < |parts|
    ensures Joined(parts[..i + 1]) == Joined(parts[..i]) + parts[i]
    ensures |Joined(parts[..i + 1])| <= |Joined(parts)|
    decreases |parts| - i
  {
    assert parts[..i + 1][..i] == parts[..i];
    if i + 1 < |parts| {
      JoinedStep(parts, i + 1);
    } else {
      assert parts[..i + 1] == parts;
    }
  }

  /** Bytes move from the input to what is already there, behind `low`. */
  lemma {:induction false} Refilled<T>(low: seq<T>, was: seq<T>, input: seq<T>, now: seq<T>, rest: seq<T>)
    requires now + rest == was + input
    ensures (low + now) + rest == (low + was) + input
    ensures ((low + now) + []) + rest == (low + was) + input
  {
    Assoc(low, was, input);
    Assoc(low, now, rest);
    assert (low + now) + [] == low + now;
  }
}
