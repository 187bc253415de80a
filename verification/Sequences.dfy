/** Facts about sequences that several proofs lean on, and the bytes that files and buffers are made of. */
module Sequences {

  newtype Byte = x: int | 0 <= x < 256

  lemma Regroup<T>(a: seq<T>, b: seq<T>, c: seq<T>)
    ensures a + (b + c) == (a + b) + c
  {
  }

  lemma NothingAdded<T>(xs: seq<T>)
    ensures xs + [] == xs
  {
  }

  lemma FirstOfJoin<T>(a: seq<T>, b: seq<T>)
    requires a != []
    ensures a + b != [] && (a + b)[0] == a[0] && (a + b)[1..] == a[1..] + b
  {
  }

  /** What stands between the same two ends is the same. */
  lemma SameBetween<T>(a: seq<T>, x: seq<T>, y: seq<T>, b: seq<T>)
    requires (a + x) + b == (a + y) + b
    ensures x == y
  {
    assert |(a + x) + b| == |(a + y) + b|;
    forall i | 0 <= i < |x| ensures x[i] == y[i] {
      assert ((a + x) + b)[|a| + i] == x[i] && ((a + y) + b)[|a| + i] == y[i];
    }
  }
}
