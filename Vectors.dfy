/** Integer row vectors: sums, dot products and the 0/1 rows that encodings produce. */
module Vectors {

  function Sum(v: seq<int>): int
  {
    if v == [] then 0 else Sum(v[..|v| - 1]) + v[|v| - 1]
  }

  function Dot(a: seq<int>, b: seq<int>): int
    requires |a| == |b|
  {
    if a == [] then 0 else Dot(a[..|a| - 1], b[..|b| - 1]) + a[|a| - 1] * b[|b| - 1]
  }

  /** Every entry is 0 or 1. */
  predicate IsBinary(v: seq<int>)
  {
    forall k :: 0 <= k < |v| ==> v[k] == 0 || v[k] == 1
  }

  /** Every entry is 0. */
  predicate IsZero(v: seq<int>)
  {
    forall k :: 0 <= k < |v| ==> v[k] == 0
  }

  /** The dot product of a 0/1 vector with itself counts its ones. */
  lemma {:induction false} BinarySelfDot(v: seq<int>)
    requires IsBinary(v)
    ensures Dot(v, v) == Sum(v)
  {
    if v != [] {
      BinarySelfDot(v[..|v| - 1]);
    }
  }

  /** The dot product of two 0/1 vectors is at most the ones of each. */
  lemma {:induction false} BinaryDotBounds(a: seq<int>, b: seq<int>)
    requires |a| == |b| && IsBinary(a) && IsBinary(b)
    ensures 0 <= Dot(a, b) <= Sum(a) && Dot(a, b) <= Sum(b)
  {
    if a != [] {
      BinaryDotBounds(a[..|a| - 1], b[..|b| - 1]);
    }
  }

  /** A 0/1 vector sums to zero exactly when every entry is zero. */
  lemma {:induction false} BinarySumZero(v: seq<int>)
    requires IsBinary(v)
    ensures Sum(v) >= 0
    ensures Sum(v) == 0 <==> IsZero(v)
  {
    if v != [] {
      var init := v[..|v| - 1];
      BinarySumZero(init);
      if Sum(v) == 0 {
        assert forall k :: 0 <= k < |init| ==> v[k] == init[k];
      }
    }
  }

  lemma BinaryAppend(a: seq<int>, b: seq<int>)
    requires IsBinary(a) && IsBinary(b)
    ensures IsBinary(a + b)
  {
    forall k | 0 <= k < |a + b|
      ensures (a + b)[k] == 0 || (a + b)[k] == 1
    {
      if k >= |a| {
        assert (a + b)[k] == b[k - |a|];
      }
    }
  }
}
