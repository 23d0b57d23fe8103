/**
 * The median that fills missing prices (`Series.median`, which skips
 * missing values): sort the present values; the middle one, or the mean of
 * the two middle ones.
 */
module Stats {
  import opened Wrappers

  predicate SortedReals(s: seq<real>)
  {
    forall i, j :: 0 <= i < j < |s| ==> s[i] <= s[j]
  }

  function Insert(x: real, s: seq<real>): (r: seq<real>)
    ensures |r| == |s| + 1
    ensures multiset(r) == multiset(s) + multiset{x}
  {
    if s == [] || x <= s[0] then [x] + s
    else
      assert s == [s[0]] + s[1..];
      [s[0]] + Insert(x, s[1..])
  }

  /** Every value of the result is the inserted one or a value of `s`. */
  lemma {:induction false} InsertElems(x: real, s: seq<real>)
    ensures forall k :: 0 <= k < |Insert(x, s)| ==> Insert(x, s)[k] == x || Insert(x, s)[k] in s
  {
    if s != [] && x > s[0] {
      InsertElems(x, s[1..]);
      var r := Insert(x, s);
      forall k | 1 <= k < |r|
        ensures r[k] == x || r[k] in s
      {
        assert r[k] == Insert(x, s[1..])[k - 1];
      }
    }
  }

  lemma {:induction false} InsertSorted(x: real, s: seq<real>)
    requires SortedReals(s)
    ensures SortedReals(Insert(x, s))
  {
    if s != [] && x > s[0] {
      var r := Insert(x, s[1..]);
      InsertSorted(x, s[1..]);
      InsertElems(x, s[1..]);
      forall k | 0 <= k < |r|
        ensures s[0] <= r[k]
      {
        if r[k] != x {
          var m :| 0 <= m < |s[1..]| && s[1..][m] == r[k];
          assert s[1..][m] == s[m + 1];
        }
      }
      var t := Insert(x, s);
      assert t == [s[0]] + r;
      forall i, j | 0 <= i < j < |t|
        ensures t[i] <= t[j]
      {
        assert t[j] == r[j - 1];
        if i > 0 {
          assert t[i] == r[i - 1];
        }
      }
    }
  }

  /** Insertion sort: the values in non-decreasing order. */
  function Sort(s: seq<real>): (r: seq<real>)
    ensures |r| == |s| && multiset(r) == multiset(s)
  {
    if s == [] then []
    else
      assert s == [s[0]] + s[1..];
      Insert(s[0], Sort(s[1..]))
  }

  lemma {:induction false} SortSorted(s: seq<real>)
    ensures SortedReals(Sort(s))
  {
    if s != [] {
      SortSorted(s[1..]);
      InsertSorted(s[0], Sort(s[1..]));
    }
  }

  /** The median of a non-empty sample. */
  function Median(s: seq<real>): real
    requires s != []
  {
    Middle(Sort(s))
  }

  /** The middle value of a sorted sample, or the mean of its two middle values. */
  function Middle(t: seq<real>): real
    requires t != []
  {
    var h := |t| / 2;
    if |t| % 2 == 1 then t[h] else (t[h - 1] + t[h]) / 2.0
  }

  /** The present values of a column, in row order. */
  function Present(xs: seq<Option<real>>): (r: seq<real>)
    ensures forall x :: x in r <==> Some(x) in xs
  {
    if xs == [] then []
    else (if xs[0].Some? then [xs[0].value] else []) + Present(xs[1..])
  }

  /** `Series.median()`: missing when no value is present. */
  function MedianOf(xs: seq<Option<real>>): Option<real>
  {
    var p := Present(xs);
    if p == [] then None else Some(Median(p))
  }

  /** `fillna(m)`: every missing value replaced by `m`; a missing `m` fills nothing. */
  function FillNa(xs: seq<Option<real>>, m: Option<real>): (r: seq<Option<real>>)
    ensures |r| == |xs|
  {
    seq(|xs|, i requires 0 <= i < |xs| => if xs[i].None? then m else xs[i])
  }

  /** Filling with the median leaves present values alone and fills every gap when any value is present. */
  lemma FillMedian(xs: seq<Option<real>>)
    ensures forall i :: 0 <= i < |xs| && xs[i].Some? ==> FillNa(xs, MedianOf(xs))[i] == xs[i]
    ensures forall i :: 0 <= i < |xs| && xs[i].None? ==> FillNa(xs, MedianOf(xs))[i] == MedianOf(xs)
    ensures (exists i :: 0 <= i < |xs| && xs[i].Some?) <==> MedianOf(xs).Some?
  {
    if exists i :: 0 <= i < |xs| && xs[i].Some? {
      var i :| 0 <= i < |xs| && xs[i].Some?;
      assert xs[i].value in Present(xs);
    }
    if MedianOf(xs).Some? {
      var x := Present(xs)[0];
      assert Some(x) in xs;
    }
  }

  // ---------------------------------------------------------------------
  // The median splits the sample in halves
  // ---------------------------------------------------------------------

  function CountAtMost(s: seq<real>, m: real): nat
  {
    if s == [] then 0 else (if s[0] <= m then 1 else 0) + CountAtMost(s[1..], m)
  }

  function CountAtLeast(s: seq<real>, m: real): nat
  {
    if s == [] then 0 else (if s[0] >= m then 1 else 0) + CountAtLeast(s[1..], m)
  }

  lemma {:induction false} InsertCounts(x: real, s: seq<real>, m: real)
    ensures CountAtMost(Insert(x, s), m) == (if x <= m then 1 else 0) + CountAtMost(s, m)
    ensures CountAtLeast(Insert(x, s), m) == (if x >= m then 1 else 0) + CountAtLeast(s, m)
  {
    if s != [] && x > s[0] {
      InsertCounts(x, s[1..], m);
      assert ([s[0]] + Insert(x, s[1..]))[1..] == Insert(x, s[1..]);
    } else {
      assert ([x] + s)[1..] == s;
    }
  }

  lemma {:induction false} SortCounts(s: seq<real>, m: real)
    ensures CountAtMost(Sort(s), m) == CountAtMost(s, m)
    ensures CountAtLeast(Sort(s), m) == CountAtLeast(s, m)
  {
    if s != [] {
      SortCounts(s[1..], m);
      InsertCounts(s[0], Sort(s[1..]), m);
    }
  }

  lemma {:induction false} PrefixAtMost(t: seq<real>, m: real, k: nat)
    requires k <= |t| && forall j :: 0 <= j < k ==> t[j] <= m
    ensures CountAtMost(t, m) >= k
  {
    if k > 0 {
      PrefixAtMost(t[1..], m, k - 1);
    }
  }

  lemma {:induction false} SuffixAtLeast(t: seq<real>, m: real, k: nat)
    requires k <= |t| && forall j :: |t| - k <= j < |t| ==> t[j] >= m
    ensures CountAtLeast(t, m) >= k
  {
    if t != [] {
      if k == |t| {
        SuffixAtLeast(t[1..], m, k - 1);
      } else {
        SuffixAtLeast(t[1..], m, k);
      }
    }
  }

  lemma SortedAtMost(t: seq<real>, m: real, k: nat)
    requires SortedReals(t) && 0 < k <= |t| && t[k - 1] <= m
    ensures CountAtMost(t, m) >= k
  {
    PrefixAtMost(t, m, k);
  }

  lemma SortedAtLeast(t: seq<real>, m: real, k: nat)
    requires SortedReals(t) && 0 < k <= |t| && t[|t| - k] >= m
    ensures CountAtLeast(t, m) >= k
  {
    SuffixAtLeast(t, m, k);
  }

  lemma {:induction false} MiddleHalves(t: seq<real>)
    requires t != [] && SortedReals(t)
    ensures 2 * CountAtMost(t, Middle(t)) >= |t|
    ensures 2 * CountAtLeast(t, Middle(t)) >= |t|
  {
    var m, h := Middle(t), |t| / 2;
    if |t| % 2 == 1 {
      SortedAtMost(t, m, h + 1);
      SortedAtLeast(t, m, h + 1);
    } else {
      assert t[h - 1] <= t[h];
      SortedAtMost(t, m, h);
      SortedAtLeast(t, m, h);
    }
  }

  /** At least half of the sample lies at or below the median, and at least half at or above it. */
  lemma MedianHalves(s: seq<real>)
    requires s != []
    ensures 2 * CountAtMost(s, Median(s)) >= |s|
    ensures 2 * CountAtLeast(s, Median(s)) >= |s|
  {
    SortSorted(s);
    SortCounts(s, Median(s));
    MiddleHalves(Sort(s));
  }
}
