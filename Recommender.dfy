/**
 * The similarity engine (`CosSimComputer`): it holds the feature matrix and
 * the id/name table of a preprocessed games table, and a current basis
 * vector that every query resets before scoring the other rows and keeping
 * the `n` best.
 */
module Recommender {
  import opened Wrappers
  import opened Frames
  import opened Vocabulary
  import opened Vectors
  import opened Binning
  import opened PriceParsing
  import opened Preprocessing

  /** A row of the presentation table `df[['item_id', 'app_name']]`. */
  datatype Item = Item(itemId: int, appName: string)

  /**
   * The errors a query can raise: `cosine_similarity` refusing a vector
   * without features or two vectors of different widths, and `nlargest`
   * failing on the empty frame left when no other row remains.
   */
  datatype ScoreError = NoFeatures | ShapeMismatch | NothingToRank

  /** A similarity, labelled with the row it was computed for. */
  datatype Scored = Scored(row: nat, score: real)

  /** What `n_most_similar` returns: the ranked row indexes, or the items at them. */
  datatype Answer = Indexes(rows: seq<nat>) | Records(items: seq<Item>)

  const FirstFeature: string := "_Released after 2010"

  // ---------------------------------------------------------------------
  // The score
  // ---------------------------------------------------------------------

  function RealAbs(x: real): real { if x < 0.0 then -x else x }

  /**
   * The cosine similarity of `a` and `b` squared with its sign kept,
   * `dot * |dot| / (|a|^2 |b|^2)`; zero when either vector is zero, as the
   * normalisation in `cosine_similarity` leaves zero rows zero.
   */
  function CosSquared(a: seq<int>, b: seq<int>): real
    requires |a| == |b|
  {
    var d, na, nb := Dot(a, b), Dot(a, a), Dot(b, b);
    if na == 0 || nb == 0 then 0.0 else (d * Abs(d)) as real / (na * nb) as real
  }

  function Abs(x: int): nat { if x < 0 then -x else x }

  lemma PositiveProduct(x: real, y: real)
    requires x > 0.0 && y > 0.0
    ensures x * y > 0.0
  {
  }

  /** `c * |c|` is strictly increasing, so scores rank rows exactly as cosines do. */
  lemma SignedSquareMonotone(x: real, y: real)
    ensures x * RealAbs(x) < y * RealAbs(y) <==> x < y
  {
    if x < y {
      if 0.0 <= x {
        assert x * x <= x * y < y * y;
      } else if y <= 0.0 {
        assert -x > -y >= 0.0;
        assert (-x) * (-x) > (-y) * (-x) >= (-y) * (-y);
      }
    } else if y < x {
      if 0.0 <= y {
        assert y * y <= y * x < x * x;
      } else if x <= 0.0 {
        assert -y > -x >= 0.0;
        assert (-y) * (-y) > (-x) * (-y) >= (-x) * (-x);
      }
    }
  }

  /** For 0/1 vectors the score lies in [0, 1]. */
  lemma CosSquaredBounds(a: seq<int>, b: seq<int>)
    requires |a| == |b| && IsBinary(a) && IsBinary(b)
    ensures 0.0 <= CosSquared(a, b) <= 1.0
  {
    BinarySelfDot(a);
    BinarySelfDot(b);
    BinaryDotBounds(a, b);
    BinarySumZero(a);
    BinarySumZero(b);
    var d, na, nb := Dot(a, b), Dot(a, a), Dot(b, b);
    if na != 0 && nb != 0 {
      assert 0 <= d && Abs(d) == d && na > 0 && nb > 0;
      MulMono(d, na, d, nb);
      MulMono(1, na, 1, nb);
      assert CosSquared(a, b) == (d * d) as real / (na * nb) as real;
      RatioInUnit(d * d, na * nb);
    }
  }

  lemma RatioInUnit(p: int, q: int)
    requires 0 <= p <= q && q > 0
    ensures 0.0 <= p as real / q as real <= 1.0
  {
    assert p as real <= q as real;
  }

  lemma MulMono(x: int, a: int, y: int, b: int)
    requires 0 <= x <= a && 0 <= y <= b
    ensures x * y <= a * b
  {
  }

  /** A non-zero 0/1 vector scores 1 against itself. */
  lemma CosSquaredSelf(a: seq<int>)
    requires IsBinary(a) && !IsZero(a)
    ensures CosSquared(a, a) == 1.0
  {
    BinarySelfDot(a);
    BinarySumZero(a);
    var d := Dot(a, a);
    assert d > 0 && Abs(d) == d;
    var q := (d * d) as real;
    assert q > 0.0 by {
      PositiveProduct(d as real, d as real);
    }
    assert (d * Abs(d)) as real == q;
    assert CosSquared(a, a) == q / q;
    assert q / q == 1.0;
  }

  /** `_cos_sim` on a basis and an item row: the score, or the error sklearn raises. */
  function CosineScore(basis: seq<int>, item: seq<int>): (r: Result<real, ScoreError>)
    ensures r.Ok? <==> |basis| == |item| && |item| > 0
  {
    if |basis| == 0 || |item| == 0 then Err(NoFeatures)
    else if |basis| != |item| then Err(ShapeMismatch)
    else Ok(CosSquared(basis, item))
  }

  // ---------------------------------------------------------------------
  // Series.nlargest(n), keep='first'
  // ---------------------------------------------------------------------

  /** Row labels strictly increase along the sequence. */
  predicate RowsIncrease(s: seq<Scored>)
  {
    forall i, j :: 0 <= i < j < |s| ==> s[i].row < s[j].row
  }

  /**
   * The position of a largest score; on ties the earliest position, which
   * is the lowest row when rows increase.
   */
  function BestPos(s: seq<Scored>): (k: nat)
    requires s != []
    ensures k < |s|
    ensures forall i :: 0 <= i < |s| ==> s[i].score <= s[k].score
    ensures forall i :: 0 <= i < k ==> s[i].score < s[k].score
  {
    if |s| == 1 then 0
    else
      var k := BestPos(s[..|s| - 1]);
      if s[|s| - 1].score > s[k].score then |s| - 1 else k
  }

  /** The sequence without position `k`. */
  function RemoveAt(s: seq<Scored>, k: nat): (t: seq<Scored>)
    requires k < |s|
    ensures |t| == |s| - 1
    ensures forall x :: x in t ==> x in s
  {
    s[..k] + s[k + 1..]
  }

  function Min(a: int, b: int): int { if a < b then a else b }

  /**
   * `nlargest(n)`: the `n` best scored rows, best first, the earlier row
   * first among equal scores; nothing when `n <= 0`.
   */
  function NLargest(s: seq<Scored>, n: int): (r: seq<Scored>)
    ensures |r| == if n <= 0 then 0 else Min(n, |s|)
    decreases |s|
  {
    if n <= 0 || s == [] then []
    else
      var k := BestPos(s);
      [s[k]] + NLargest(RemoveAt(s, k), n - 1)
  }

  /** Everything ranked was among the candidates. */
  lemma {:induction false} NLargestFrom(s: seq<Scored>, n: int)
    ensures forall x :: x in NLargest(s, n) ==> x in s
    decreases |s|
  {
    if n > 0 && s != [] {
      NLargestFrom(RemoveAt(s, BestPos(s)), n - 1);
    }
  }

  /** Removing a position keeps the row labels increasing and drops exactly that element. */
  lemma RemoveAtIncreasing(s: seq<Scored>, k: nat)
    requires k < |s| && RowsIncrease(s)
    ensures RowsIncrease(RemoveAt(s, k))
    ensures s[k] !in RemoveAt(s, k)
    ensures forall x :: x in s && x != s[k] ==> x in RemoveAt(s, k)
  {
    var t := RemoveAt(s, k);
    forall i, j | 0 <= i < j < |t|
      ensures t[i].row < t[j].row
    {
      var i', j' := if i < k then i else i + 1, if j < k then j else j + 1;
      assert t[i] == s[i'] && t[j] == s[j'];
    }
    forall x | x in t
      ensures x != s[k]
    {
      var i :| 0 <= i < |t| && t[i] == x;
      if i < k { assert t[i] == s[i]; } else { assert t[i] == s[i + 1]; }
    }
    forall x | x in s && x != s[k]
      ensures x in t
    {
      var i :| 0 <= i < |s| && s[i] == x;
      if i < k { assert t[i] == x; } else { assert t[i - 1] == x; }
    }
  }

  /** The ranking is in descending order of score, and no row comes twice. */
  lemma {:induction false} NLargestOrdered(s: seq<Scored>, n: int)
    requires RowsIncrease(s)
    ensures forall i :: 0 <= i < |NLargest(s, n)| - 1 ==> NLargest(s, n)[i].score >= NLargest(s, n)[i + 1].score
    ensures forall i, j :: 0 <= i < j < |NLargest(s, n)| ==> NLargest(s, n)[i].row != NLargest(s, n)[j].row
    decreases |s|
  {
    if n > 0 && s != [] {
      var k := BestPos(s);
      var rest := RemoveAt(s, k);
      RemoveAtIncreasing(s, k);
      NLargestOrdered(rest, n - 1);
      NLargestFrom(rest, n - 1);
      var r, r' := NLargest(s, n), NLargest(rest, n - 1);
      assert r == [s[k]] + r';
      forall j | 0 < j < |r|
        ensures r[j].row != s[k].row && r[j].score <= s[k].score
      {
        assert r[j] == r'[j - 1] && r'[j - 1] in rest;
        var i :| 0 <= i < |s| && s[i] == r[j];
        assert i != k;
      }
    }
  }

  /**
   * Every candidate left out scores at most as high as every ranked one,
   * and strictly lower than a ranked one that comes from a later row.
   */
  lemma {:induction false} NLargestDominates(s: seq<Scored>, n: int, x: Scored, y: Scored)
    requires RowsIncrease(s)
    requires x in s && x !in NLargest(s, n) && y in NLargest(s, n)
    ensures x.score <= y.score
    ensures x.score == y.score ==> y.row < x.row
    decreases |s|
  {
    assert n > 0 && s != [];
    var k := BestPos(s);
    var rest := RemoveAt(s, k);
    RemoveAtIncreasing(s, k);
    NLargestMembers(s, n);
    var i :| 0 <= i < |s| && s[i] == x;
    assert i != k;
    if y == s[k] {
      if i < k {
        assert s[i].score < s[k].score;
      } else {
        assert s[k].row < s[i].row;
      }
    } else {
      NLargestDominates(rest, n - 1, x, y);
    }
  }

  /** The ranking picks the best candidate first, then ranks the rest. */
  lemma NLargestMembers(s: seq<Scored>, n: int)
    requires n > 0 && s != []
    ensures forall z :: z in NLargest(s, n) <==> z == s[BestPos(s)] || z in NLargest(RemoveAt(s, BestPos(s)), n - 1)
  {
    assert NLargest(s, n) == [s[BestPos(s)]] + NLargest(RemoveAt(s, BestPos(s)), n - 1);
  }

  // ---------------------------------------------------------------------
  // Rows of the matrix
  // ---------------------------------------------------------------------

  predicate Increasing(rows: seq<nat>)
  {
    forall i, j :: 0 <= i < j < |rows| ==> rows[i] < rows[j]
  }

  /** `df.loc[df['item_id'] == id].index`: the rows holding `id`, in table order. */
  function MatchingRows(items: seq<Item>, id: int): (rows: seq<nat>)
    ensures Increasing(rows) && InRange(rows, |items|)
    ensures forall i: nat :: i in rows <==> i < |items| && items[i].itemId == id
  {
    if items == [] then []
    else
      var n := |items| - 1;
      var init := MatchingRows(items[..n], id);
      assert forall i: nat :: i < n ==> items[..n][i] == items[i];
      assert forall k :: 0 <= k < |init| ==> init[k] in init;
      if items[n].itemId == id then init + [n] else init
  }

  /**
   * `itemsMatrix.drop(index=...)`: the rows of an `m`-row matrix that are
   * not dropped, in table order.
   */
  function Kept(m: nat, drop: seq<nat>): (rows: seq<nat>)
    ensures Increasing(rows) && InRange(rows, m)
    ensures forall i: nat :: i in rows <==> i < m && i !in drop
  {
    if m == 0 then []
    else
      var init := Kept(m - 1, drop);
      assert forall k :: 0 <= k < |init| ==> init[k] in init;
      init + (if m - 1 in drop then [] else [m - 1])
  }

  /** Every row is `w` wide. */
  predicate Uniform(matrix: seq<seq<int>>, w: nat)
  {
    forall i :: 0 <= i < |matrix| ==> |matrix[i]| == w
  }

  predicate InRange(rows: seq<nat>, m: nat)
  {
    forall k :: 0 <= k < |rows| ==> rows[k] < m
  }

  /** `iloc[rows].values.reshape(1, -1)`: the selected rows laid end to end. */
  function BasisOf(matrix: seq<seq<int>>, rows: seq<nat>): (b: seq<int>)
    requires InRange(rows, |matrix|)
    ensures forall w: nat :: Uniform(matrix, w) ==> |b| == |rows| * w
    ensures |rows| == 1 ==> b == matrix[rows[0]]
  {
    if rows == [] then []
    else
      var b := matrix[rows[0]] + BasisOf(matrix, rows[1..]);
      assert |rows| == 1 ==> rows[1..] == [];
      b
  }

  /**
   * `DataFrame.apply(_cos_sim, axis=1)` on the kept rows: every row scored
   * in order, the first row that cannot be scored raising its error.
   */
  function ScoreRows(matrix: seq<seq<int>>, basis: seq<int>, rows: seq<nat>): (r: Result<seq<Scored>, ScoreError>)
    requires InRange(rows, |matrix|)
    ensures r.Ok? <==> forall k :: 0 <= k < |rows| ==> CosineScore(basis, matrix[rows[k]]).Ok?
    ensures r.Ok? ==> (|r.value| == |rows|
      && forall k :: 0 <= k < |rows| ==> r.value[k] == Scored(rows[k], CosSquared(basis, matrix[rows[k]])))
    ensures r.Err? ==> exists k :: (0 <= k < |rows| && CosineScore(basis, matrix[rows[k]]) == Err(r.error)
      && forall j :: 0 <= j < k ==> CosineScore(basis, matrix[rows[j]]).Ok?)
  {
    if rows == [] then Ok([])
    else
      match CosineScore(basis, matrix[rows[0]])
      case Err(e) => Err(e)
      case Ok(x) =>
        match ScoreRows(matrix, basis, rows[1..])
        case Err(e) =>
          assert forall k :: 0 < k < |rows| ==> rows[k] == rows[1..][k - 1];
          Err(e)
        case Ok(rest) =>
          assert forall k :: 0 < k < |rows| ==> rows[k] == rows[1..][k - 1];
          Ok([Scored(rows[0], x)] + rest)
  }

  function RowsOf(s: seq<Scored>): (rows: seq<nat>)
    ensures |rows| == |s| && forall k :: 0 <= k < |s| ==> rows[k] == s[k].row
  {
    seq(|s|, k requires 0 <= k < |s| => s[k].row)
  }

  /**
   * One query from scratch: the basis of the rows holding `to`, the other
   * rows scored against it, the `n` best kept, returned as row indexes or
   * as the item records at them. An empty set of other rows leaves pandas
   * an empty frame to rank, which fails.
   */
  function Ranked(matrix: seq<seq<int>>, items: seq<Item>, n: int, to: int, indexes: bool): Result<Answer, ScoreError>
    requires |items| == |matrix|
  {
    var drop := MatchingRows(items, to);
    var others := Kept(|matrix|, drop);
    match ScoreRows(matrix, BasisOf(matrix, drop), others)
    case Err(e) => Err(e)
    case Ok(sims) =>
      if others == [] then Err(NothingToRank)
      else
        var rows := RowsOf(NLargest(sims, n));
        NLargestRows(sims, n, |matrix|);
        if indexes then Ok(Indexes(rows))
        else Ok(Records(seq(|rows|, k requires 0 <= k < |rows| => items[rows[k]])))
  }

  /** Ranking only picks among the candidates' rows. */
  lemma NLargestRows(s: seq<Scored>, n: int, m: nat)
    requires forall k :: 0 <= k < |s| ==> s[k].row < m
    ensures InRange(RowsOf(NLargest(s, n)), m)
  {
    NLargestFrom(s, n);
    var best := NLargest(s, n);
    forall k | 0 <= k < |best|
      ensures best[k].row < m
    {
      assert best[k] in s;
    }
  }

  lemma NLargestRowsIn(s: seq<Scored>, n: int, allowed: seq<nat>)
    requires forall k :: 0 <= k < |s| ==> s[k].row in allowed
    ensures forall k :: 0 <= k < |NLargest(s, n)| ==> NLargest(s, n)[k].row in allowed
  {
    NLargestFrom(s, n);
    var best := NLargest(s, n);
    forall k | 0 <= k < |best|
      ensures best[k].row in allowed
    {
      assert best[k] in s;
    }
  }

  // ---------------------------------------------------------------------
  // What a query returns
  // ---------------------------------------------------------------------

  /** The score of row `i` against the basis of the rows holding `to`, or the error scoring it raises. */
  function ScoreOf(matrix: seq<seq<int>>, items: seq<Item>, to: int, i: nat): Result<real, ScoreError>
    requires |items| == |matrix| && i < |matrix|
  {
    CosineScore(BasisOf(matrix, MatchingRows(items, to)), matrix[i])
  }

  /** A successful scoring pass labels each kept row with its own score, in row order. */
  lemma ScoredRows(matrix: seq<seq<int>>, items: seq<Item>, to: int)
    requires |items| == |matrix|
    requires ScoreRows(matrix, BasisOf(matrix, MatchingRows(items, to)), Kept(|matrix|, MatchingRows(items, to))).Ok?
    ensures var others := Kept(|matrix|, MatchingRows(items, to));
      var sims := ScoreRows(matrix, BasisOf(matrix, MatchingRows(items, to)), others).value;
      RowsIncrease(sims) && forall k :: 0 <= k < |sims| ==> sims[k].row in others
  {
    var others := Kept(|matrix|, MatchingRows(items, to));
    var sims := ScoreRows(matrix, BasisOf(matrix, MatchingRows(items, to)), others).value;
    forall k | 0 <= k < |sims|
      ensures sims[k].row in others
    {
      assert sims[k].row == others[k];
    }
  }

  /** Each scored candidate carries its row's own score. */
  lemma ScoredAt(matrix: seq<seq<int>>, items: seq<Item>, to: int, x: Scored)
    requires |items| == |matrix|
    requires ScoreRows(matrix, BasisOf(matrix, MatchingRows(items, to)), Kept(|matrix|, MatchingRows(items, to))).Ok?
    requires x in ScoreRows(matrix, BasisOf(matrix, MatchingRows(items, to)), Kept(|matrix|, MatchingRows(items, to))).value
    ensures x.row < |matrix| && items[x.row].itemId != to && ScoreOf(matrix, items, to, x.row) == Ok(x.score)
  {
    var others := Kept(|matrix|, MatchingRows(items, to));
    var sims := ScoreRows(matrix, BasisOf(matrix, MatchingRows(items, to)), others).value;
    var j :| 0 <= j < |sims| && sims[j] == x;
    assert x.row == others[j] && others[j] in others;
  }

  /** Unfolding a successful query: the scoring pass succeeded on a non-empty set of rows, and the answer is its ranking. */
  lemma RankedShape(matrix: seq<seq<int>>, items: seq<Item>, n: int, to: int)
    requires |items| == |matrix|
    requires Ranked(matrix, items, n, to, true).Ok?
    ensures var others := Kept(|matrix|, MatchingRows(items, to));
      var sc := ScoreRows(matrix, BasisOf(matrix, MatchingRows(items, to)), others);
      sc.Ok? && others != []
      && Ranked(matrix, items, n, to, true) == Ok(Indexes(RowsOf(NLargest(sc.value, n))))
  {
  }

  /**
   * The queried item never recommends itself: every returned row is a row
   * of the table whose `item_id` differs from `to`, no row comes twice, and
   * at most `n` rows come back (exactly `n` when that many other rows exist).
   */
  lemma RankedExcludesQuery(matrix: seq<seq<int>>, items: seq<Item>, n: int, to: int)
    requires |items| == |matrix|
    ensures var r := Ranked(matrix, items, n, to, true);
      r.Ok? ==> (r.value.Indexes? && InRange(r.value.rows, |items|)
        && (forall k :: 0 <= k < |r.value.rows| ==> items[r.value.rows[k]].itemId != to)
        && (forall j, k :: 0 <= j < k < |r.value.rows| ==> r.value.rows[j] != r.value.rows[k])
        && |r.value.rows| == if n <= 0 then 0 else Min(n, |Kept(|matrix|, MatchingRows(items, to))|))
  {
    var r := Ranked(matrix, items, n, to, true);
    if r.Ok? {
      RankedShape(matrix, items, n, to);
      var drop := MatchingRows(items, to);
      var others := Kept(|matrix|, drop);
      var sims := ScoreRows(matrix, BasisOf(matrix, drop), others).value;
      ScoredRows(matrix, items, to);
      var best := NLargest(sims, n);
      NLargestRowsIn(sims, n, others);
      NLargestOrdered(sims, n);
      assert r.value.rows == RowsOf(best);
      forall k | 0 <= k < |best|
        ensures best[k].row < |items| && items[best[k].row].itemId != to
      {
        assert best[k].row in others;
      }
    }
  }

  /**
   * The returned rows dominate: any other row of a different item scores at
   * most as high as each returned row, and exactly as high only when it
   * comes later in the table.
   */
  lemma RankedDominates(matrix: seq<seq<int>>, items: seq<Item>, n: int, to: int, k: nat, i: nat)
    requires |items| == |matrix|
    requires Ranked(matrix, items, n, to, true).Ok?
    requires k < |Ranked(matrix, items, n, to, true).value.rows|
    requires i < |items| && items[i].itemId != to && i !in Ranked(matrix, items, n, to, true).value.rows
    ensures var rows := Ranked(matrix, items, n, to, true).value.rows;
      rows[k] < |matrix| && ScoreOf(matrix, items, to, i).Ok? && ScoreOf(matrix, items, to, rows[k]).Ok?
      && ScoreOf(matrix, items, to, i).value <= ScoreOf(matrix, items, to, rows[k]).value
      && (ScoreOf(matrix, items, to, i).value == ScoreOf(matrix, items, to, rows[k]).value ==> rows[k] < i)
  {
    var rows := Ranked(matrix, items, n, to, true).value.rows;
    RankedShape(matrix, items, n, to);
    var drop := MatchingRows(items, to);
    var others := Kept(|matrix|, drop);
    var sims := ScoreRows(matrix, BasisOf(matrix, drop), others).value;
    ScoredRows(matrix, items, to);
    var best := NLargest(sims, n);
    NLargestFrom(sims, n);
    assert rows == RowsOf(best);
    ScoredAt(matrix, items, to, best[k]);
    var j :| 0 <= j < |others| && others[j] == i;
    ScoredAt(matrix, items, to, sims[j]);
    RankDominates(sims, n, k, sims[j]);
  }

  /** A candidate whose row was not ranked scores no higher than any ranked one, and lower than those from later rows. */
  lemma RankDominates(s: seq<Scored>, n: int, k: nat, x: Scored)
    requires RowsIncrease(s) && x in s && k < |NLargest(s, n)| && x.row !in RowsOf(NLargest(s, n))
    ensures x.score <= NLargest(s, n)[k].score
    ensures x.score == NLargest(s, n)[k].score ==> NLargest(s, n)[k].row < x.row
  {
    NLargestFrom(s, n);
    var best := NLargest(s, n);
    assert forall kx :: 0 <= kx < |best| ==> best[kx].row == RowsOf(best)[kx];
    NLargestDominates(s, n, x, best[k]);
  }

  /** The returned rows come best first. */
  lemma RankedOrdered(matrix: seq<seq<int>>, items: seq<Item>, n: int, to: int, k: nat)
    requires |items| == |matrix|
    requires Ranked(matrix, items, n, to, true).Ok?
    requires k + 1 < |Ranked(matrix, items, n, to, true).value.rows|
    ensures var rows := Ranked(matrix, items, n, to, true).value.rows;
      rows[k] < |matrix| && rows[k + 1] < |matrix|
      && ScoreOf(matrix, items, to, rows[k]).Ok? && ScoreOf(matrix, items, to, rows[k + 1]).Ok?
      && ScoreOf(matrix, items, to, rows[k + 1]).value <= ScoreOf(matrix, items, to, rows[k]).value
  {
    var rows := Ranked(matrix, items, n, to, true).value.rows;
    RankedShape(matrix, items, n, to);
    var drop := MatchingRows(items, to);
    var others := Kept(|matrix|, drop);
    var sims := ScoreRows(matrix, BasisOf(matrix, drop), others).value;
    ScoredRows(matrix, items, to);
    var best := NLargest(sims, n);
    NLargestFrom(sims, n);
    NLargestOrdered(sims, n);
    assert rows == RowsOf(best);
    var x, y := best[k], best[k + 1];
    assert x in best && y in best;
    assert rows[k] == x.row && rows[k + 1] == y.row && y.score <= x.score;
    ScoredAt(matrix, items, to, x);
    ScoredAt(matrix, items, to, y);
  }

  /** Asking for records returns the `item_id`/`app_name` rows at the ranked indexes, in the same order. */
  lemma RankedRecords(matrix: seq<seq<int>>, items: seq<Item>, n: int, to: int)
    requires |items| == |matrix|
    ensures Ranked(matrix, items, n, to, false).Ok? <==> Ranked(matrix, items, n, to, true).Ok?
    ensures Ranked(matrix, items, n, to, false).Err? ==>
      Ranked(matrix, items, n, to, false) == Ranked(matrix, items, n, to, true)
    ensures Ranked(matrix, items, n, to, true).Ok? ==>
      var rows := Ranked(matrix, items, n, to, true).value.rows;
      InRange(rows, |items|)
      && Ranked(matrix, items, n, to, false) == Ok(Records(seq(|rows|, k requires 0 <= k < |rows| => items[rows[k]])))
  {
    RankedExcludesQuery(matrix, items, n, to);
  }

  /**
   * With every row `w > 0` wide, a query succeeds exactly when one row holds
   * `to` (two would give a basis twice as wide, none an empty one) and some
   * row of another item is left to rank.
   */
  lemma RankedSucceeds(matrix: seq<seq<int>>, items: seq<Item>, n: int, to: int, w: nat)
    requires |items| == |matrix| && Uniform(matrix, w) && w > 0
    ensures Ranked(matrix, items, n, to, true).Ok?
      <==> |MatchingRows(items, to)| == 1 && exists i :: 0 <= i < |items| && items[i].itemId != to
  {
    if Ranked(matrix, items, n, to, true).Ok? {
      RankedNeedsOneRow(matrix, items, n, to, w);
    }
    if |MatchingRows(items, to)| == 1 && exists i :: 0 <= i < |items| && items[i].itemId != to {
      OneRowSucceeds(matrix, items, n, to, w);
    }
  }

  lemma RankedNeedsOneRow(matrix: seq<seq<int>>, items: seq<Item>, n: int, to: int, w: nat)
    requires |items| == |matrix| && Uniform(matrix, w) && w > 0
    requires Ranked(matrix, items, n, to, true).Ok?
    ensures |MatchingRows(items, to)| == 1 && exists i :: 0 <= i < |items| && items[i].itemId != to
  {
    var drop := MatchingRows(items, to);
    var basis := BasisOf(matrix, drop);
    var others := Kept(|matrix|, drop);
    RankedShape(matrix, items, n, to);
    assert others[0] in others;
    assert CosineScore(basis, matrix[others[0]]).Ok?;
    assert |basis| == |drop| * w == w;
    OneRow(|drop|, w);
  }

  lemma OneRowSucceeds(matrix: seq<seq<int>>, items: seq<Item>, n: int, to: int, w: nat)
    requires |items| == |matrix| && Uniform(matrix, w) && w > 0
    requires |MatchingRows(items, to)| == 1 && exists i :: 0 <= i < |items| && items[i].itemId != to
    ensures Ranked(matrix, items, n, to, true).Ok?
  {
    var drop := MatchingRows(items, to);
    var basis := BasisOf(matrix, drop);
    var others := Kept(|matrix|, drop);
    assert |basis| == w;
    var i :| 0 <= i < |items| && items[i].itemId != to;
    assert i in others;
    assert forall k :: 0 <= k < |others| ==> CosineScore(basis, matrix[others[k]]).Ok?;
  }

  lemma OneRow(c: nat, w: nat)
    requires w > 0 && c * w == w
    ensures c == 1
  {
  }

  predicate BinaryMatrix(matrix: seq<seq<int>>)
  {
    forall i :: 0 <= i < |matrix| ==> IsBinary(matrix[i])
  }

  /** Rows of 0/1 entries laid end to end are 0/1 entries. */
  lemma {:induction false} BasisBinary(matrix: seq<seq<int>>, rows: seq<nat>)
    requires InRange(rows, |matrix|) && BinaryMatrix(matrix)
    ensures IsBinary(BasisOf(matrix, rows))
  {
    if rows != [] {
      BasisBinary(matrix, rows[1..]);
      BinaryAppend(matrix[rows[0]], BasisOf(matrix, rows[1..]));
    }
  }

  /** On a 0/1 matrix every score lies in [0, 1], and a row of the queried item itself scores 1. */
  lemma ScoreBounds(matrix: seq<seq<int>>, items: seq<Item>, to: int, i: nat, w: nat)
    requires |items| == |matrix| && i < |matrix| && BinaryMatrix(matrix) && Uniform(matrix, w)
    ensures ScoreOf(matrix, items, to, i).Ok? ==> 0.0 <= ScoreOf(matrix, items, to, i).value <= 1.0
    ensures ScoreOf(matrix, items, to, i).Ok? && items[i].itemId == to && !IsZero(matrix[i]) ==>
      ScoreOf(matrix, items, to, i).value == 1.0
  {
    var drop := MatchingRows(items, to);
    var basis := BasisOf(matrix, drop);
    BasisBinary(matrix, drop);
    if ScoreOf(matrix, items, to, i).Ok? {
      CosSquaredBounds(basis, matrix[i]);
      if items[i].itemId == to && !IsZero(matrix[i]) {
        assert i in drop;
        assert |basis| == |drop| * w == w > 0;
        OneRow(|drop|, w);
        assert drop == [i];
        CosSquaredSelf(matrix[i]);
      }
    }
  }

  // ---------------------------------------------------------------------
  // The fitted state
  // ---------------------------------------------------------------------

  /** The number of rows of a table: the height of its first column. */
  function RowCount(cols: seq<Column>): nat
  {
    if cols == [] then 0 else Height(cols[0].data)
  }

  /** `loc[:, '_Released after 2010':]` starts at the first column of that name. */
  function FeatureStart(cols: seq<Column>): (k: nat)
    requires FirstFeature in Names(cols)
    ensures k < |cols|
  {
    FirstIndex(Names(cols), FirstFeature)
  }

  /**
   * A table the computer can be fitted on: it has the first feature column,
   * every column from there on is a 0/1 column of the table's height, and
   * it has `item_id` and `app_name` columns of that height.
   */
  predicate Fittable(cols: seq<Column>)
  {
    FirstFeature in Names(cols)
    && BitColumns(cols[FeatureStart(cols)..], RowCount(cols))
    && Lookup(cols, "item_id").Some? && Lookup(cols, "item_id").value.Ids?
    && |Lookup(cols, "item_id").value.ids| == RowCount(cols)
    && Lookup(cols, "app_name").Some? && Lookup(cols, "app_name").value.Texts?
    && |Lookup(cols, "app_name").value.texts| == RowCount(cols)
  }

  /** The feature matrix: one row per game, one entry per column from the first feature column on. */
  function FeatureMatrix(cols: seq<Column>): (m: seq<seq<int>>)
    requires Fittable(cols)
    ensures |m| == RowCount(cols) && Uniform(m, |cols| - FeatureStart(cols))
    ensures forall i, k :: 0 <= i < |m| && 0 <= k < |cols| - FeatureStart(cols) ==>
      m[i][k] == cols[FeatureStart(cols) + k].data.bits[i]
  {
    var n, start := RowCount(cols), FeatureStart(cols);
    seq(n, i requires 0 <= i < n => RowOf(cols[start..], n, i))
  }

  /** The presentation table: the `item_id` and `app_name` of every row. */
  function ItemTable(cols: seq<Column>): (t: seq<Item>)
    requires Fittable(cols)
    ensures |t| == RowCount(cols)
  {
    var ids, names := Lookup(cols, "item_id").value.ids, Lookup(cols, "app_name").value.texts;
    seq(RowCount(cols), i requires 0 <= i < RowCount(cols) => Item(ids[i], names[i]))
  }

  /**
   * `CosSimComputer`: the feature matrix and the item table fixed when it
   * is fitted, and the basis of the last query, which every query replaces.
   */
  class CosSimComputer {
    const itemsMatrix: seq<seq<int>>
    const items: seq<Item>
    var basisVector: Option<seq<int>>
    var basisVectorIndex: Option<seq<nat>>

    /** The matrix and the item table have one row per game each. */
    predicate Fitted()
    {
      |items| == |itemsMatrix|
    }

    /** `__init__`: the matrix and item table of the table, no basis yet. */
    constructor (df: Frame)
      requires Fittable(df.cols)
      ensures itemsMatrix == FeatureMatrix(df.cols) && items == ItemTable(df.cols)
      ensures Fitted() && basisVector == None && basisVectorIndex == None
    {
      itemsMatrix := FeatureMatrix(df.cols);
      items := ItemTable(df.cols);
      basisVector := None;
      basisVectorIndex := None;
    }

    /** `set_basisVector`: the basis becomes the rows holding `id`, laid end to end, and their indexes. */
    method SetBasisVector(id: int)
      requires Fitted()
      modifies this
      ensures basisVectorIndex == Some(MatchingRows(items, id))
      ensures basisVector == Some(BasisOf(itemsMatrix, MatchingRows(items, id)))
    {
      var idx := MatchingRows(items, id);
      basisVector := Some(BasisOf(itemsMatrix, idx));
      basisVectorIndex := Some(idx);
    }

    /**
     * `compute_similarities`: every row except the basis rows scored against
     * the basis, in row order.
     */
    function Similarities(): (r: Result<seq<Scored>, ScoreError>)
      reads this
      requires Fitted() && basisVector.Some? && basisVectorIndex.Some?
      ensures r.Ok? ==> RowsIncrease(r.value)
      ensures r.Ok? ==> forall k :: 0 <= k < |r.value| ==>
        r.value[k].row < |itemsMatrix| && r.value[k].row !in basisVectorIndex.value
    {
      var others := Kept(|itemsMatrix|, basisVectorIndex.value);
      var r := ScoreRows(itemsMatrix, basisVector.value, others);
      assert forall k :: 0 <= k < |others| ==> others[k] in others;
      r
    }

    /**
     * `n_most_similar`: the basis reset from `to`, then the `n` best other
     * rows, as indexes or as item records; the answer depends only on the
     * fitted table and the arguments, never on an earlier query.
     */
    method NMostSimilar(n: int, to: int, indexes: bool) returns (r: Result<Answer, ScoreError>)
      requires Fitted()
      modifies this
      ensures basisVectorIndex == Some(MatchingRows(items, to))
      ensures basisVector == Some(BasisOf(itemsMatrix, MatchingRows(items, to)))
      ensures r == Ranked(itemsMatrix, items, n, to, indexes)
    {
      SetBasisVector(to);
      var similars := Similarities();
      if similars.Err? {
        return Err(similars.error);
      }
      var sims := similars.value;
      if sims == [] {
        return Err(NothingToRank);
      }
      NLargestRows(sims, n, |itemsMatrix|);
      var rows := RowsOf(NLargest(sims, n));
      if indexes {
        return Ok(Indexes(rows));
      }
      return Ok(Records(seq(|rows|, k requires 0 <= k < |rows| => items[rows[k]])));
    }
  }

  // ---------------------------------------------------------------------
  // Fitted on a preprocessed table
  // ---------------------------------------------------------------------

  /**
   * When the encoded columns follow columns none of which is named like the
   * first feature column, the fitted matrix is exactly the encoded block:
   * row `i` is the feature row of game `i`.
   */
  lemma FittedFeatureRows(others: seq<Column>, years: seq<Option<int>>, prices: seq<Option<real>>,
                          genres: seq<Cell>, specs: seq<Cell>, i: nat)
    requires |prices| == |years| && |genres| == |years| && |specs| == |years| && i < |years|
    requires FirstFeature !in Names(others)
    requires Fittable(others + FeatureColumns(years, prices, genres, specs))
    ensures var m := FeatureMatrix(others + FeatureColumns(years, prices, genres, specs));
      |m| == |years| && m[i] == FeatureRow(years, prices, genres, specs, i)
  {
    var f := FeatureColumns(years, prices, genres, specs);
    var out := others + f;
    var n := |years|;
    FeatureColumnsRow(years, prices, genres, specs, i);
    YearColumnsAre();
    assert f[0].name == FirstFeature;
    NamesAppend(others, f);
    assert Names(f)[0] == FirstFeature;
    var start := FeatureStart(out);
    assert start == |others| by {
      assert Names(out)[|others|] == FirstFeature;
    }
    assert out[start..] == f;
    assert RowCount(out) == n by {
      assert f[0] == out[start];
    }
    assert FeatureMatrix(out)[i] == RowOf(f, n, i);
  }

  /**
   * Fitted on the output of `preprocess_games`, row `i` of the matrix is
   * the 0/1 feature row of game `i`: its release period, its price bin,
   * its genres and its specs.
   */
  lemma PreprocessedMatrix(cols: seq<Column>, n: nat, i: nat)
    requires GamesTable(cols) && NoClashes(cols) && i < n
    requires |Lookup(cols, "release_year").value.years| == n && |Lookup(cols, "price").value.raw| == n
    requires |Lookup(cols, "genres").value.cells| == n && |Lookup(cols, "specs").value.cells| == n
    requires NormalisedPrices(Lookup(cols, "price").value.raw).Ok?
    requires FirstFeature !in Names(Others(cols))
    requires Preprocessed(cols).Ok? && Fittable(Preprocessed(cols).value)
    ensures var m := FeatureMatrix(Preprocessed(cols).value);
      |m| == n && IsBinary(m[i])
      && m[i] == FeatureRow(Lookup(cols, "release_year").value.years,
                            NormalisedPrices(Lookup(cols, "price").value.raw).value,
                            Lookup(cols, "genres").value.cells,
                            Lookup(cols, "specs").value.cells, i)
  {
    var years := Lookup(cols, "release_year").value.years;
    var prices := NormalisedPrices(Lookup(cols, "price").value.raw).value;
    var genres, specs := Lookup(cols, "genres").value.cells, Lookup(cols, "specs").value.cells;
    PreprocessedLayout(cols);
    var out := Preprocessed(cols).value;
    assert out == Others(cols) + FeatureColumns(years, prices, genres, specs);
    FittedFeatureRows(Others(cols), years, prices, genres, specs, i);
    FeatureColumnsRow(years, prices, genres, specs, i);
  }
}
