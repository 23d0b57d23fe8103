/**
 * Threshold binning of release years and prices (`_year_binning`,
 * `year_binning`, `_price_binning`, `price_binning`) and the one-hot
 * columns that `get_dummies(prefix='')` makes of the bin labels.
 */
module Binning {
  import opened Wrappers

  datatype YearLabel = Before2000 | In2000To2010 | After2010
  datatype PriceLabel = VeryLowCost | Cheap | TypicalPrice | Expensive

  function YearLabelText(l: YearLabel): string
  {
    match l
    case Before2000 => "Released before 2000"
    case In2000To2010 => "Released in 2000-2010"
    case After2010 => "Released after 2010"
  }

  function PriceLabelText(l: PriceLabel): string
  {
    match l
    case VeryLowCost => "Very low cost"
    case Cheap => "Cheap"
    case TypicalPrice => "Typical price"
    case Expensive => "Expensive"
  }

  /** `_year_binning`: each year gets exactly the label of the interval that holds it. */
  function YearBin(y: int): (l: YearLabel)
    ensures l == Before2000 <==> y < 2000
    ensures l == In2000To2010 <==> 2000 <= y < 2010
    ensures l == After2010 <==> 2010 <= y
  {
    if y < 2000 then Before2000
    else if y >= 2000 && y < 2010 then In2000To2010
    else After2010
  }

  /** `_price_binning`: each price gets exactly the label of the interval that holds it. */
  function PriceBin(p: real): (l: PriceLabel)
    ensures l == VeryLowCost <==> p < 5.0
    ensures l == Cheap <==> 5.0 <= p < 30.0
    ensures l == TypicalPrice <==> 30.0 <= p < 60.0
    ensures l == Expensive <==> 60.0 <= p
  {
    if p < 5.0 then VeryLowCost
    else if p >= 5.0 && p < 30.0 then Cheap
    else if p >= 30.0 && p < 60.0 then TypicalPrice
    else Expensive
  }

  function YearRank(l: YearLabel): nat
  {
    match l
    case Before2000 => 0
    case In2000To2010 => 1
    case After2010 => 2
  }

  function PriceRank(l: PriceLabel): nat
  {
    match l
    case VeryLowCost => 0
    case Cheap => 1
    case TypicalPrice => 2
    case Expensive => 3
  }

  /** A later year never falls in an earlier period. */
  lemma YearBinMonotone(y1: int, y2: int)
    requires y1 <= y2
    ensures YearRank(YearBin(y1)) <= YearRank(YearBin(y2))
  {
  }

  /** A higher price never falls in a cheaper bin. */
  lemma PriceBinMonotone(p1: real, p2: real)
    requires p1 <= p2
    ensures PriceRank(PriceBin(p1)) <= PriceRank(PriceBin(p2))
  {
  }

  /**
   * `year_binning`: `Series.map(_year_binning, na_action='ignore')` on the
   * release years; a missing year stays missing.
   */
  function MapYearBins(years: seq<Option<int>>): (r: seq<Option<YearLabel>>)
    ensures |r| == |years|
    ensures forall i :: 0 <= i < |years| ==> (r[i].None? <==> years[i].None?)
    ensures forall i :: 0 <= i < |years| && years[i].Some? ==> r[i] == Some(YearBin(years[i].value))
  {
    seq(|years|, i requires 0 <= i < |years| =>
      if years[i].None? then None else Some(YearBin(years[i].value)))
  }

  /**
   * `price_binning`: `Series.map(_price_binning, na_action='ignore')` on the
   * prices; a missing price stays missing.
   */
  function MapPriceBins(prices: seq<Option<real>>): (r: seq<Option<PriceLabel>>)
    ensures |r| == |prices|
    ensures forall i :: 0 <= i < |prices| ==> (r[i].None? <==> prices[i].None?)
    ensures forall i :: 0 <= i < |prices| && prices[i].Some? ==> r[i] == Some(PriceBin(prices[i].value))
  {
    seq(|prices|, i requires 0 <= i < |prices| =>
      if prices[i].None? then None else Some(PriceBin(prices[i].value)))
  }

  // ---------------------------------------------------------------------
  // get_dummies(prefix=''): one 0/1 column per label, in sorted label order
  // ---------------------------------------------------------------------

  /** The year labels in the order of their texts. */
  const YearOrder: seq<YearLabel> := [After2010, Before2000, In2000To2010]

  /** The price labels in the order of their texts. */
  const PriceOrder: seq<PriceLabel> := [Cheap, Expensive, TypicalPrice, VeryLowCost]

  /** The dummy column names: the empty prefix, the `_` separator, the label. */
  function YearColumns(): seq<string>
  {
    seq(|YearOrder|, k requires 0 <= k < |YearOrder| => "_" + YearLabelText(YearOrder[k]))
  }

  function PriceColumns(): seq<string>
  {
    seq(|PriceOrder|, k requires 0 <= k < |PriceOrder| => "_" + PriceLabelText(PriceOrder[k]))
  }

  /** The one-hot row of one (possibly missing) label over the label order. */
  function OneHot<L(==)>(l: Option<L>, order: seq<L>): (row: seq<int>)
    ensures |row| == |order|
  {
    seq(|order|, k requires 0 <= k < |order| => if l == Some(order[k]) then 1 else 0)
  }

  /** Each year label has exactly one dummy column; a missing year has none set. */
  lemma YearOneHot(l: Option<YearLabel>)
    ensures forall k :: 0 <= k < 3 ==> (OneHot(l, YearOrder)[k] == 1 <==> l == Some(YearOrder[k]))
    ensures forall k :: 0 <= k < 3 ==> OneHot(l, YearOrder)[k] in {0, 1}
    ensures l.Some? ==> exists k :: 0 <= k < 3 && OneHot(l, YearOrder)[k] == 1
    ensures l.None? ==> forall k :: 0 <= k < 3 ==> OneHot(l, YearOrder)[k] == 0
  {
    if l.Some? {
      var k := match l.value case After2010 => 0 case Before2000 => 1 case In2000To2010 => 2;
      assert OneHot(l, YearOrder)[k] == 1;
    }
  }

  /** Each price label has exactly one dummy column; a missing price has none set. */
  lemma PriceOneHot(l: Option<PriceLabel>)
    ensures forall k :: 0 <= k < 4 ==> (OneHot(l, PriceOrder)[k] == 1 <==> l == Some(PriceOrder[k]))
    ensures forall k :: 0 <= k < 4 ==> OneHot(l, PriceOrder)[k] in {0, 1}
    ensures l.Some? ==> exists k :: 0 <= k < 4 && OneHot(l, PriceOrder)[k] == 1
    ensures l.None? ==> forall k :: 0 <= k < 4 ==> OneHot(l, PriceOrder)[k] == 0
  {
    if l.Some? {
      var k := match l.value case Cheap => 0 case Expensive => 1 case TypicalPrice => 2 case VeryLowCost => 3;
      assert OneHot(l, PriceOrder)[k] == 1;
    }
  }

  // ---------------------------------------------------------------------
  // The column order is the sorted order of the column names
  // ---------------------------------------------------------------------

  /** Lexicographic order on strings, as Python compares them. */
  predicate LexLess(a: string, b: string)
  {
    if a == [] then b != []
    else if b == [] then false
    else if a[0] != b[0] then a[0] < b[0]
    else LexLess(a[1..], b[1..])
  }

  lemma {:induction false} LexLessCommonPrefix(p: string, a: string, b: string)
    ensures LexLess(p + a, p + b) == LexLess(a, b)
  {
    if p != [] {
      assert (p + a)[1..] == p[1..] + a;
      assert (p + b)[1..] == p[1..] + b;
      LexLessCommonPrefix(p[1..], a, b);
    } else {
      assert p + a == a && p + b == b;
    }
  }

  /** Strings that agree up to position `k` and differ there are ordered by that position. */
  lemma {:induction false} LexLessAt(a: string, b: string, k: nat)
    requires k < |a| && k < |b| && a[..k] == b[..k] && a[k] < b[k]
    ensures LexLess(a, b)
  {
    if k > 0 {
      assert a[0] == a[..k][0] == b[..k][0] == b[0];
      assert a[1..][..k - 1] == a[..k][1..] == b[..k][1..] == b[1..][..k - 1];
      LexLessAt(a[1..], b[1..], k - 1);
    }
  }

  predicate StrictlySorted(s: seq<string>)
  {
    forall i :: 0 <= i < |s| - 1 ==> LexLess(s[i], s[i + 1])
  }

  /** The year dummy columns, by name. */
  lemma YearColumnsAre()
    ensures YearColumns() == ["_Released after 2010", "_Released before 2000", "_Released in 2000-2010"]
  {
    var c := YearColumns();
    assert c[0] == "_" + YearLabelText(After2010) == "_Released after 2010";
    assert c[1] == "_" + YearLabelText(Before2000) == "_Released before 2000";
    assert c[2] == "_" + YearLabelText(In2000To2010) == "_Released in 2000-2010";
  }

  /** `get_dummies` sorts the labels: the year columns are in increasing order of name. */
  lemma YearColumnsSorted()
    ensures StrictlySorted(YearColumns())
  {
    YearColumnsAre();
    AfterLessBefore();
    BeforeLessIn();
  }

  lemma AfterLessBefore()
    ensures LexLess("_Released after 2010", "_Released before 2000")
  {
    var a, b := "_Released after 2010", "_Released before 2000";
    assert a[..10] == b[..10];
    LexLessAt(a, b, 10);
  }

  lemma BeforeLessIn()
    ensures LexLess("_Released before 2000", "_Released in 2000-2010")
  {
    var b, c := "_Released before 2000", "_Released in 2000-2010";
    assert b[..10] == c[..10];
    LexLessAt(b, c, 10);
  }

  /** The price dummy columns, by name. */
  lemma PriceColumnsAre()
    ensures PriceColumns() == ["_Cheap", "_Expensive", "_Typical price", "_Very low cost"]
  {
    var c := PriceColumns();
    assert c[0] == "_" + PriceLabelText(Cheap) == "_Cheap";
    assert c[1] == "_" + PriceLabelText(Expensive) == "_Expensive";
    assert c[2] == "_" + PriceLabelText(TypicalPrice) == "_Typical price";
    assert c[3] == "_" + PriceLabelText(VeryLowCost) == "_Very low cost";
  }

  /** `get_dummies` sorts the labels: the price columns are in increasing order of name. */
  lemma PriceColumnsSorted()
    ensures StrictlySorted(PriceColumns())
  {
    PriceColumnsAre();
    assert LexLess("_Cheap", "_Expensive") by { LexLessCommonPrefix("_", "Cheap", "Expensive"); }
    assert LexLess("_Expensive", "_Typical price") by { LexLessCommonPrefix("_", "Expensive", "Typical price"); }
    assert LexLess("_Typical price", "_Very low cost") by { LexLessCommonPrefix("_", "Typical price", "Very low cost"); }
  }
}
