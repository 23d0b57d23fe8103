/**
 * The preprocessing pipeline of the games table (`year_binning`,
 * `price_binning`, `preprocess_games`): prices normalised and the missing
 * ones filled with the median, years and prices binned and one-hot encoded,
 * genres and specs multi-hot encoded, every source column dropped.
 */
module Preprocessing {
  import opened Wrappers
  import opened PriceParsing
  import opened Binning
  import opened Frames
  import opened Vocabulary
  import opened Dummies
  import opened Stats
  import opened Vectors

  // ---------------------------------------------------------------------
  // get_dummies(df, columns=[name], prefix='', dtype=int) on a label column
  // ---------------------------------------------------------------------

  /** One 0/1 column per year label, in the order of the column names. */
  function YearDummyColumns(labels: seq<Option<YearLabel>>): (cols: seq<Column>)
    ensures |cols| == 3
    ensures forall k :: 0 <= k < 3 ==> cols[k].name == YearColumns()[k]
    ensures forall k :: 0 <= k < 3 ==> cols[k].data.Bits? && |cols[k].data.bits| == |labels|
  {
    seq(3, k requires 0 <= k < 3 =>
      Column(YearColumns()[k], Bits(seq(|labels|, i requires 0 <= i < |labels| => OneHot(labels[i], YearOrder)[k]))))
  }

  /** One 0/1 column per price label, in the order of the column names. */
  function PriceDummyColumns(labels: seq<Option<PriceLabel>>): (cols: seq<Column>)
    ensures |cols| == 4
    ensures forall k :: 0 <= k < 4 ==> cols[k].name == PriceColumns()[k]
    ensures forall k :: 0 <= k < 4 ==> cols[k].data.Bits? && |cols[k].data.bits| == |labels|
  {
    seq(4, k requires 0 <= k < 4 =>
      Column(PriceColumns()[k], Bits(seq(|labels|, i requires 0 <= i < |labels| => OneHot(labels[i], PriceOrder)[k]))))
  }

  /** The label column removed and its dummy columns appended at the end. */
  function GetDummies(cols: seq<Column>, name: string): seq<Column>
    requires Lookup(cols, name).Some?
    requires Lookup(cols, name).value.YearLabels? || Lookup(cols, name).value.PriceLabels?
  {
    var d := Lookup(cols, name).value;
    Drop(cols, name) + (if d.YearLabels? then YearDummyColumns(d.yearLabels) else PriceDummyColumns(d.priceLabels))
  }

  // ---------------------------------------------------------------------
  // year_binning / price_binning
  // ---------------------------------------------------------------------

  /** The columns after `df['release_period'] = ...` and the optional drop of `release_year`. */
  function WithPeriods(cols: seq<Column>, dropOld: bool): (r: seq<Column>)
    requires HasYears(cols, "release_year")
    ensures Lookup(r, "release_period") == Some(YearLabels(MapYearBins(Lookup(cols, "release_year").value.years)))
  {
    var labels := YearLabels(MapYearBins(Lookup(cols, "release_year").value.years));
    var c := Assign(cols, "release_period", labels);
    LookupAssign(cols, "release_period", labels, "release_period");
    LookupDrop(c, "release_year", "release_period");
    if dropOld then Drop(c, "release_year") else c
  }

  /** The columns after `df['cost'] = ...` and the optional drop of `price`. */
  function WithCost(cols: seq<Column>, dropOld: bool): (r: seq<Column>)
    requires HasNumbers(cols, "price")
    ensures Lookup(r, "cost") == Some(PriceLabels(MapPriceBins(Lookup(cols, "price").value.nums)))
  {
    var labels := PriceLabels(MapPriceBins(Lookup(cols, "price").value.nums));
    var c := Assign(cols, "cost", labels);
    LookupAssign(cols, "cost", labels, "cost");
    LookupDrop(c, "price", "cost");
    if dropOld then Drop(c, "price") else c
  }

  /**
   * `year_binning`: adds the `release_period` labels to the table in place,
   * drops `release_year` when asked, and returns the dummy-encoded table
   * only when asked for dummies.
   */
  method YearBinning(df: Frame, dummies: bool, dropOld: bool) returns (r: Option<Frame>)
    requires HasYears(df.cols, "release_year")
    modifies df
    ensures df.cols == WithPeriods(old(df.cols), dropOld)
    ensures r.Some? <==> dummies
    ensures r.Some? ==> fresh(r.value) && r.value.cols == GetDummies(df.cols, "release_period")
  {
    ghost var before := df.cols;
    var labels := YearLabels(MapYearBins(Lookup(df.cols, "release_year").value.years));
    df.cols := Assign(df.cols, "release_period", labels);
    if dropOld {
      df.cols := Drop(df.cols, "release_year");
    }
    assert df.cols == WithPeriods(before, dropOld);
    if dummies {
      var f := new Frame(GetDummies(df.cols, "release_period"));
      r := Some(f);
    } else {
      r := None;
    }
  }

  /**
   * `price_binning`: adds the `cost` labels to the table in place, drops
   * `price` when asked, and returns the dummy-encoded table only when asked
   * for dummies.
   */
  method PriceBinning(df: Frame, dummies: bool, dropOld: bool) returns (r: Option<Frame>)
    requires HasNumbers(df.cols, "price")
    modifies df
    ensures df.cols == WithCost(old(df.cols), dropOld)
    ensures r.Some? <==> dummies
    ensures r.Some? ==> fresh(r.value) && r.value.cols == GetDummies(df.cols, "cost")
  {
    ghost var before := df.cols;
    var labels := PriceLabels(MapPriceBins(Lookup(df.cols, "price").value.nums));
    df.cols := Assign(df.cols, "cost", labels);
    if dropOld {
      df.cols := Drop(df.cols, "price");
    }
    assert df.cols == WithCost(before, dropOld);
    if dummies {
      var f := new Frame(GetDummies(df.cols, "cost"));
      r := Some(f);
    } else {
      r := None;
    }
  }

  // ---------------------------------------------------------------------
  // Price normalisation and median imputation
  // ---------------------------------------------------------------------

  /** The `ValueError` that `apply(float_prices)` lets through, at the first row that raises it. */
  datatype PriceFailure = ValueErrorAt(row: nat)

  /** A normalised price as a number of currency units; NaN is missing. */
  function PriceValue(o: PriceOutcome): Option<real>
  {
    match o
    case Amount(c) => Some(c as real / 100.0)
    case _ => None
  }

  function FirstFailure(outs: seq<PriceOutcome>): (k: nat)
    requires exists i :: 0 <= i < |outs| && outs[i] == PriceError
    ensures k < |outs| && outs[k] == PriceError
    ensures forall j :: 0 <= j < k ==> outs[j] != PriceError
  {
    if outs[0] == PriceError then 0
    else
      assert exists i :: 0 <= i < |outs[1..]| && outs[1..][i] == PriceError by {
        var i :| 0 <= i < |outs| && outs[i] == PriceError;
        assert outs[1..][i - 1] == outs[i];
      }
      FirstFailure(outs[1..]) + 1
  }

  function Outcomes(raw: seq<RawPrice>): (outs: seq<PriceOutcome>)
    ensures |outs| == |raw|
  {
    seq(|raw|, i requires 0 <= i < |raw| => FloatPrices(raw[i]))
  }

  /** `df['price'].apply(float_prices)`: the normalised prices, or the first row that raises. */
  function NormalisedPrices(raw: seq<RawPrice>): (r: Result<seq<Option<real>>, PriceFailure>)
    ensures r.Ok? ==> |r.value| == |raw|
  {
    var outs := Outcomes(raw);
    if exists i :: 0 <= i < |outs| && outs[i] == PriceError then Err(ValueErrorAt(FirstFailure(outs)))
    else Ok(seq(|outs|, i requires 0 <= i < |outs| => PriceValue(outs[i])))
  }

  /**
   * The price column fails exactly when some row raises, and then at the
   * first such row; otherwise every row holds its `float_prices` value, and
   * a row's price is missing exactly when its raw price was.
   */
  lemma NormalisedPricesSpec(raw: seq<RawPrice>)
    ensures NormalisedPrices(raw).Ok? <==> forall i :: 0 <= i < |raw| ==> FloatPrices(raw[i]) != PriceError
    ensures NormalisedPrices(raw).Err? ==>
      var k := NormalisedPrices(raw).error.row;
      k < |raw| && FloatPrices(raw[k]) == PriceError && forall j :: 0 <= j < k ==> FloatPrices(raw[j]) != PriceError
    ensures NormalisedPrices(raw).Ok? ==> |NormalisedPrices(raw).value| == |raw|
    ensures NormalisedPrices(raw).Ok? ==> forall i :: 0 <= i < |raw| ==>
      NormalisedPrices(raw).value[i] == PriceValue(FloatPrices(raw[i])) &&
      (NormalisedPrices(raw).value[i].None? <==> raw[i].Absent? || raw[i].NotANumber?)
  {
    var outs := Outcomes(raw);
    assert forall i :: 0 <= i < |raw| ==> outs[i] == FloatPrices(raw[i]);
    if NormalisedPrices(raw).Ok? {
      forall i | 0 <= i < |raw|
        ensures NormalisedPrices(raw).value[i].None? <==> raw[i].Absent? || raw[i].NotANumber?
      {
        if !raw[i].Absent? && !raw[i].NotANumber? {
          PresentNeverNaN(raw[i]);
        }
      }
    }
  }

  /** `df['price'] = prices`, then `df['price'].fillna(median, inplace=True)`. */
  function FilledPrices(cols: seq<Column>, prices: seq<Option<real>>): (r: seq<Column>)
    ensures Lookup(r, "price") == Some(Numbers(FillNa(prices, MedianOf(prices))))
  {
    var c := Assign(cols, "price", Numbers(prices));
    LookupAssign(c, "price", Numbers(FillNa(prices, MedianOf(prices))), "price");
    Assign(c, "price", Numbers(FillNa(prices, MedianOf(prices))))
  }

  // ---------------------------------------------------------------------
  // The pipeline, step by step
  // ---------------------------------------------------------------------

  /** `year_binning(df, dummies=True, drop_old=True)`. */
  function YearStep(cols: seq<Column>): seq<Column>
    requires HasYears(cols, "release_year")
  {
    GetDummies(WithPeriods(cols, true), "release_period")
  }

  /** `price_binning(df, dummies=True, drop_old=True)`. */
  function PriceStep(cols: seq<Column>): seq<Column>
    requires HasNumbers(cols, "price")
  {
    GetDummies(WithCost(cols, true), "cost")
  }

  lemma FilledKeeps(cols: seq<Column>, prices: seq<Option<real>>, b: string)
    requires b != "price"
    ensures Lookup(FilledPrices(cols, prices), b) == Lookup(cols, b)
  {
    var c := Assign(cols, "price", Numbers(prices));
    LookupAssign(cols, "price", Numbers(prices), b);
    LookupAssign(c, "price", Numbers(FillNa(prices, MedianOf(prices))), b);
  }

  /** Year binning leaves every other present column readable as before. */
  lemma YearStepKeeps(cols: seq<Column>, b: string)
    requires HasYears(cols, "release_year") && Lookup(cols, b).Some?
    requires b != "release_year" && b != "release_period"
    ensures Lookup(YearStep(cols), b) == Lookup(cols, b)
  {
    var labels := YearLabels(MapYearBins(Lookup(cols, "release_year").value.years));
    var c := Assign(cols, "release_period", labels);
    var w := WithPeriods(cols, true);
    LookupAssign(cols, "release_period", labels, b);
    LookupDrop(c, "release_year", b);
    LookupDrop(w, "release_period", b);
    LookupAppend(Drop(w, "release_period"), YearDummyColumns(Lookup(w, "release_period").value.yearLabels), b);
  }

  /** Price binning leaves every other present column readable as before. */
  lemma PriceStepKeeps(cols: seq<Column>, b: string)
    requires HasNumbers(cols, "price") && Lookup(cols, b).Some?
    requires b != "price" && b != "cost"
    ensures Lookup(PriceStep(cols), b) == Lookup(cols, b)
  {
    var labels := PriceLabels(MapPriceBins(Lookup(cols, "price").value.nums));
    var c := Assign(cols, "cost", labels);
    var w := WithCost(cols, true);
    LookupAssign(cols, "cost", labels, b);
    LookupDrop(c, "price", b);
    LookupDrop(w, "cost", b);
    LookupAppend(Drop(w, "cost"), PriceDummyColumns(Lookup(w, "cost").value.priceLabels), b);
  }

  /** Multi-hot encoding of one list column leaves every other present column readable as before. */
  lemma ListStepKeeps(cols: seq<Column>, name: string, b: string)
    requires HasLists(cols, name) && Lookup(cols, b).Some? && b != name
    ensures Lookup(WithDummies(cols, name, true), b) == Lookup(cols, b)
  {
    var cells := Lookup(cols, name).value.cells;
    var all := cols + BlockColumns(DummiesBlock(cells), |cells|);
    LookupDrop(all, name, b);
    LookupAppend(cols, BlockColumns(DummiesBlock(cells), |cells|), b);
  }

  /** The columns `preprocess_games` needs; a missing one raises `KeyError`. */
  predicate GamesTable(cols: seq<Column>)
  {
    Lookup(cols, "tags").Some? && HasRawPrices(cols, "price") && HasYears(cols, "release_year")
    && HasLists(cols, "genres") && HasLists(cols, "specs")
  }

  /** The encoding steps after the prices are normalised: fill, bin, and encode the lists. */
  function Encoded(c1: seq<Column>, prices: seq<Option<real>>): seq<Column>
    requires HasYears(c1, "release_year") && HasLists(c1, "genres") && HasLists(c1, "specs")
  {
    var c2 := FilledPrices(c1, prices);
    FilledKeeps(c1, prices, "release_year");
    FilledKeeps(c1, prices, "genres");
    FilledKeeps(c1, prices, "specs");
    var c3 := YearStep(c2);
    YearStepKeeps(c2, "price");
    YearStepKeeps(c2, "genres");
    YearStepKeeps(c2, "specs");
    var c4 := PriceStep(c3);
    PriceStepKeeps(c3, "genres");
    PriceStepKeeps(c3, "specs");
    var c5 := WithDummies(c4, "genres", true);
    ListStepKeeps(c4, "genres", "specs");
    WithDummies(c5, "specs", true)
  }

  /** `preprocess_games` on the columns of the table. */
  function Preprocessed(cols: seq<Column>): Result<seq<Column>, PriceFailure>
    requires GamesTable(cols)
  {
    var c1 := Drop(cols, "tags");
    LookupDrop(cols, "tags", "price");
    LookupDrop(cols, "tags", "release_year");
    LookupDrop(cols, "tags", "genres");
    LookupDrop(cols, "tags", "specs");
    match NormalisedPrices(Lookup(c1, "price").value.raw)
    case Err(e) => Err(e)
    case Ok(prices) => Ok(Encoded(c1, prices))
  }

  /**
   * `preprocess_games`: works on a copy, so the caller's table is unchanged;
   * fails when some price raises; otherwise returns the encoded table.
   */
  method PreprocessGames(df: Frame) returns (r: Result<Frame, PriceFailure>)
    requires GamesTable(df.cols)
    ensures unchanged(df)
    ensures r.Ok? <==> Preprocessed(df.cols).Ok?
    ensures r.Ok? ==> fresh(r.value) && r.value.cols == Preprocessed(df.cols).value
    ensures r.Err? ==> r.error == Preprocessed(df.cols).error
  {
    var copy := df.Copy();
    copy := new Frame(Drop(copy.cols, "tags"));
    TagsDropped(df.cols);
    var normalised := NormalisedPrices(Lookup(copy.cols, "price").value.raw);
    if normalised.Err? {
      return Err(normalised.error);
    }
    var encoded := EncodeSteps(copy, normalised.value);
    r := Ok(encoded);
  }

  /** Dropping `tags` keeps the four columns the pipeline reads, and the rest of the pipeline runs on that. */
  lemma TagsDropped(cols: seq<Column>)
    requires GamesTable(cols)
    ensures var c1 := Drop(cols, "tags");
      Lookup(c1, "price") == Lookup(cols, "price")
      && HasYears(c1, "release_year") && HasLists(c1, "genres") && HasLists(c1, "specs")
      && Preprocessed(cols) == match NormalisedPrices(Lookup(c1, "price").value.raw)
         case Err(e) => Err(e)
         case Ok(prices) => Ok(Encoded(c1, prices))
  {
    LookupDrop(cols, "tags", "price");
    LookupDrop(cols, "tags", "release_year");
    LookupDrop(cols, "tags", "genres");
    LookupDrop(cols, "tags", "specs");
  }

  /** The steps of `preprocess_games` after the prices are normalised, run on the working copy. */
  method EncodeSteps(copy: Frame, prices: seq<Option<real>>) returns (r: Frame)
    requires HasYears(copy.cols, "release_year") && HasLists(copy.cols, "genres") && HasLists(copy.cols, "specs")
    modifies copy
    ensures fresh(r) && r.cols == Encoded(old(copy.cols), prices)
  {
    var c2 := copy.cols;
    copy.cols := Assign(copy.cols, "price", Numbers(prices));
    copy.cols := Assign(copy.cols, "price", Numbers(FillNa(prices, MedianOf(prices))));
    assert copy.cols == FilledPrices(c2, prices);
    FilledKeeps(c2, prices, "release_year");
    FilledKeeps(c2, prices, "genres");
    FilledKeeps(c2, prices, "specs");
    var c3 := copy.cols;
    var years := YearBinning(copy, true, true);
    r := years.value;
    assert r.cols == YearStep(c3);
    YearStepKeeps(c3, "price");
    YearStepKeeps(c3, "genres");
    YearStepKeeps(c3, "specs");
    var c4 := r.cols;
    var costs := PriceBinning(r, true, true);
    r := costs.value;
    assert r.cols == PriceStep(c4);
    PriceStepKeeps(c4, "genres");
    PriceStepKeeps(c4, "specs");
    var c5 := r.cols;
    r := GenresDummies(r, true);
    ListStepKeeps(c5, "genres", "specs");
    r := SpecsDummies(r, true);
    EncodedOf(c2, prices, c5);
  }

  // ---------------------------------------------------------------------
  // What the pipeline produces
  // ---------------------------------------------------------------------

  lemma YearStepShape(c: seq<Column>)
    requires HasYears(c, "release_year") && "release_period" !in Names(c)
    ensures YearStep(c) == Drop(c, "release_year") + YearDummyColumns(MapYearBins(Lookup(c, "release_year").value.years))
  {
    var labels := YearLabels(MapYearBins(Lookup(c, "release_year").value.years));
    var rp := Column("release_period", labels);
    AssignShape(c, "release_period", labels);
    DropAppend(c, [rp], "release_year");
    assert Drop([rp], "release_year") == [rp];
    DropAppend(Drop(c, "release_year"), [rp], "release_period");
    assert Drop([rp], "release_period") == [];
    DropNames(c, "release_year", "release_period");
    DropAbsent(Drop(c, "release_year"), "release_period");
  }

  lemma PriceStepShape(c: seq<Column>)
    requires HasNumbers(c, "price") && "cost" !in Names(c)
    ensures PriceStep(c) == Drop(c, "price") + PriceDummyColumns(MapPriceBins(Lookup(c, "price").value.nums))
  {
    var labels := PriceLabels(MapPriceBins(Lookup(c, "price").value.nums));
    var cost := Column("cost", labels);
    AssignShape(c, "cost", labels);
    DropAppend(c, [cost], "price");
    assert Drop([cost], "price") == [cost];
    DropAppend(Drop(c, "price"), [cost], "cost");
    assert Drop([cost], "cost") == [];
    DropNames(c, "price", "cost");
    DropAbsent(Drop(c, "price"), "cost");
  }

  lemma ListStepShape(c: seq<Column>, name: string)
    requires HasLists(c, name) && name !in Vocab(Lookup(c, name).value.cells)
    ensures WithDummies(c, name, true) ==
      Drop(c, name) + BlockColumns(DummiesBlock(Lookup(c, name).value.cells), |Lookup(c, name).value.cells|)
  {
    var cells := Lookup(c, name).value.cells;
    var block := BlockColumns(DummiesBlock(cells), |cells|);
    DropAppend(c, block, name);
    NotInNames(block, name);
    DropAbsent(block, name);
  }

  /** A name that does not start with `_` is not a year or price dummy column. */
  lemma NotLabelColumn(b: string, yl: seq<Option<YearLabel>>, pl: seq<Option<PriceLabel>>)
    requires b != [] && b[0] != '_'
    ensures b !in Names(YearDummyColumns(yl)) && b !in Names(PriceDummyColumns(pl))
    ensures Drop(YearDummyColumns(yl), b) == YearDummyColumns(yl)
    ensures Drop(PriceDummyColumns(pl), b) == PriceDummyColumns(pl)
  {
    NotInNames(YearDummyColumns(yl), b);
    NotInNames(PriceDummyColumns(pl), b);
    DropAbsent(YearDummyColumns(yl), b);
    DropAbsent(PriceDummyColumns(pl), b);
  }

  /** Every input column except the five that the pipeline consumes, in input order. */
  function Others(cols: seq<Column>): seq<Column>
  {
    Drop(Drop(Drop(Drop(Drop(cols, "tags"), "release_year"), "price"), "genres"), "specs")
  }

  /**
   * The encoded columns in pipeline order: year bins, price bins (of the
   * median-filled prices), the genre block, the spec block.
   */
  function FeatureColumns(years: seq<Option<int>>, prices: seq<Option<real>>, genres: seq<Cell>, specs: seq<Cell>): seq<Column>
  {
    YearDummyColumns(MapYearBins(years))
    + PriceDummyColumns(MapPriceBins(FillNa(prices, MedianOf(prices))))
    + BlockColumns(DummiesBlock(genres), |genres|)
    + BlockColumns(DummiesBlock(specs), |specs|)
  }

  /**
   * The names that would collide with a column the pipeline adds or drops
   * are not used: no input column is called `release_period` or `cost`, and
   * no genre or spec is called like a list column dropped after it.
   */
  predicate NoClashes(cols: seq<Column>)
    requires GamesTable(cols)
  {
    "release_period" !in Names(cols) && "cost" !in Names(cols)
    && "genres" !in Vocab(Lookup(cols, "genres").value.cells)
    && "specs" !in Vocab(Lookup(cols, "genres").value.cells)
    && "specs" !in Vocab(Lookup(cols, "specs").value.cells)
  }

  /** The two binning steps: the year and price columns replaced by their dummy blocks at the end. */
  lemma BinningSteps(c: seq<Column>)
    requires HasYears(c, "release_year") && HasNumbers(c, "price")
    requires "release_period" !in Names(c) && "cost" !in Names(c)
    ensures HasNumbers(YearStep(c), "price")
    ensures PriceStep(YearStep(c)) ==
      Drop(Drop(c, "release_year"), "price")
      + YearDummyColumns(MapYearBins(Lookup(c, "release_year").value.years))
      + PriceDummyColumns(MapPriceBins(Lookup(c, "price").value.nums))
  {
    var years := MapYearBins(Lookup(c, "release_year").value.years);
    var prices := MapPriceBins(Lookup(c, "price").value.nums);
    var d := Drop(c, "release_year");
    YearStepShape(c);
    YearStepKeeps(c, "price");
    var c3 := YearStep(c);
    DropNames(c, "release_year", "cost");
    NotLabelColumn("cost", years, prices);
    NamesAppend(d, YearDummyColumns(years));
    PriceStepShape(c3);
    DropAppend(d, YearDummyColumns(years), "price");
    NotLabelColumn("price", years, prices);
  }

  /** The two list steps: the genre and spec columns replaced by their dummy blocks at the end. */
  lemma ListSteps(x: seq<Column>, labels: seq<Column>)
    requires HasLists(x, "genres") && HasLists(x, "specs")
    requires "genres" !in Names(labels) && "specs" !in Names(labels)
    requires "genres" !in Vocab(Lookup(x, "genres").value.cells)
    requires "specs" !in Vocab(Lookup(x, "genres").value.cells)
    requires "specs" !in Vocab(Lookup(x, "specs").value.cells)
    ensures HasLists(x + labels, "genres")
    ensures HasLists(WithDummies(x + labels, "genres", true), "specs")
    ensures WithDummies(WithDummies(x + labels, "genres", true), "specs", true) ==
      Drop(Drop(x, "genres"), "specs") + labels
      + BlockColumns(DummiesBlock(Lookup(x, "genres").value.cells), |Lookup(x, "genres").value.cells|)
      + BlockColumns(DummiesBlock(Lookup(x, "specs").value.cells), |Lookup(x, "specs").value.cells|)
  {
    var genres := Lookup(x, "genres").value.cells;
    var specs := Lookup(x, "specs").value.cells;
    var g := BlockColumns(DummiesBlock(genres), |genres|);
    var sp := BlockColumns(DummiesBlock(specs), |specs|);
    var c4 := x + labels;
    LookupAppend(x, labels, "genres");
    LookupAppend(x, labels, "specs");
    ListStepShape(c4, "genres");
    ListStepKeeps(c4, "genres", "specs");
    var c5 := WithDummies(c4, "genres", true);
    ListStepShape(c5, "specs");
    DropAppend(x, labels, "genres");
    DropAbsent(labels, "genres");
    DropAppend(Drop(x, "genres") + labels, g, "specs");
    DropAppend(Drop(x, "genres"), labels, "specs");
    DropAbsent(labels, "specs");
    NotInNames(g, "specs");
    DropAbsent(g, "specs");
  }

  /** Writing the price column twice leaves the other columns, in order, as they were. */
  lemma FilledDrop(c1: seq<Column>, prices: seq<Option<real>>)
    ensures Drop(Drop(FilledPrices(c1, prices), "release_year"), "price") == Drop(Drop(c1, "release_year"), "price")
  {
    var n1, n2 := Numbers(prices), Numbers(FillNa(prices, MedianOf(prices)));
    var a := Assign(c1, "price", n1);
    DropAssign(a, "price", n2, "release_year");
    DropAssign(c1, "price", n1, "release_year");
    var d := Drop(c1, "release_year");
    AssignShape(Assign(d, "price", n1), "price", n2);
    AssignShape(d, "price", n1);
  }

  /**
   * Step order and median imputation: the table `preprocess_games` returns
   * holds the input's other columns, then the year dummies, the price
   * dummies of the median-filled prices, the genre block and the spec block.
   */
  lemma PreprocessedLayout(cols: seq<Column>)
    requires GamesTable(cols) && NoClashes(cols)
    requires NormalisedPrices(Lookup(cols, "price").value.raw).Ok?
    ensures Preprocessed(cols) == Ok(Others(cols) + FeatureColumns(
      Lookup(cols, "release_year").value.years,
      NormalisedPrices(Lookup(cols, "price").value.raw).value,
      Lookup(cols, "genres").value.cells,
      Lookup(cols, "specs").value.cells))
  {
    var c1 := Drop(cols, "tags");
    LookupDrop(cols, "tags", "price");
    LookupDrop(cols, "tags", "release_year");
    LookupDrop(cols, "tags", "genres");
    LookupDrop(cols, "tags", "specs");
    var prices := NormalisedPrices(Lookup(c1, "price").value.raw).value;
    assert Preprocessed(cols) == Ok(Encoded(c1, prices));
    DropNames(cols, "tags", "release_period");
    DropNames(cols, "tags", "cost");
    EncodedLayout(c1, prices);
  }

  /** Median filling and the two binning steps: the year and price dummy blocks at the end. */
  lemma FilledBinning(c1: seq<Column>, prices: seq<Option<real>>)
    requires HasYears(c1, "release_year") && HasLists(c1, "genres") && HasLists(c1, "specs")
    requires "release_period" !in Names(c1) && "cost" !in Names(c1)
    ensures HasYears(FilledPrices(c1, prices), "release_year")
    ensures HasNumbers(YearStep(FilledPrices(c1, prices)), "price")
    ensures PriceStep(YearStep(FilledPrices(c1, prices))) ==
      Drop(Drop(c1, "release_year"), "price")
      + YearDummyColumns(MapYearBins(Lookup(c1, "release_year").value.years))
      + PriceDummyColumns(MapPriceBins(FillNa(prices, MedianOf(prices))))
    ensures Lookup(Drop(Drop(c1, "release_year"), "price"), "genres") == Lookup(c1, "genres")
    ensures Lookup(Drop(Drop(c1, "release_year"), "price"), "specs") == Lookup(c1, "specs")
  {
    var filled := FillNa(prices, MedianOf(prices));
    var c2 := FilledPrices(c1, prices);
    FilledKeeps(c1, prices, "release_year");
    AssignNames(c1, "price", Numbers(prices), "release_period");
    AssignNames(c1, "price", Numbers(prices), "cost");
    AssignNames(Assign(c1, "price", Numbers(prices)), "price", Numbers(filled), "release_period");
    AssignNames(Assign(c1, "price", Numbers(prices)), "price", Numbers(filled), "cost");
    BinningSteps(c2);
    FilledDrop(c1, prices);
    LookupDrop(c1, "release_year", "genres");
    LookupDrop(c1, "release_year", "specs");
    LookupDrop(Drop(c1, "release_year"), "price", "genres");
    LookupDrop(Drop(c1, "release_year"), "price", "specs");
  }

  lemma EncodedLayout(c1: seq<Column>, prices: seq<Option<real>>)
    requires HasYears(c1, "release_year") && HasLists(c1, "genres") && HasLists(c1, "specs")
    requires "release_period" !in Names(c1) && "cost" !in Names(c1)
    requires "genres" !in Vocab(Lookup(c1, "genres").value.cells)
    requires "specs" !in Vocab(Lookup(c1, "genres").value.cells)
    requires "specs" !in Vocab(Lookup(c1, "specs").value.cells)
    ensures Encoded(c1, prices) == Drop(Drop(Drop(Drop(c1, "release_year"), "price"), "genres"), "specs")
      + FeatureColumns(Lookup(c1, "release_year").value.years, prices,
                       Lookup(c1, "genres").value.cells, Lookup(c1, "specs").value.cells)
  {
    var years := MapYearBins(Lookup(c1, "release_year").value.years);
    var bins := MapPriceBins(FillNa(prices, MedianOf(prices)));
    var x := Drop(Drop(c1, "release_year"), "price");
    FilledBinning(c1, prices);
    BinnedListSteps(x, years, bins);
    EncodedOf(c1, prices, x + YearDummyColumns(years) + PriceDummyColumns(bins));
  }

  /** The list steps after binning: the bin blocks stay between the other columns and the list blocks. */
  lemma BinnedListSteps(x: seq<Column>, years: seq<Option<YearLabel>>, bins: seq<Option<PriceLabel>>)
    requires HasLists(x, "genres") && HasLists(x, "specs")
    requires "genres" !in Vocab(Lookup(x, "genres").value.cells)
    requires "specs" !in Vocab(Lookup(x, "genres").value.cells)
    requires "specs" !in Vocab(Lookup(x, "specs").value.cells)
    ensures HasLists(x + YearDummyColumns(years) + PriceDummyColumns(bins), "genres")
    ensures HasLists(WithDummies(x + YearDummyColumns(years) + PriceDummyColumns(bins), "genres", true), "specs")
    ensures WithDummies(WithDummies(x + YearDummyColumns(years) + PriceDummyColumns(bins), "genres", true), "specs", true) ==
      Drop(Drop(x, "genres"), "specs")
      + (YearDummyColumns(years) + PriceDummyColumns(bins)
         + BlockColumns(DummiesBlock(Lookup(x, "genres").value.cells), |Lookup(x, "genres").value.cells|)
         + BlockColumns(DummiesBlock(Lookup(x, "specs").value.cells), |Lookup(x, "specs").value.cells|))
  {
    var labels := YearDummyColumns(years) + PriceDummyColumns(bins);
    assert x + YearDummyColumns(years) + PriceDummyColumns(bins) == x + labels;
    NamesAppend(YearDummyColumns(years), PriceDummyColumns(bins));
    NotLabelColumn("genres", years, bins);
    NotLabelColumn("specs", years, bins);
    ListSteps(x, labels);
    var genres, specs := Lookup(x, "genres").value.cells, Lookup(x, "specs").value.cells;
    Regroup(Drop(Drop(x, "genres"), "specs"), labels,
      BlockColumns(DummiesBlock(genres), |genres|), BlockColumns(DummiesBlock(specs), |specs|));
  }

  /** `preprocess_games` after the binning steps: the two list steps applied to what binning left. */
  lemma EncodedOf(c1: seq<Column>, prices: seq<Option<real>>, y: seq<Column>)
    requires HasYears(c1, "release_year") && HasLists(c1, "genres") && HasLists(c1, "specs")
    requires HasYears(FilledPrices(c1, prices), "release_year")
    requires HasNumbers(YearStep(FilledPrices(c1, prices)), "price")
    requires y == PriceStep(YearStep(FilledPrices(c1, prices)))
    requires HasLists(y, "genres") && HasLists(WithDummies(y, "genres", true), "specs")
    ensures Encoded(c1, prices) == WithDummies(WithDummies(y, "genres", true), "specs", true)
  {
  }

  lemma Regroup(a: seq<Column>, b: seq<Column>, c: seq<Column>, e: seq<Column>)
    ensures a + b + c + e == a + (b + c + e)
  {
  }

  lemma YearRow(labels: seq<Option<YearLabel>>, i: nat)
    requires i < |labels|
    ensures BitColumns(YearDummyColumns(labels), |labels|)
    ensures RowOf(YearDummyColumns(labels), |labels|, i) == OneHot(labels[i], YearOrder)
  {
  }

  lemma PriceRow(labels: seq<Option<PriceLabel>>, i: nat)
    requires i < |labels|
    ensures BitColumns(PriceDummyColumns(labels), |labels|)
    ensures RowOf(PriceDummyColumns(labels), |labels|, i) == OneHot(labels[i], PriceOrder)
  {
  }

  lemma BlockRow(cells: seq<Cell>, i: nat)
    requires i < |cells|
    ensures BitColumns(BlockColumns(DummiesBlock(cells), |cells|), |cells|)
    ensures RowOf(BlockColumns(DummiesBlock(cells), |cells|), |cells|, i) == MultiHot(cells[i], Vocab(cells))
  {
  }

  /** The 0/1 feature row of game `i`: its year one-hot, price one-hot, genre row and spec row. */
  function FeatureRow(years: seq<Option<int>>, prices: seq<Option<real>>, genres: seq<Cell>, specs: seq<Cell>, i: nat): seq<int>
    requires i < |years| && i < |prices| && i < |genres| && i < |specs|
  {
    OneHot(MapYearBins(years)[i], YearOrder)
    + OneHot(MapPriceBins(FillNa(prices, MedianOf(prices)))[i], PriceOrder)
    + MultiHot(genres[i], Vocab(genres))
    + MultiHot(specs[i], Vocab(specs))
  }

  /**
   * Row `i` of the encoded columns is the feature row of game `i`; it has
   * one entry per dummy column, and every entry is 0 or 1.
   */
  lemma FeatureColumnsRow(years: seq<Option<int>>, prices: seq<Option<real>>, genres: seq<Cell>, specs: seq<Cell>, i: nat)
    requires |prices| == |years| && |genres| == |years| && |specs| == |years| && i < |years|
    ensures BitColumns(FeatureColumns(years, prices, genres, specs), |years|)
    ensures RowOf(FeatureColumns(years, prices, genres, specs), |years|, i) == FeatureRow(years, prices, genres, specs, i)
    ensures |FeatureRow(years, prices, genres, specs, i)| == 7 + |Vocab(genres)| + |Vocab(specs)|
    ensures IsBinary(FeatureRow(years, prices, genres, specs, i))
  {
    var n := |years|;
    var yl := MapYearBins(years);
    var pl := MapPriceBins(FillNa(prices, MedianOf(prices)));
    var y, p := YearDummyColumns(yl), PriceDummyColumns(pl);
    var g := BlockColumns(DummiesBlock(genres), n);
    var sp := BlockColumns(DummiesBlock(specs), n);
    YearRow(yl, i);
    PriceRow(pl, i);
    BlockRow(genres, i);
    BlockRow(specs, i);
    RowOfAppend(y, p, n, i);
    RowOfAppend(y + p, g, n, i);
    RowOfAppend(y + p + g, sp, n, i);
    YearOneHot(yl[i]);
    PriceOneHot(pl[i]);
    MultiHotBinary(genres[i], Vocab(genres));
    MultiHotBinary(specs[i], Vocab(specs));
    BinaryAppend(OneHot(yl[i], YearOrder), OneHot(pl[i], PriceOrder));
    BinaryAppend(OneHot(yl[i], YearOrder) + OneHot(pl[i], PriceOrder), MultiHot(genres[i], Vocab(genres)));
    BinaryAppend(OneHot(yl[i], YearOrder) + OneHot(pl[i], PriceOrder) + MultiHot(genres[i], Vocab(genres)),
                 MultiHot(specs[i], Vocab(specs)));
  }
}
