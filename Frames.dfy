/**
 * The tables the recommender works on: a sequence of named columns, each
 * holding one typed value per row. Column lookup by name finds the first
 * column with that name; assigning to a name replaces that column or
 * appends a new one; dropping a name removes every column with it.
 */
module Frames {
  import opened Wrappers
  import opened PriceParsing
  import opened Binning

  /**
   * A `genres` or `specs` cell: the placeholder string `'Empty'` that the
   * table holds where the data had no list, or a list of tokens. A list
   * that itself contains the token "Empty" is a list, not the placeholder.
   */
  datatype Cell = Empty | Tokens(tokens: seq<string>)

  /** The values of one column, one per row; `None` is a missing value (NaN). */
  datatype Data =
    | Ids(ids: seq<int>)
    | Texts(texts: seq<string>)
    | Lists(cells: seq<Cell>)
    | RawPrices(raw: seq<RawPrice>)
    | Numbers(nums: seq<Option<real>>)
    | Years(years: seq<Option<int>>)
    | YearLabels(yearLabels: seq<Option<YearLabel>>)
    | PriceLabels(priceLabels: seq<Option<PriceLabel>>)
    | Bits(bits: seq<int>)

  datatype Column = Column(name: string, data: Data)

  function Height(d: Data): nat
  {
    match d
    case Ids(s) => |s|
    case Texts(s) => |s|
    case Lists(s) => |s|
    case RawPrices(s) => |s|
    case Numbers(s) => |s|
    case Years(s) => |s|
    case YearLabels(s) => |s|
    case PriceLabels(s) => |s|
    case Bits(s) => |s|
  }

  /** Every column holds `n` rows. */
  predicate Rectangular(cols: seq<Column>, n: nat)
  {
    forall j :: 0 <= j < |cols| ==> Height(cols[j].data) == n
  }

  function Names(cols: seq<Column>): (names: seq<string>)
    ensures |names| == |cols|
  {
    if cols == [] then [] else [cols[0].name] + Names(cols[1..])
  }

  /** `df[name]`: the data of the first column with that name. */
  function Lookup(cols: seq<Column>, name: string): Option<Data>
  {
    if cols == [] then None
    else if cols[0].name == name then Some(cols[0].data)
    else Lookup(cols[1..], name)
  }

  /** `df[name] = d`: replaces the first column with that name, or appends one. */
  function Assign(cols: seq<Column>, name: string, d: Data): seq<Column>
  {
    if cols == [] then [Column(name, d)]
    else if cols[0].name == name then [Column(name, d)] + cols[1..]
    else [cols[0]] + Assign(cols[1..], name, d)
  }

  /** `df.drop(columns=name)`: removes every column with that name. */
  function Drop(cols: seq<Column>, name: string): seq<Column>
  {
    if cols == [] then []
    else if cols[0].name == name then Drop(cols[1..], name)
    else [cols[0]] + Drop(cols[1..], name)
  }

  predicate HasLists(cols: seq<Column>, name: string)
  {
    Lookup(cols, name).Some? && Lookup(cols, name).value.Lists?
  }

  predicate HasYears(cols: seq<Column>, name: string)
  {
    Lookup(cols, name).Some? && Lookup(cols, name).value.Years?
  }

  predicate HasNumbers(cols: seq<Column>, name: string)
  {
    Lookup(cols, name).Some? && Lookup(cols, name).value.Numbers?
  }

  predicate HasRawPrices(cols: seq<Column>, name: string)
  {
    Lookup(cols, name).Some? && Lookup(cols, name).value.RawPrices?
  }

  /** A column is found exactly when some column carries its name. */
  lemma {:induction false} LookupFound(cols: seq<Column>, name: string)
    ensures Lookup(cols, name).Some? <==> name in Names(cols)
    ensures Lookup(cols, name).Some? ==>
      exists j :: 0 <= j < |cols| && cols[j] == Column(name, Lookup(cols, name).value)
  {
    if cols != [] {
      LookupFound(cols[1..], name);
      assert Names(cols) == [cols[0].name] + Names(cols[1..]);
      if cols[0].name != name && Lookup(cols, name).Some? {
        var j :| 0 <= j < |cols[1..]| && cols[1..][j] == Column(name, Lookup(cols, name).value);
        assert cols[j + 1] == cols[1..][j];
      }
    }
  }

  /** After an assignment the name reads the new data; other names read as before. */
  lemma {:induction false} LookupAssign(cols: seq<Column>, a: string, d: Data, b: string)
    ensures Lookup(Assign(cols, a, d), b) == if a == b then Some(d) else Lookup(cols, b)
  {
    if cols != [] && cols[0].name != a {
      LookupAssign(cols[1..], a, d, b);
    }
  }

  /** After a drop the name is gone; other names read as before. */
  lemma {:induction false} LookupDrop(cols: seq<Column>, a: string, b: string)
    ensures Lookup(Drop(cols, a), b) == if a == b then None else Lookup(cols, b)
  {
    if cols != [] {
      LookupDrop(cols[1..], a, b);
    }
  }

  /** Columns appended at the end are found only when no earlier column has the name. */
  lemma {:induction false} LookupAppend(cols: seq<Column>, more: seq<Column>, b: string)
    ensures Lookup(cols + more, b) == if Lookup(cols, b).Some? then Lookup(cols, b) else Lookup(more, b)
  {
    if cols != [] {
      assert (cols + more)[1..] == cols[1..] + more;
      LookupAppend(cols[1..], more, b);
    } else {
      assert cols + more == more;
    }
  }

  /** Assignment keeps the column order: it replaces in place or appends at the end. */
  lemma {:induction false} AssignShape(cols: seq<Column>, a: string, d: Data)
    ensures a !in Names(cols) ==> Assign(cols, a, d) == cols + [Column(a, d)]
    ensures Drop(Assign(cols, a, d), a) == Drop(cols, a)
  {
    if cols != [] {
      AssignShape(cols[1..], a, d);
      assert Names(cols) == [cols[0].name] + Names(cols[1..]);
      if cols[0].name != a {
        assert ([cols[0]] + Assign(cols[1..], a, d))[1..] == Assign(cols[1..], a, d);
      } else {
        assert ([Column(a, d)] + cols[1..])[1..] == cols[1..];
      }
    }
  }

  /** Dropping distributes over concatenation. */
  lemma {:induction false} DropAppend(cols: seq<Column>, more: seq<Column>, a: string)
    ensures Drop(cols + more, a) == Drop(cols, a) + Drop(more, a)
  {
    if cols != [] {
      assert (cols + more)[1..] == cols[1..] + more;
      DropAppend(cols[1..], more, a);
    } else {
      assert cols + more == more;
    }
  }

  /** Dropping a name no column carries changes nothing. */
  lemma {:induction false} DropAbsent(cols: seq<Column>, a: string)
    requires a !in Names(cols)
    ensures Drop(cols, a) == cols
  {
    if cols != [] {
      assert Names(cols) == [cols[0].name] + Names(cols[1..]);
      DropAbsent(cols[1..], a);
    }
  }

  /** The names left after a drop are the old names without the dropped one. */
  lemma {:induction false} DropNames(cols: seq<Column>, a: string, b: string)
    ensures b in Names(Drop(cols, a)) <==> b != a && b in Names(cols)
  {
    if cols != [] {
      assert Names(cols) == [cols[0].name] + Names(cols[1..]);
      DropNames(cols[1..], a, b);
      if cols[0].name != a {
        assert Names(Drop(cols, a)) == [cols[0].name] + Names(Drop(cols[1..], a));
      }
    }
  }

  /** The names after an assignment are the old names and the assigned one. */
  lemma {:induction false} AssignNames(cols: seq<Column>, a: string, d: Data, b: string)
    ensures b in Names(Assign(cols, a, d)) <==> b == a || b in Names(cols)
  {
    if cols != [] {
      assert Names(cols) == [cols[0].name] + Names(cols[1..]);
      AssignNames(cols[1..], a, d, b);
      if cols[0].name == a {
        assert Names(Assign(cols, a, d)) == [a] + Names(cols[1..]);
      } else {
        assert Names(Assign(cols, a, d)) == [cols[0].name] + Names(Assign(cols[1..], a, d));
      }
    } else {
      assert Names(Assign(cols, a, d)) == [a];
    }
  }

  /** Dropping one name and assigning another commute. */
  lemma {:induction false} DropAssign(cols: seq<Column>, a: string, d: Data, b: string)
    requires a != b
    ensures Drop(Assign(cols, a, d), b) == Assign(Drop(cols, b), a, d)
  {
    if cols != [] {
      DropAssign(cols[1..], a, d, b);
      if cols[0].name == a {
        assert Assign(cols, a, d)[1..] == cols[1..];
      } else if cols[0].name == b {
        assert Assign(cols, a, d)[1..] == Assign(cols[1..], a, d);
      } else {
        assert Assign(cols, a, d)[1..] == Assign(cols[1..], a, d);
        assert Drop(cols, b)[1..] == Drop(cols[1..], b);
      }
    }
  }

  lemma {:induction false} NotInNames(cols: seq<Column>, b: string)
    requires forall k :: 0 <= k < |cols| ==> cols[k].name != b
    ensures b !in Names(cols)
  {
    if cols != [] {
      NotInNames(cols[1..], b);
    }
  }

  lemma {:induction false} NamesAppend(cols: seq<Column>, more: seq<Column>)
    ensures Names(cols + more) == Names(cols) + Names(more)
  {
    if cols != [] {
      assert (cols + more)[1..] == cols[1..] + more;
      NamesAppend(cols[1..], more);
    } else {
      assert cols + more == more;
    }
  }

  /** Assignment and drop keep every column `n` rows high. */
  lemma {:induction false} RectangularSteps(cols: seq<Column>, n: nat, a: string, d: Data)
    requires Rectangular(cols, n)
    ensures Rectangular(Drop(cols, a), n)
    ensures Height(d) == n ==> Rectangular(Assign(cols, a, d), n)
  {
    if cols != [] {
      RectangularSteps(cols[1..], n, a, d);
    }
  }

  /** Every column is an integer column of `n` rows. */
  predicate BitColumns(cols: seq<Column>, n: nat)
  {
    forall k :: 0 <= k < |cols| ==> cols[k].data.Bits? && |cols[k].data.bits| == n
  }

  /** Row `i` of a block of integer columns, left to right. */
  function RowOf(cols: seq<Column>, n: nat, i: nat): (row: seq<int>)
    requires BitColumns(cols, n) && i < n
    ensures |row| == |cols|
  {
    seq(|cols|, k requires 0 <= k < |cols| => cols[k].data.bits[i])
  }

  /** The row of side-by-side blocks is the rows of the blocks, side by side. */
  lemma RowOfAppend(a: seq<Column>, b: seq<Column>, n: nat, i: nat)
    requires BitColumns(a, n) && BitColumns(b, n) && i < n
    ensures BitColumns(a + b, n)
    ensures RowOf(a + b, n, i) == RowOf(a, n, i) + RowOf(b, n, i)
  {
    assert BitColumns(a + b, n) by {
      forall k | 0 <= k < |a + b|
        ensures (a + b)[k].data.Bits? && |(a + b)[k].data.bits| == n
      {
        if k >= |a| {
          assert (a + b)[k] == b[k - |a|];
        }
      }
    }
  }

  /** A table: its columns change in place. */
  class Frame {
    var cols: seq<Column>

    constructor (cols: seq<Column>)
      ensures this.cols == cols
    {
      this.cols := cols;
    }

    /** `df.copy()`: a new table with the same columns. */
    method Copy() returns (f: Frame)
      ensures fresh(f) && f.cols == cols
    {
      f := new Frame(cols);
    }
  }
}
