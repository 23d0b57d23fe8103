/**
 * Multi-hot encoding of the list columns (`_genres_dummies`,
 * `genres_dummies`, `_specs_dummies`, `specs_dummies`): one 0/1 column per
 * vocabulary token, set in a row exactly when that row's list holds the
 * token.
 */
module Dummies {
  import opened Frames
  import opened Vocabulary
  import opened Vectors

  /** The distinct tokens a cell lists; none for the placeholder. */
  function TokenSet(c: Cell): set<string>
  {
    if c.Empty? then {} else set t | t in c.tokens
  }

  function SetOf(v: seq<string>): set<string>
  {
    set t | t in v
  }

  /** The dummy row of a cell over a vocabulary. */
  function MultiHot(c: Cell, vocab: seq<string>): (row: seq<int>)
    ensures |row| == |vocab|
  {
    seq(|vocab|, k requires 0 <= k < |vocab| => if c.Tokens? && vocab[k] in c.tokens then 1 else 0)
  }

  /**
   * The dummy-row loop: a zero row the length of the vocabulary, left all
   * zero for the placeholder, otherwise set to 1 at every position whose
   * token the list holds.
   */
  method DummiesRow(c: Cell, unique: seq<string>) returns (r: seq<int>)
    ensures r == MultiHot(c, unique)
  {
    var row := new int[|unique|](_ => 0);
    if c.Empty? {
      assert forall k :: 0 <= k < row.Length ==> row[k] == 0;
      return row[..];
    }
    for pos := 0 to |unique|
      invariant forall k :: 0 <= k < pos ==> row[k] == MultiHot(c, unique)[k]
      invariant forall k :: pos <= k < row.Length ==> row[k] == 0
    {
      if unique[pos] in c.tokens {
        row[pos] := 1;
      }
    }
    r := row[..];
  }

  /** `_genres_dummies`: the dummy row of a `genres` cell. */
  method GenresDummiesRow(c: Cell, unique: seq<string>) returns (r: seq<int>)
    ensures r == MultiHot(c, unique)
  {
    r := DummiesRow(c, unique);
  }

  /** `_specs_dummies`: the dummy row of a `specs` cell. */
  method SpecsDummiesRow(c: Cell, unique: seq<string>) returns (r: seq<int>)
    ensures r == MultiHot(c, unique)
  {
    r := DummiesRow(c, unique);
  }

  /** Dummy rows hold only zeros and ones; the placeholder gives the zero row. */
  lemma MultiHotBinary(c: Cell, vocab: seq<string>)
    ensures IsBinary(MultiHot(c, vocab))
    ensures c.Empty? ==> IsZero(MultiHot(c, vocab))
  {
  }

  /** The tokens that the 1 entries of a row stand for. */
  function Decode(row: seq<int>, vocab: seq<string>): set<string>
    requires |row| == |vocab|
  {
    set k | 0 <= k < |vocab| && row[k] == 1 :: vocab[k]
  }

  /** Decoding a dummy row gives back exactly the listed tokens that the vocabulary knows. */
  lemma DecodeMultiHot(c: Cell, vocab: seq<string>)
    ensures Decode(MultiHot(c, vocab), vocab) == SetOf(vocab) * TokenSet(c)
  {
    var row := MultiHot(c, vocab);
    forall t | t in SetOf(vocab) * TokenSet(c)
      ensures t in Decode(row, vocab)
    {
      var k :| 0 <= k < |vocab| && vocab[k] == t;
      assert row[k] == 1;
    }
  }

  /** Adding a new token to a vocabulary adds one to its overlap with `s` exactly when `s` holds it. */
  lemma OverlapStep(init: seq<string>, t: string, s: set<string>)
    requires t !in init
    ensures |SetOf(init + [t]) * s| == |SetOf(init) * s| + (if t in s then 1 else 0)
  {
    assert SetOf(init + [t]) == SetOf(init) + {t};
    if t in s {
      assert SetOf(init + [t]) * s == SetOf(init) * s + {t};
    } else {
      assert SetOf(init + [t]) * s == SetOf(init) * s;
    }
  }

  /** The last entry of a dummy row is 1 exactly when the cell lists the last token. */
  lemma MultiHotSnoc(c: Cell, vocab: seq<string>)
    requires vocab != []
    ensures MultiHot(c, vocab) == MultiHot(c, vocab[..|vocab| - 1]) + [if vocab[|vocab| - 1] in TokenSet(c) then 1 else 0]
  {
  }

  /**
   * The dot product of two dummy rows over a vocabulary without repeats
   * counts the vocabulary tokens that both lists hold.
   */
  lemma {:induction false} DotMultiHot(c1: Cell, c2: Cell, vocab: seq<string>)
    requires Distinct(vocab)
    ensures Dot(MultiHot(c1, vocab), MultiHot(c2, vocab)) == |SetOf(vocab) * (TokenSet(c1) * TokenSet(c2))|
  {
    if vocab != [] {
      var n := |vocab| - 1;
      var init, t := vocab[..n], vocab[n];
      MultiHotSnoc(c1, vocab);
      MultiHotSnoc(c2, vocab);
      var a, b := MultiHot(c1, vocab), MultiHot(c2, vocab);
      assert a[..n] == MultiHot(c1, init) && b[..n] == MultiHot(c2, init);
      assert Dot(a, b) == Dot(MultiHot(c1, init), MultiHot(c2, init)) + a[n] * b[n];
      assert a[n] * b[n] == if t in TokenSet(c1) * TokenSet(c2) then 1 else 0;
      assert Distinct(init) && t !in init;
      DotMultiHot(c1, c2, init);
      assert vocab == init + [t];
      OverlapStep(init, t, TokenSet(c1) * TokenSet(c2));
    }
  }

  /** The ones of a dummy row count the distinct listed tokens the vocabulary knows. */
  lemma SumMultiHot(c: Cell, vocab: seq<string>)
    requires Distinct(vocab)
    ensures Sum(MultiHot(c, vocab)) == |SetOf(vocab) * TokenSet(c)|
  {
    MultiHotBinary(c, vocab);
    BinarySelfDot(MultiHot(c, vocab));
    DotMultiHot(c, c, vocab);
    assert TokenSet(c) * TokenSet(c) == TokenSet(c);
  }

  // ---------------------------------------------------------------------
  // The dummy block of a whole column
  // ---------------------------------------------------------------------

  /** The dummy columns appended to the table: their names and one row per game. */
  datatype Block = Block(columns: seq<string>, rows: seq<seq<int>>)

  /** The dummies of a column: its vocabulary as column names, each cell encoded over it. */
  function DummiesBlock(column: seq<Cell>): (b: Block)
    ensures |b.rows| == |column|
    ensures forall i :: 0 <= i < |column| ==> |b.rows[i]| == |b.columns|
  {
    var vocab := Vocab(column);
    Block(vocab, seq(|column|, i requires 0 <= i < |column| => MultiHot(column[i], vocab)))
  }

  /**
   * Nothing is lost: the columns are distinct, and every row decodes to
   * exactly the tokens of its cell.
   */
  lemma BlockRoundTrip(column: seq<Cell>, i: nat)
    requires i < |column|
    ensures Distinct(DummiesBlock(column).columns)
    ensures Decode(DummiesBlock(column).rows[i], DummiesBlock(column).columns) == TokenSet(column[i])
  {
    var vocab := Vocab(column);
    DecodeMultiHot(column[i], vocab);
    forall t | t in TokenSet(column[i])
      ensures t in SetOf(vocab)
    {
      VocabCovers(column, t);
    }
  }

  /** Column `k` of row `i` is 1 exactly when the cell of row `i` lists token `k`. */
  lemma BlockEntry(column: seq<Cell>, i: nat, k: nat)
    requires i < |column| && k < |Vocab(column)|
    ensures DummiesBlock(column).rows[i][k] == 1 <==> column[i].Tokens? && Vocab(column)[k] in column[i].tokens
    ensures DummiesBlock(column).rows[i][k] == 0 <==> !(column[i].Tokens? && Vocab(column)[k] in column[i].tokens)
  {
  }

  /** `Series.apply` of the row encoder: every cell of the column encoded over `unique`. */
  method EncodeRows(cells: seq<Cell>, unique: seq<string>) returns (rows: seq<seq<int>>)
    ensures |rows| == |cells| && forall i :: 0 <= i < |cells| ==> rows[i] == MultiHot(cells[i], unique)
  {
    rows := [];
    for i := 0 to |cells|
      invariant |rows| == i && forall j :: 0 <= j < i ==> rows[j] == MultiHot(cells[j], unique)
    {
      var row := DummiesRow(cells[i], unique);
      rows := rows + [row];
    }
  }

  /** The dummy block as table columns: one 0/1 column per vocabulary token. */
  function BlockColumns(b: Block, n: nat): (cols: seq<Column>)
    requires |b.rows| == n && forall i :: 0 <= i < n ==> |b.rows[i]| == |b.columns|
    ensures |cols| == |b.columns|
    ensures forall k :: 0 <= k < |cols| ==>
      cols[k].name == b.columns[k] && cols[k].data.Bits? && |cols[k].data.bits| == n
    ensures forall k, i :: 0 <= k < |cols| && 0 <= i < n ==> cols[k].data.bits[i] == b.rows[i][k]
  {
    seq(|b.columns|, k requires 0 <= k < |b.columns| =>
      Column(b.columns[k], Bits(seq(n, i requires 0 <= i < n => b.rows[i][k]))))
  }

  /**
   * `genres_dummies` / `specs_dummies` on a table: the dummy block of the
   * list column appended after the existing columns, then the list column
   * dropped when asked.
   */
  function WithDummies(cols: seq<Column>, name: string, dropOld: bool): seq<Column>
    requires HasLists(cols, name)
  {
    var cells := Lookup(cols, name).value.cells;
    var all := cols + BlockColumns(DummiesBlock(cells), |cells|);
    if dropOld then Drop(all, name) else all
  }

  /** The shared body of `genres_dummies` and `specs_dummies`, given the vocabulary. */
  method AppendDummies(df: Frame, name: string, unique: seq<string>, dropOld: bool) returns (r: Frame)
    requires HasLists(df.cols, name) && unique == Vocab(Lookup(df.cols, name).value.cells)
    ensures fresh(r) && r.cols == WithDummies(df.cols, name, dropOld)
  {
    var cells := Lookup(df.cols, name).value.cells;
    var rows := EncodeRows(cells, unique);
    assert Block(unique, rows) == DummiesBlock(cells);
    r := new Frame(df.cols + BlockColumns(Block(unique, rows), |cells|));
    if dropOld {
      r.cols := Drop(r.cols, name);
    }
  }

  /** `genres_dummies`: a new table with one dummy column per distinct genre. */
  method GenresDummies(df: Frame, dropOld: bool) returns (r: Frame)
    requires HasLists(df.cols, "genres")
    ensures fresh(r) && r.cols == WithDummies(df.cols, "genres", dropOld)
  {
    var unique := GenresUnpacking(df, true);
    r := AppendDummies(df, "genres", unique, dropOld);
  }

  /** `specs_dummies`: a new table with one dummy column per distinct spec. */
  method SpecsDummies(df: Frame, dropOld: bool) returns (r: Frame)
    requires HasLists(df.cols, "specs")
    ensures fresh(r) && r.cols == WithDummies(df.cols, "specs", dropOld)
  {
    var unique := SpecsUnpacking(df, true);
    r := AppendDummies(df, "specs", unique, dropOld);
  }
}
