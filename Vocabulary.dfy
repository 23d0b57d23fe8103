/**
 * Vocabulary extraction (`genres_unpacking`, `specs_unpacking`): every
 * token of every non-placeholder cell, rows top to bottom and tokens left to
 * right, optionally deduplicated in first-seen order (`Series.unique`).
 */
module Vocabulary {
  import opened Frames

  /** The tokens a cell contributes: none for the placeholder. */
  function TokensOf(c: Cell): seq<string>
  {
    if c.Empty? then [] else c.tokens
  }

  /** All tokens of a column, in row order then token order. */
  function Flatten(cells: seq<Cell>): seq<string>
  {
    if cells == [] then [] else Flatten(cells[..|cells| - 1]) + TokensOf(cells[|cells| - 1])
  }

  /** The summed lengths of the non-placeholder lists of a column. */
  function TotalTokens(cells: seq<Cell>): nat
  {
    if cells == [] then 0
    else TotalTokens(cells[..|cells| - 1]) + (if cells[|cells| - 1].Empty? then 0 else |cells[|cells| - 1].tokens|)
  }

  /** Without deduplication, one entry per token of every non-placeholder list. */
  lemma {:induction false} FlattenLength(cells: seq<Cell>)
    ensures |Flatten(cells)| == TotalTokens(cells)
  {
    if cells != [] {
      FlattenLength(cells[..|cells| - 1]);
    }
  }

  /** A token is extracted exactly when some non-placeholder cell lists it. */
  lemma {:induction false} FlattenMembers(cells: seq<Cell>, t: string)
    ensures t in Flatten(cells) <==> exists i :: 0 <= i < |cells| && cells[i].Tokens? && t in cells[i].tokens
  {
    if cells != [] {
      var init := cells[..|cells| - 1];
      FlattenMembers(init, t);
      if t in Flatten(init) {
        var i :| 0 <= i < |init| && init[i].Tokens? && t in init[i].tokens;
        assert cells[i] == init[i];
      }
      if exists i :: 0 <= i < |cells| && cells[i].Tokens? && t in cells[i].tokens {
        var i :| 0 <= i < |cells| && cells[i].Tokens? && t in cells[i].tokens;
        if i < |init| {
          assert init[i] == cells[i];
        }
      }
    }
  }

  predicate Distinct(s: seq<string>)
  {
    forall i, j :: 0 <= i < j < |s| ==> s[i] != s[j]
  }

  /** Deduplication keeping each token where it first appears (`Series.unique`). */
  function Unique(s: seq<string>): (u: seq<string>)
    ensures Distinct(u)
    ensures forall x :: x in u <==> x in s
    ensures |u| <= |s|
  {
    if s == [] then []
    else
      var u := Unique(s[..|s| - 1]);
      if s[|s| - 1] in u then u else u + [s[|s| - 1]]
  }

  /** The position where `x` first appears in `s`. */
  function FirstIndex(s: seq<string>, x: string): (k: nat)
    requires x in s
    ensures k < |s| && s[k] == x && x !in s[..k]
  {
    if s[0] == x then 0
    else
      var k := FirstIndex(s[1..], x);
      assert s[1..][..k] == s[1..k + 1];
      k + 1
  }

  /** The first position of `x` is the same in any prefix that holds `x`. */
  lemma FirstIndexPrefix(s: seq<string>, n: nat, x: string)
    requires n <= |s| && x in s[..n]
    ensures FirstIndex(s[..n], x) == FirstIndex(s, x)
  {
    var k, k' := FirstIndex(s[..n], x), FirstIndex(s, x);
    assert s[..n][..k] == s[..k];
  }

  /** The deduplicated tokens appear in the order in which they were first seen. */
  lemma {:induction false} UniqueFirstSeenOrder(s: seq<string>)
    ensures forall i, j :: 0 <= i < j < |Unique(s)| ==> FirstIndex(s, Unique(s)[i]) < FirstIndex(s, Unique(s)[j])
  {
    if s != [] {
      var n := |s| - 1;
      var init := s[..n];
      assert s[..n] == init;
      var u', u := Unique(init), Unique(s);
      UniqueFirstSeenOrder(init);
      forall i, j | 0 <= i < j < |u|
        ensures FirstIndex(s, u[i]) < FirstIndex(s, u[j])
      {
        FirstIndexPrefix(s, n, u[i]);
        if j < |u'| {
          FirstIndexPrefix(s, n, u[j]);
        } else {
          assert u[j] == s[n] && s[n] !in init;
          assert FirstIndex(s, u[j]) == n;
        }
      }
    }
  }

  /** One column's unpacking loop: appends the tokens of every non-placeholder cell. */
  method Unpacking(column: seq<Cell>, getUnique: bool) returns (r: seq<string>)
    ensures r == if getUnique then Unique(Flatten(column)) else Flatten(column)
  {
    var tokens: seq<string> := [];
    for i := 0 to |column|
      invariant tokens == Flatten(column[..i])
    {
      assert column[..i + 1][..i] == column[..i];
      if column[i].Tokens? {
        var list := column[i].tokens;
        for j := 0 to |list|
          invariant tokens == Flatten(column[..i]) + list[..j]
        {
          tokens := tokens + [list[j]];
          assert list[..j + 1] == list[..j] + [list[j]];
        }
        assert list[..|list|] == list;
      }
    }
    assert column[..|column|] == column;
    r := if getUnique then Unique(tokens) else tokens;
  }

  /** `genres_unpacking`: the tokens of the `genres` column. */
  method GenresUnpacking(df: Frame, getUnique: bool) returns (r: seq<string>)
    requires HasLists(df.cols, "genres")
    ensures r == if getUnique then Unique(Flatten(Lookup(df.cols, "genres").value.cells))
                 else Flatten(Lookup(df.cols, "genres").value.cells)
  {
    r := Unpacking(Lookup(df.cols, "genres").value.cells, getUnique);
  }

  /** `specs_unpacking`: the tokens of the `specs` column. */
  method SpecsUnpacking(df: Frame, getUnique: bool) returns (r: seq<string>)
    requires HasLists(df.cols, "specs")
    ensures r == if getUnique then Unique(Flatten(Lookup(df.cols, "specs").value.cells))
                 else Flatten(Lookup(df.cols, "specs").value.cells)
  {
    r := Unpacking(Lookup(df.cols, "specs").value.cells, getUnique);
  }

  /** The vocabulary of a column: its distinct tokens in first-seen order. */
  function Vocab(column: seq<Cell>): seq<string>
  {
    Unique(Flatten(column))
  }

  /** Every token of every non-placeholder cell of a column is in its vocabulary, and nothing else is. */
  lemma VocabCovers(column: seq<Cell>, t: string)
    ensures t in Vocab(column) <==> exists i :: 0 <= i < |column| && column[i].Tokens? && t in column[i].tokens
  {
    FlattenMembers(column, t);
  }

  /** First-seen order, not alphabetical: `[[A, B], Empty, [B, C]]` gives `[A, B, C]`. */
  lemma FirstSeenExample()
    ensures Vocab([Tokens(["A", "B"]), Empty, Tokens(["B", "C"])]) == ["A", "B", "C"]
  {
    var c := [Tokens(["A", "B"]), Empty, Tokens(["B", "C"])];
    assert Flatten(c) == ["A", "B", "B", "C"] by {
      assert Flatten([Tokens(["A", "B"])]) == ["A", "B"] by {
        assert [Tokens(["A", "B"])][..0] == [];
      }
      assert Flatten(c[..2]) == ["A", "B"] by {
        assert c[..2][..1] == [Tokens(["A", "B"])];
      }
    }
    UniqueExample();
  }

  lemma UniqueExample()
    ensures Unique(["A", "B", "B", "C"]) == ["A", "B", "C"]
  {
    assert Unique(["A"]) == ["A"] by { assert ["A"][..0] == []; }
    assert Unique(["A", "B"]) == ["A", "B"] by { assert ["A", "B"][..1] == ["A"]; }
    assert Unique(["A", "B", "B"]) == ["A", "B"] by { assert ["A", "B", "B"][..2] == ["A", "B"]; }
    assert ["A", "B", "B", "C"][..3] == ["A", "B", "B"];
  }
}
