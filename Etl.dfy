/**
 * The ETL helpers: `json_unpacking`, which flattens a column of nested
 * records into one flat record per inner element, and the path prefix that
 * `load_dfs` strips when it is called from the project root.
 */
module Etl {
  import opened Wrappers

  /** A value as `json.loads` or a table cell holds it. */
  datatype Value =
    | Null
    | Num(n: int)
    | Str(s: string)
    | List(elems: seq<Value>)
    | Obj(d: Dict)

  /**
   * A Python dict: its keys in insertion order and the value of each key.
   * Assigning to a present key keeps its position; a new key goes last.
   */
  datatype Dict = Dict(keys: seq<string>, vals: map<string, Value>)

  /** The `TypeError`s and `KeyError`s the unpacking loop can raise. */
  datatype UnpackError = KeyError(key: string) | NotIterable | NotSubscriptable

  const EmptyDict: Dict := Dict([], map[])

  /** Every key listed once, and the listed keys are exactly the keys with a value. */
  ghost predicate WellFormed(d: Dict)
  {
    (forall i, j :: 0 <= i < j < |d.keys| ==> d.keys[i] != d.keys[j])
    && (forall k :: k in d.vals <==> k in d.keys)
  }

  /** `d[k] = v`. */
  function Put(d: Dict, k: string, v: Value): (r: Dict)
    ensures r.vals == d.vals[k := v]
    ensures WellFormed(d) ==> WellFormed(r)
  {
    Dict(if k in d.vals then d.keys else d.keys + [k], d.vals[k := v])
  }

  /** `item[key]` with a string key: only a dict can be subscripted so. */
  function Subscript(item: Value, key: string): (r: Result<Value, UnpackError>)
    ensures r.Ok? <==> item.Obj? && key in item.d.vals
    ensures r.Ok? ==> r.value == item.d.vals[key]
    ensures r.Err? && item.Obj? ==> r.error == KeyError(key)
    ensures !item.Obj? ==> r == Err(NotSubscriptable)
  {
    match item
    case Obj(d) => if key in d.vals then Ok(d.vals[key]) else Err(KeyError(key))
    case _ => Err(NotSubscriptable)
  }

  /** `[item[k] for k in keys]`: the looked-up values in order, or the first lookup that raises. */
  function Picked(item: Value, keys: seq<string>): (r: Result<seq<Value>, UnpackError>)
    ensures r.Ok? ==> |r.value| == |keys|
  {
    if keys == [] then Ok([])
    else
      match Picked(item, keys[..|keys| - 1])
      case Err(e) => Err(e)
      case Ok(xs) =>
        match Subscript(item, keys[|keys| - 1])
        case Err(e) => Err(e)
        case Ok(x) => Ok(xs + [x])
  }

  /** `d[keys[i]] = xs[i]` for each `i` in turn. */
  function PutAll(d: Dict, keys: seq<string>, xs: seq<Value>): Dict
    requires |xs| == |keys|
  {
    if keys == [] then d
    else Put(PutAll(d, keys[..|keys| - 1], xs[..|keys| - 1]), keys[|keys| - 1], xs[|keys| - 1])
  }

  /** `for k in keys: d[k] = item[k]`, stopping at the first lookup that raises. */
  function Fill(d: Dict, item: Value, keys: seq<string>): Result<Dict, UnpackError>
  {
    match Picked(item, keys)
    case Err(e) => Err(e)
    case Ok(xs) => Ok(PutAll(d, keys, xs))
  }

  /** What `for item in cell` walks: list elements, the one-character strings of a string, the keys of a dict. */
  function Elements(cell: Value): (r: Option<seq<Value>>)
    ensures r.None? <==> cell.Null? || cell.Num?
  {
    match cell
    case List(xs) => Some(xs)
    case Str(s) => Some(seq(|s|, i requires 0 <= i < |s| => Str([s[i]])))
    case Obj(d) => Some(seq(|d.keys|, i requires 0 <= i < |d.keys| => Str(d.keys[i])))
    case _ => None
  }

  /** `{label: df.loc[i, label] for label in old_colums}`, or the empty dict without old columns. */
  function Base(row: Dict, oldColumns: Option<seq<string>>): Result<Dict, UnpackError>
  {
    if oldColumns.None? then Ok(EmptyDict) else Fill(EmptyDict, Obj(row), oldColumns.value)
  }

  /** The records of one row: the base filled from each inner element in turn, or the first error. */
  function RowRecords(base: Dict, elems: seq<Value>, values: seq<string>): (r: Result<seq<Dict>, UnpackError>)
    ensures r.Ok? ==> |r.value| == |elems|
  {
    if elems == [] then Ok([])
    else
      match RowRecords(base, elems[..|elems| - 1], values)
      case Err(e) => Err(e)
      case Ok(rs) =>
        match Fill(base, elems[|elems| - 1], values)
        case Err(e) => Err(e)
        case Ok(rec) => Ok(rs + [rec])
  }

  /** One row of the outer loop: its base record, its `where` cell, then its records. */
  function UnpackRow(row: Dict, where: string, values: seq<string>, oldColumns: Option<seq<string>>): Result<seq<Dict>, UnpackError>
  {
    match Base(row, oldColumns)
    case Err(e) => Err(e)
    case Ok(base) =>
      match Subscript(Obj(row), where)
      case Err(e) => Err(e)
      case Ok(cell) =>
        match Elements(cell)
        case None => Err(NotIterable)
        case Some(elems) => RowRecords(base, elems, values)
  }

  /** `json_unpacking`: the records of every row in row order, or the first error raised. */
  function Unpacked(df: seq<Dict>, where: string, values: seq<string>, oldColumns: Option<seq<string>>): Result<seq<Dict>, UnpackError>
  {
    if df == [] then Ok([])
    else
      match Unpacked(df[..|df| - 1], where, values, oldColumns)
      case Err(e) => Err(e)
      case Ok(rs) =>
        match UnpackRow(df[|df| - 1], where, values, oldColumns)
        case Err(e) => Err(e)
        case Ok(more) => Ok(rs + more)
  }

  // ---------------------------------------------------------------------
  // Errors stop everything
  // ---------------------------------------------------------------------

  lemma {:induction false} PickedPrefixErr(item: Value, keys: seq<string>, k: nat)
    requires k <= |keys| && Picked(item, keys[..k]).Err?
    ensures Picked(item, keys) == Picked(item, keys[..k])
  {
    if k < |keys| {
      var n := |keys| - 1;
      assert keys[..n][..k] == keys[..k];
      PickedPrefixErr(item, keys[..n], k);
    } else {
      assert keys[..k] == keys;
    }
  }

  lemma {:induction false} RowRecordsPrefixErr(base: Dict, elems: seq<Value>, values: seq<string>, k: nat)
    requires k <= |elems| && RowRecords(base, elems[..k], values).Err?
    ensures RowRecords(base, elems, values) == RowRecords(base, elems[..k], values)
  {
    if k < |elems| {
      var n := |elems| - 1;
      assert elems[..n][..k] == elems[..k];
      RowRecordsPrefixErr(base, elems[..n], values, k);
    } else {
      assert elems[..k] == elems;
    }
  }

  lemma {:induction false} UnpackedPrefixErr(df: seq<Dict>, where: string, values: seq<string>, oldColumns: Option<seq<string>>, k: nat)
    requires k <= |df| && Unpacked(df[..k], where, values, oldColumns).Err?
    ensures Unpacked(df, where, values, oldColumns) == Unpacked(df[..k], where, values, oldColumns)
  {
    if k < |df| {
      var n := |df| - 1;
      assert df[..n][..k] == df[..k];
      UnpackedPrefixErr(df[..n], where, values, oldColumns, k);
    } else {
      assert df[..k] == df;
    }
  }

  // ---------------------------------------------------------------------
  // A reused row dict: each copy depends only on its own element
  // ---------------------------------------------------------------------

  /** The last position of `k` in `keys`. */
  function LastIndex(keys: seq<string>, k: string): (i: nat)
    requires k in keys
    ensures i < |keys| && keys[i] == k
    ensures forall j :: i < j < |keys| ==> keys[j] != k
  {
    if keys[|keys| - 1] == k then |keys| - 1 else LastIndex(keys[..|keys| - 1], k)
  }

  /**
   * After the assignments a key holds the value of its last assignment, a
   * key never assigned keeps its old value, and no other key appears.
   */
  lemma {:induction false} PutAllVals(d: Dict, keys: seq<string>, xs: seq<Value>)
    requires |xs| == |keys|
    ensures forall k :: k in PutAll(d, keys, xs).vals <==> k in d.vals || k in keys
    ensures forall k :: k in keys ==> PutAll(d, keys, xs).vals[k] == xs[LastIndex(keys, k)]
    ensures forall k :: k in d.vals && k !in keys ==> PutAll(d, keys, xs).vals[k] == d.vals[k]
  {
    if keys != [] {
      var n := |keys| - 1;
      PutAllVals(d, keys[..n], xs[..n]);
      forall k | k in keys
        ensures PutAll(d, keys, xs).vals[k] == xs[LastIndex(keys, k)]
      {
        if k != keys[n] {
          assert k in keys[..n] by {
            var i :| 0 <= i < |keys| && keys[i] == k;
            assert keys[..n][i] == k;
          }
        }
      }
    }
  }

  /** Which keys end up listed, and in what order, does not depend on the values assigned. */
  lemma {:induction false} PutAllKeys(d: Dict, keys: seq<string>, xs: seq<Value>, ys: seq<Value>)
    requires |xs| == |keys| && |ys| == |keys|
    ensures PutAll(d, keys, xs).keys == PutAll(d, keys, ys).keys
  {
    if keys != [] {
      var n := |keys| - 1;
      PutAllKeys(d, keys[..n], xs[..n], ys[..n]);
      PutAllVals(d, keys[..n], xs[..n]);
      PutAllVals(d, keys[..n], ys[..n]);
    }
  }

  /** Assigning only keys already present leaves the key order alone. */
  lemma {:induction false} PutAllPresent(d: Dict, keys: seq<string>, xs: seq<Value>)
    requires |xs| == |keys| && forall k :: k in keys ==> k in d.vals
    ensures PutAll(d, keys, xs).keys == d.keys
  {
    if keys != [] {
      var n := |keys| - 1;
      PutAllPresent(d, keys[..n], xs[..n]);
      PutAllVals(d, keys[..n], xs[..n]);
    }
  }

  /** Assigning the same keys twice is assigning them once, with the second values. */
  lemma Overwrite(d: Dict, keys: seq<string>, xs: seq<Value>, ys: seq<Value>)
    requires |xs| == |keys| && |ys| == |keys|
    ensures PutAll(PutAll(d, keys, xs), keys, ys) == PutAll(d, keys, ys)
  {
    var a := PutAll(d, keys, xs);
    PutAllVals(d, keys, xs);
    PutAllVals(d, keys, ys);
    PutAllVals(a, keys, ys);
    PutAllPresent(a, keys, ys);
    PutAllKeys(d, keys, xs, ys);
    assert PutAll(a, keys, ys).vals == PutAll(d, keys, ys).vals;
  }

  /**
   * The reused `row` dict, refilled from a new element after an earlier
   * one, equals a fresh fill of the base from the new element alone; a fill
   * that fails, fails the same way whatever the dict.
   */
  lemma Refill(base: Dict, x: Value, y: Value, values: seq<string>)
    requires Fill(base, x, values).Ok?
    ensures Fill(Fill(base, x, values).value, y, values) == Fill(base, y, values)
  {
    if Picked(y, values).Ok? {
      Overwrite(base, values, Picked(x, values).value, Picked(y, values).value);
    }
  }

  // ---------------------------------------------------------------------
  // The loops
  // ---------------------------------------------------------------------

  /** `for k in keys: d[k] = item[k]` on a dict updated in place. */
  method FillLoop(d: Dict, item: Value, keys: seq<string>) returns (r: Result<Dict, UnpackError>)
    ensures r == Fill(d, item, keys)
  {
    var row := d;
    ghost var xs: seq<Value> := [];
    for k := 0 to |keys|
      invariant Picked(item, keys[..k]) == Ok(xs) && row == PutAll(d, keys[..k], xs)
    {
      assert keys[..k + 1][..k] == keys[..k];
      var x := Subscript(item, keys[k]);
      if x.Err? {
        PickedPrefixErr(item, keys, k + 1);
        return Err(x.error);
      }
      row := Put(row, keys[k], x.value);
      xs := xs + [x.value];
      assert xs[..k] == xs[..|xs| - 1];
    }
    assert keys[..|keys|] == keys;
    r := Ok(row);
  }

  /**
   * The inner loops of `json_unpacking` for one row: one dict, updated in
   * place from each element in turn, a copy of it emitted after each.
   */
  method EmitRecords(base: Dict, es: seq<Value>, values: seq<string>) returns (r: Result<seq<Dict>, UnpackError>)
    ensures r == RowRecords(base, es, values)
  {
    var row := base;
    var emitted: seq<Dict> := [];
    for j := 0 to |es|
      invariant RowRecords(base, es[..j], values) == Ok(emitted)
      invariant j > 0 ==> Fill(base, es[j - 1], values) == Ok(row)
      invariant j == 0 ==> row == base
    {
      assert es[..j + 1][..j] == es[..j];
      var filled := FillLoop(row, es[j], values);
      if j > 0 {
        Refill(base, es[j - 1], es[j], values);
      }
      if filled.Err? {
        RowRecordsPrefixErr(base, es, values, j + 1);
        return Err(filled.error);
      }
      row := filled.value;
      emitted := emitted + [row];
    }
    assert es[..|es|] == es;
    r := Ok(emitted);
  }

  /**
   * `json_unpacking`: for each row, a base dict of its old columns, then
   * for each element of its `where` list the selected keys assigned into
   * that dict and a copy of it emitted.
   */
  method JsonUnpacking(df: seq<Dict>, where: string, values: seq<string>, oldColumns: Option<seq<string>>)
    returns (r: Result<seq<Dict>, UnpackError>)
    ensures r == Unpacked(df, where, values, oldColumns)
  {
    var items: seq<Dict> := [];
    for i := 0 to |df|
      invariant Unpacked(df[..i], where, values, oldColumns) == Ok(items)
    {
      assert df[..i + 1][..i] == df[..i];
      var base := Ok(EmptyDict);
      if oldColumns.Some? {
        base := FillLoop(EmptyDict, Obj(df[i]), oldColumns.value);
      }
      if base.Err? {
        UnpackedPrefixErr(df, where, values, oldColumns, i + 1);
        return Err(base.error);
      }
      var cell := Subscript(Obj(df[i]), where);
      if cell.Err? {
        UnpackedPrefixErr(df, where, values, oldColumns, i + 1);
        return Err(cell.error);
      }
      var elems := Elements(cell.value);
      if elems.None? {
        UnpackedPrefixErr(df, where, values, oldColumns, i + 1);
        return Err(NotIterable);
      }
      var records := EmitRecords(base.value, elems.value, values);
      if records.Err? {
        UnpackedPrefixErr(df, where, values, oldColumns, i + 1);
        return Err(records.error);
      }
      items := items + records.value;
    }
    assert df[..|df|] == df;
    r := Ok(items);
  }

  // ---------------------------------------------------------------------
  // What comes out
  // ---------------------------------------------------------------------

  /** The number of elements of a row's `where` cell (none when it cannot be walked). */
  function CellSize(row: Dict, where: string): nat
  {
    if where in row.vals && Elements(row.vals[where]).Some? then |Elements(row.vals[where]).value| else 0
  }

  /** The summed sizes of the `where` cells of the rows. */
  function TotalSize(df: seq<Dict>, where: string): nat
  {
    if df == [] then 0 else TotalSize(df[..|df| - 1], where) + CellSize(df[|df| - 1], where)
  }

  lemma {:induction false} RowRecordsAt(base: Dict, elems: seq<Value>, values: seq<string>, j: nat)
    requires RowRecords(base, elems, values).Ok? && j < |elems|
    ensures Fill(base, elems[j], values).Ok?
    ensures RowRecords(base, elems, values).value[j] == Fill(base, elems[j], values).value
  {
    var n := |elems| - 1;
    RowRecordsSnoc(base, elems, values);
    if j < n {
      RowRecordsAt(base, elems[..n], values, j);
      assert elems[..n][j] == elems[j];
    } else {
      assert elems[j] == elems[|elems| - 1];
    }
  }

  /** A successful walk of a row is the walk of all but its last element, then the last element's record. */
  lemma RowRecordsSnoc(base: Dict, elems: seq<Value>, values: seq<string>)
    requires RowRecords(base, elems, values).Ok? && elems != []
    ensures RowRecords(base, elems[..|elems| - 1], values).Ok?
    ensures Fill(base, elems[|elems| - 1], values).Ok?
    ensures RowRecords(base, elems, values).value
      == RowRecords(base, elems[..|elems| - 1], values).value + [Fill(base, elems[|elems| - 1], values).value]
  {
  }

  /** A successful row yields one record per element of its `where` cell, each the base filled from that element. */
  lemma UnpackRowShape(row: Dict, where: string, values: seq<string>, oldColumns: Option<seq<string>>)
    requires UnpackRow(row, where, values, oldColumns).Ok?
    ensures Base(row, oldColumns).Ok? && where in row.vals && Elements(row.vals[where]).Some?
    ensures |UnpackRow(row, where, values, oldColumns).value| == CellSize(row, where)
    ensures forall j :: 0 <= j < CellSize(row, where) ==>
      Fill(Base(row, oldColumns).value, Elements(row.vals[where]).value[j], values).Ok?
      && UnpackRow(row, where, values, oldColumns).value[j]
         == Fill(Base(row, oldColumns).value, Elements(row.vals[where]).value[j], values).value
  {
    var base := Base(row, oldColumns).value;
    var elems := Elements(row.vals[where]).value;
    forall j | 0 <= j < |elems|
      ensures Fill(base, elems[j], values).Ok?
      ensures RowRecords(base, elems, values).value[j] == Fill(base, elems[j], values).value
    {
      RowRecordsAt(base, elems, values, j);
    }
  }

  /**
   * One record per inner element: the output is as long as all the `where`
   * lists together, and rows with an empty list contribute nothing.
   */
  lemma {:induction false} UnpackedLength(df: seq<Dict>, where: string, values: seq<string>, oldColumns: Option<seq<string>>)
    requires Unpacked(df, where, values, oldColumns).Ok?
    ensures |Unpacked(df, where, values, oldColumns).value| == TotalSize(df, where)
  {
    if df != [] {
      var n := |df| - 1;
      UnpackedLength(df[..n], where, values, oldColumns);
      UnpackRowShape(df[n], where, values, oldColumns);
    }
  }

  /**
   * Rows in order, then elements in order: the record of element `j` of row
   * `i` sits after the records of all earlier rows, and it is the base of
   * row `i` filled from that element alone.
   */
  lemma {:induction false} UnpackedRecord(df: seq<Dict>, where: string, values: seq<string>, oldColumns: Option<seq<string>>, i: nat, j: nat)
    requires Unpacked(df, where, values, oldColumns).Ok?
    requires i < |df| && j < CellSize(df[i], where)
    ensures UnpackRow(df[i], where, values, oldColumns).Ok?
    ensures Base(df[i], oldColumns).Ok? && Elements(df[i].vals[where]).Some?
    ensures TotalSize(df[..i], where) + j < |Unpacked(df, where, values, oldColumns).value|
    ensures Fill(Base(df[i], oldColumns).value, Elements(df[i].vals[where]).value[j], values).Ok?
    ensures Unpacked(df, where, values, oldColumns).value[TotalSize(df[..i], where) + j]
      == Fill(Base(df[i], oldColumns).value, Elements(df[i].vals[where]).value[j], values).value
  {
    RowBlock(df, where, values, oldColumns, i);
    UnpackRowShape(df[i], where, values, oldColumns);
    ConcatAt(Unpacked(df, where, values, oldColumns).value, Unpacked(df[..i], where, values, oldColumns).value,
      UnpackRow(df[i], where, values, oldColumns).value, j);
  }

  /** The records of row `i` follow those of the rows before it, as many as their `where` cells hold. */
  lemma RowBlock(df: seq<Dict>, where: string, values: seq<string>, oldColumns: Option<seq<string>>, i: nat)
    requires Unpacked(df, where, values, oldColumns).Ok? && i < |df|
    ensures Unpacked(df[..i], where, values, oldColumns).Ok? && UnpackRow(df[i], where, values, oldColumns).Ok?
    ensures |Unpacked(df[..i], where, values, oldColumns).value| == TotalSize(df[..i], where)
    ensures Unpacked(df[..i], where, values, oldColumns).value + UnpackRow(df[i], where, values, oldColumns).value
      <= Unpacked(df, where, values, oldColumns).value
  {
    var pre := df[..i + 1];
    UnpackedPrefix(df, where, values, oldColumns, i + 1);
    assert pre[..i] == df[..i] && pre[i] == df[i];
    UnpackedSnoc(pre, where, values, oldColumns);
    UnpackedLength(df[..i], where, values, oldColumns);
  }

  /** The rows before `k` unpack without error into a prefix of the whole output. */
  lemma {:induction false} UnpackedPrefix(df: seq<Dict>, where: string, values: seq<string>, oldColumns: Option<seq<string>>, k: nat)
    requires Unpacked(df, where, values, oldColumns).Ok? && k <= |df|
    ensures Unpacked(df[..k], where, values, oldColumns).Ok?
    ensures Unpacked(df[..k], where, values, oldColumns).value <= Unpacked(df, where, values, oldColumns).value
  {
    if k == |df| {
      assert df[..k] == df;
    } else {
      var n := |df| - 1;
      UnpackedSnoc(df, where, values, oldColumns);
      UnpackedPrefix(df[..n], where, values, oldColumns, k);
      assert df[..n][..k] == df[..k];
    }
  }

  lemma ConcatAt(all: seq<Dict>, front: seq<Dict>, last: seq<Dict>, j: nat)
    requires front + last <= all && j < |last|
    ensures |front| + j < |all| && all[|front| + j] == last[j]
  {
    assert (front + last)[|front| + j] == last[j];
  }

  /** A successful unpacking is the unpacking of all but the last row, then the last row's records. */
  lemma UnpackedSnoc(df: seq<Dict>, where: string, values: seq<string>, oldColumns: Option<seq<string>>)
    requires Unpacked(df, where, values, oldColumns).Ok? && df != []
    ensures Unpacked(df[..|df| - 1], where, values, oldColumns).Ok?
    ensures UnpackRow(df[|df| - 1], where, values, oldColumns).Ok?
    ensures Unpacked(df, where, values, oldColumns).value
      == Unpacked(df[..|df| - 1], where, values, oldColumns).value + UnpackRow(df[|df| - 1], where, values, oldColumns).value
  {
  }

  /**
   * The keys of a record: every selected key holds the element's value for
   * it, every old column holds the row's value, and there are no other keys.
   */
  lemma RecordKeys(row: Dict, item: Value, values: seq<string>, oldColumns: Option<seq<string>>)
    requires Base(row, oldColumns).Ok? && Fill(Base(row, oldColumns).value, item, values).Ok?
    ensures var rec := Fill(Base(row, oldColumns).value, item, values).value;
      (forall k :: k in rec.vals <==> k in values || (oldColumns.Some? && k in oldColumns.value))
      && (forall k :: k in values ==> item.Obj? && k in item.d.vals && rec.vals[k] == item.d.vals[k])
      && (forall k :: oldColumns.Some? && k in oldColumns.value && k !in values ==>
            k in row.vals && rec.vals[k] == row.vals[k])
  {
    var base := Base(row, oldColumns).value;
    var xs := Picked(item, values).value;
    PickedValues(item, values);
    PutAllVals(base, values, xs);
    if oldColumns.Some? {
      var ls := oldColumns.value;
      PickedValues(Obj(row), ls);
      PutAllVals(EmptyDict, ls, Picked(Obj(row), ls).value);
    }
  }

  /** Each value picked is the element's own value for that key. */
  lemma {:induction false} PickedValues(item: Value, keys: seq<string>)
    requires Picked(item, keys).Ok?
    ensures forall i :: 0 <= i < |keys| ==>
      item.Obj? && keys[i] in item.d.vals && Picked(item, keys).value[i] == item.d.vals[keys[i]]
  {
    if keys != [] {
      PickedValues(item, keys[..|keys| - 1]);
    }
  }

  // ---------------------------------------------------------------------
  // load_dfs: the data paths
  // ---------------------------------------------------------------------

  /** The data files, as seen from the notebooks directory. */
  const DefaultPaths: map<string, string> := map[
    "games" := "../data/games.json.gz",
    "reviews" := "../data/reviews.csv.gz",
    "items" := "../data/items.csv.gz"]

  /**
   * The `paths` dict of `load_dfs`: called from the project root, each
   * entry is rewritten in place without its first three characters.
   */
  method LoadPaths(fromMain: bool) returns (paths: map<string, string>)
    ensures paths.Keys == DefaultPaths.Keys
    ensures !fromMain ==> paths == DefaultPaths
    ensures fromMain ==> forall k :: k in paths ==> "../" + paths[k] == DefaultPaths[k]
  {
    paths := DefaultPaths;
    if fromMain {
      paths := paths["games" := paths["games"][3..]];
      paths := paths["reviews" := paths["reviews"][3..]];
      paths := paths["items" := paths["items"][3..]];
      assert "../" + paths["games"] == DefaultPaths["games"];
      assert "../" + paths["reviews"] == DefaultPaths["reviews"];
      assert "../" + paths["items"] == DefaultPaths["items"];
    }
  }
}
