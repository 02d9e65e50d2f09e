/** Grids: write-only logs of cell records that are turned, on demand, into
    a table of rows, a dict of columns or a list of row records, with a
    cache of the last result. */
module Grid {
  import opened Wrappers
  import opened Values
  import opened PyList
  import opened PyDict
  import Utils

  /** One `(row, col, value)` write. */
  datatype Record = Record(row: int, col: int, value: Value)

  /** A table: a list of rows. */
  type Table = seq<seq<Value>>

  predicate Rectangular(t: Table, rows: nat, cols: nat)
  {
    |t| == rows && forall i :: 0 <= i < |t| ==> |t[i]| == cols
  }

  // ----- the size of the table: calc_list_grid_size -----

  /** `max(records, key=row)[0]` */
  function MaxRow(recs: seq<Record>): (m: int)
    requires |recs| > 0
    ensures forall k :: 0 <= k < |recs| ==> recs[k].row <= m
  {
    if |recs| == 1 then recs[0].row
    else
      var m := MaxRow(recs[..|recs| - 1]);
      assert forall k :: 0 <= k < |recs| - 1 ==> recs[..|recs| - 1][k] == recs[k];
      if recs[|recs| - 1].row > m then recs[|recs| - 1].row else m
  }

  /** `max(records, key=col)[1]` */
  function MaxCol(recs: seq<Record>): (m: int)
    requires |recs| > 0
    ensures forall k :: 0 <= k < |recs| ==> recs[k].col <= m
  {
    if |recs| == 1 then recs[0].col
    else
      var m := MaxCol(recs[..|recs| - 1]);
      assert forall k :: 0 <= k < |recs| - 1 ==> recs[..|recs| - 1][k] == recs[k];
      if recs[|recs| - 1].col > m then recs[|recs| - 1].col else m
  }

  /** The maximum row is the least bound of the rows: it is attained. */
  lemma {:induction false} MaxRowAtMost(recs: seq<Record>, b: int)
    requires |recs| > 0
    requires forall k :: 0 <= k < |recs| ==> recs[k].row <= b
    ensures MaxRow(recs) <= b
  {
    if |recs| > 1 {
      var init := recs[..|recs| - 1];
      assert forall k :: 0 <= k < |init| ==> init[k] == recs[k];
      MaxRowAtMost(init, b);
    }
  }

  /** The maximum column is the least bound of the columns. */
  lemma {:induction false} MaxColAtMost(recs: seq<Record>, b: int)
    requires |recs| > 0
    requires forall k :: 0 <= k < |recs| ==> recs[k].col <= b
    ensures MaxCol(recs) <= b
  {
    if |recs| > 1 {
      var init := recs[..|recs| - 1];
      assert forall k :: 0 <= k < |init| ==> init[k] == recs[k];
      MaxColAtMost(init, b);
    }
  }

  // ----- replaying the records onto a blank table -----

  /** Where a Python subscript `i` lands in a list of length `n`. */
  function Norm(i: int, n: int): int { if i < 0 then i + n else i }

  /** The write `g[row][col] = value` on an `rows` by `cols` table does not
      raise IndexError. */
  predicate InBounds(rec: Record, rows: int, cols: int)
  {
    -rows <= rec.row < rows && -cols <= rec.col < cols
  }

  predicate AllInBounds(recs: seq<Record>, rows: int, cols: int)
  {
    forall k :: 0 <= k < |recs| ==> InBounds(recs[k], rows, cols)
  }

  /** A `rows` by `cols` table of empty strings. */
  function Blank(rows: nat, cols: nat): (t: Table)
    ensures Rectangular(t, rows, cols)
    ensures forall i, j :: 0 <= i < rows && 0 <= j < cols ==> t[i][j] == EmptyStr
  {
    seq(rows, i => seq(cols, j => EmptyStr))
  }

  /** `g[rec.row][rec.col] = rec.value` */
  function Write(g: Table, rec: Record, rows: nat, cols: nat): (t: Table)
    requires Rectangular(g, rows, cols) && InBounds(rec, rows, cols)
    ensures Rectangular(t, rows, cols)
  {
    var i, j := Norm(rec.row, rows), Norm(rec.col, cols);
    g[i := g[i][j := rec.value]]
  }

  /** The records written onto `g` in order. */
  function Replay(g: Table, recs: seq<Record>, rows: nat, cols: nat): (t: Table)
    requires Rectangular(g, rows, cols) && AllInBounds(recs, rows, cols)
    ensures Rectangular(t, rows, cols)
  {
    if recs == [] then g
    else
      var init := recs[..|recs| - 1];
      assert AllInBounds(init, rows, cols) by {
        assert forall k :: 0 <= k < |init| ==> init[k] == recs[k];
      }
      Write(Replay(g, init, rows, cols), recs[|recs| - 1], rows, cols)
  }

  /** What `ListGrid._calc_grid` computes: no records raise ValueError (the
      `max` of an empty list); a record whose negative index reaches before
      the start raises IndexError; otherwise a table as large as the largest
      row and column, every cell holding the last value written there and
      an empty string where nothing was written. */
  function Materialize(recs: seq<Record>): (r: Result<Table>)
    ensures r.Err? <==> |recs| == 0 || !AllInBounds(recs, MaxRow(recs) + 1, MaxCol(recs) + 1)
    ensures |recs| == 0 ==> r == Err(ValueError)
    ensures |recs| > 0 && r.Err? ==> r.error == IndexError
    ensures r.Ok? ==> MaxRow(recs) >= 0 && MaxCol(recs) >= 0 &&
                      Rectangular(r.value, MaxRow(recs) + 1, MaxCol(recs) + 1)
  {
    if |recs| == 0 then Err(ValueError)
    else
      var rows, cols := MaxRow(recs) + 1, MaxCol(recs) + 1;
      if !AllInBounds(recs, rows, cols) then Err(IndexError)
      else
        assert InBounds(recs[0], rows, cols);
        Ok(Replay(Blank(rows, cols), recs, rows, cols))
  }

  /** The value of the last record landing on cell `(i, j)`, `d` when none. */
  function LastWrite(recs: seq<Record>, i: int, j: int, rows: int, cols: int, d: Value): Value
  {
    if recs == [] then d
    else
      var last := recs[|recs| - 1];
      if Norm(last.row, rows) == i && Norm(last.col, cols) == j then last.value
      else LastWrite(recs[..|recs| - 1], i, j, rows, cols, d)
  }

  /** Each cell of a replayed table holds the last write landing on it, or
      what was there before. */
  lemma {:induction false} ReplayAt(g: Table, recs: seq<Record>, rows: nat, cols: nat, i: nat, j: nat)
    requires Rectangular(g, rows, cols) && AllInBounds(recs, rows, cols)
    requires i < rows && j < cols
    ensures Replay(g, recs, rows, cols)[i][j] == LastWrite(recs, i, j, rows, cols, g[i][j])
  {
    if recs != [] {
      var init := recs[..|recs| - 1];
      assert AllInBounds(init, rows, cols) by {
        assert forall k :: 0 <= k < |init| ==> init[k] == recs[k];
      }
      ReplayAt(g, init, rows, cols, i, j);
    }
  }

  /** Each cell of the materialised table holds the last value written to
      it and an empty string when none was. */
  lemma MaterializeAt(recs: seq<Record>, i: nat, j: nat)
    requires Materialize(recs).Ok?
    requires i < |Materialize(recs).value| && j < |Materialize(recs).value[i]|
    ensures Materialize(recs).value[i][j] ==
      LastWrite(recs, i, j, MaxRow(recs) + 1, MaxCol(recs) + 1, EmptyStr)
  {
    var rows, cols := MaxRow(recs) + 1, MaxCol(recs) + 1;
    ReplayAt(Blank(rows, cols), recs, rows, cols, i, j);
  }

  /** Writing `a` then `b`: the last write of `b` wins, otherwise `a`'s. */
  lemma {:induction false} LastWriteAppend(a: seq<Record>, b: seq<Record>, i: int, j: int, rows: int, cols: int, d: Value)
    ensures LastWrite(a + b, i, j, rows, cols, d) ==
            LastWrite(b, i, j, rows, cols, LastWrite(a, i, j, rows, cols, d))
  {
    if b != [] {
      assert (a + b)[..|a + b| - 1] == a + b[..|b| - 1];
      LastWriteAppend(a, b[..|b| - 1], i, j, rows, cols, d);
    } else {
      assert a + b == a;
    }
  }

  // ----- the records written by row(), column() and a block of rows -----

  /** `row(row, values)` writes `values` left to right from column `col0`. */
  function RowRecords(row: int, col0: int, values: seq<Value>): (recs: seq<Record>)
    ensures |recs| == |values|
    ensures forall k :: 0 <= k < |recs| ==> recs[k] == Record(row, col0 + k, values[k])
  {
    seq(|values|, k requires 0 <= k < |values| => Record(row, col0 + k, values[k]))
  }

  /** `column(col, values)` writes `values` top to bottom from row 0. */
  function ColumnRecords(col: int, values: seq<Value>): (recs: seq<Record>)
    ensures |recs| == |values|
    ensures forall k :: 0 <= k < |recs| ==> recs[k] == Record(k, col, values[k])
  {
    seq(|values|, k requires 0 <= k < |values| => Record(k, col, values[k]))
  }

  /** Rows written one after the other, row `k` of `rows` at row `row0 + k`
      and starting at column `col0`. */
  function BlockRecords(row0: int, col0: int, rows: Table): (recs: seq<Record>)
  {
    if rows == [] then []
    else
      BlockRecords(row0, col0, rows[..|rows| - 1]) +
        RowRecords(row0 + |rows| - 1, col0, rows[|rows| - 1])
  }

  /** A row written from a non-negative position sets exactly the cells it
      covers. */
  lemma {:induction false} LastWriteRow(row: nat, col0: nat, values: seq<Value>, i: int, j: int, rows: int, cols: int, d: Value)
    ensures LastWrite(RowRecords(row, col0, values), i, j, rows, cols, d) ==
      if i == row && col0 <= j < col0 + |values| then values[j - col0] else d
  {
    var recs := RowRecords(row, col0, values);
    if values != [] {
      var n := |values|;
      assert recs[..n - 1] == RowRecords(row, col0, values[..n - 1]);
      LastWriteRow(row, col0, values[..n - 1], i, j, rows, cols, d);
    }
  }

  /** A block written from a non-negative position sets exactly the cells
      it covers. */
  lemma {:induction false} LastWriteBlock(row0: nat, col0: nat, t: Table, i: int, j: int, rows: int, cols: int, d: Value)
    ensures LastWrite(BlockRecords(row0, col0, t), i, j, rows, cols, d) ==
      if row0 <= i < row0 + |t| && col0 <= j < col0 + |t[i - row0]| then t[i - row0][j - col0] else d
  {
    if t != [] {
      var n := |t|;
      var init := t[..n - 1];
      LastWriteAppend(BlockRecords(row0, col0, init), RowRecords(row0 + n - 1, col0, t[n - 1]), i, j, rows, cols, d);
      LastWriteBlock(row0, col0, init, i, j, rows, cols, d);
      LastWriteRow(row0 + n - 1, col0, t[n - 1], i, j, rows, cols,
        LastWrite(BlockRecords(row0, col0, init), i, j, rows, cols, d));
    }
  }

  /** Every record of a block lies inside it. */
  lemma {:induction false} BlockRecordsInside(row0: int, col0: int, t: Table)
    ensures forall k :: 0 <= k < |BlockRecords(row0, col0, t)| ==>
      row0 <= BlockRecords(row0, col0, t)[k].row < row0 + |t| &&
      col0 <= BlockRecords(row0, col0, t)[k].col &&
      BlockRecords(row0, col0, t)[k].col < col0 + |t[BlockRecords(row0, col0, t)[k].row - row0]|
  {
    if t != [] {
      var n := |t|;
      BlockRecordsInside(row0, col0, t[..n - 1]);
    }
  }

  /** The last record of a block whose last row is not empty is that row's
      last cell. */
  lemma BlockRecordsLast(row0: int, col0: int, t: Table)
    requires |t| > 0 && |t[|t| - 1]| > 0
    ensures |BlockRecords(row0, col0, t)| > 0
    ensures BlockRecords(row0, col0, t)[|BlockRecords(row0, col0, t)| - 1] ==
      Record(row0 + |t| - 1, col0 + |t[|t| - 1]| - 1, t[|t| - 1][|t[|t| - 1]| - 1])
  {
  }

  /** The shape of the materialised writes of a rectangular table with at
      least one cell. */
  lemma TableShape(t: Table, cols: nat)
    requires |t| > 0 && cols > 0 && Rectangular(t, |t|, cols)
    ensures |BlockRecords(0, 0, t)| > 0
    ensures MaxRow(BlockRecords(0, 0, t)) == |t| - 1
    ensures MaxCol(BlockRecords(0, 0, t)) == cols - 1
    ensures AllInBounds(BlockRecords(0, 0, t), |t|, cols)
  {
    var recs := BlockRecords(0, 0, t);
    BlockRecordsInside(0, 0, t);
    BlockRecordsLast(0, 0, t);
    assert recs[|recs| - 1].row == |t| - 1 && recs[|recs| - 1].col == cols - 1;
    MaxRowAtMost(recs, |t| - 1);
    MaxColAtMost(recs, cols - 1);
  }

  /** A replay onto a blank table whose every cell's last write is the
      matching cell of `t` gives `t`. */
  lemma ReplayIs(recs: seq<Record>, rows: nat, cols: nat, t: Table)
    requires AllInBounds(recs, rows, cols) && Rectangular(t, rows, cols)
    requires forall i, j :: 0 <= i < rows && 0 <= j < cols ==>
      LastWrite(recs, i, j, rows, cols, EmptyStr) == t[i][j]
    ensures Replay(Blank(rows, cols), recs, rows, cols) == t
  {
    var g := Replay(Blank(rows, cols), recs, rows, cols);
    forall i | 0 <= i < rows
      ensures g[i] == t[i]
    {
      forall j | 0 <= j < cols
        ensures g[i][j] == t[i][j]
      {
        ReplayAt(Blank(rows, cols), recs, rows, cols, i, j);
      }
    }
  }

  lemma BlockCell(t: Table, cols: nat, i: nat, j: nat)
    requires Rectangular(t, |t|, cols) && i < |t| && j < cols
    ensures LastWrite(BlockRecords(0, 0, t), i, j, |t|, cols, EmptyStr) == t[i][j]
  {
    LastWriteBlock(0, 0, t, i, j, |t|, cols, EmptyStr);
  }

  /** `list_to_*` write each row at its own index: materialising the writes
      of a rectangular table with at least one cell gives the table back. */
  lemma {:induction false} TableRoundTrip(t: Table, cols: nat)
    requires |t| > 0 && cols > 0 && Rectangular(t, |t|, cols)
    ensures Materialize(BlockRecords(0, 0, t)) == Ok(t)
  {
    var recs := BlockRecords(0, 0, t);
    TableShape(t, cols);
    forall i, j | 0 <= i < |t| && 0 <= j < cols
      ensures LastWrite(recs, i, j, |t|, cols, EmptyStr) == t[i][j]
    {
      BlockCell(t, cols, i, j);
    }
    ReplayIs(recs, |t|, cols, t);
  }

  /** A column written from a non-negative position sets exactly the cells
      it covers. */
  lemma {:induction false} LastWriteColumn(col: nat, values: seq<Value>, i: int, j: int, rows: int, cols: int, d: Value)
    ensures LastWrite(ColumnRecords(col, values), i, j, rows, cols, d) ==
      if j == col && 0 <= i < |values| then values[i] else d
  {
    var recs := ColumnRecords(col, values);
    if values != [] {
      var n := |values|;
      assert recs[..n - 1] == ColumnRecords(col, values[..n - 1]);
      LastWriteColumn(col, values[..n - 1], i, j, rows, cols, d);
    }
  }

  /** Where block cell `(r, c)` lies among the block's records. */
  lemma {:induction false} BlockRecordIndex(row0: int, col0: int, t: Table, r: nat, c: nat) returns (k: nat)
    requires r < |t| && c < |t[r]|
    ensures k < |BlockRecords(row0, col0, t)|
    ensures BlockRecords(row0, col0, t)[k] == Record(row0 + r, col0 + c, t[r][c])
  {
    var n := |t|;
    var init := t[..n - 1];
    if r == n - 1 {
      k := |BlockRecords(row0, col0, init)| + c;
    } else {
      k := BlockRecordIndex(row0, col0, init, r, c);
    }
  }

  /** Records that all miss cell `(i, j)` leave what was there. */
  lemma {:induction false} LastWriteMiss(recs: seq<Record>, i: int, j: int, rows: int, cols: int, d: Value)
    requires forall k :: 0 <= k < |recs| ==>
      Norm(recs[k].row, rows) != i || Norm(recs[k].col, cols) != j
    ensures LastWrite(recs, i, j, rows, cols, d) == d
  {
    if recs != [] {
      LastWriteMiss(recs[..|recs| - 1], i, j, rows, cols, d);
    }
  }

  /** Records at non-negative positions land on the same cells whatever
      the size of the table. */
  lemma {:induction false} LastWriteNonNegative(recs: seq<Record>, i: int, j: int, rows: int, cols: int, rows2: int, cols2: int, d: Value)
    requires forall k :: 0 <= k < |recs| ==> recs[k].row >= 0 && recs[k].col >= 0
    ensures LastWrite(recs, i, j, rows, cols, d) == LastWrite(recs, i, j, rows2, cols2, d)
  {
    if recs != [] {
      LastWriteNonNegative(recs[..|recs| - 1], i, j, rows, cols, rows2, cols2, d);
    }
  }

  /** More records never make the materialised table smaller. */
  lemma MaterializeGrows(a: seq<Record>, b: seq<Record>)
    requires Materialize(a).Ok? && Materialize(a + b).Ok?
    ensures |Materialize(a + b).value| >= |Materialize(a).value|
    ensures |Materialize(a + b).value[0]| >= |Materialize(a).value[0]|
  {
    var ab := a + b;
    assert forall k :: 0 <= k < |a| ==> a[k] == ab[k];
    MaxRowAtMost(a, MaxRow(ab));
    MaxColAtMost(a, MaxCol(ab));
  }

  /** With records at non-negative positions only, later records that miss
      cell `(i, j)` of the earlier table leave its value. */
  lemma MaterializeKeeps(a: seq<Record>, b: seq<Record>, i: nat, j: nat)
    requires forall k :: 0 <= k < |a| ==> a[k].row >= 0 && a[k].col >= 0
    requires forall k :: 0 <= k < |b| ==> b[k].row >= 0 && b[k].col >= 0
    requires forall k :: 0 <= k < |b| ==> b[k].row != i || b[k].col != j
    requires Materialize(a).Ok? && Materialize(a + b).Ok?
    requires i < |Materialize(a).value| && j < |Materialize(a).value[i]|
    ensures i < |Materialize(a + b).value| && j < |Materialize(a + b).value[i]|
    ensures Materialize(a + b).value[i][j] == Materialize(a).value[i][j]
  {
    MaterializeGrows(a, b);
    var rows, cols := MaxRow(a) + 1, MaxCol(a) + 1;
    var rows2, cols2 := MaxRow(a + b) + 1, MaxCol(a + b) + 1;
    MaterializeAt(a, i, j);
    MaterializeAt(a + b, i, j);
    LastWriteAppend(a, b, i, j, rows2, cols2, EmptyStr);
    LastWriteNonNegative(a, i, j, rows, cols, rows2, cols2, EmptyStr);
    forall k | 0 <= k < |b|
      ensures Norm(b[k].row, rows2) != i || Norm(b[k].col, cols2) != j
    {
    }
    LastWriteMiss(b, i, j, rows2, cols2, LastWrite(a, i, j, rows2, cols2, EmptyStr));
  }

  // ----- the three grid kinds and their results -----

  /** `ListGrid`, `ColumnDictGrid` and `RecordGrid`. */
  datatype GridKind = ListKind | ColumnDictKind | RecordKind

  /** What `get()` returns for each kind of grid. */
  datatype Projection =
    | Rows(rows: Table)
    | Columns(columns: Dict<Value, seq<Value>>)
    | Records(records: seq<Dict<Value, Value>>)
  {
    /** Python truthiness of the list or dict. */
    predicate Truthy()
    {
      match this
      case Rows(t) => |t| > 0
      case Columns(d) => |d.keys| > 0
      case Records(rs) => |rs| > 0
    }
  }

  /** `ColumnDictGrid._calc_grid` on the table: the first row is the header,
      each header maps to its column below it (cut to the shortest, and
      nothing at all when there is no row below); a repeated header keeps
      its first position and its last column. */
  function ColumnDictOf(t: Table): (d: Dict<Value, seq<Value>>)
    requires |t| > 0
    ensures d.Valid()
  {
    FromPairs(Zip(t[0], Transpose(t[1..])))
  }

  /** `RecordGrid._calc_grid` on the table: each row below the header as a
      dict from header to value. */
  function RecordsOf(t: Table): (rs: seq<Dict<Value, Value>>)
    requires |t| > 0
    ensures |rs| == |t| - 1
    ensures forall k :: 0 <= k < |rs| ==> rs[k].Valid()
  {
    seq(|t| - 1, k requires 0 <= k < |t| - 1 => FromPairs(Zip(t[0], t[k + 1])))
  }

  /** `_calc_grid` of each kind. */
  function Calc(kind: GridKind, recs: seq<Record>): (r: Result<Projection>)
    ensures r.Err? <==> Materialize(recs).Err?
    ensures r.Ok? ==> (kind == ListKind <==> r.value.Rows?)
  {
    var t :- Materialize(recs);
    match kind
    case ListKind => Ok(Rows(t))
    case ColumnDictKind => Ok(Columns(ColumnDictOf(t)))
    case RecordKind => Ok(Records(RecordsOf(t)))
  }

  /** A grid: the records written so far and the cached result of the
      last `get()`. */
  class Grid {
    const kind: GridKind
    var records: seq<Record>
    var cache: Option<Projection>

    /** `Grid.__init__`: no records, nothing cached. */
    constructor (kind: GridKind)
      ensures this.kind == kind && records == [] && cache == None
    {
      this.kind := kind;
      records := [];
      cache := None;
    }

    /** `cell(row, col, value)`: one more record; the cache is left as it
        is, so a cached result does not see the new record. */
    method Cell(row: int, col: int, value: Value)
      modifies this
      ensures records == old(records) + [Record(row, col, value)]
      ensures cache == old(cache)
    {
      records := records + [Record(row, col, value)];
    }

    /** `row(row, values)`: the values written left to right from column 0. */
    method Row(row: int, values: seq<Value>)
      modifies this
      ensures records == old(records) + RowRecords(row, 0, values)
      ensures cache == old(cache)
    {
      for i := 0 to |values|
        invariant records == old(records) + RowRecords(row, 0, values[..i])
        invariant cache == old(cache)
      {
        Cell(row, i, values[i]);
        assert RowRecords(row, 0, values[..i + 1]) == RowRecords(row, 0, values[..i]) + [Record(row, i, values[i])];
      }
      assert values[..|values|] == values;
    }

    /** `column(col, values)`: the values written top to bottom from row 0. */
    method Column(col: int, values: seq<Value>)
      modifies this
      ensures records == old(records) + ColumnRecords(col, values)
      ensures cache == old(cache)
    {
      for i := 0 to |values|
        invariant records == old(records) + ColumnRecords(col, values[..i])
        invariant cache == old(cache)
      {
        Cell(i, col, values[i]);
        assert ColumnRecords(col, values[..i + 1]) == ColumnRecords(col, values[..i]) + [Record(i, col, values[i])];
      }
      assert values[..|values|] == values;
    }

    /** `get()`: a truthy cached result is returned as it is; otherwise the
        result is computed from the records and cached.  An empty dict or
        list is falsy and so is computed afresh on every call. */
    method Get() returns (r: Result<Projection>)
      modifies this
      ensures records == old(records)
      ensures old(cache).Some? && old(cache).value.Truthy() ==>
        r == Ok(old(cache).value) && cache == old(cache)
      ensures !(old(cache).Some? && old(cache).value.Truthy()) ==>
        r == Calc(kind, records) &&
        cache == (if r.Ok? then Some(r.value) else old(cache))
    {
      if cache.Some? && cache.value.Truthy() {
        return Ok(cache.value);
      }
      r := CalcGrid(kind, records);
      if r.Ok? {
        cache := Some(r.value);
      }
    }
  }

  /** `_calc_grid` of each kind, as the grid classes compute it. */
  method CalcGrid(kind: GridKind, recs: seq<Record>) returns (r: Result<Projection>)
    ensures r == Calc(kind, recs)
  {
    var t := CalcListGrid(recs);
    if t.Err? {
      return Err(t.error);
    }
    match kind {
      case ListKind =>
        r := Ok(Rows(t.value));
      case ColumnDictKind =>
        var d := ColumnDictGrid(t.value);
        r := Ok(Columns(d));
      case RecordKind =>
        var rs := RecordGrid(t.value);
        r := Ok(Records(rs));
    }
  }

  /** `ListGrid._calc_grid`: a blank table of the computed size, then every
      record written in order. */
  method CalcListGrid(recs: seq<Record>) returns (r: Result<Table>)
    ensures r == Materialize(recs)
  {
    if |recs| == 0 {
      return Err(ValueError);
    }
    var rows, cols := MaxRow(recs) + 1, MaxCol(recs) + 1;
    var g: Table := [];
    var i := 0;
    while i < rows
      invariant 0 <= i <= (if rows < 0 then 0 else rows)
      invariant g == Blank(i, if cols < 0 then 0 else cols)
    {
      var temp: seq<Value> := [];
      var j := 0;
      while j < cols
        invariant 0 <= j <= (if cols < 0 then 0 else cols)
        invariant temp == seq(j, _ => EmptyStr)
      {
        temp := temp + [EmptyStr];
        j := j + 1;
      }
      g := g + [temp];
      i := i + 1;
    }
    for k := 0 to |recs|
      invariant AllInBounds(recs[..k], rows, cols)
      invariant rows > 0 && cols > 0 ==> g == Replay(Blank(rows, cols), recs[..k], rows, cols)
    {
      if !InBounds(recs[k], rows, cols) {
        assert !AllInBounds(recs, rows, cols);
        return Err(IndexError);
      }
      var rec := recs[k];
      assert recs[..k + 1][..k] == recs[..k];
      g := g[Norm(rec.row, rows) := g[Norm(rec.row, rows)][Norm(rec.col, cols) := rec.value]];
    }
    assert recs[..|recs|] == recs;
    return Ok(g);
  }

  /** `ColumnDictGrid._calc_grid` after the table is built: the header
      zipped with the transposed body, assigned key by key. */
  method ColumnDictGrid(t: Table) returns (d: Dict<Value, seq<Value>>)
    requires |t| > 0
    ensures d == ColumnDictOf(t)
  {
    var header := t[0];
    var data := Transpose(t[1..]);
    var pairs := Zip(header, data);
    d := Empty();
    for k := 0 to |pairs|
      invariant d == FromPairs(pairs[..k])
    {
      assert pairs[..k + 1][..k] == pairs[..k];
      d := Put(d, pairs[k].0, pairs[k].1);
    }
    assert pairs[..|pairs|] == pairs;
  }

  /** `RecordGrid._calc_grid` after the table is built: one dict per row
      below the header. */
  method RecordGrid(t: Table) returns (rs: seq<Dict<Value, Value>>)
    requires |t| > 0
    ensures rs == RecordsOf(t)
  {
    var header := t[0];
    rs := [];
    for k := 0 to |t| - 1
      invariant rs == RecordsOf(t)[..k]
    {
      rs := rs + [FromPairs(Zip(header, t[k + 1]))];
    }
  }

  // ----- list_to_column_dict and list_to_records -----

  /** What `list_to_column_dict(li)` returns: row `i` of `li` written at row
      `i`, then the column dict of the materialised table. */
  function ColumnDictFromList(li: Table): Result<Dict<Value, seq<Value>>>
  {
    var t :- Materialize(BlockRecords(0, 0, li));
    Ok(ColumnDictOf(t))
  }

  /** What `list_to_records(li)` returns. */
  function RecordsFromList(li: Table): Result<seq<Dict<Value, Value>>>
  {
    var t :- Materialize(BlockRecords(0, 0, li));
    Ok(RecordsOf(t))
  }

  /** `list_to_column_dict(li)`: a fresh column-dict grid fed row by row. */
  method ListToColumnDict(li: Table) returns (r: Result<Dict<Value, seq<Value>>>)
    ensures r == ColumnDictFromList(li)
  {
    var grid := new Grid(ColumnDictKind);
    for i := 0 to |li|
      invariant grid.records == BlockRecords(0, 0, li[..i]) && grid.cache == None
    {
      grid.Row(i, li[i]);
      assert li[..i + 1][..i] == li[..i];
    }
    assert li[..|li|] == li;
    var p := grid.Get();
    if p.Err? {
      return Err(p.error);
    }
    return Ok(p.value.columns);
  }

  /** `list_to_records(li)`: a fresh record grid fed row by row. */
  method ListToRecords(li: Table) returns (r: Result<seq<Dict<Value, Value>>>)
    ensures r == RecordsFromList(li)
  {
    var grid := new Grid(RecordKind);
    for i := 0 to |li|
      invariant grid.records == BlockRecords(0, 0, li[..i]) && grid.cache == None
    {
      grid.Row(i, li[i]);
      assert li[..i + 1][..i] == li[..i];
    }
    assert li[..|li|] == li;
    var p := grid.Get();
    if p.Err? {
      return Err(p.error);
    }
    return Ok(p.value.records);
  }

  /** No cell at all (no rows, or only empty rows) fails like `max([])`. */
  lemma EmptyListRejected(li: Table)
    requires forall i :: 0 <= i < |li| ==> li[i] == []
    ensures ColumnDictFromList(li) == Err(ValueError)
    ensures RecordsFromList(li) == Err(ValueError)
  {
    EmptyRowsNoRecords(li);
  }

  lemma {:induction false} EmptyRowsNoRecords(li: Table)
    requires forall i :: 0 <= i < |li| ==> li[i] == []
    ensures BlockRecords(0, 0, li) == []
  {
    if li != [] {
      EmptyRowsNoRecords(li[..|li| - 1]);
    }
  }

  predicate DistinctHeader(t: Table)
    requires |t| > 0
  {
    forall i, j :: 0 <= i < j < |t[0]| ==> t[0][i] != t[0][j]
  }

  /** The column dict of a rectangular table with a distinct header maps
      each header, in order, to the column below it. */
  lemma ColumnDictOfTable(t: Table, cols: nat)
    requires |t| >= 2 && cols > 0 && Rectangular(t, |t|, cols) && DistinctHeader(t)
    ensures ColumnDictOf(t).keys == t[0]
    ensures ValueList(ColumnDictOf(t)) == Transpose(t[1..])
  {
    var body := t[1..];
    TransposeTwice(body, cols);
    var pairs := Zip(t[0], Transpose(body));
    FromDistinctPairs(pairs);
    assert Firsts(pairs) == t[0];
  }

  /** A rectangular table with a header of distinct names and at least one
      row below it survives `list_to_column_dict` then
      `column_dict_to_list`. */
  lemma ColumnDictRoundTrip(t: Table, cols: nat)
    requires |t| >= 2 && cols > 0 && Rectangular(t, |t|, cols) && DistinctHeader(t)
    ensures ColumnDictFromList(t).Ok?
    ensures ColumnDictFromList(t).value.keys == t[0]
    ensures Utils.ColumnDictToList(ColumnDictFromList(t).value) == t
  {
    FromListOfTable(t, cols);
    ColumnDictOfTable(t, cols);
    ColumnDictToListOfTable(t, cols);
  }

  /** `column_dict_to_list` undoes `ColumnDictGrid` on a table with a
      distinct header and a row below it. */
  lemma ColumnDictToListOfTable(t: Table, cols: nat)
    requires |t| >= 2 && cols > 0 && Rectangular(t, |t|, cols) && DistinctHeader(t)
    ensures Utils.ColumnDictToList(ColumnDictOf(t)) == t
  {
    var d := ColumnDictOf(t);
    ColumnDictOfTable(t, cols);
    var body := t[1..];
    TransposeTwice(body, cols);
    var back := Utils.ColumnDictToList(d);
    assert back == [t[0]] + Transpose(Transpose(body));
    assert [t[0]] + body == t;
  }

  /** A header-only table gives an empty dict, which `get()` never caches,
      and no records. */
  lemma HeaderOnly(header: seq<Value>)
    requires |header| > 0
    ensures ColumnDictFromList([header]) == Ok(Empty())
    ensures !Columns(Empty()).Truthy()
    ensures RecordsFromList([header]) == Ok([])
  {
    var t := [header];
    FromListOfTable(t, |header|);
    assert t[1..] == [];
    assert Zip(header, Transpose(t[1..])) == [];
    assert RecordsOf(t) == [];
  }

  /** A rectangular table with a header of distinct names and at least one
      row below it survives `list_to_records` then `records_to_list`. */
  lemma RecordsRoundTrip(t: Table, cols: nat)
    requires |t| >= 2 && cols > 0 && Rectangular(t, |t|, cols) && DistinctHeader(t)
    ensures RecordsFromList(t).Ok?
    ensures Utils.RecordsTable(RecordsFromList(t).value) == t
  {
    FromListOfTable(t, cols);
    RecordsTableOfRecords(t, cols);
  }

  /** Both `list_to_*` of a rectangular table with at least one cell work
      on the table itself. */
  lemma FromListOfTable(t: Table, cols: nat)
    requires |t| > 0 && cols > 0 && Rectangular(t, |t|, cols)
    ensures ColumnDictFromList(t) == Ok(ColumnDictOf(t))
    ensures RecordsFromList(t) == Ok(RecordsOf(t))
  {
    TableRoundTrip(t, cols);
  }

  /** `records_to_list` undoes `RecordGrid` on a table with a distinct
      header and a row below it. */
  lemma RecordsTableOfRecords(t: Table, cols: nat)
    requires |t| >= 2 && Rectangular(t, |t|, cols) && DistinctHeader(t)
    ensures Utils.RecordsTable(RecordsOf(t)) == t
  {
    var rs := RecordsOf(t);
    RecordsOfRows(t, cols);
    var back := Utils.RecordsTable(rs);
    forall i | 0 <= i < |t| ensures back[i] == t[i] {
      if i > 0 {
        assert back[(i - 1) + 1] == ValueList(rs[i - 1]);
      }
    }
  }

  /** Each record of a rectangular table with a distinct header has the
      header as keys and its row as values. */
  lemma RecordsOfRows(t: Table, cols: nat)
    requires |t| >= 1 && Rectangular(t, |t|, cols) && DistinctHeader(t)
    ensures forall k :: 0 <= k < |t| - 1 ==>
      RecordsOf(t)[k].keys == t[0] && ValueList(RecordsOf(t)[k]) == t[k + 1]
  {
    var rs := RecordsOf(t);
    forall k | 0 <= k < |rs|
      ensures rs[k].keys == t[0] && ValueList(rs[k]) == t[k + 1]
    {
      assert rs[k] == FromPairs(Zip(t[0], t[k + 1]));
      RecordOfRow(t[0], t[k + 1]);
    }
  }

  /** `dict(zip(header, row))` for a distinct header and a row as long. */
  lemma RecordOfRow(header: seq<Value>, row: seq<Value>)
    requires |row| == |header|
    requires forall i, j :: 0 <= i < j < |header| ==> header[i] != header[j]
    ensures FromPairs(Zip(header, row)).keys == header
    ensures ValueList(FromPairs(Zip(header, row))) == row
  {
    var pairs := Zip(header, row);
    FromDistinctPairs(pairs);
    assert Firsts(pairs) == header;
  }

  /** A dict of equally long, non-empty columns survives
      `column_dict_to_list` then `list_to_column_dict`. */
  lemma ColumnListRoundTrip(d: Dict<Value, seq<Value>>, n: nat)
    requires d.Valid() && |d.keys| > 0 && n > 0
    requires forall k :: k in d.entries ==> |d.entries[k]| == n
    ensures ColumnDictFromList(Utils.ColumnDictToList(d)) == Ok(d)
  {
    var t := Utils.ColumnDictToList(d);
    ColumnDictToListShape(d, n);
    FromListOfTable(t, |d.keys|);
    ColumnDictOfList(d, n);
  }

  /** `column_dict_to_list` of equally long non-empty columns is a
      rectangular table with the keys as header. */
  lemma ColumnDictToListShape(d: Dict<Value, seq<Value>>, n: nat)
    requires d.Valid() && |d.keys| > 0 && n > 0
    requires forall k :: k in d.entries ==> |d.entries[k]| == n
    ensures Rectangular(Utils.ColumnDictToList(d), n + 1, |d.keys|)
    ensures Utils.ColumnDictToList(d)[1..] == Transpose(ValueList(d))
  {
    var cols := ValueList(d);
    TransposeTwice(cols, n);
    var t := Utils.ColumnDictToList(d);
    assert t == [d.keys] + Transpose(cols);
  }

  /** `ColumnDictGrid` undoes `column_dict_to_list`. */
  lemma ColumnDictOfList(d: Dict<Value, seq<Value>>, n: nat)
    requires d.Valid() && |d.keys| > 0 && n > 0
    requires forall k :: k in d.entries ==> |d.entries[k]| == n
    ensures ColumnDictOf(Utils.ColumnDictToList(d)) == d
  {
    var cols := ValueList(d);
    TransposeTwice(cols, n);
    var t := Utils.ColumnDictToList(d);
    assert t[0] == d.keys && t[1..] == Transpose(cols);
    FromOwnPairs(d, Zip(d.keys, cols));
  }
}
