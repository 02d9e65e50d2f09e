/** The sheet of an Excel document: every change is written to a list grid
    and the whole table is then rebuilt from all the grid's records into
    `data`, which every read indexes. */
module Sheet {
  import opened Wrappers
  import opened Values
  import opened PyList
  import opened Grid
  import CellRange
  import BaseReader
  import BaseWriter

  /** A table with at least one row whose rows all have the first row's
      length. */
  predicate Shaped(t: Table)
  {
    |t| > 0 && Rectangular(t, |t|, |t[0]|)
  }

  /** `t[row][col]` with Python subscripts. */
  function CellAt(t: Table, row: int, col: int): (r: Result<Value>)
    ensures r.Err? ==> r.error == IndexError
    ensures Shaped(t) ==> (r.Ok? <==> -|t| <= row < |t| && -|t[0]| <= col < |t[0]|)
    ensures 0 <= row < |t| && 0 <= col < |t[row]| ==> r == Ok(t[row][col])
  {
    var values :- Index(t, row);
    Index(values, col)
  }

  /** `[t[r][col] for r in range(len(t))]`: IndexError at the first row
      without that column. */
  function ColumnOf(t: Table, col: int): (r: Result<seq<Value>>)
    ensures r.Ok? <==> forall i :: 0 <= i < |t| ==> Index(t[i], col).Ok?
    ensures r.Err? ==> r.error == IndexError
    ensures r.Ok? ==> |r.value| == |t| && forall i :: 0 <= i < |t| ==> Index(t[i], col) == Ok(r.value[i])
  {
    if t == [] then Ok([])
    else
      var init :- ColumnOf(t[..|t| - 1], col);
      var v :- Index(t[|t| - 1], col);
      assert forall i :: 0 <= i < |t| - 1 ==> t[..|t| - 1][i] == t[i];
      Ok(init + [v])
  }

  // ----- what the rebuilt table holds -----

  /** Each recorded write lands on a cell of the rebuilt table, which
      holds the last value written there. */
  lemma {:induction false} MaterializedCell(all: seq<Record>, k: nat)
    requires Materialize(all).Ok? && k < |all|
    ensures var rows, cols := MaxRow(all) + 1, MaxCol(all) + 1;
      CellAt(Materialize(all).value, all[k].row, all[k].col) ==
        Ok(LastWrite(all, Norm(all[k].row, rows), Norm(all[k].col, cols), rows, cols, EmptyStr))
  {
    var t := Materialize(all).value;
    var rows, cols := MaxRow(all) + 1, MaxCol(all) + 1;
    assert InBounds(all[k], rows, cols);
    var i, j := Norm(all[k].row, rows), Norm(all[k].col, cols);
    MaterializeAt(all, i, j);
    assert Index(t, all[k].row) == Ok(t[i]);
  }

  /** A cell at a non-negative position that some record wrote reads back
      the last value written there. */
  lemma {:induction false} MaterializedAt(all: seq<Record>, k: nat, i: nat, j: nat, v: Value)
    requires Materialize(all).Ok? && k < |all| && all[k].row == i && all[k].col == j
    requires LastWrite(all, i, j, MaxRow(all) + 1, MaxCol(all) + 1, EmptyStr) == v
    ensures CellAt(Materialize(all).value, i, j) == Ok(v)
  {
    MaterializedCell(all, k);
  }

  /** The cell just written reads back, and the table reaches it. */
  lemma {:induction false} WrittenCellReads(recs: seq<Record>, rec: Record)
    requires Materialize(recs + [rec]).Ok?
    ensures var t := Materialize(recs + [rec]).value;
      CellAt(t, rec.row, rec.col) == Ok(rec.value) &&
      (rec.row >= 0 ==> rec.row < |t|) && (rec.col >= 0 ==> rec.col < |t[0]|)
  {
    MaterializedCell(recs + [rec], |recs|);
  }

  /** The records of a row just written: where value `k` lies, and the
      last write on its cell. */
  lemma {:induction false} RowWrite(recs: seq<Record>, row: nat, values: seq<Value>, k: nat, rows: int, cols: int)
    requires k < |values|
    ensures var all := recs + RowRecords(row, 0, values);
      |recs| + k < |all| && all[|recs| + k] == Record(row, k, values[k]) &&
      LastWrite(all, row, k, rows, cols, EmptyStr) == values[k]
  {
    var w := RowRecords(row, 0, values);
    assert (recs + w)[|recs| + k] == w[k];
    LastWriteAppend(recs, w, row, k, rows, cols, EmptyStr);
    LastWriteRow(row, 0, values, row, k, rows, cols, LastWrite(recs, row, k, rows, cols, EmptyStr));
  }

  /** Value `k` of a row just written from column 0 reads back. */
  lemma {:induction false} WrittenRowCell(recs: seq<Record>, row: nat, values: seq<Value>, k: nat)
    requires Materialize(recs + RowRecords(row, 0, values)).Ok? && k < |values|
    ensures CellAt(Materialize(recs + RowRecords(row, 0, values)).value, row, k) == Ok(values[k])
  {
    var all := recs + RowRecords(row, 0, values);
    var at := |recs| + k;
    assert at < |all| && all[at].row == row && all[at].col == k &&
      LastWrite(all, row, k, MaxRow(all) + 1, MaxCol(all) + 1, EmptyStr) == values[k] by {
      RowWrite(recs, row, values, k, MaxRow(all) + 1, MaxCol(all) + 1);
    }
    MaterializedAt(all, at, row, k, values[k]);
  }

  /** Every value of a row just written from column 0 reads back. */
  lemma {:induction false} WrittenRowReads(recs: seq<Record>, row: nat, values: seq<Value>)
    requires Materialize(recs + RowRecords(row, 0, values)).Ok?
    ensures var t := Materialize(recs + RowRecords(row, 0, values)).value;
      forall k :: 0 <= k < |values| ==> CellAt(t, row, k) == Ok(values[k])
  {
    forall k | 0 <= k < |values|
      ensures CellAt(Materialize(recs + RowRecords(row, 0, values)).value, row, k) == Ok(values[k])
    {
      WrittenRowCell(recs, row, values, k);
    }
  }

  /** The records of a column just written: where value `k` lies, and
      the last write on its cell. */
  lemma {:induction false} ColumnWrite(recs: seq<Record>, col: nat, values: seq<Value>, k: nat, rows: int, cols: int)
    requires k < |values|
    ensures var all := recs + ColumnRecords(col, values);
      |recs| + k < |all| && all[|recs| + k] == Record(k, col, values[k]) &&
      LastWrite(all, k, col, rows, cols, EmptyStr) == values[k]
  {
    var w := ColumnRecords(col, values);
    assert (recs + w)[|recs| + k] == w[k];
    LastWriteAppend(recs, w, k, col, rows, cols, EmptyStr);
    LastWriteColumn(col, values, k, col, rows, cols, LastWrite(recs, k, col, rows, cols, EmptyStr));
  }

  /** Value `k` of a column just written from row 0 reads back. */
  lemma {:induction false} WrittenColumnCell(recs: seq<Record>, col: nat, values: seq<Value>, k: nat)
    requires Materialize(recs + ColumnRecords(col, values)).Ok? && k < |values|
    ensures CellAt(Materialize(recs + ColumnRecords(col, values)).value, k, col) == Ok(values[k])
  {
    var all := recs + ColumnRecords(col, values);
    var at := |recs| + k;
    assert at < |all| && all[at].row == k && all[at].col == col &&
      LastWrite(all, k, col, MaxRow(all) + 1, MaxCol(all) + 1, EmptyStr) == values[k] by {
      ColumnWrite(recs, col, values, k, MaxRow(all) + 1, MaxCol(all) + 1);
    }
    MaterializedAt(all, at, k, col, values[k]);
  }

  /** Every value of a column just written from row 0 reads back. */
  lemma {:induction false} WrittenColumnReads(recs: seq<Record>, col: nat, values: seq<Value>)
    requires Materialize(recs + ColumnRecords(col, values)).Ok?
    ensures var t := Materialize(recs + ColumnRecords(col, values)).value;
      forall k :: 0 <= k < |values| ==> CellAt(t, k, col) == Ok(values[k])
  {
    forall k | 0 <= k < |values|
      ensures CellAt(Materialize(recs + ColumnRecords(col, values)).value, k, col) == Ok(values[k])
    {
      WrittenColumnCell(recs, col, values, k);
    }
  }

  /** The last write on cell `(rs + r, cs + c)` after a block written at a
      non-negative corner is the block's value there. */
  lemma {:induction false} BlockLastWrite(recs: seq<Record>, rs: nat, cs: nat, content: Table, r: nat, c: nat, rows: int, cols: int)
    requires r < |content| && c < |content[r]|
    ensures LastWrite(recs + BlockRecords(rs, cs, content), rs + r, cs + c, rows, cols, EmptyStr) == content[r][c]
  {
    var i, j := rs + r, cs + c;
    LastWriteAppend(recs, BlockRecords(rs, cs, content), i, j, rows, cols, EmptyStr);
    LastWriteBlock(rs, cs, content, i, j, rows, cols, LastWrite(recs, i, j, rows, cols, EmptyStr));
  }

  /** Cell `(r, c)` of a block just written at a non-negative corner reads
      back at its place. */
  lemma {:induction false} WrittenBlockCell(recs: seq<Record>, rs: nat, cs: nat, content: Table, r: nat, c: nat)
    requires Materialize(recs + BlockRecords(rs, cs, content)).Ok?
    requires r < |content| && c < |content[r]|
    ensures CellAt(Materialize(recs + BlockRecords(rs, cs, content)).value, rs + r, cs + c) == Ok(content[r][c])
  {
    var all := recs + BlockRecords(rs, cs, content);
    var k := BlockRecordIndex(rs, cs, content, r, c);
    var at := |recs| + k;
    assert at < |all| && all[at].row == rs + r && all[at].col == cs + c by {
      assert all[at] == BlockRecords(rs, cs, content)[k];
    }
    assert LastWrite(all, rs + r, cs + c, MaxRow(all) + 1, MaxCol(all) + 1, EmptyStr) == content[r][c] by {
      BlockLastWrite(recs, rs, cs, content, r, c, MaxRow(all) + 1, MaxCol(all) + 1);
    }
    MaterializedAt(all, at, rs + r, cs + c, content[r][c]);
  }

  /** Cell `(rs + r, cs + c)` of `t` holds `content[r][c]`, for every entry of
      `content`. */
  predicate BlockAt(t: Table, rs: int, cs: int, content: Table)
  {
    forall r, c :: 0 <= r < |content| && 0 <= c < |content[r]| ==>
      CellAt(t, rs + r, cs + c) == Ok(content[r][c])
  }

  /** Every value of a block just written at a non-negative corner reads
      back at its place. */
  lemma {:induction false} WrittenBlockReads(recs: seq<Record>, rs: nat, cs: nat, content: Table)
    requires Materialize(recs + BlockRecords(rs, cs, content)).Ok?
    ensures BlockAt(Materialize(recs + BlockRecords(rs, cs, content)).value, rs, cs, content)
  {
    forall r, c | 0 <= r < |content| && 0 <= c < |content[r]|
      ensures CellAt(Materialize(recs + BlockRecords(rs, cs, content)).value, rs + r, cs + c) == Ok(content[r][c])
    {
      WrittenBlockCell(recs, rs, cs, content, r, c);
    }
  }

  /** The slice `lo .. lo + |want|` of a row that holds `want` there. */
  lemma {:induction false} SliceHolds(row: seq<Value>, lo: nat, want: seq<Value>)
    requires lo + |want| <= |row|
    requires forall c :: 0 <= c < |want| ==> row[lo + c] == want[c]
    ensures Slice(row, lo, lo + |want|) == want
  {
  }

  /** A range with at least one cell and a non-negative corner reads back
      `content` when each of its cells holds the matching value. */
  lemma {:induction false} RangeReadsBack(t: Table, rng: CellRange.CellRange, content: Table)
    requires 0 <= rng.rowStart <= rng.rowEnd && 0 <= rng.colStart <= rng.colEnd
    requires Rectangular(content, BaseReader.Span(rng.rowStart, rng.rowEnd), BaseReader.Span(rng.colStart, rng.colEnd))
    requires BlockAt(t, rng.rowStart, rng.colStart, content)
    ensures BaseReader.RangeOf(t, rng) == Ok(content)
  {
    var rs, cs, ce := rng.rowStart, rng.colStart, rng.colEnd;
    var n, w := |content|, ce - cs + 1;
    forall i | rs <= i < rs + n
      ensures 0 <= i < |t| && Index(t, i) == Ok(t[i]) && ce < |t[i]|
    {
      assert CellAt(t, i, cs + (w - 1)) == Ok(content[i - rs][w - 1]);
    }
    var r := BaseReader.RangeRows(t, rs, n, cs, ce + 1);
    forall k | 0 <= k < n
      ensures r.value[k] == content[k]
    {
      var row := t[rs + k];
      forall c | 0 <= c < w
        ensures row[cs + c] == content[k][c]
      {
        assert CellAt(t, rs + k, cs + c) == Ok(content[k][c]);
      }
      SliceHolds(row, cs, content[k]);
    }
    assert r.value == content;
  }

  /** A block written over a non-empty range with a non-negative corner reads
      back, as a range, the block it wrote. */
  lemma {:induction false} WrittenBlockRange(recs: seq<Record>, rng: CellRange.CellRange, content: Table)
    requires 0 <= rng.rowStart <= rng.rowEnd && 0 <= rng.colStart <= rng.colEnd
    requires Rectangular(content, BaseReader.Span(rng.rowStart, rng.rowEnd), BaseReader.Span(rng.colStart, rng.colEnd))
    requires Materialize(recs + BlockRecords(rng.rowStart, rng.colStart, content)).Ok?
    ensures BaseReader.RangeOf(Materialize(recs + BlockRecords(rng.rowStart, rng.colStart, content)).value, rng) == Ok(content)
  {
    WrittenBlockReads(recs, rng.rowStart, rng.colStart, content);
    RangeReadsBack(Materialize(recs + BlockRecords(rng.rowStart, rng.colStart, content)).value, rng, content);
  }

  /** Content of exactly the range's shape is written whole, row by row. */
  lemma RangeWritesWhole(rs: int, cs: int, n: nat, ncols: nat, content: Table)
    requires Rectangular(content, n, ncols)
    ensures BaseWriter.RangeWrites(rs, cs, n, ncols, content) == BaseWriter.Writes(BlockRecords(rs, cs, content), true)
  {
    BaseWriter.RangeWritesOfTable(rs, cs, n, ncols, content);
    assert content[..n] == content;
  }

  /** `set_range` with content of exactly the range's shape writes every
      cell, and the range then reads back that content. */
  lemma {:induction false} WrittenRangeReads(recs: seq<Record>, rng: CellRange.CellRange, content: Table)
    requires 0 <= rng.rowStart <= rng.rowEnd && 0 <= rng.colStart <= rng.colEnd
    requires Rectangular(content, BaseReader.Span(rng.rowStart, rng.rowEnd), BaseReader.Span(rng.colStart, rng.colEnd))
    requires Materialize(recs + BaseWriter.RangeWrites(rng.rowStart, rng.colStart,
      BaseReader.Span(rng.rowStart, rng.rowEnd), BaseReader.Span(rng.colStart, rng.colEnd), content).records).Ok?
    ensures BaseWriter.RangeWrites(rng.rowStart, rng.colStart,
      BaseReader.Span(rng.rowStart, rng.rowEnd), BaseReader.Span(rng.colStart, rng.colEnd), content).complete
    ensures BaseReader.RangeOf(Materialize(recs + BaseWriter.RangeWrites(rng.rowStart, rng.colStart,
      BaseReader.Span(rng.rowStart, rng.rowEnd), BaseReader.Span(rng.colStart, rng.colEnd), content).records).value, rng) == Ok(content)
  {
    RangeWritesWhole(rng.rowStart, rng.colStart,
      BaseReader.Span(rng.rowStart, rng.rowEnd), BaseReader.Span(rng.colStart, rng.colEnd), content);
    WrittenBlockRange(recs, rng, content);
  }

  /** The table rebuilt from records up to `n` (the empty sheet's `[[]]`
      before any) never outgrows the table rebuilt from all of them. */
  lemma {:induction false} SyncedGrows(recs: seq<Record>, n: nat, d: Table)
    requires n <= |recs| && |d| > 0
    requires n == 0 ==> d == [[]]
    requires n > 0 ==> Materialize(recs[..n]) == Ok(d)
    requires Materialize(recs).Ok?
    ensures |Materialize(recs).value| >= |d|
    ensures |Materialize(recs).value[0]| >= |d[0]|
  {
    if n > 0 {
      assert recs == recs[..n] + recs[n..];
      MaterializeGrows(recs[..n], recs[n..]);
    }
  }

  /** Writing row `i` after the rows before it writes the first `i + 1`
      rows. */
  lemma BlockStep(t: Table, i: nat)
    requires i < |t|
    ensures BlockRecords(0, 0, t[..i]) + RowRecords(i, 0, t[i]) == BlockRecords(0, 0, t[..i + 1])
  {
    assert t[..i + 1][..i] == t[..i];
  }

  /** The writes of the first `n` rows of a shaped table with at least one
      column rebuild exactly those rows. */
  lemma PrefixRoundTrip(t: Table, n: nat)
    requires Shaped(t) && |t[0]| > 0 && 0 < n <= |t|
    ensures Materialize(BlockRecords(0, 0, t[..n])) == Ok(t[..n])
  {
    TableRoundTrip(t[..n], |t[0]|);
  }

  lemma AppendAssoc(p: seq<Record>, a: seq<Record>, b: seq<Record>)
    ensures p + a + b == p + (a + b)
  {
  }

  /** One row more of a table loaded after `before`: the records gain that
      row's writes, and into an empty grid they still rebuild the rows
      loaded so far. */
  lemma LoadStep(before: seq<Record>, prev: seq<Record>, t: Table, i: nat)
    requires i < |t| && prev == before + BlockRecords(0, 0, t[..i])
    ensures prev + RowRecords(i, 0, t[i]) == before + BlockRecords(0, 0, t[..i + 1])
    ensures before == [] && Shaped(t) && |t[0]| > 0 ==>
      Materialize(prev + RowRecords(i, 0, t[i])) == Ok(t[..i + 1])
  {
    BlockStep(t, i);
    AppendAssoc(before, BlockRecords(0, 0, t[..i]), RowRecords(i, 0, t[i]));
    if before == [] && Shaped(t) && |t[0]| > 0 {
      assert before + BlockRecords(0, 0, t[..i + 1]) == BlockRecords(0, 0, t[..i + 1]);
      PrefixRoundTrip(t, i + 1);
    }
  }

  /** A worksheet held in memory. */
  class Sheet {
    const name: string
    const grid: Grid
    var data: Table
    /** How many of the grid's records `data` was last rebuilt from. */
    ghost var synced: nat

    /** The grid is a list grid with nothing cached (`_clean` runs after
        every rebuild), and `data` is `[[]]` or the table rebuilt from the
        first `synced` records. */
    ghost predicate Valid()
      reads this, grid
    {
      grid.kind == ListKind && grid.cache == None &&
      Shaped(data) && synced <= |grid.records| &&
      (synced == 0 ==> data == [[]]) &&
      (synced > 0 ==> Materialize(grid.records[..synced]) == Ok(data))
    }

    /** `Sheet(name)`: an empty list grid and one empty row. */
    constructor (name: string)
      ensures Valid() && fresh(grid)
      ensures this.name == name && grid.records == [] && data == [[]]
      ensures NRows() == 1 && NCols() == 0
    {
      this.name := name;
      grid := new Grid(ListKind);
      data := [[]];
      synced := 0;
    }

    /** `_update`: `data` becomes the grid's table; when the grid raises,
        `data` is kept and the error goes to the caller. */
    method Update() returns (o: Outcome)
      requires grid.kind == ListKind && grid.cache == None
      modifies this, grid
      ensures grid.records == old(grid.records) && synced == old(synced)
      ensures o.Pass? <==> Materialize(grid.records).Ok?
      ensures o.Pass? ==> data == Materialize(grid.records).value && grid.cache == Some(Rows(data))
      ensures o.Fail? ==> data == old(data) && grid.cache == None && o.error == Materialize(grid.records).error
    {
      var r := grid.Get();
      if r.Err? {
        return Fail(r.error);
      }
      data := r.value.rows;
      return Pass;
    }

    /** `_clean`: drop the grid's cached table. */
    method Clean()
      modifies grid
      ensures grid.records == old(grid.records) && grid.cache == None
    {
      grid.cache := None;
    }

    /** `_update` then `_clean`, as every change ends; `synced` follows a
        rebuild that went through. */
    method Refresh() returns (o: Outcome)
      requires Valid()
      modifies this, grid
      ensures Valid() && grid.records == old(grid.records)
      ensures o.Pass? <==> Materialize(grid.records).Ok?
      ensures o.Pass? ==> data == Materialize(grid.records).value
      ensures o.Pass? ==> |data| >= |old(data)| && |data[0]| >= |old(data)[0]|
      ensures o.Fail? ==> data == old(data) && o.error == Materialize(grid.records).error
    {
      ghost var before := data;
      o := Update();
      if o.Pass? {
        Clean();
        SyncedGrows(grid.records, synced, before);
        synced := |grid.records|;
        assert grid.records[..synced] == grid.records;
      }
    }

    /** `set_cell(row, col, value)` */
    method SetCell(row: int, col: int, value: Value) returns (o: Outcome)
      requires Valid()
      modifies this, grid
      ensures Valid()
      ensures grid.records == old(grid.records) + [Record(row, col, value)]
      ensures o.Pass? <==> Materialize(grid.records).Ok?
      ensures o.Pass? ==> data == Materialize(grid.records).value
      ensures o.Fail? ==> data == old(data) && o.error == Materialize(grid.records).error
      ensures o.Pass? ==> NRows() >= old(NRows()) && NCols() >= old(NCols())
      ensures o.Pass? ==> GetCell(row, col) == Ok(value)
    {
      grid.Cell(row, col, value);
      assert grid.records[..synced] == old(grid.records)[..synced];
      o := Refresh();
      if o.Pass? {
        WrittenCellReads(old(grid.records), Record(row, col, value));
      }
    }

    /** `set_row(row, values)` */
    method SetRow(row: int, values: seq<Value>) returns (o: Outcome)
      requires Valid()
      modifies this, grid
      ensures Valid()
      ensures grid.records == old(grid.records) + RowRecords(row, 0, values)
      ensures o.Pass? <==> Materialize(grid.records).Ok?
      ensures o.Pass? ==> data == Materialize(grid.records).value
      ensures o.Fail? ==> data == old(data) && o.error == Materialize(grid.records).error
      ensures o.Pass? ==> NRows() >= old(NRows()) && NCols() >= old(NCols())
      ensures o.Pass? && row >= 0 ==> forall k :: 0 <= k < |values| ==> GetCell(row, k) == Ok(values[k])
    {
      grid.Row(row, values);
      assert grid.records[..synced] == old(grid.records)[..synced];
      o := Refresh();
      if o.Pass? && row >= 0 {
        WrittenRowReads(old(grid.records), row, values);
      }
    }

    /** `set_col(col, values)` */
    method SetCol(col: int, values: seq<Value>) returns (o: Outcome)
      requires Valid()
      modifies this, grid
      ensures Valid()
      ensures grid.records == old(grid.records) + ColumnRecords(col, values)
      ensures o.Pass? <==> Materialize(grid.records).Ok?
      ensures o.Pass? ==> data == Materialize(grid.records).value
      ensures o.Fail? ==> data == old(data) && o.error == Materialize(grid.records).error
      ensures o.Pass? ==> NRows() >= old(NRows()) && NCols() >= old(NCols())
      ensures o.Pass? && col >= 0 ==> forall k :: 0 <= k < |values| ==> GetCell(k, col) == Ok(values[k])
    {
      grid.Column(col, values);
      assert grid.records[..synced] == old(grid.records)[..synced];
      o := Refresh();
      if o.Pass? && col >= 0 {
        WrittenColumnReads(old(grid.records), col, values);
      }
    }

    /** `set_range(rng, content)`: the cells row by row; a missing value in
        `content` raises IndexError before the rebuild, with the earlier
        cells already in the grid. */
    method SetRange(rng: CellRange.CellRange, content: Table) returns (o: Outcome)
      requires Valid()
      modifies this, grid
      ensures Valid()
      ensures var w := BaseWriter.RangeWrites(rng.rowStart, rng.colStart,
          BaseReader.Span(rng.rowStart, rng.rowEnd), BaseReader.Span(rng.colStart, rng.colEnd), content);
        grid.records == old(grid.records) + w.records &&
        (!w.complete ==> o == Fail(IndexError) && data == old(data)) &&
        (w.complete ==> (o.Pass? <==> Materialize(grid.records).Ok?)) &&
        (w.complete && o.Fail? ==> o.error == Materialize(grid.records).error)
      ensures o.Pass? ==> data == Materialize(grid.records).value
      ensures o.Fail? ==> data == old(data)
      ensures o.Pass? ==> NRows() >= old(NRows()) && NCols() >= old(NCols())
      ensures (o.Pass? && 0 <= rng.rowStart <= rng.rowEnd && 0 <= rng.colStart <= rng.colEnd &&
               Rectangular(content, BaseReader.Span(rng.rowStart, rng.rowEnd), BaseReader.Span(rng.colStart, rng.colEnd)))
        ==> BaseReader.RangeOf(data, rng) == Ok(content)
    {
      var full := BaseWriter.WriteRangeInto(grid, rng.rowStart, rng.colStart, rng.rowEnd, rng.colEnd, content);
      assert grid.records[..synced] == old(grid.records)[..synced];
      if !full {
        return Fail(IndexError);
      }
      o := Refresh();
      var n, ncols := BaseReader.Span(rng.rowStart, rng.rowEnd), BaseReader.Span(rng.colStart, rng.colEnd);
      if o.Pass? && 0 <= rng.rowStart <= rng.rowEnd && 0 <= rng.colStart <= rng.colEnd && Rectangular(content, n, ncols) {
        WrittenRangeReads(old(grid.records), rng, content);
      }
    }

    /** `get_cell(row, col)` */
    function GetCell(row: int, col: int): (r: Result<Value>)
      reads this
      ensures r.Err? ==> r.error == IndexError
      ensures Shaped(data) ==> (r.Ok? <==> -(NRows() as int) <= row < NRows() && -(NCols() as int) <= col < NCols())
    {
      CellAt(data, row, col)
    }

    /** `get_row(row)` */
    function GetRow(row: int): (r: Result<seq<Value>>)
      reads this
      ensures r.Ok? <==> -(NRows() as int) <= row < NRows()
      ensures r.Ok? ==> forall c :: 0 <= c < |r.value| ==> GetCell(row, c) == Ok(r.value[c])
    {
      Index(data, row)
    }

    /** `get_col(col)`: one value per row. */
    function GetCol(col: int): (r: Result<seq<Value>>)
      reads this
      ensures r.Err? ==> r.error == IndexError
      ensures Shaped(data) ==> (r.Ok? <==> -(NCols() as int) <= col < NCols())
      ensures r.Ok? ==> |r.value| == NRows() && forall i :: 0 <= i < NRows() ==> GetCell(i, col) == Ok(r.value[i])
    {
      var c := ColumnOf(data, col);
      assert Shaped(data) && -(NCols() as int) <= col < NCols() ==> Index(data[0], col).Ok?;
      c
    }

    /** `get_range(rng)`: the rows `row_start .. row_end`, each sliced to
        `col_start .. col_end`. */
    method GetRange(rng: CellRange.CellRange) returns (r: Result<Table>)
      ensures r == BaseReader.RangeOf(data, rng)
    {
      var lo, hi := rng.colStart, rng.colEnd + 1;
      var n := BaseReader.Span(rng.rowStart, rng.rowEnd);
      var res: Table := [];
      for i := 0 to n
        invariant BaseReader.RangeRows(data, rng.rowStart, i, lo, hi) == Ok(res)
      {
        var row := Index(data, rng.rowStart + i);
        if row.Err? {
          return Err(IndexError);
        }
        res := res + [Slice(row.value, lo, hi)];
      }
      return Ok(res);
    }

    /** `nrows()` */
    function NRows(): (n: nat)
      reads this
      ensures n == |data|
    {
      |data|
    }

    /** `ncols()`: the length of the first row. */
    function NCols(): (n: nat)
      reads this
      requires |data| > 0
      ensures n == |data[0]|
    {
      |data[0]|
    }

    /** `_dump(s)`: row `i` of `data` written as row `i` of the writer
        sheet, which has a grid of its own. */
    method Dump(ws: BaseWriter.WriteSheet)
      requires ws.grid != grid
      modifies ws, ws.grid
      ensures ws.Written() == old(ws.Written()) + BlockRecords(0, 0, data)
    {
      for i := 0 to |data|
        invariant ws.Written() == old(ws.Written()) + BlockRecords(0, 0, data[..i])
      {
        ws.WriteRow(i, data[i]);
        assert data[..i + 1][..i] == data[..i];
        AppendAssoc(old(ws.Written()), BlockRecords(0, 0, data[..i]), RowRecords(i, 0, data[i]));
      }
      assert data[..|data|] == data;
    }

    /** One pass of `_load`'s loop: `set_row(i, r.data[i])` after the rows
        before it.  Into a grid that held no records before the load, a
        rectangular source with at least one column rebuilds its first
        `i + 1` rows. */
    method LoadRow(src: BaseReader.ReadSheet, i: nat, ghost before: seq<Record>) returns (o: Outcome)
      requires Valid() && i < |src.data|
      requires grid.records == before + BlockRecords(0, 0, src.data[..i])
      modifies this, grid
      ensures Valid()
      ensures grid.records == before + BlockRecords(0, 0, src.data[..i + 1])
      ensures o.Pass? <==> Materialize(grid.records).Ok?
      ensures o.Pass? ==> data == Materialize(grid.records).value
      ensures o.Fail? ==> data == old(data)
      ensures before == [] && Shaped(src.data) && |src.data[0]| > 0 ==> o.Pass? && data == src.data[..i + 1]
    {
      LoadStep(before, grid.records, src.data, i);
      o := SetRow(i, src.data[i]);
    }

    /** `_load(r)`: `set_row(i, r.data[i])` for each row, stopping at the
        first that raises.  Into a sheet with no records yet, a rectangular
        source with at least one column comes back as `data`. */
    method Load(src: BaseReader.ReadSheet) returns (o: Outcome)
      requires Valid()
      modifies this, grid
      ensures Valid()
      ensures o.Pass? ==> grid.records == old(grid.records) + BlockRecords(0, 0, src.data)
      ensures o.Pass? && |src.data| > 0 ==> Materialize(grid.records) == Ok(data)
      ensures o.Pass? && |src.data| == 0 ==> data == old(data)
      ensures o.Fail? ==> Materialize(grid.records).Err?
      ensures old(grid.records) == [] && Shaped(src.data) && |src.data[0]| > 0 ==> o.Pass? && data == src.data
    {
      ghost var fresh0 := grid.records == [] && Shaped(src.data) && |src.data[0]| > 0;
      o := Pass;
      for i := 0 to |src.data|
        invariant Valid()
        invariant grid.records == old(grid.records) + BlockRecords(0, 0, src.data[..i])
        invariant i > 0 ==> Materialize(grid.records) == Ok(data)
        invariant i == 0 ==> data == old(data)
        invariant fresh0 && i > 0 ==> data == src.data[..i]
        invariant o.Pass?
      {
        o := LoadRow(src, i, old(grid.records));
        if o.Fail? {
          return;
        }
      }
      assert src.data[..|src.data|] == src.data;
    }
  }

  // ----- lists of sheets, as documents and books hold them -----

  /** `[sheet.name for sheet in sheets]` */
  function Names(sheets: seq<Sheet>): (r: seq<string>)
    ensures |r| == |sheets| && forall i :: 0 <= i < |r| ==> r[i] == sheets[i].name
  {
    seq(|sheets|, i requires 0 <= i < |sheets| => sheets[i].name)
  }

  /** `[sheet for sheet in sheets if sheet.name == name]` */
  function Named(sheets: seq<Sheet>, name: string): seq<Sheet>
  {
    if sheets == [] then []
    else (if sheets[0].name == name then [sheets[0]] else []) + Named(sheets[1..], name)
  }

  /** The sheet at `k` is the first one named `name`. */
  predicate FirstNamedAt(sheets: seq<Sheet>, name: string, k: int)
  {
    0 <= k < |sheets| && sheets[k].name == name && forall i :: 0 <= i < k ==> sheets[i].name != name
  }

  /** The filtered list is empty exactly when no sheet has the name, and
      otherwise starts with the first sheet that has it. */
  lemma {:induction false} NamedFirst(sheets: seq<Sheet>, name: string)
    ensures Named(sheets, name) == [] <==> name !in Names(sheets)
    ensures Named(sheets, name) != [] ==>
      exists k :: FirstNamedAt(sheets, name, k) && Named(sheets, name)[0] == sheets[k]
  {
    if sheets == [] {
    } else if sheets[0].name == name {
      assert Names(sheets)[0] == name;
      assert FirstNamedAt(sheets, name, 0);
    } else {
      NamedFirst(sheets[1..], name);
      NamedSkip(sheets, name);
      if Named(sheets, name) != [] {
        var k :| FirstNamedAt(sheets[1..], name, k) && Named(sheets[1..], name)[0] == sheets[1..][k];
        NamedSkipAt(sheets, name, k);
      }
    }
  }

  /** A first sheet with another name is skipped by the filter and by the
      name test. */
  lemma NamedSkip(sheets: seq<Sheet>, name: string)
    requires sheets != [] && sheets[0].name != name
    ensures Named(sheets, name) == Named(sheets[1..], name)
    ensures name in Names(sheets) <==> name in Names(sheets[1..])
  {
    if name in Names(sheets) {
      var i :| 0 <= i < |sheets| && Names(sheets)[i] == name;
      assert Names(sheets[1..])[i - 1] == name;
    }
    if name in Names(sheets[1..]) {
      var i :| 0 <= i < |sheets| - 1 && Names(sheets[1..])[i] == name;
      assert Names(sheets)[i + 1] == name;
    }
  }

  /** The first match in the tail, one place further on, is the first match
      of the whole list when the head does not match. */
  lemma NamedSkipAt(sheets: seq<Sheet>, name: string, k: int)
    requires sheets != [] && sheets[0].name != name
    requires FirstNamedAt(sheets[1..], name, k)
    ensures FirstNamedAt(sheets, name, k + 1) && sheets[1..][k] == sheets[k + 1]
  {
    forall i | 1 <= i < k + 1 ensures sheets[i].name != name {
      assert sheets[i] == sheets[1..][i - 1];
    }
  }

  /** `sheet_by_name(name)` of a document or a book: KeyError unless some
      sheet has the name, and then the first such sheet. */
  function SheetByName(sheets: seq<Sheet>, name: string): (r: Result<Sheet>)
    ensures r.Ok? <==> name in Names(sheets)
    ensures r.Err? ==> r.error == KeyError
    ensures r.Ok? ==> exists k :: FirstNamedAt(sheets, name, k) && r.value == sheets[k]
  {
    NamedFirst(sheets, name);
    if name !in Names(sheets) then Err(KeyError) else Ok(Named(sheets, name)[0])
  }
}

