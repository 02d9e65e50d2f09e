/** The writing side: a worksheet that logs cell writes, either into its
    own `records` list or into a grid of the book's grid class
    (`WriteSheet`), and the book that keeps its sheets and their names in
    two parallel lists (`WriteBook`). */
module BaseWriter {
  import opened Wrappers
  import opened Values
  import opened PyList
  import opened PyDict
  import opened Grid
  import CellRange
  import BaseReader

  // ----- the writes of a range -----

  /** `content[k]` when it exists; the writes of a missing row stop at once. */
  function Avail(content: Table, k: nat): seq<Value>
  {
    if k < |content| then content[k] else []
  }

  /** The records a range writes and whether it got through every cell. */
  datatype Writes = Writes(records: seq<Record>, complete: bool)

  /** The writes of the first `n` rows of `for row in range(rs, rs + nrows):
      for col in range(cs, cs + ncols): cell(row, col, content[row - rs][col
      - cs])`: row `k` writes `ncols` values from column `cs`, or, when it
      has fewer, all it has and then the subscript raises IndexError and
      nothing more is written. */
  function RangeWrites(rs: int, cs: int, n: nat, ncols: nat, content: Table): Writes
  {
    if n == 0 then Writes([], true)
    else
      var w := RangeWrites(rs, cs, n - 1, ncols, content);
      var row := Avail(content, n - 1);
      if !w.complete then w
      else if ncols <= |row| then Writes(w.records + RowRecords(rs + n - 1, cs, row[..ncols]), true)
      else Writes(w.records + RowRecords(rs + n - 1, cs, row), false)
  }

  /** A range gets through exactly when each of its rows has a value for
      each of its columns. */
  lemma {:induction false} RangeCompleteIff(rs: int, cs: int, n: nat, ncols: nat, content: Table)
    ensures RangeWrites(rs, cs, n, ncols, content).complete <==>
      forall k :: 0 <= k < n ==> ncols <= |Avail(content, k)|
  {
    if n > 0 {
      RangeCompleteIff(rs, cs, n - 1, ncols, content);
    }
  }

  /** A range whose content has exactly its shape writes that content, row
      by row, each row from the first column. */
  lemma {:induction false} RangeWritesOfTable(rs: int, cs: int, n: nat, ncols: nat, content: Table)
    requires n <= |content| && forall k :: 0 <= k < |content| ==> |content[k]| == ncols
    ensures RangeWrites(rs, cs, n, ncols, content) == Writes(BlockRecords(rs, cs, content[..n]), true)
  {
    if n > 0 {
      RangeWritesOfTable(rs, cs, n - 1, ncols, content);
      assert content[..n][..n - 1] == content[..n - 1];
      assert content[n - 1][..ncols] == content[n - 1];
    }
  }

  /** One more row of a range that got through so far: its cells, and
      whether it had them all. */
  lemma {:induction false} RangeStep(pre: seq<Record>, rs: int, cs: int, i: nat, ncols: nat, content: Table)
    requires RangeWrites(rs, cs, i, ncols, content).complete
    ensures var row := Avail(content, i);
      var w := RangeWrites(rs, cs, i + 1, ncols, content);
      w.complete == (ncols <= |row|) &&
      pre + w.records == pre + RangeWrites(rs, cs, i, ncols, content).records +
        RowRecords(rs + i, cs, if ncols <= |row| then row[..ncols] else row)
  {
    var row := Avail(content, i);
    var a, b := RangeWrites(rs, cs, i, ncols, content).records, RowRecords(rs + i, cs, if ncols <= |row| then row[..ncols] else row);
    assert pre + (a + b) == pre + a + b;
  }

  /** Once a row came up short, the later rows write nothing. */
  lemma {:induction false} RangeStopsAfter(rs: int, cs: int, i: nat, n: nat, ncols: nat, content: Table)
    requires i <= n && !RangeWrites(rs, cs, i, ncols, content).complete
    ensures RangeWrites(rs, cs, n, ncols, content) == RangeWrites(rs, cs, i, ncols, content)
  {
    if i < n {
      RangeStopsAfter(rs, cs, i, n - 1, ncols, content);
    }
  }

  /** The inner loop of a range: `g.cell(row, cs + j, values[j])` for `j`
      below `ncols`; false when `values` runs out first (IndexError). */
  method WriteRowInto(g: Grid, row: int, cs: int, values: seq<Value>, ncols: nat) returns (ok: bool)
    modifies g
    ensures ok <==> ncols <= |values|
    ensures g.records == old(g.records) + RowRecords(row, cs, if ok then values[..ncols] else values)
    ensures g.cache == old(g.cache)
  {
    for j := 0 to ncols
      invariant j <= |values|
      invariant g.records == old(g.records) + RowRecords(row, cs, values[..j])
      invariant g.cache == old(g.cache)
    {
      if j >= |values| {
        assert values[..j] == values;
        return false;
      }
      g.Cell(row, cs + j, values[j]);
      assert RowRecords(row, cs, values[..j + 1]) == RowRecords(row, cs, values[..j]) + [Record(row, cs + j, values[j])];
    }
    return true;
  }

  /** `for row ...: for col ...: g.cell(row, col, content[row - rs][col - cs])`
      over the range `rs..re` by `cs..ce`; `ok` is false when a subscript of
      `content` raised IndexError, with the writes before it kept. */
  method WriteRangeInto(g: Grid, rs: int, cs: int, re: int, ce: int, content: Table) returns (ok: bool)
    modifies g
    ensures var w := RangeWrites(rs, cs, BaseReader.Span(rs, re), BaseReader.Span(cs, ce), content);
      g.records == old(g.records) + w.records && (ok <==> w.complete)
    ensures g.cache == old(g.cache)
  {
    var nrows, ncols := BaseReader.Span(rs, re), BaseReader.Span(cs, ce);
    for i := 0 to nrows
      invariant RangeWrites(rs, cs, i, ncols, content).complete
      invariant g.records == old(g.records) + RangeWrites(rs, cs, i, ncols, content).records
      invariant g.cache == old(g.cache)
    {
      var full := WriteRowInto(g, rs + i, cs, Avail(content, i), ncols);
      RangeStep(old(g.records), rs, cs, i, ncols, content);
      if !full {
        RangeStopsAfter(rs, cs, i + 1, nrows, ncols, content);
        return false;
      }
    }
    return true;
  }

  // ----- WriteSheet -----

  /** A sheet being written.  Without a grid class the writes go to
      `records`; with one they go to the sheet's own grid. */
  class WriteSheet {
    const name: string
    var records: seq<Record>
    const grid: Grid?

    /** The writes so far, wherever they went. */
    function Written(): seq<Record>
      reads this, grid
    {
      if grid == null then records else grid.records
    }

    /** `WriteSheet(sheet_name, grid_class)`: a fresh grid of the given
        kind, or none. */
    constructor (sheetName: string, gridClass: Option<GridKind>)
      ensures name == sheetName && records == []
      ensures gridClass.None? <==> grid == null
      ensures grid != null ==>
        fresh(grid) && grid.kind == gridClass.value && grid.records == [] && grid.cache == None
    {
      name := sheetName;
      records := [];
      if gridClass.Some? {
        grid := new Grid(gridClass.value);
      } else {
        grid := null;
      }
    }

    /** `write_cell(row, col, value)`: one more record. */
    method WriteCell(row: int, col: int, value: Value)
      modifies this, grid
      ensures Written() == old(Written()) + [Record(row, col, value)]
      ensures grid != null ==> records == old(records) && grid.cache == old(grid.cache)
    {
      if grid != null {
        grid.Cell(row, col, value);
      } else {
        records := records + [Record(row, col, value)];
      }
    }

    /** `write_row(row, values)`: `(row, i, values[i])` for each `i`. */
    method WriteRow(row: int, values: seq<Value>)
      modifies this, grid
      ensures Written() == old(Written()) + RowRecords(row, 0, values)
      ensures grid != null ==> records == old(records) && grid.cache == old(grid.cache)
    {
      if grid != null {
        grid.Row(row, values);
      } else {
        for i := 0 to |values|
          invariant records == old(records) + RowRecords(row, 0, values[..i])
        {
          WriteCell(row, i, values[i]);
          assert RowRecords(row, 0, values[..i + 1]) == RowRecords(row, 0, values[..i]) + [Record(row, i, values[i])];
        }
        assert values[..|values|] == values;
      }
    }

    /** `write_col(col, values)`: `(i, col, values[i])` for each `i`. */
    method WriteCol(col: int, values: seq<Value>)
      modifies this, grid
      ensures Written() == old(Written()) + ColumnRecords(col, values)
      ensures grid != null ==> records == old(records) && grid.cache == old(grid.cache)
    {
      if grid != null {
        grid.Column(col, values);
      } else {
        for i := 0 to |values|
          invariant records == old(records) + ColumnRecords(col, values[..i])
        {
          WriteCell(i, col, values[i]);
          assert ColumnRecords(col, values[..i + 1]) == ColumnRecords(col, values[..i]) + [Record(i, col, values[i])];
        }
        assert values[..|values|] == values;
      }
    }

    /** `write_range(rng, content)`: the range row by row, left to right;
        IndexError, with the earlier writes kept, when `content` lacks a
        value. */
    method WriteRange(rng: CellRange.CellRange, content: Table) returns (o: Outcome)
      modifies this, grid
      ensures var w := RangeWrites(rng.rowStart, rng.colStart,
        BaseReader.Span(rng.rowStart, rng.rowEnd), BaseReader.Span(rng.colStart, rng.colEnd), content);
        Written() == old(Written()) + w.records && (o.Pass? <==> w.complete)
      ensures o.Fail? ==> o.error == IndexError
      ensures grid != null ==> records == old(records) && grid.cache == old(grid.cache)
    {
      var ok;
      if grid != null {
        ok := WriteRangeInto(grid, rng.rowStart, rng.colStart, rng.rowEnd, rng.colEnd, content);
      } else {
        ok := WriteRangeCells(rng.rowStart, rng.colStart, rng.rowEnd, rng.colEnd, content);
      }
      return if ok then Pass else Fail(IndexError);
    }

    /** The loops of `write_range` without a grid: `write_cell` for each
        cell of the range `rs..re` by `cs..ce`; false when a subscript of
        `content` raised IndexError. */
    method WriteRangeCells(rs: int, cs: int, re: int, ce: int, content: Table) returns (ok: bool)
      requires grid == null
      modifies this
      ensures var w := RangeWrites(rs, cs, BaseReader.Span(rs, re), BaseReader.Span(cs, ce), content);
        records == old(records) + w.records && (ok <==> w.complete)
    {
      var nrows, ncols := BaseReader.Span(rs, re), BaseReader.Span(cs, ce);
      for i := 0 to nrows
        invariant RangeWrites(rs, cs, i, ncols, content).complete
        invariant records == old(records) + RangeWrites(rs, cs, i, ncols, content).records
      {
        var full := WriteRowCells(rs + i, cs, Avail(content, i), ncols);
        RangeStep(old(records), rs, cs, i, ncols, content);
        if !full {
          RangeStopsAfter(rs, cs, i + 1, nrows, ncols, content);
          return false;
        }
      }
      return true;
    }

    /** The inner loop of `write_range` without a grid:
        `write_cell(row, cs + j, values[j])` for `j` below `ncols`; false
        when `values` runs out first (IndexError). */
    method WriteRowCells(row: int, cs: int, values: seq<Value>, ncols: nat) returns (ok: bool)
      requires grid == null
      modifies this
      ensures ok <==> ncols <= |values|
      ensures records == old(records) + RowRecords(row, cs, if ok then values[..ncols] else values)
    {
      for j := 0 to ncols
        invariant j <= |values|
        invariant records == old(records) + RowRecords(row, cs, values[..j])
      {
        if j >= |values| {
          assert values[..j] == values;
          return false;
        }
        WriteCell(row, cs + j, values[j]);
        assert RowRecords(row, cs, values[..j + 1]) == RowRecords(row, cs, values[..j]) + [Record(row, cs + j, values[j])];
      }
      return true;
    }

    /** `get_grid()`: the sheet's grid; AttributeError when it has none. */
    function GetGrid(): (r: Result<Grid>)
      ensures r.Err? <==> grid == null
      ensures r.Err? ==> r.error == AttributeError
      ensures r.Ok? ==> r.value == grid
    {
      if grid != null then Ok(grid) else Err(AttributeError)
    }
  }

  // ----- WriteBook -----

  /** The argument of `get_sheet`: an `int` position or a `str` name. */
  datatype SheetKey = ByIndex(index: int) | ByName(name: string)

  /** A book being written: its sheets and their names, kept side by side. */
  class WriteBook {
    const gridClass: Option<GridKind>
    var sheets: seq<WriteSheet>
    var sheetNames: seq<string>

    /** The two lists have the same length and the `i`-th name is the
        `i`-th sheet's. */
    ghost predicate Valid()
      reads this
    {
      |sheets| == |sheetNames| &&
      forall i :: 0 <= i < |sheets| ==> sheets[i].name == sheetNames[i]
    }

    /** `WriteBook()` of a book class whose `gcls` is `gridClass`. */
    constructor (gridClass: Option<GridKind>)
      ensures Valid() && this.gridClass == gridClass && sheets == [] && sheetNames == []
    {
      this.gridClass := gridClass;
      sheets := [];
      sheetNames := [];
    }

    /** `add_sheet(sheet_name, index)`: a fresh sheet appended when `index`
        is -1 and inserted at `index` otherwise, and its name beside it. */
    method AddSheet(sheetName: string, index: int) returns (ws: WriteSheet)
      requires Valid()
      modifies this
      ensures Valid()
      ensures fresh(ws) && ws.name == sheetName && ws.records == []
      ensures ws.grid == null <==> gridClass.None?
      ensures ws.grid != null ==> fresh(ws.grid) && ws.grid.records == [] && ws.grid.cache == None
      ensures sheets == AddAt(old(sheets), ws, index)
      ensures sheetNames == AddAt(old(sheetNames), sheetName, index)
    {
      ws := new WriteSheet(sheetName, gridClass);
      AddAtAligned(sheets, sheetNames, ws, sheetName, index);
      if index == -1 {
        sheetNames := sheetNames + [sheetName];
        sheets := sheets + [ws];
      } else {
        sheetNames := Insert(sheetNames, index, sheetName);
        sheets := Insert(sheets, index, ws);
      }
    }

    /** `get_sheet(name_or_idx)`: the sheet at a position (IndexError
        outside the list); for a name, NameError when no sheet has it and
        nothing at all (`None`) when one does. */
    function GetSheet(key: SheetKey): (r: Result<Option<WriteSheet>>)
      reads this
      requires Valid()
      ensures key.ByIndex? ==>
        (r.Ok? <==> Index(sheets, key.index).Ok?) &&
        (r.Ok? ==> r.value == Some(Index(sheets, key.index).value))
      ensures key.ByName? ==>
        (key.name in sheetNames ==> r == Ok(None)) &&
        (key.name !in sheetNames ==> r == Err(NameError))
    {
      match key
      case ByIndex(i) =>
        var ws :- Index(sheets, i);
        Ok(Some(ws))
      case ByName(n) =>
        var pairs := Zip(sheetNames, sheets);
        assert Firsts(pairs) == sheetNames;
        if Get(FromPairs(pairs), n).Err? then Err(NameError) else Ok(None)
    }
  }

  /** Adding at the same index to two aligned lists keeps them aligned. */
  lemma AddAtAligned(ss: seq<WriteSheet>, names: seq<string>, ws: WriteSheet, name: string, index: int)
    requires |ss| == |names| && forall i :: 0 <= i < |ss| ==> ss[i].name == names[i]
    requires ws.name == name
    ensures |AddAt(ss, ws, index)| == |AddAt(names, name, index)|
    ensures forall i :: 0 <= i < |AddAt(ss, ws, index)| ==> AddAt(ss, ws, index)[i].name == AddAt(names, name, index)[i]
  {
    if index != -1 {
      var k := Clamp(index, |ss|);
      var a, b := AddAt(ss, ws, index), AddAt(names, name, index);
      assert a == ss[..k] + [ws] + ss[k..];
      assert b == names[..k] + [name] + names[k..];
      forall i | 0 <= i < |a| ensures a[i].name == b[i] {
        if i > k {
          assert a[i] == ss[i - 1] && b[i] == names[i - 1];
        }
      }
    }
  }
}
