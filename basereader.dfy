/** The reading side: a worksheet read back as a table of values
    (`ReadSheet`) and the book of named worksheets an engine parsed
    (`ReadBook`). */
module BaseReader {
  import opened Wrappers
  import opened Values
  import opened PyList
  import opened PyDict
  import opened Grid
  import CellRange

  /** The number of integers in `range(lo, hi + 1)`. */
  function Span(lo: int, hi: int): nat
  {
    if hi < lo then 0 else hi - lo + 1
  }

  /** `[t[r][lo:hi] for r in range(r0, r0 + n)]`: the rows are subscripted in
      order, so the first one outside `t` raises IndexError. */
  function RangeRows(t: Table, r0: int, n: nat, lo: int, hi: int): (r: Result<Table>)
    ensures r.Ok? <==> forall i :: r0 <= i < r0 + n ==> Index(t, i).Ok?
    ensures r.Err? ==> r.error == IndexError
    ensures r.Ok? ==> |r.value| == n
    ensures r.Ok? ==> forall k :: 0 <= k < n ==>
      Index(t, r0 + k).Ok? && r.value[k] == Slice(Index(t, r0 + k).value, lo, hi)
  {
    if n == 0 then Ok([])
    else
      var init :- RangeRows(t, r0, n - 1, lo, hi);
      var row :- Index(t, r0 + n - 1);
      var rows := init + [Slice(row, lo, hi)];
      assert forall k :: 0 <= k < n - 1 ==> rows[k] == init[k];
      Ok(rows)
  }

  /** `[t[r][rng.col_start : rng.col_end + 1] for r in range(rng.row_start,
      rng.row_end + 1)]`, shared by `read_range` and `Sheet.get_range`. */
  function RangeOf(t: Table, rng: CellRange.CellRange): Result<Table>
  {
    RangeRows(t, rng.rowStart, Span(rng.rowStart, rng.rowEnd), rng.colStart, rng.colEnd + 1)
  }

  /** A worksheet's values as parsed.  `translated` is `list(zip(*data))`,
      computed once when the sheet is made. */
  datatype ReadSheet = ReadSheet(data: Table, translated: Table, name: string)
  {
    /** Made by `ReadSheet(data, name)` and never changed since. */
    ghost predicate Valid() { translated == Transpose(data) }

    /** `nrows` */
    function NRows(): nat { |data| }

    /** `ncolumns`: the length of the first row; IndexError when there is
        none. */
    function NColumns(): (r: Result<nat>)
      ensures r.Ok? <==> |data| > 0
      ensures r.Ok? ==> r.value == |data[0]|
    {
      var first :- Index(data, 0);
      Ok(|first|)
    }

    /** `read_cell(row, column)`: `data[row][column]`. */
    function ReadCell(row: int, column: int): (r: Result<Value>)
      ensures r.Ok? <==> -|data| <= row < |data| && Index(Index(data, row).value, column).Ok?
    {
      var values :- Index(data, row);
      Index(values, column)
    }

    /** `read_row(row)`: a copy of `data[row]`. */
    function ReadRow(row: int): (r: Result<seq<Value>>)
      ensures r.Ok? <==> -|data| <= row < |data|
      ensures r.Ok? ==> forall c :: 0 <= c < |r.value| ==> ReadCell(row, c) == Ok(r.value[c])
    {
      Index(data, row)
    }

    /** `read_column(column)`: the column of the transposed table. */
    function ReadColumn(column: int): (r: Result<seq<Value>>)
      ensures r.Ok? <==> -|translated| <= column < |translated|
    {
      Index(translated, column)
    }

    /** `read_range(rng)` */
    function ReadRange(rng: CellRange.CellRange): (r: Result<Table>)
      ensures r.Ok? ==> |r.value| == Span(rng.rowStart, rng.rowEnd)
    {
      RangeOf(data, rng)
    }
  }

  /** `ReadSheet(data, name)` */
  function NewReadSheet(data: Table, name: string): (s: ReadSheet)
    ensures s.Valid() && s.data == data && s.name == name
  {
    ReadSheet(data, Transpose(data), name)
  }

  /** On a rectangular sheet with at least one row and column, column `c`
      exists exactly for the Python indices of a row, has one entry per
      row, and its `r`-th entry is `read_cell(r, c)`. */
  lemma ReadColumnOfRectangular(s: ReadSheet, width: nat, c: int)
    requires s.Valid() && |s.data| > 0 && width > 0 && Rectangular(s.data, |s.data|, width)
    ensures s.ReadColumn(c).Ok? <==> -(width as int) <= c < width
    ensures s.ReadColumn(c).Ok? ==>
      |s.ReadColumn(c).value| == s.NRows() &&
      forall r :: 0 <= r < s.NRows() ==> s.ReadCell(r, c) == Ok(s.ReadColumn(c).value[r])
  {
    TransposeTwice(s.data, width);
    if -(width as int) <= c < width {
      var j := if c < 0 then c + width else c;
      assert s.ReadColumn(c) == Ok(s.translated[j]);
      forall r | 0 <= r < |s.data|
        ensures s.ReadCell(r, c) == Ok(s.translated[j][r])
      {
        assert Index(s.data, r) == Ok(s.data[r]);
      }
    }
  }

  /** A range lying inside a rectangular sheet reads back its block: row
      `k` is `data[row_start + k][col_start .. col_end]`. */
  lemma ReadRangeInside(s: ReadSheet, width: nat, rng: CellRange.CellRange)
    requires Rectangular(s.data, |s.data|, width)
    requires 0 <= rng.rowStart && rng.rowEnd < |s.data|
    requires 0 <= rng.colStart <= rng.colEnd + 1 <= width
    ensures s.ReadRange(rng).Ok?
    ensures forall k :: 0 <= k < Span(rng.rowStart, rng.rowEnd) ==>
      s.ReadRange(rng).value[k] == s.data[rng.rowStart + k][rng.colStart..rng.colEnd + 1]
  {
    var n := Span(rng.rowStart, rng.rowEnd);
    forall i | rng.rowStart <= i < rng.rowStart + n
      ensures Index(s.data, i) == Ok(s.data[i])
    {
    }
  }

  /** The book an engine parsed: the sheets' tables by name, in sheet order,
      and the same tables as a list once indexed. */
  class ReadBook {
    var fileName: string
    var datas: Dict<string, Table>
    var datasList: seq<Table>

    /** `_indexing` has run since `datas` was last set. */
    ghost predicate Valid()
      reads this
    {
      datas.Valid() && datasList == ValueList(datas)
    }

    /** `ReadBook(file_name)` with the engine's `_parse` standing for the
        tables it yields: `parsed`, then `_indexing`. */
    constructor (fileName: string, parsed: Dict<string, Table>)
      requires parsed.Valid()
      ensures Valid() && this.fileName == fileName && datas == parsed
    {
      this.fileName := fileName;
      datas := parsed;
      datasList := [];
      new;
      Indexing();
    }

    /** `_indexing`: the tables listed in name order. */
    method Indexing()
      requires datas.Valid()
      modifies this
      ensures Valid() && datas == old(datas) && fileName == old(fileName)
    {
      var list: seq<Table> := [];
      for i := 0 to |datas.keys|
        invariant list == ValueList(datas)[..i]
      {
        list := list + [datas.entries[datas.keys[i]]];
      }
      datasList := list;
    }

    /** `sheet_names()` */
    function SheetNames(): (names: seq<string>)
      reads this
      ensures names == datas.keys
    {
      datas.keys
    }

    /** `nsheets()` */
    function NSheets(): (n: nat)
      reads this
      requires Valid()
      ensures n == |SheetNames()|
    {
      |datasList|
    }

    /** `sheet_by_index(idx)`: the `idx`-th table with the `idx`-th name. */
    function SheetByIndex(idx: int): (r: Result<ReadSheet>)
      reads this
      requires Valid()
      ensures r.Ok? <==> -(NSheets() as int) <= idx < NSheets()
      ensures r.Err? ==> r.error == IndexError
      ensures 0 <= idx < NSheets() ==>
        r.Ok? && r.value == NewReadSheet(datas.entries[datas.keys[idx]], datas.keys[idx])
    {
      var data :- Index(datasList, idx);
      var name :- Index(SheetNames(), idx);
      Ok(NewReadSheet(data, name))
    }

    /** `sheet_by_name(name)`: KeyError for a name not in the book. */
    function SheetByName(name: string): (r: Result<ReadSheet>)
      reads this
      ensures r.Ok? <==> name in datas.entries
      ensures r.Ok? ==> r.value == NewReadSheet(datas.entries[name], name)
      ensures r.Err? ==> r.error == KeyError
    {
      var data :- Get(datas, name);
      Ok(NewReadSheet(data, name))
    }

    /** `sheets()`: every sheet, in order. */
    function Sheets(): (ss: seq<ReadSheet>)
      reads this
      requires Valid()
      ensures |ss| == NSheets()
      ensures forall i :: 0 <= i < |ss| ==> SheetByIndex(i) == Ok(ss[i])
    {
      var keys, list := datas.keys, datasList;
      seq(|keys|, i requires 0 <= i < |keys| && |list| == |keys| => NewReadSheet(list[i], keys[i]))
    }

    /** The sheet at a position and the sheet of the name at that position
        are the same sheet. */
    lemma IndexAgreesWithName(i: nat)
      requires Valid() && i < NSheets()
      ensures SheetByIndex(i) == SheetByName(SheetNames()[i])
    {
    }
  }
}
