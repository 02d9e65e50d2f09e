/** HTML table text built from a table of values: `BasicTableGenerator`
    and its `CustomTableGenerator` variant, which add option text inside the
    `<table>`, `<tr>` and `<td>` tags.  The output is specified as a list of
    lines (`TableLines`) whose concatenation the generator appends. */
module TableGen {
  import opened Values
  import opened Text

  type Table = seq<seq<Value>>

  /** Which generator class: the basic one, or the custom one with its three
      option strings. */
  datatype Style = Basic | Custom(tableOption: string, rowOption: string, cellOption: string)

  /** The comment line each generator starts its content with (the class
      path is spelled as the library spells it). */
  function Header(style: Style): string
  {
    match style
    case Basic => "<!--generate by PyAutoExcel.TableGeneator.BasicTableGenerator-->\n"
    case Custom(_, _, _) => "<!--generate by PyAutoExcel.TableGeneator.CustomTableGenerator-->\n"
  }

  /** `start` */
  function OpenTable(style: Style): string
  {
    if style.Basic? then "<table>\n" else "<table " + style.tableOption + ">\n"
  }

  /** `start_row` */
  function OpenRow(style: Style): string
  {
    if style.Basic? then "    <tr>\n" else "    <tr " + style.rowOption + ">\n"
  }

  /** `cell(value)`: the value as `str()` prints it, between the tags. */
  function CellLine(style: Style, v: Value): string
  {
    CellText(style, Str(v))
  }

  function CellText(style: Style, text: string): string
  {
    if style.Basic? then "        <td>" + text + "</td>\n"
    else "        <td " + style.cellOption + ">" + text + "</td>\n"
  }

  /** `end_row` */
  const CloseRow: string := "    </tr>\n"

  /** `end` */
  const CloseTable: string := "</table>\n"

  /** What every row-opening line starts with. */
  const RowMark: string := "    <tr"

  /** What every cell line starts with. */
  const CellMark: string := "        <td"

  function CellLines(style: Style, row: seq<Value>): (lines: seq<string>)
    ensures |lines| == |row|
  {
    seq(|row|, i requires 0 <= i < |row| => CellLine(style, row[i]))
  }

  function RowLines(style: Style, row: seq<Value>): seq<string>
  {
    [OpenRow(style)] + CellLines(style, row) + [CloseRow]
  }

  function RowsLines(style: Style, rows: Table): seq<string>
  {
    if rows == [] then []
    else RowsLines(style, rows[..|rows| - 1]) + RowLines(style, rows[|rows| - 1])
  }

  /** The lines `generate` emits for `rows`, in order. */
  function TableLines(style: Style, rows: Table): seq<string>
  {
    [OpenTable(style)] + RowsLines(style, rows) + [CloseTable]
  }

  /** The lines joined with nothing between them. */
  function Concat(lines: seq<string>): string
  {
    if lines == [] then "" else Concat(lines[..|lines| - 1]) + lines[|lines| - 1]
  }

  /** The lines that start with `mark`, in order. */
  function Select(lines: seq<string>, mark: string): (r: seq<string>)
    ensures |r| <= |lines|
  {
    if lines == [] then []
    else
      var last := lines[|lines| - 1];
      Select(lines[..|lines| - 1], mark) + (if StartsWith(last, mark) then [last] else [])
  }

  /** All the values of the table, row after row. */
  function Flatten(rows: Table): (vs: seq<Value>)
  {
    if rows == [] then [] else Flatten(rows[..|rows| - 1]) + rows[|rows| - 1]
  }

  // ----- facts about the line lists -----

  lemma {:induction false} ConcatAppend(a: seq<string>, b: seq<string>)
    ensures Concat(a + b) == Concat(a) + Concat(b)
  {
    if b == [] {
      assert a + b == a;
    } else {
      var b' := b[..|b| - 1];
      assert (a + b)[..|a + b| - 1] == a + b';
      assert (a + b)[|a + b| - 1] == b[|b| - 1];
      ConcatAppend(a, b');
    }
  }

  lemma Assoc(a: string, b: string, c: string)
    ensures a + b + c == a + (b + c)
  {
  }

  lemma ConcatSnoc(lines: seq<string>, x: string)
    ensures Concat(lines + [x]) == Concat(lines) + x
  {
    assert (lines + [x])[..|lines|] == lines;
  }

  /** The text of one row after some earlier lines. */
  lemma RowConcat(before: seq<string>, style: Style, row: seq<Value>)
    ensures Concat(before + RowLines(style, row)) ==
      Concat(before) + OpenRow(style) + Concat(CellLines(style, row)) + CloseRow
  {
    ConcatAppend(before, RowLines(style, row));
    ConcatAppend([OpenRow(style)], CellLines(style, row));
    ConcatSnoc([OpenRow(style)] + CellLines(style, row), CloseRow);
    assert Concat([OpenRow(style)]) == OpenRow(style) by {
      ConcatSnoc([], OpenRow(style));
    }
  }

  lemma SelectOne(x: string, mark: string)
    ensures Select([x], mark) == if StartsWith(x, mark) then [x] else []
  {
    assert [x][..0] == [];
  }

  /** A string that differs from `mark` at a position inside both does not
      start with `mark`. */
  lemma DiffersAt(s: string, mark: string, k: nat)
    requires k < |mark| && k < |s| && s[k] != mark[k]
    ensures !StartsWith(s, mark)
  {
    if |mark| <= |s| {
      assert s[..|mark|][k] == s[k];
    }
  }

  lemma PrefixStarts(a: string, b: string)
    ensures StartsWith(a + b, a)
  {
    assert (a + b)[..|a|] == a;
  }

  lemma {:induction false} SelectAppend(a: seq<string>, b: seq<string>, mark: string)
    ensures Select(a + b, mark) == Select(a, mark) + Select(b, mark)
  {
    if b == [] {
      assert a + b == a;
    } else {
      assert (a + b)[..|a + b| - 1] == a + b[..|b| - 1];
      SelectAppend(a, b[..|b| - 1], mark);
    }
  }

  lemma {:induction false} SelectNone(lines: seq<string>, mark: string)
    requires forall i :: 0 <= i < |lines| ==> !StartsWith(lines[i], mark)
    ensures Select(lines, mark) == []
  {
    if lines != [] {
      SelectNone(lines[..|lines| - 1], mark);
    }
  }

  lemma {:induction false} SelectAll(lines: seq<string>, mark: string)
    requires forall i :: 0 <= i < |lines| ==> StartsWith(lines[i], mark)
    ensures Select(lines, mark) == lines
  {
    if lines != [] {
      SelectAll(lines[..|lines| - 1], mark);
    }
  }

  lemma CellLinesAppend(style: Style, a: seq<Value>, b: seq<Value>)
    ensures CellLines(style, a + b) == CellLines(style, a) + CellLines(style, b)
  {
  }

  /** Every cell line starts with `<td`, none with `<tr`. */
  lemma CellLinesSelect(style: Style, row: seq<Value>)
    ensures Select(CellLines(style, row), CellMark) == CellLines(style, row)
    ensures Select(CellLines(style, row), RowMark) == []
  {
    var cells := CellLines(style, row);
    forall i | 0 <= i < |cells|
      ensures StartsWith(cells[i], CellMark) && !StartsWith(cells[i], RowMark)
    {
      CellStarts(style, row[i]);
    }
    SelectAll(cells, CellMark);
    SelectNone(cells, RowMark);
  }

  /** The cell lines of a row are exactly the lines of that row starting
      with `<td`, and exactly one line of it starts with `<tr`. */
  lemma RowSelects(style: Style, row: seq<Value>)
    ensures Select(RowLines(style, row), CellMark) == CellLines(style, row)
    ensures Select(RowLines(style, row), RowMark) == [OpenRow(style)]
  {
    OpenRowStarts(style);
    DiffersAt(CloseRow, CellMark, 4);
    DiffersAt(CloseRow, RowMark, 5);
    CellLinesSelect(style, row);
    Bracketed(OpenRow(style), CellLines(style, row), CloseRow, CellMark);
    Bracketed(OpenRow(style), CellLines(style, row), CloseRow, RowMark);
  }

  /** Selecting from lines wrapped in an opening and a closing line. */
  lemma Bracketed(open: string, mid: seq<string>, close: string, mark: string)
    ensures Select([open] + mid + [close], mark) ==
      (if StartsWith(open, mark) then [open] else []) + Select(mid, mark) +
      (if StartsWith(close, mark) then [close] else [])
  {
    SelectOne(open, mark);
    SelectOne(close, mark);
    SelectAppend([open] + mid, [close], mark);
    SelectAppend([open], mid, mark);
  }

  lemma OpenRowStarts(style: Style)
    ensures StartsWith(OpenRow(style), RowMark) && !StartsWith(OpenRow(style), CellMark)
  {
    var open := OpenRow(style);
    if style.Basic? {
      PrefixStarts(RowMark, ">\n");
    } else {
      PrefixStarts(RowMark, " " + style.rowOption + ">\n");
      assert open == RowMark + (" " + style.rowOption + ">\n");
    }
    DiffersAt(open, CellMark, 4);
  }

  lemma CellStarts(style: Style, v: Value)
    ensures StartsWith(CellLine(style, v), CellMark)
    ensures !StartsWith(CellLine(style, v), RowMark)
  {
    CellTextStarts(style, Str(v));
  }

  lemma CellTextStarts(style: Style, text: string)
    ensures StartsWith(CellText(style, text), CellMark)
    ensures !StartsWith(CellText(style, text), RowMark)
  {
    var line := CellText(style, text);
    if style.Basic? {
      PrefixStarts(CellMark, ">" + text + "</td>\n");
      assert line == CellMark + (">" + text + "</td>\n");
    } else {
      PrefixStarts(CellMark, " " + style.cellOption + ">" + text + "</td>\n");
      assert line == CellMark + (" " + style.cellOption + ">" + text + "</td>\n");
    }
    DiffersAt(line, RowMark, 4);
  }

  /** Across the rows, the cell lines come in row-major order and there is
      one `<tr` line per row. */
  lemma {:induction false} RowsSelect(style: Style, rows: Table)
    ensures Select(RowsLines(style, rows), CellMark) == CellLines(style, Flatten(rows))
    ensures Select(RowsLines(style, rows), RowMark) == seq(|rows|, _ => OpenRow(style))
  {
    if rows != [] {
      var init, last := rows[..|rows| - 1], rows[|rows| - 1];
      RowsSelect(style, init);
      RowSelects(style, last);
      SelectAppend(RowsLines(style, init), RowLines(style, last), CellMark);
      SelectAppend(RowsLines(style, init), RowLines(style, last), RowMark);
      CellLinesAppend(style, Flatten(init), last);
    }
  }

  /** The lines opening and closing a table start with neither mark. */
  lemma TableEnds(style: Style)
    ensures !StartsWith(OpenTable(style), CellMark) && !StartsWith(OpenTable(style), RowMark)
    ensures !StartsWith(CloseTable, CellMark) && !StartsWith(CloseTable, RowMark)
  {
    var open := OpenTable(style);
    assert open[0] == '<';
    DiffersAt(open, CellMark, 0);
    DiffersAt(open, RowMark, 0);
    DiffersAt(CloseTable, CellMark, 0);
    DiffersAt(CloseTable, RowMark, 0);
  }

  /** The generated table has one `<tr` line per row and one `<td` line per
      cell; the `<td` lines hold the cells left to right, row after row. */
  lemma TableSelect(style: Style, rows: Table)
    ensures Select(TableLines(style, rows), CellMark) == CellLines(style, Flatten(rows))
    ensures |Select(TableLines(style, rows), RowMark)| == |rows|
    ensures |Select(TableLines(style, rows), CellMark)| == |Flatten(rows)|
  {
    var open := OpenTable(style);
    TableEnds(style);
    RowsSelect(style, rows);
    Bracketed(open, RowsLines(style, rows), CloseTable, CellMark);
    Bracketed(open, RowsLines(style, rows), CloseTable, RowMark);
  }

  /** A generator: the table it was given and the text produced so far. */
  class TableGenerator {
    const tableData: Table
    const style: Style
    var content: string

    /** `BasicTableGenerator(table_data)` or `CustomTableGenerator(table_data,
        table_option, row_option, cell_option)`: the content is the header
        comment. */
    constructor (tableData: Table, style: Style)
      ensures this.tableData == tableData && this.style == style
      ensures content == Header(style)
    {
      this.tableData := tableData;
      this.style := style;
      content := Header(style);
    }

    method Start()
      modifies this
      ensures content == old(content) + OpenTable(style)
    {
      content := content + OpenTable(style);
    }

    method StartRow()
      modifies this
      ensures content == old(content) + OpenRow(style)
    {
      content := content + OpenRow(style);
    }

    method Cell(value: Value)
      modifies this
      ensures content == old(content) + CellLine(style, value)
    {
      content := content + CellLine(style, value);
    }

    method EndRow()
      modifies this
      ensures content == old(content) + CloseRow
    {
      content := content + CloseRow;
    }

    method End()
      modifies this
      ensures content == old(content) + CloseTable
    {
      content := content + CloseTable;
    }

    /** One pass of `generate`'s outer loop: the row's opening line, its
        cells left to right, and its closing line. */
    method GenerateRow(row: seq<Value>)
      modifies this
      ensures content == old(content) + OpenRow(style) + Concat(CellLines(style, row)) + CloseRow
    {
      StartRow();
      ghost var base := content;
      assert base + Concat(CellLines(style, row[..0])) == base;
      for j := 0 to |row|
        invariant content == base + Concat(CellLines(style, row[..j]))
      {
        Cell(row[j]);
        CellStep(style, row, j);
        Assoc(base, Concat(CellLines(style, row[..j])), CellLine(style, row[j]));
      }
      assert row[..|row|] == row;
      EndRow();
    }

    /** `generate()`: the table's lines are appended to what is there, so a
        second call adds a second table. */
    method Generate()
      modifies this
      ensures content == old(content) + Concat(TableLines(style, tableData))
    {
      Start();
      ConcatSnoc([], OpenTable(style));
      for i := 0 to |tableData|
        invariant content == old(content) + Concat([OpenTable(style)] + RowsLines(style, tableData[..i]))
      {
        var row := tableData[i];
        GenerateRow(row);
        RowStep(style, tableData, i);
        Assoc(old(content), Concat([OpenTable(style)] + RowsLines(style, tableData[..i])), OpenRow(style));
        Assoc(old(content), Concat([OpenTable(style)] + RowsLines(style, tableData[..i])) + OpenRow(style),
          Concat(CellLines(style, row)));
        Assoc(old(content), Concat([OpenTable(style)] + RowsLines(style, tableData[..i])) + OpenRow(style) +
          Concat(CellLines(style, row)), CloseRow);
      }
      End();
      TableStep(style, tableData);
      Assoc(old(content), Concat([OpenTable(style)] + RowsLines(style, tableData[..|tableData|])), CloseTable);
    }
  }

  lemma CellStep(style: Style, row: seq<Value>, j: nat)
    requires j < |row|
    ensures Concat(CellLines(style, row[..j + 1])) == Concat(CellLines(style, row[..j])) + CellLine(style, row[j])
  {
    assert CellLines(style, row[..j + 1]) == CellLines(style, row[..j]) + [CellLine(style, row[j])];
    ConcatSnoc(CellLines(style, row[..j]), CellLine(style, row[j]));
  }

  lemma RowStep(style: Style, rows: Table, i: nat)
    requires i < |rows|
    ensures Concat([OpenTable(style)] + RowsLines(style, rows[..i + 1])) ==
      Concat([OpenTable(style)] + RowsLines(style, rows[..i])) + OpenRow(style) +
        Concat(CellLines(style, rows[i])) + CloseRow
  {
    assert rows[..i + 1][..i] == rows[..i];
    assert [OpenTable(style)] + RowsLines(style, rows[..i + 1]) ==
      ([OpenTable(style)] + RowsLines(style, rows[..i])) + RowLines(style, rows[i]);
    RowConcat([OpenTable(style)] + RowsLines(style, rows[..i]), style, rows[i]);
  }

  lemma TableStep(style: Style, rows: Table)
    ensures Concat([OpenTable(style)] + RowsLines(style, rows[..|rows|])) + CloseTable ==
      Concat(TableLines(style, rows))
  {
    assert rows[..|rows|] == rows;
    ConcatSnoc([OpenTable(style)] + RowsLines(style, rows), CloseTable);
  }

  /** `generator(tbl).generate().content`: the header comment followed by
      the table. */
  method GenerateTable(tbl: Table, style: Style) returns (text: string)
    ensures text == Header(style) + Concat(TableLines(style, tbl))
  {
    var g := new TableGenerator(tbl, style);
    g.Generate();
    text := g.content;
  }
}
