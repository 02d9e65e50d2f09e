# PyAutoExcel, modelled in Dafny

PyAutoExcel is a Python library for reading and writing spreadsheets. It is
mostly a facade over third-party engines (openpyxl, xlrd, xlwt,
xlsxwriter). Its own logic is what this project models:

- the **grids**: write-only logs of `(row, col, value)` records, turned on
  demand into a table (`ListGrid`), a dict of columns (`ColumnDictGrid`) or a
  list of row records (`RecordGrid`), with a cache that only a truthy
  result fills;
- the in-memory **`Sheet`**: every change is written to its list grid, the
  whole table is rebuilt into `data`, and the cache is dropped; every read
  indexes `data`;
- the **coordinate algebra**: `Cell`, the many constructor forms of
  `CellRange`, and the A1 label codec (bijective base-26 column letters and
  a 1-based decimal row);
- the **conversions** in `Utils` (`column_dict_to_list`, `records_to_list`,
  `pos2string`, `humanize_items`), and the reading and writing sheet views
  `ReadSheet`/`ReadBook` and `WriteSheet`/`WriteBook`;
- the **HTML output**: the table generators and the page the HTML dumper
  lays out, and `save_html` up to the file write;
- the **validators**, fields and parsers of both parser interfaces;
- the **bookkeeping**: the engine registry, the engine choice of the
  reader and writer front ends, the sheet lists of documents and workbooks,
  and the warn-once deprecation counters.

Each source file is one module. Code that updates objects in place becomes a
class whose methods state the new state (`Grid.Grid`, `Sheet.Sheet`,
`BaseWriter.WriteSheet`, `TableGen.TableGenerator`, `HtmlFile.HtmlDumper`,
`Field.Field`, `Register.Register`, the parsers, the sheet lists and the
deprecation counters). Loops become methods with invariants, proved against
specification functions (`Grid.Materialize`, `TableGen.TableLines`,
`BaseWriter.RangeWrites`, `Parser.Resolve`, …). Pure code becomes functions
and lemmas. Python built-ins the code relies on have their own modules:
`Values` (dynamic values, `str()`, `repr()`, truthiness, `len()`,
`==`, `<` and `<=`), `PyList`
(negative indices, clamping slices, `insert`, `zip`), `PyDict`
(insertion-ordered dicts) and `Text` (`str(int)`, `hex`, `join`, `split`,
`lower`). Errors are values: a `Result` carries the Python exception a call
raises, and an `Outcome` does so for a call that returns nothing. Printing
is modelled by returning the printed line.

Where the documentation and the code disagree, the model follows the code:

- `WriteBook.get_sheet` finds a sheet by name but returns nothing.
- `ExcelReader.sheet_names` lists each name once, although a book may
  hold two sheets of one name.
- `UrlValidator` lets one trailing line break through: `$` also matches
  before a final `\n`.
- `Cell(...)` accepts a pair, a label or a two-item tuple; it has no form
  that copies another `Cell`.
- `DeprecationMessages.deprecated` says "will be remove in", as written.

## Model

| member | source | states |
|---|---|---|
| Grid.MaxRow | PyAutoExcel/Grid.py:83 | the maximum row bounds the row of every record |
| Grid.MaxCol | PyAutoExcel/Grid.py:84 | the maximum column bounds the column of every record |
| Grid.MaxRowAtMost | PyAutoExcel/Grid.py:83 | every bound on all rows bounds the maximum row, so it is the least such bound |
| Grid.MaxColAtMost | PyAutoExcel/Grid.py:84 | every bound on all columns bounds the maximum column |
| Grid.Blank | PyAutoExcel/Grid.py:91-96 | a rows-by-columns table whose every cell holds the empty string |
| Grid.Write | PyAutoExcel/Grid.py:98 | a write inside the table keeps its rectangular shape |
| Grid.Replay | PyAutoExcel/Grid.py:97-98 | writing records that all land inside the table keeps its shape |
| Grid.Materialize | PyAutoExcel/Grid.py:73-99 | fails exactly when there are no records (ValueError) or a negative index reaches before the start (IndexError); otherwise a rectangular table of max row + 1 by max column + 1 |
| Grid.ReplayAt | PyAutoExcel/Grid.py:97-98 | each replayed cell holds the last record landing on it, or its earlier value |
| Grid.MaterializeAt | PyAutoExcel/Grid.py:88-99 | each materialised cell holds the last value written there, and the empty string when none was |
| Grid.LastWriteAppend | PyAutoExcel/Grid.py:97-98 | after writes `a` then `b`, the last write of `b` wins, otherwise the last write of `a` |
| Grid.RowRecords | PyAutoExcel/Grid.py:54-55 | one record per value, value `k` at column `col0 + k` of the row, in order |
| Grid.ColumnRecords | PyAutoExcel/Grid.py:66-67 | one record per value, value `k` at row `k` of the column, in order |
| Grid.LastWriteRow | PyAutoExcel/Grid.py:54-55 | a row written from a non-negative position sets exactly the cells it covers |
| Grid.LastWriteColumn | PyAutoExcel/Grid.py:66-67 | a column written from row 0 sets exactly the cells it covers |
| Grid.LastWriteBlock | PyAutoExcel/Grid.py:143-144 | rows written one below the other from a non-negative corner set exactly the cells they cover |
| Grid.BlockRecordsInside | PyAutoExcel/Grid.py:143-144 | every record of a block of rows lies inside the block |
| Grid.BlockRecordsLast | PyAutoExcel/Grid.py:143-144 | the last record of a block is the last cell of its last row |
| Grid.BlockRecordIndex | PyAutoExcel/Grid.py:143-144 | every cell of a block appears among its records, at its own position |
| Grid.TableShape | PyAutoExcel/Grid.py:73-85 | the writes of a rectangular table have its last row and column as maxima and all land inside it |
| Grid.ReplayIs | PyAutoExcel/Grid.py:88-99 | a replay whose every cell's last write matches `t` gives `t` |
| Grid.BlockCell | PyAutoExcel/Grid.py:143-144 | the last write on a cell of a written table is that cell's value |
| Grid.TableRoundTrip | PyAutoExcel/Grid.py:88-99 | writing a rectangular table with at least one cell row by row and materialising gives the table back |
| Grid.LastWriteMiss | PyAutoExcel/Grid.py:97-98 | records that all miss a cell leave its value |
| Grid.LastWriteNonNegative | PyAutoExcel/Grid.py:97-98 | records at non-negative positions land on the same cells whatever the table's size |
| Grid.MaterializeGrows | PyAutoExcel/Grid.py:73-85 | more records never make the table shorter or narrower |
| Grid.MaterializeKeeps | PyAutoExcel/Grid.py:88-99 | later records that miss a cell leave the value it had |
| Grid.ColumnDictOf | PyAutoExcel/Grid.py:106-113 | the column projection is a dict with distinct keys, in insertion order |
| Grid.RecordsOf | PyAutoExcel/Grid.py:120-127 | one well-formed dict per row below the header |
| Grid.Calc | PyAutoExcel/Grid.py:88-127 | each kind of grid fails exactly when the table cannot be built; only the list grid gives rows |
| Grid.Grid.constructor | PyAutoExcel/Grid.py:5-8 | no records and nothing cached |
| Grid.Grid.Cell | PyAutoExcel/Grid.py:32-43 | exactly one record appended, and the cache left as it was |
| Grid.Grid.Row | PyAutoExcel/Grid.py:45-55 | the row's records appended in order, and the cache left as it was |
| Grid.Grid.Column | PyAutoExcel/Grid.py:57-67 | the column's records appended in order, and the cache left as it was |
| Grid.Grid.Get | PyAutoExcel/Grid.py:10-22 | a truthy cached result is returned unchanged, even after later writes; otherwise the result is computed from all records and cached when it succeeds |
| Grid.CalcGrid | PyAutoExcel/Grid.py:88-127 | each grid class's `_calc_grid` computes that kind's projection of the records |
| Grid.CalcListGrid | PyAutoExcel/Grid.py:88-99 | the nested loops build exactly the materialised table, or fail as it does |
| Grid.ColumnDictGrid | PyAutoExcel/Grid.py:106-113 | the loop builds exactly the column projection of the table |
| Grid.RecordGrid | PyAutoExcel/Grid.py:120-127 | the loop builds exactly the record projection of the table |
| Grid.ListToColumnDict | PyAutoExcel/Grid.py:133-145 | feeding row `i` of the list as row `i` gives the column projection of the materialised writes |
| Grid.ListToRecords | PyAutoExcel/Grid.py:148-161 | feeding row `i` of the list as row `i` gives the record projection of the materialised writes |
| Grid.EmptyListRejected | PyAutoExcel/Grid.py:133-161 | a list with no cell at all fails with ValueError in both conversions |
| Grid.EmptyRowsNoRecords | PyAutoExcel/Grid.py:143-144 | empty rows write nothing |
| Grid.ColumnDictOfTable | PyAutoExcel/Grid.py:106-113 | with a distinct header, the keys are the header in order and the values are the columns below it |
| Grid.ColumnDictRoundTrip | PyAutoExcel/Grid.py:133-145 | `column_dict_to_list(list_to_column_dict(t)) == t` for a rectangular table with a distinct header and a row below it |
| Grid.ColumnDictToListOfTable | PyAutoExcel/Utils.py:14-26 | `column_dict_to_list` undoes the column projection of such a table |
| Grid.HeaderOnly | PyAutoExcel/Grid.py:105-127 | a header-only table gives an empty dict, which `get` never caches, and no records |
| Grid.RecordsRoundTrip | PyAutoExcel/Grid.py:148-161 | `records_to_list(list_to_records(t)) == t` for a rectangular table with a distinct header and a row below it |
| Grid.FromListOfTable | PyAutoExcel/Grid.py:133-161 | both conversions of a rectangular table with a cell project that table itself |
| Grid.RecordsTableOfRecords | PyAutoExcel/Utils.py:29-42 | `records_to_list` undoes the record projection of a table with a distinct header |
| Grid.RecordsOfRows | PyAutoExcel/Grid.py:120-127 | record `k` has the header as keys and row `k + 1` as values |
| Grid.RecordOfRow | PyAutoExcel/Grid.py:126 | `dict(zip(header, row))` keeps the header's order and the row's values |
| Grid.ColumnListRoundTrip | PyAutoExcel/Utils.py:14-26 | `list_to_column_dict(column_dict_to_list(d)) == d` for equally long non-empty columns |
| Grid.ColumnDictToListShape | PyAutoExcel/Utils.py:14-26 | such a dict becomes a rectangular table: the keys, then the transposed columns |
| Grid.ColumnDictOfList | PyAutoExcel/Grid.py:106-113 | the column projection undoes `column_dict_to_list` |
| Sheet.CellAt | PyAutoExcel/Documents/File/Excel/Sheet.py:77 | IndexError exactly outside the Python index range of a shaped table, otherwise the cell |
| Sheet.ColumnOf | PyAutoExcel/Documents/File/Excel/Sheet.py:95 | one value per row, each the row's entry at the column; IndexError at a row without it |
| Sheet.MaterializedCell | PyAutoExcel/Documents/File/Excel/Sheet.py:27-29 | every recorded write lands on a cell of the rebuilt table, which holds the last value written there |
| Sheet.MaterializedAt | PyAutoExcel/Documents/File/Excel/Sheet.py:69-77 | a written cell at a non-negative position reads back the last value written there |
| Sheet.WrittenCellReads | PyAutoExcel/Documents/File/Excel/Sheet.py:35-45 | the cell just written reads back its value, and the table reaches it |
| Sheet.RowWrite | PyAutoExcel/Documents/File/Excel/Sheet.py:47-56 | value `k` of a row just written is the last write on its cell |
| Sheet.WrittenRowCell | PyAutoExcel/Documents/File/Excel/Sheet.py:47-56 | value `k` of a row just written reads back |
| Sheet.WrittenRowReads | PyAutoExcel/Documents/File/Excel/Sheet.py:47-56 | every value of a row just written reads back |
| Sheet.ColumnWrite | PyAutoExcel/Documents/File/Excel/Sheet.py:58-67 | value `k` of a column just written is the last write on its cell |
| Sheet.WrittenColumnCell | PyAutoExcel/Documents/File/Excel/Sheet.py:58-67 | value `k` of a column just written reads back |
| Sheet.WrittenColumnReads | PyAutoExcel/Documents/File/Excel/Sheet.py:58-67 | every value of a column just written reads back |
| Sheet.BlockLastWrite | PyAutoExcel/Documents/File/Excel/Sheet.py:121-125 | after a block written at a non-negative corner, each of its cells' last write is the block's value |
| Sheet.WrittenBlockCell | PyAutoExcel/Documents/File/Excel/Sheet.py:121-127 | each cell of a block just written reads back at its place |
| Sheet.WrittenBlockReads | PyAutoExcel/Documents/File/Excel/Sheet.py:121-127 | every cell of a block just written reads back at its place |
| Sheet.SliceHolds | PyAutoExcel/Documents/File/Excel/Sheet.py:108 | the slice of a row over cells holding `want` is `want` |
| Sheet.RangeReadsBack | PyAutoExcel/Documents/File/Excel/Sheet.py:97-109 | a range whose cells hold `content` reads back `content` |
| Sheet.WrittenBlockRange | PyAutoExcel/Documents/File/Excel/Sheet.py:97-127 | a block written over a range reads back, as that range, the block |
| Sheet.RangeWritesWhole | PyAutoExcel/Documents/File/Excel/Sheet.py:121-125 | content of the range's exact shape is written whole, row by row |
| Sheet.WrittenRangeReads | PyAutoExcel/Documents/File/Excel/Sheet.py:97-127 | `set_range` then `get_range` gives back content of the range's shape |
| Sheet.SyncedGrows | PyAutoExcel/Documents/File/Excel/Sheet.py:25-29 | a rebuild from more records never makes `data` shorter or narrower |
| Sheet.BlockStep | PyAutoExcel/Documents/File/Excel/Sheet.py:162-163 | loading row `i` after the rows before it writes the first `i + 1` rows |
| Sheet.PrefixRoundTrip | PyAutoExcel/Documents/File/Excel/Sheet.py:162-163 | the writes of the first `n` rows of a shaped table rebuild exactly those rows |
| Sheet.LoadStep | PyAutoExcel/Documents/File/Excel/Sheet.py:162-163 | one more loaded row extends the writes, and into an empty grid they rebuild the rows loaded so far |
| Sheet.Sheet.constructor | PyAutoExcel/Documents/File/Excel/Sheet.py:16-25 | an empty list grid and `data == [[]]`, so one row and no column |
| Sheet.Sheet.Update | PyAutoExcel/Documents/File/Excel/Sheet.py:27-29 | `data` becomes the table rebuilt from all records, or stays when the rebuild raises |
| Sheet.Sheet.Clean | PyAutoExcel/Documents/File/Excel/Sheet.py:31-33 | the cache is dropped and the records are kept |
| Sheet.Sheet.Refresh | PyAutoExcel/Documents/File/Excel/Sheet.py:27-33 | the rebuild then the cache drop: `data` is the rebuilt table and never shrinks |
| Sheet.Sheet.SetCell | PyAutoExcel/Documents/File/Excel/Sheet.py:35-45 | one record appended; on success the cell reads back its value and the sheet has not shrunk |
| Sheet.Sheet.SetRow | PyAutoExcel/Documents/File/Excel/Sheet.py:47-56 | the row's records appended; on success every value reads back and the sheet has not shrunk |
| Sheet.Sheet.SetCol | PyAutoExcel/Documents/File/Excel/Sheet.py:58-67 | the column's records appended; on success every value reads back and the sheet has not shrunk |
| Sheet.Sheet.SetRange | PyAutoExcel/Documents/File/Excel/Sheet.py:111-127 | the range's records appended row by row; IndexError before the rebuild when content is short; a failed rebuild returns its error; on any failure `data` is unchanged; on success content of the range's shape reads back with `get_range` |
| Sheet.Sheet.GetCell | PyAutoExcel/Documents/File/Excel/Sheet.py:69-77 | IndexError exactly outside the Python index range of the sheet |
| Sheet.Sheet.GetRow | PyAutoExcel/Documents/File/Excel/Sheet.py:79-86 | IndexError exactly outside the rows; otherwise each entry is `get_cell` of it |
| Sheet.Sheet.GetCol | PyAutoExcel/Documents/File/Excel/Sheet.py:88-95 | IndexError exactly outside the columns; otherwise `nrows()` entries, the `r`-th being `get_cell(r, col)` |
| Sheet.Sheet.GetRange | PyAutoExcel/Documents/File/Excel/Sheet.py:97-109 | the loop builds the range's rows, each sliced to the range's columns |
| Sheet.Sheet.NRows | PyAutoExcel/Documents/File/Excel/Sheet.py:129-135 | the number of rows of `data` |
| Sheet.Sheet.NCols | PyAutoExcel/Documents/File/Excel/Sheet.py:137-143 | the length of the first row |
| Sheet.Sheet.Dump | PyAutoExcel/Documents/File/Excel/Sheet.py:145-153 | the writer sheet receives row `i` of `data` as row `i`, in order |
| Sheet.Sheet.LoadRow | PyAutoExcel/Documents/File/Excel/Sheet.py:162-163 | one pass of the loading loop extends the writes by the next row; into an empty grid the rows loaded so far come back as `data` |
| Sheet.Sheet.Load | PyAutoExcel/Documents/File/Excel/Sheet.py:155-163 | the source's rows written as rows `0 ..`; into an empty sheet a shaped source with a column becomes `data` |
| Sheet.Names | PyAutoExcel/Documents/File/Excel/ExcelDocument.py:102 | one name per sheet, in order |
| Sheet.NamedFirst | PyAutoExcel/Documents/File/Excel/ExcelDocument.py:104 | the filtered list is empty exactly when no sheet has the name, and otherwise starts with the first that has it |
| Sheet.SheetByName | PyAutoExcel/Documents/File/Excel/ExcelDocument.py:94-104 | KeyError exactly when no sheet has the name, otherwise the first sheet that has it |
| Cell.Cell.ToString | PyAutoExcel/Cell.py:41-42 | ValueError exactly for a negative column |
| Cell.Cell.Repr | PyAutoExcel/Cell.py:29-30 | the representation is longer than its fixed head |
| Cell.Cell.Eq | PyAutoExcel/Cell.py:32-33 | `__eq__`: the rows and the columns are equal; `Cell.EqIsEquality` proves this is equality of cells |
| Cell.Cell.Ne | PyAutoExcel/Cell.py:35-36 | `__ne__`: the negation of `__eq__`; `Cell.EqIsEquality` proves this is inequality of cells |
| Cell.NewCell | PyAutoExcel/Cell.py:19-27 | a pair is kept; a tuple must hold two items (ValueError otherwise); a label works exactly when it decodes, and gives a non-negative cell |
| Cell.CellForms | PyAutoExcel/Cell.py:19-42 | `Cell(Cell(r, c).to_string()) == Cell(r, c)` and `Cell((r, c)) == Cell(r, c)` for `r, c >= 0` |
| Cell.EqIsEquality | PyAutoExcel/Cell.py:32-36 | `__eq__` is equality of the coordinates, symmetric, and `__ne__` its negation |
| Cell.ReprParts | PyAutoExcel/Cell.py:29-30 | the representation is the head, the row, a comma, then the column |
| Cell.ReprInjective | PyAutoExcel/Cell.py:29-30 | different cells have different representations |
| CellRange.CellRange.Area | PyAutoExcel/CellRange.py:123-149 | the area is zero exactly when a count is zero, and not negative when neither count is |
| CellRange.CellRange.RowCount | PyAutoExcel/CellRange.py:137-142 | at least one row exactly when the start row is not after the end row, and one row exactly when they are the same |
| CellRange.CellRange.ColCount | PyAutoExcel/CellRange.py:144-149 | at least one column exactly when the start column is not after the end column, and one column exactly when they are the same |
| CellRange.CellRange.SingleCell | PyAutoExcel/CellRange.py:130-135 | a single cell exactly when the first and the last corner are the same cell |
| CellRange.CellRange.Eq | PyAutoExcel/CellRange.py:113-121 | `__eq__`: the four bounds are pairwise equal; `CellRange.EqIsEquality` proves this is equality of ranges |
| CellRange.FromLabel | PyAutoExcel/CellRange.py:70-86 | a string given alone: one `:` splits it into two corner labels, no `:` makes it the last corner of a range from A1, more raise ValueError; `CellRange.FromLabelPair` and `CellRange.ToStringRoundTrip` state it |
| CellRange.Make | PyAutoExcel/CellRange.py:34-102 | the constructor's forms tried in the order the source lists them; its results are stated by `CellRange.MakeForms`, `CellRange.MakeCornerForms`, `CellRange.MakeFromOrigin` and `CellRange.MakeRejects` |
| CellRange.FromPair | PyAutoExcel/CellRange.py:34-69 | the two-argument forms: two ints, two labels, two cells, two sequences of two ints or two spans; stated by `CellRange.MakeForms` and `CellRange.MakeTwoLabels` |
| CellRange.FromOne | PyAutoExcel/CellRange.py:70-102 | the one-argument forms: a label, a cell, a pair or a four-tuple; anything else raises ValueError; stated by `CellRange.MakeFromOrigin` and `CellRange.MakeRejects` |
| CellRange.CellRange.ToString | PyAutoExcel/CellRange.py:151-162 | ValueError exactly when a corner has a negative column |
| CellRange.Corner | PyAutoExcel/CellRange.py:43-48 | a label decodes exactly when the codec accepts it, to a non-negative position |
| CellRange.UnpackPair | PyAutoExcel/CellRange.py:55-56 | unpacking succeeds exactly on two items, ValueError otherwise |
| CellRange.CornerOfLabel | PyAutoExcel/Utils.py:45-54 | the label of a position decodes to it and holds no `:` |
| CellRange.ToStringRoundTrip | PyAutoExcel/CellRange.py:72-79 | the single-string form rebuilds the range from its `to_string` |
| CellRange.MakeOneString | PyAutoExcel/CellRange.py:70-86 | a string given alone is decoded as one or two labels |
| CellRange.FromLabelPair | PyAutoExcel/CellRange.py:72-79 | `"<first>:<last>"` decodes each side as one corner |
| CellRange.MakeForms | PyAutoExcel/CellRange.py:34-100 | four ints, two labels, two cells, two sequences, two spans and one four-tuple all build the same range |
| CellRange.MakeCornerForms | PyAutoExcel/CellRange.py:34-100 | the numeric forms build the range for any bounds, negative ones included |
| CellRange.MakeTwoLabels | PyAutoExcel/CellRange.py:42-48 | two labels are decoded one corner each |
| CellRange.MakeFromOrigin | PyAutoExcel/CellRange.py:65-97 | two ints, one plain label, one cell and one pair name the last corner of a range from A1 |
| CellRange.MakeRejects | PyAutoExcel/CellRange.py:70-102 | a string with two `:` and a list given alone raise ValueError |
| CellRange.SingleCellShape | PyAutoExcel/CellRange.py:130-149 | one cell exactly when one row and one column, and then the area is 1 |
| CellRange.EqIsEquality | PyAutoExcel/CellRange.py:113-121 | `__eq__` is equality of the four bounds |
| Coordinate.Letter | PyAutoExcel/Utils.py:54 | a digit of bijective base 26 is an upper-case letter |
| Coordinate.ColumnLetter | PyAutoExcel/Utils.py:54 | the letters of a column are non-empty and all upper-case letters |
| Coordinate.ColumnLetterRoundTrip | PyAutoExcel/Utils.py:54 | reading the letters of column `n` back gives `n` |
| Coordinate.LetterPrefix | PyAutoExcel/Cell.py:21 | the leading letters of a label end at its first non-letter |
| Coordinate.CoordinateToTuple | PyAutoExcel/Cell.py:21 | a decoded label has a row and a column of at least 1 |
| Coordinate.LetterPrefixOfLabel | PyAutoExcel/Cell.py:21 | the letters of a label end where its digits begin |
| Coordinate.Label | PyAutoExcel/Utils.py:54 | the column's letters followed by the row's digits; `Coordinate.LabelRoundTrip` proves the codec decodes it back |
| Coordinate.LabelRoundTrip | PyAutoExcel/CellRange.py:44 | decoding the label of a 1-based position gives the position, and no label holds `:` |
| Utils.Pos2String | PyAutoExcel/Utils.py:45-54 | ValueError exactly for a negative column; the label of a non-negative position decodes to it shifted to 1-based |
| Utils.ColumnDictToList | PyAutoExcel/Utils.py:14-26 | the keys as header, then one row per index up to the shortest column, row `i` holding each column's entry `i - 1` |
| Utils.RecordsTable | PyAutoExcel/Utils.py:36-42 | the first record's keys, then one row per record holding its values |
| Utils.RecordsToList | PyAutoExcel/Utils.py:29-42 | IndexError exactly for an empty list; otherwise the header and one row per record |
| Utils.HumanizeItems | PyAutoExcel/Utils.py:72-92 | a string is itself; a list is joined as `Utils.HumanizeItemsRule` states; the empty list raises IndexError |
| Utils.HumanizeItemsRule | PyAutoExcel/Utils.py:72-92 | all but the last item joined by ", ", then " and " or " or ", then the last; one item is itself; only the empty list fails |
| PyList.AddAtPlacement | PyAutoExcel/Documents/File/Excel/ExcelDocument.py:68-71 | -1 appends; an index inside the list inserts there, shifting the rest; the contents gain exactly the new item |
| PyList.TransposeTwice | PyAutoExcel/Utils.py:23 | transposing a rectangular table twice gives it back |
| PyList.Index | PyAutoExcel/BaseReader.py:59-67 | Python subscripting: defined exactly for `-len(s) <= i < len(s)`, `s[i]` for a non-negative index and `s[i + len(s)]` for a negative one, IndexError otherwise |
| PyDict.FromDistinctPairs | PyAutoExcel/Grid.py:126 | `dict(pairs)` with distinct keys keeps them in order and maps each to its own value |
| PyDict.FromOwnPairs | PyAutoExcel/Grid.py:111-112 | a dict is rebuilt from its own keys and values |
| Values.CompareErrors | PyAutoExcel/ParserInterface2/Validators.py:61-66 | `<` and `<=` fail only with TypeError, and both fail on the same operands: ints with ints, strings with strings, lists item by item and sets with sets compare |
| Values.CompareItemsErrors | PyAutoExcel/ParserInterface2/Validators.py:61-66 | the same for two lists compared item by item |
| Values.LessEqIsLessOrEqual | PyAutoExcel/ParserInterface2/Validators.py:174-195 | when `a <= b` evaluates, so does `a < b`, and `a <= b` holds exactly when `a < b` or `a == b` |
| Values.ItemsLessEqIsLessOrEqual | PyAutoExcel/ParserInterface2/Validators.py:174-195 | the same for lists: lexicographic order, a proper prefix being smaller |
| Values.EqualIsEquivalence | PyAutoExcel/ParserInterface2/Validators.py:81-87 | `==` is reflexive and symmetric, with sets compared as sets of members |
| Values.ItemsEqualIsEquivalence | PyAutoExcel/ParserInterface2/Validators.py:81-87 | the same for lists compared item by item |
| Values.EqualOfSetFree | PyAutoExcel/ParserInterface2/Validators.py:81-87 | on values holding no set, `==` is structural equality |
| Values.ItemsEqualOfSetFree | PyAutoExcel/ParserInterface2/Validators.py:81-87 | the same for lists holding no set |
| Values.UnescapeEscape | PyAutoExcel/TableGenerator.py:38-45 | reading back the escaped text of a string gives the string |
| Values.EscapePrintable | PyAutoExcel/TableGenerator.py:38-45 | the escaped text holds no character below a space, so no line break |
| Values.StrReprRoundTrip | PyAutoExcel/TableGenerator.py:38-45 | `repr()` of a string (as a cell shows it inside a list) is quoted at both ends, reads back to the string, and is one line |
| BaseReader.RangeRows | PyAutoExcel/BaseReader.py:93-96 | IndexError exactly when a row of the range is missing; otherwise one slice per row |
| BaseReader.ReadSheet.NColumns | PyAutoExcel/BaseReader.py:50-57 | the length of the first row, IndexError when there is none |
| BaseReader.ReadSheet.ReadCell | PyAutoExcel/BaseReader.py:59-67 | `data[row][column]` with Python indices, IndexError outside them |
| BaseReader.ReadSheet.ReadRow | PyAutoExcel/BaseReader.py:69-76 | IndexError exactly outside the rows; each entry is `read_cell` of it |
| BaseReader.ReadSheet.ReadColumn | PyAutoExcel/BaseReader.py:78-84 | IndexError exactly outside the transposed table |
| BaseReader.ReadSheet.ReadRange | PyAutoExcel/BaseReader.py:86-96 | one row per row of the range |
| BaseReader.NewReadSheet | PyAutoExcel/BaseReader.py:31-39 | the sheet keeps its data and name, with the transpose computed once |
| BaseReader.ReadColumnOfRectangular | PyAutoExcel/BaseReader.py:78-84 | on rectangular data, column `c` exists exactly for the row's indices, has `nrows` entries, the `r`-th being `read_cell(r, c)` |
| BaseReader.ReadRangeInside | PyAutoExcel/BaseReader.py:86-96 | a range inside the sheet reads each row's slice of the range's columns |
| BaseReader.ReadBook.constructor | PyAutoExcel/BaseReader.py:131-143 | the parsed tables, indexed |
| BaseReader.ReadBook.Indexing | PyAutoExcel/BaseReader.py:187-191 | the table list becomes the tables in name order |
| BaseReader.ReadBook.SheetNames | PyAutoExcel/BaseReader.py:227-233 | the names in insertion order |
| BaseReader.ReadBook.NSheets | PyAutoExcel/BaseReader.py:219-225 | the number of names, once indexed |
| BaseReader.ReadBook.SheetByIndex | PyAutoExcel/BaseReader.py:193-200 | the `idx`-th table with the `idx`-th name; IndexError outside the list |
| BaseReader.ReadBook.SheetByName | PyAutoExcel/BaseReader.py:202-209 | the table of the name, KeyError for an unknown name |
| BaseReader.ReadBook.Sheets | PyAutoExcel/BaseReader.py:211-217 | every sheet, the `i`-th being `sheet_by_index(i)` |
| BaseReader.ReadBook.IndexAgreesWithName | PyAutoExcel/BaseReader.py:193-209 | the sheet at a position is the sheet of the name at that position |
| BaseWriter.RangeCompleteIff | PyAutoExcel/BaseWriter.py:82-95 | a range gets through exactly when each of its rows has a value for each of its columns |
| BaseWriter.RangeWritesOfTable | PyAutoExcel/BaseWriter.py:82-95 | content of the range's shape is written row by row in row-major order |
| BaseWriter.RangeStep | PyAutoExcel/BaseWriter.py:83-87 | one more row of a range adds its cells, and whether it had them all |
| BaseWriter.RangeStopsAfter | PyAutoExcel/BaseWriter.py:83-87 | once a row came up short, the later rows write nothing |
| BaseWriter.WriteRowInto | PyAutoExcel/BaseWriter.py:84-87 | the row's cells go to the grid; IndexError exactly when the values run out |
| BaseWriter.WriteRangeInto | PyAutoExcel/BaseWriter.py:82-87 | the grid receives the range's writes; IndexError exactly when the content runs short |
| BaseWriter.WriteSheet.constructor | PyAutoExcel/BaseWriter.py:22-34 | no records, and a fresh empty grid exactly when a grid class is given |
| BaseWriter.WriteSheet.WriteCell | PyAutoExcel/BaseWriter.py:36-47 | exactly one write appended, to the grid when there is one, else to `records` |
| BaseWriter.WriteSheet.WriteRow | PyAutoExcel/BaseWriter.py:49-60 | `(row, i, values[i])` appended for each `i`, in order |
| BaseWriter.WriteSheet.WriteCol | PyAutoExcel/BaseWriter.py:62-73 | `(i, col, values[i])` appended for each `i`, in order |
| BaseWriter.WriteSheet.WriteRange | PyAutoExcel/BaseWriter.py:75-95 | the range's writes in row-major order; IndexError, with the earlier writes kept, when content lacks a value |
| BaseWriter.WriteSheet.WriteRangeCells | PyAutoExcel/BaseWriter.py:89-95 | without a grid, the range's writes go to `records` |
| BaseWriter.WriteSheet.WriteRowCells | PyAutoExcel/BaseWriter.py:90-95 | without a grid, one row of the range goes to `records` |
| BaseWriter.WriteSheet.GetGrid | PyAutoExcel/BaseWriter.py:97-106 | AttributeError exactly when the sheet has no grid, else the grid |
| BaseWriter.WriteBook.constructor | PyAutoExcel/BaseWriter.py:136-141 | no sheets and no names |
| BaseWriter.WriteBook.AddSheet | PyAutoExcel/BaseWriter.py:143-158 | a fresh sheet and its name put at the same place in both lists, which stay aligned |
| BaseWriter.WriteBook.GetSheet | PyAutoExcel/BaseWriter.py:160-171 | an index is list indexing; an unknown name raises NameError and a known one returns nothing |
| BaseWriter.AddAtAligned | PyAutoExcel/BaseWriter.py:152-157 | adding at the same index keeps the two lists aligned |
| TableGen.CellLines | PyAutoExcel/TableGenerator.py:67-70 | one cell line per value |
| TableGen.OpenTable | PyAutoExcel/TableGenerator.py:26-30 | `<table>`, or `<table` with the custom generator's table options; `TableGen.TableSelect` shows it is neither a row nor a cell line |
| TableGen.OpenRow | PyAutoExcel/TableGenerator.py:32-36 | `<tr>`, or `<tr` with the custom generator's row options; `TableGen.OpenRowStarts` shows it starts with `<tr` |
| TableGen.CellLine | PyAutoExcel/TableGenerator.py:38-45 | `str()` of the value between `<td>` (with the custom generator's cell options) and `</td>`; `TableGen.CellStarts` shows it starts with `<td` |
| TableGen.TableLines | PyAutoExcel/TableGenerator.py:59-73 | the opening line, for each row its opening line, cell lines and closing line, then the closing line; `TableGen.TableSelect` counts its row and cell lines |
| TableGen.Select | PyAutoExcel/TableGenerator.py:59-73 | the selected lines are no more than the lines |
| TableGen.ConcatAppend | PyAutoExcel/TableGenerator.py:59-73 | the text of two runs of lines is the text of each, one after the other |
| TableGen.ConcatSnoc | PyAutoExcel/TableGenerator.py:59-73 | one more line adds its text at the end |
| TableGen.RowConcat | PyAutoExcel/TableGenerator.py:65-71 | a row's text is its opening line, its cells and its closing line |
| TableGen.SelectOne | PyAutoExcel/TableGenerator.py:59-73 | one line is selected exactly when it starts with the mark |
| TableGen.DiffersAt | PyAutoExcel/TableGenerator.py:38-45 | a line that differs from a mark inside both does not start with it |
| TableGen.PrefixStarts | PyAutoExcel/TableGenerator.py:38-45 | a text starts with any of its prefixes |
| TableGen.SelectAppend | PyAutoExcel/TableGenerator.py:59-73 | selection distributes over joined runs of lines |
| TableGen.SelectNone | PyAutoExcel/TableGenerator.py:59-73 | no line with the mark, nothing selected |
| TableGen.SelectAll | PyAutoExcel/TableGenerator.py:59-73 | every line with the mark, all selected |
| TableGen.CellLinesAppend | PyAutoExcel/TableGenerator.py:67-70 | the cell lines of joined values are the joined cell lines |
| TableGen.CellLinesSelect | PyAutoExcel/TableGenerator.py:38-45 | every cell line starts with `<td` and none with `<tr` |
| TableGen.RowSelects | PyAutoExcel/TableGenerator.py:65-71 | a row's `<td` lines are its cells, and one line starts with `<tr` |
| TableGen.Bracketed | PyAutoExcel/TableGenerator.py:59-73 | selecting from lines between an opening and a closing line |
| TableGen.OpenRowStarts | PyAutoExcel/TableGenerator.py:32-36 | the row-opening line starts with `<tr`, not `<td` |
| TableGen.CellStarts | PyAutoExcel/TableGenerator.py:38-45 | a cell line starts with `<td`, not `<tr` |
| TableGen.CellTextStarts | PyAutoExcel/TableGenerator.py:108-112 | a custom cell line starts with `<td`, not `<tr` |
| TableGen.RowsSelect | PyAutoExcel/TableGenerator.py:65-71 | across the rows, the cell lines come row after row, left to right, with one `<tr` line per row |
| TableGen.TableSelect | PyAutoExcel/TableGenerator.py:59-73 | one `<tr` line per row, and one `<td` line per cell holding the cells in row-major order |
| TableGen.TableGenerator.constructor | PyAutoExcel/TableGenerator.py:14-24 | the content starts as the generator's comment line |
| TableGen.TableGenerator.Start | PyAutoExcel/TableGenerator.py:26-30 | `<table>` (with options in the custom variant) appended |
| TableGen.TableGenerator.StartRow | PyAutoExcel/TableGenerator.py:32-36 | `<tr>` appended |
| TableGen.TableGenerator.Cell | PyAutoExcel/TableGenerator.py:38-45 | the value between `<td>` and `</td>` appended |
| TableGen.TableGenerator.EndRow | PyAutoExcel/TableGenerator.py:47-51 | `</tr>` appended |
| TableGen.TableGenerator.End | PyAutoExcel/TableGenerator.py:53-57 | `</table>` appended |
| TableGen.TableGenerator.GenerateRow | PyAutoExcel/TableGenerator.py:65-71 | one row's opening line, its cells' lines left to right, then its closing line appended |
| TableGen.TableGenerator.Generate | PyAutoExcel/TableGenerator.py:59-73 | the table's lines appended to what is there, so a second call adds a second table |
| TableGen.CellStep | PyAutoExcel/TableGenerator.py:67-70 | one more cell adds its line |
| TableGen.RowStep | PyAutoExcel/TableGenerator.py:65-71 | one more row adds its opening line, cells and closing line |
| TableGen.TableStep | PyAutoExcel/TableGenerator.py:59-73 | the rows then the closing line make the whole table |
| TableGen.GenerateTable | PyAutoExcel/TableGenerator.py:14-73 | a fresh generator's content after `generate` is its comment line then the table |
| HtmlFile.MakeTableRecord | PyAutoExcel/HTMLFile.py:110-123 | the record is the generator's whole content for the table |
| HtmlFile.PreambleOfRecords | PyAutoExcel/HTMLFile.py:33-75 | doctype, `<html>`, `<head>` and the title's opening tag, each record followed by one line break |
| HtmlFile.MiddleOfRecords | PyAutoExcel/HTMLFile.py:46-107 | the `eof` flag selects `</head>`, and `<body>` opens after it |
| HtmlFile.ClosingOfRecords | PyAutoExcel/HTMLFile.py:62-107 | `</body>` then `</html>`, each on its own line |
| HtmlFile.TitleOfRecord | PyAutoExcel/HTMLFile.py:78-91 | the title embedded verbatim between `<title>` and `</title>` |
| HtmlFile.Document | PyAutoExcel/HTMLFile.py:142-157 | doctype, head with the title, body holding the table code, each record on its line; `HtmlFile.DocumentOfRecords` proves the records make it up and `HtmlFile.DocumentInjective` that it gives back its title and table code |
| HtmlFile.DocumentOfRecords | PyAutoExcel/HTMLFile.py:142-157 | the records added one after the other make up the page |
| HtmlFile.SplitInjective | PyAutoExcel/HTMLFile.py:142-157 | text around a fixed marker determines what surrounds it |
| HtmlFile.DocumentInjective | PyAutoExcel/HTMLFile.py:142-157 | a page gives back its title (when it holds no `<`) and its table code |
| HtmlFile.HtmlDumper.constructor | PyAutoExcel/HTMLFile.py:131-140 | the title and table code kept, and nothing laid out yet |
| HtmlFile.HtmlDumper.PreToExport | PyAutoExcel/HTMLFile.py:142-157 | the page appended to what is there, so a second call lays it out twice |
| HtmlFile.SaveHtml | PyAutoExcel/HTMLFile.py:176-196 | AttributeError without a grid; otherwise the page of the grid's table (cached, or rebuilt from the records) titled with the sheet's name, or the rebuild's error; the grid's records are unchanged and its cache is what `get` leaves |
| HtmlFile.SavedPage | PyAutoExcel/HTMLFile.py:192-195 | the page of a table generated by the HTML table generator and titled with the sheet's name; `HtmlFile.RenderPage` proves the dumper lays out exactly this |
| HtmlFile.RenderPage | PyAutoExcel/HTMLFile.py:192-195 | the table record laid out by a fresh dumper is the saved page |
| HtmlFile.HtmlSheet | PyAutoExcel/HTMLFile.py:199-208 | a fresh sheet named after the title, writing into an empty list grid |
| Validators.LineLength | PyAutoExcel/ParserInterface2/Validators.py:116-124 | `.` matches up to the first line break |
| Validators.BacktrackBelow | PyAutoExcel/ParserInterface2/Validators.py:116-124 | backtracking below the greedy length never finds `$` |
| Validators.DotPlusEndIsOneLine | PyAutoExcel/ParserInterface2/Validators.py:116-124 | `.+$` accepts exactly one non-empty line with at most one final line break |
| Validators.UrlAccepts | PyAutoExcel/ParserInterface2/Validators.py:108-124 | accepted exactly when a scheme `http://`, `https://`, `ftp://` or `file://` is followed by one non-empty line |
| Validators.UrlTrailingBreak | PyAutoExcel/ParserInterface2/Validators.py:116-124 | `"http://a\n"` is accepted |
| Validators.Validate | PyAutoExcel/ParserInterface2/Validators.py:38-228 | each validator's `validate`: type, range, membership, custom, URL, string length, minimum, maximum, uniqueness and concatenation; stated by the lemmas below |
| Validators.ValidateAll | PyAutoExcel/ParserInterface2/Validators.py:225-228 | the validators applied in turn, stopping at the first failure; stated by `Validators.ValidateAllFirstFailure` |
| Validators.ValidateReturnsInput | PyAutoExcel/ParserInterface2/Validators.py:46-228 | an accepting validator returns its input unchanged; a rejecting one raises ValueError or TypeError |
| Validators.ValidateAllReturnsInput | PyAutoExcel/ParserInterface2/Validators.py:214-228 | so does a chain |
| Validators.ValidateAllFirstFailure | PyAutoExcel/ParserInterface2/Validators.py:225-228 | a chain accepts exactly when every validator does, and otherwise raises what the first failing one raises |
| Validators.RangeAccepts | PyAutoExcel/ParserInterface2/Validators.py:61-66 | accepts an int exactly when `min <= x <= max` |
| Validators.StringLengthAccepts | PyAutoExcel/ParserInterface2/Validators.py:156-159 | accepts exactly when `min_length <= len(x) <= max_length`; `len()` of an int or `None` raises TypeError |
| Validators.BoundariesReject | PyAutoExcel/ParserInterface2/Validators.py:174-195 | the minimum rejects exactly `x < min`, the maximum exactly `x > max` |
| Validators.MembershipAccepts | PyAutoExcel/ParserInterface2/Validators.py:81-105 | membership accepts exactly the allowed values; the custom one exactly what its function accepts |
| Validators.UniqueAccepts | PyAutoExcel/ParserInterface2/Validators.py:206-211 | every set is accepted; a list of hashable values exactly when none repeats; unhashable items raise TypeError |
| Validators.ListBounds | PyAutoExcel/ParserInterface2/Validators.py:61-177 | range and minimum validators compare lists lexicographically, a proper prefix being smaller, and raise TypeError on first unequal items that do not compare |
| Validators.SetBounds | PyAutoExcel/ParserInterface2/Validators.py:192-195 | the maximum validator compares sets by inclusion |
| Field.NoneAccepted | PyAutoExcel/ParserInterface2/Field.py:33-44 | with no value accepted, the field still holds its default |
| Field.LastAcceptedIs | PyAutoExcel/ParserInterface2/Field.py:36-52 | the field holds the last accepted value |
| Field.Field.constructor | PyAutoExcel/ParserInterface2/Field.py:20-34 | the value starts as the default |
| Field.Field.Set | PyAutoExcel/ParserInterface2/Field.py:36-44 | validated before assigned: a rejected value raises the validator's error and changes nothing |
| Field.Field.Get | PyAutoExcel/ParserInterface2/Field.py:46-52 | the last value `set` accepted, or the default |
| Field.NewField | PyAutoExcel/ParserInterface2/Field.py:20-34 | ValueError exactly for a required field with a truthy default; otherwise the field holds its default |
| Parser.Resolve | PyAutoExcel/ParserInterface2/Parser.py:27-36 | each field in turn takes its parameter once its validator passes, or its default when the field is not required; stated by `Parser.ResolveFirstFailure`, `Parser.ResolveEntry` and `Parser.ResolveKeepsOthers` |
| Parser.ResolveEntries | PyAutoExcel/ParserInterface2/Parser.py:27-36 | on success the attributes stay well-formed and keep the instance's own |
| Parser.ResolveEntry | PyAutoExcel/ParserInterface2/Parser.py:27-36 | an attribute is present exactly when it was or a field names it, then holds the last such field's value |
| Parser.AssignedNone | PyAutoExcel/ParserInterface2/Parser.py:28 | no field of a name, nothing assigned to it |
| Parser.AssignedLast | PyAutoExcel/ParserInterface2/Parser.py:28-35 | the last field of a name decides its value |
| Parser.AssignedOnlyFields | PyAutoExcel/ParserInterface2/Parser.py:28 | only names of fields are assigned, so parameters naming no field are ignored |
| Parser.ResolveSetsField | PyAutoExcel/ParserInterface2/Parser.py:29-35 | a field gets its parameter, or its default when it has none |
| Parser.ResolveKeepsOthers | PyAutoExcel/ParserInterface2/Parser.py:27-36 | an attribute no field names is neither added nor changed |
| Parser.ResolveFirstFailure | PyAutoExcel/ParserInterface2/Parser.py:28-35 | succeeds exactly when every field passes; otherwise fails at the first that does not, with its validator's error, or ValueError when required and missing |
| Parser.Parser.constructor | PyAutoExcel/ParserInterface2/Parser.py:16-19 | the parameters and the fields kept |
| Parser.Parser.Parse | PyAutoExcel/ParserInterface2/Parser.py:21-36 | the loop computes exactly the field resolution |
| ParserInterface.ClsName | PyAutoExcel/ParserInterface.py:111 | one class name per item of a list |
| ParserInterface.Prepared | PyAutoExcel/ParserInterface.py:81-82 | one `[name, type, None]` record per field, in field order |
| ParserInterface.Filled | PyAutoExcel/ParserInterface.py:97-101 | filling keeps the number of records |
| ParserInterface.FilledRecords | PyAutoExcel/ParserInterface.py:97-101 | record `i` takes `params[i]` as its value, with name and type unchanged |
| ParserInterface.CheckRecord | PyAutoExcel/ParserInterface.py:110-116 | one record's check in `verify`; stated by `ParserInterface.CheckRecordPasses` |
| ParserInterface.CheckRecords | PyAutoExcel/ParserInterface.py:103-116 | every record checked in order, stopping at the first failure; stated by `ParserInterface.CheckRecordsPasses` |
| ParserInterface.CheckRecordPasses | PyAutoExcel/ParserInterface.py:110-116 | a record passes exactly when its value is an instance of its type and not the empty list, which fails while the message is built |
| ParserInterface.CheckRecordsPasses | PyAutoExcel/ParserInterface.py:103-116 | `verify` passes exactly when every record does, and otherwise raises what the first failing one raises |
| ParserInterface.SetAttrs | PyAutoExcel/ParserInterface.py:126-128 | the attributes stay well-formed |
| ParserInterface.SetAttrsLast | PyAutoExcel/ParserInterface.py:126-128 | a record's name holds its value unless a later record has the name |
| ParserInterface.SetAttrsOthers | PyAutoExcel/ParserInterface.py:126-128 | a name no record has keeps the instance's own attribute |
| ParserInterface.Parser.constructor | PyAutoExcel/ParserInterface.py:61-72 | a copy of the fields, no records, no result |
| ParserInterface.Parser.Prepare | PyAutoExcel/ParserInterface.py:74-82 | one `[name, type, None]` record per field appended, so a second call appends them again |
| ParserInterface.Parser.Fill | PyAutoExcel/ParserInterface.py:84-101 | AssertionError with nothing changed unless one parameter per field; then the records take the parameters, IndexError when a parameter has no record |
| ParserInterface.Parser.Verify | PyAutoExcel/ParserInterface.py:103-116 | the loop checks exactly what `verify` specifies |
| ParserInterface.Parser.Parse | PyAutoExcel/ParserInterface.py:118-128 | the result is a fresh instance with every record set on it in order |
| ParserInterface.Paired | PyAutoExcel/ParserInterface.py:154-157 | one record per field |
| ParserInterface.ParseSpec | PyAutoExcel/ParserInterface.py:134-159 | `parse(fields, params, cls)` as one function: the arity check, the type checks, then the attributes set in order; stated by `ParserInterface.ParseSpecAccepts` and `ParserInterface.ParseSpecSets` |
| ParserInterface.Parse | PyAutoExcel/ParserInterface.py:134-159 | prepare, fill, verify and parse on a fresh parser give the specified result |
| ParserInterface.PairedRecords | PyAutoExcel/ParserInterface.py:154-157 | each field is paired with the parameter at its position |
| ParserInterface.ParseSpecAccepts | PyAutoExcel/ParserInterface.py:134-159 | succeeds exactly with one parameter per field, each an instance of its field's type and not the empty list |
| ParserInterface.ParseSpecSets | PyAutoExcel/ParserInterface.py:134-159 | the field at `i` is set to the parameter at `i`, unless a later field has its name |
| Register.Qualifies | PyAutoExcel/Documents/File/Excel/Register.py:51-57 | a name of the module qualifies when it is a class, subclasses one of the filters, and has the name field with a non-empty value |
| Register.Registered | PyAutoExcel/Documents/File/Excel/Register.py:51-58 | the engines after each qualifying class is added under its field's value, in `dir()` order; stated by `Register.RegisteredLast`, `Register.RegisteredIncludes` and `Register.RegisteredOthers` |
| Register.RegisteredLast | PyAutoExcel/Documents/File/Excel/Register.py:51-58 | a qualifying class is registered under its field's value, unless a later one takes that name |
| Register.RegisteredIncludes | PyAutoExcel/Documents/File/Excel/Register.py:51-58 | every qualifying class's name ends up registered |
| Register.RegisteredOthers | PyAutoExcel/Documents/File/Excel/Register.py:51-58 | names no qualifying class carries keep their entry or stay absent |
| Register.Register.constructor | PyAutoExcel/Documents/File/Excel/Register.py:10-11 | no engines |
| Register.Register.Get | PyAutoExcel/Documents/File/Excel/Register.py:24-36 | the registered engine, KeyError for an unknown name |
| Register.Register.Add | PyAutoExcel/Documents/File/Excel/Register.py:13-22 | `get` then returns the engine, replacing an earlier one, and every other name is untouched |
| Register.Register.AddFromModule | PyAutoExcel/Documents/File/Excel/Register.py:38-58 | the loop registers exactly the qualifying classes, in `dir()` order |
| Register.Remove | PyAutoExcel/Documents/File/Excel/Reader/Excel.py:25-35 | the name removed; an absent name changes nothing |
| ExcelDocument.Document.constructor | PyAutoExcel/Documents/File/Excel/ExcelDocument.py:13-14 | no sheets |
| ExcelDocument.Document.AddSheet | PyAutoExcel/Documents/File/Excel/ExcelDocument.py:58-71 | -1 appends, any other index inserts there |
| ExcelDocument.Document.NSheets | PyAutoExcel/Documents/File/Excel/ExcelDocument.py:85-92 | the number of sheets |
| ExcelDocument.Document.SheetByName | PyAutoExcel/Documents/File/Excel/ExcelDocument.py:94-104 | the first sheet with the name, KeyError when none has it |
| ExcelDocument.Document.SheetByIndex | PyAutoExcel/Documents/File/Excel/ExcelDocument.py:106-116 | OverflowError exactly outside `0 .. nsheets - 1` |
| BookBase.BaseWorkbook.constructor | PyAutoExcel/Documents/Workbook/BookBase.py:24-25 | no sheets |
| BookBase.BaseWorkbook.AddSheet | PyAutoExcel/Documents/Workbook/BookBase.py:52-66 | -1 appends, any other index inserts there |
| BookBase.BaseWorkbook.NSheets | PyAutoExcel/Documents/Workbook/BookBase.py:81-89 | the number of sheets |
| BookBase.BaseWorkbook.SheetByName | PyAutoExcel/Documents/Workbook/BookBase.py:91-104 | the first sheet with the name, KeyError when none has it |
| BookBase.BaseWorkbook.SheetByIndex | PyAutoExcel/Documents/Workbook/BookBase.py:106-116 | plain list indexing: negative counts from the end, IndexError outside |
| ExcelReader.AutoEngine | PyAutoExcel/Documents/File/Excel/Reader/Excel.py:54-61 | "xlrd" exactly for "xls", "openpyxl" otherwise |
| ExcelReader.ChooseEngine | PyAutoExcel/Documents/File/Excel/Reader/Excel.py:84-90 | an explicit engine wins, then the format, then the lower-cased text after a path's last `.` |
| ExcelReader.NameIndex | PyAutoExcel/Documents/File/Excel/Reader/Excel.py:95-101 | the name map is a well-formed dict |
| ExcelReader.NameIndexLast | PyAutoExcel/Documents/File/Excel/Reader/Excel.py:95-101 | a name is mapped exactly when some sheet has it, and to the last such sheet |
| ExcelReader.NameIndexKeys | PyAutoExcel/Documents/File/Excel/Reader/Excel.py:95-101 | the map lists every sheet name once |
| ExcelReader.ExcelReader.constructor | PyAutoExcel/Documents/File/Excel/Reader/Excel.py:95-96 | no sheets and an empty name map |
| ExcelReader.ExcelReader.NSheets | PyAutoExcel/Documents/File/Excel/Reader/Excel.py:139-146 | the number of sheets |
| ExcelReader.ExcelReader.SheetByIndex | PyAutoExcel/Documents/File/Excel/Reader/Excel.py:104-115 | IndexError exactly outside `0 .. nsheets() - 1` |
| ExcelReader.ExcelReader.SheetByName | PyAutoExcel/Documents/File/Excel/Reader/Excel.py:117-128 | KeyError exactly for a name no sheet has; otherwise the last sheet with it |
| ExcelReader.ExcelReader.Sheets | PyAutoExcel/Documents/File/Excel/Reader/Excel.py:130-137 | every sheet, the `i`-th being `sheet_by_index(i)` |
| ExcelReader.ExcelReader.SheetNames | PyAutoExcel/Documents/File/Excel/Reader/Excel.py:148-155 | each sheet name exactly once |
| ExcelReader.Open | PyAutoExcel/Documents/File/Excel/Reader/Excel.py:77-102 | KeyError and no warning when no engine is registered under the chosen name; otherwise the printed warning is `process_deprecated` of the engine's class, each parsed sheet is loaded, in order, under its name, and the reader opens whenever every parsed sheet is a table with a column |
| ExcelReader.LoadSheets | PyAutoExcel/Documents/File/Excel/Reader/Excel.py:95-101 | the loop loads each parsed sheet in order under its name, and fails only at a sheet that is not a table with a column |
| ExcelReader.LoadedStep | PyAutoExcel/Documents/File/Excel/Reader/Excel.py:97-101 | one more loaded sheet extends what is loaded |
| ExcelReader.ExcelReader.Append | PyAutoExcel/Documents/File/Excel/Reader/Excel.py:100-101 | the sheet is appended to the list and put under its name, and the name map stays the index the list determines |
| ExcelReader.LoadSheet | PyAutoExcel/Documents/File/Excel/Reader/Excel.py:98-99 | a sheet of the source's name, holding the source's data when it is a table with a column |
| ExcelWriter.AutoEngine | PyAutoExcel/Documents/File/Excel/Writer/Excel.py:54-61 | "xlwt" exactly for "xls", "xlsxwriter" otherwise |
| ExcelWriter.ChooseEngine | PyAutoExcel/Documents/File/Excel/Writer/Excel.py:77 | a non-empty engine wins, else the format's engine |
| ExcelWriter.ExcelWriter.constructor | PyAutoExcel/Documents/File/Excel/Writer/Excel.py:75-78 | the chosen engine with no sheets |
| ExcelWriter.ExcelWriter.AddSheet | PyAutoExcel/Documents/File/Excel/Writer/Excel.py:81-94 | -1 appends, any other index inserts there |
| ExcelWriter.ExcelWriter.GetSheet | PyAutoExcel/Documents/File/Excel/Writer/Excel.py:96-111 | an index is list indexing; a name gives the first sheet with it, LookupError when none has it |
| ExcelWriter.ExcelWriter.SheetNames | PyAutoExcel/Documents/File/Excel/Writer/Excel.py:123-131 | one name per sheet, in order |
| ExcelWriter.Open | PyAutoExcel/Documents/File/Excel/Writer/Excel.py:75-79 | KeyError and no warning exactly when no engine is registered under the chosen name; otherwise the chosen engine with no sheets, and the printed warning is `process_deprecated` of the engine's class |
| Deprecated.ShowShape | PyAutoExcel/Deprecated.py:38-46 | the warning is a fixed head, the engine name in quotes, then the rest |
| Deprecated.ShowNamesEngine | PyAutoExcel/Deprecated.py:13 | two equal warnings about engines without a quote name the same engine, removal version and replacement |
| Deprecated.DeprecatedInfo.Show | PyAutoExcel/Deprecated.py:38-46 | the yellow warning that names the engine in quotes, its removal version and its replacement; `Deprecated.ShowShape` and `Deprecated.ShowNamesEngine` state it |
| Deprecated.Message | PyAutoExcel/Deprecated.py:54-64 | the name, "is deprecated since", the version, "and will be remove in" and the removal version |
| Deprecated.MessageWithReplacement | PyAutoExcel/Deprecated.py:66-80 | the plain message then the replacement clause; `Deprecated.WithReplacementExtends` states it |
| Deprecated.WithReplacementExtends | PyAutoExcel/Deprecated.py:54-80 | the message with a replacement is the plain message followed by `", use R instead."` |
| Deprecated.ProcessDeprecated | PyAutoExcel/Deprecated.py:145-155 | a warning exactly when the engine is deprecated, and it is `show` of the engine |
| Deprecated.Notice | PyAutoExcel/Deprecated.py:99-100 | the yellow line `Warning (<hex id>): <message>` a deprecated function or class prints |
| Deprecated.Function.constructor | PyAutoExcel/Deprecated.py:95-96 | a function that has no `__refcount__` yet, counted as 0 |
| Deprecated.DeprecatedFunction.constructor | PyAutoExcel/Deprecated.py:83-92 | the wrapper keeps the wrapped function, the message and the warning id |
| Deprecated.DeprecatedFunction.Call | PyAutoExcel/Deprecated.py:94-101 | the wrapped function's counter goes up by one; the notice exactly when it was 0; the wrapped function's result always |
| Deprecated.SharedCount | PyAutoExcel/Deprecated.py:94-101 | two wrappers of one function share its counter: the first call prints the first wrapper's notice, and the second wrapper's first call prints nothing |
| Deprecated.DeprecatedClasses.constructor | PyAutoExcel/Deprecated.py:108-109 | no counters and no messages |
| Deprecated.DeprecatedClasses.SetMessage | PyAutoExcel/Deprecated.py:133-142 | the class's message and warning id set, the counters untouched |
| Deprecated.DeprecatedClasses.Instantiate | PyAutoExcel/Deprecated.py:117-130 | the class's counter goes up and the others stay; the notice only on its first instantiation; KeyError then when it has no message |

## Left out

- Reading and writing files: the engines' parsing, `ReadBook`'s stream and
  temporary-file paths, `WriteBook.save`/`save_virtual`/`save_io`,
  `HtmlDumper.save`, `Document.load`/`save`, `BaseWorkbook.load`/`save`,
  `ExcelWriter.save` and `ExcelWriter.from_reader`. They are file and engine
  I/O.
- The engine's own parse step in `ExcelReader`: `ExcelReader.Open` takes the
  parsed book as a parameter.
- The engine instance `ExcelWriter` makes: `ExcelWriter.Open` only records
  the engine name.
- Making the instance `Parser.parse` and `ParserInterface.parse` fill: this
  is a call into user classes, so the instance's starting attributes are a
  parameter.
- Logging, progress bars and colorama initialisation. Printed warnings are
  returned as strings.
- `Cell.__hash__` and `CellRange.__hash__`: `__eq__` is proved to be plain
  equality, so any hash of the coordinates agrees with it.
- `CellRange.__repr__`. Only `Cell.__repr__` is modelled.
- `EmailValidator`: its regular expression is not modelled.
- `TypeValidator` compares a value's type tag with the allowed tags;
  subclasses of the allowed types are not modelled.
- Values are `None`, ints, strings, lists and sets. Floats, bools (Python
  treats `True` as an int) and other objects are not modelled.
- A set is a sequence of members, possibly repeated. `==`, `len()`, `<`
  and `<=` treat it as the set of its members, and `Unique` accepts every
  set, but `repr()` lists it in the sequence's order with its repeats.
  Python lists each member once in hash order.
- `repr()` of a string escapes quotes, backslashes, tabs, line breaks and
  the other ASCII control characters. Non-ASCII characters that Python
  also escapes (other control and unprintable characters) are kept as
  they are.
- `Cell(row)` with the column left out: the column is `None`, which the
  model's int coordinates cannot hold.
- A `slice` with `None` as its start or stop in `CellRange(...)`: a `None`
  stop raises TypeError at `stop - 1` and a `None` start is stored as a
  bound. The model's spans hold ints only.
- openpyxl's label limits (lower-case letters, the largest column) are not
  visible. The codec accepts upper-case letters and any row of at least 1.
- Unhashable dict keys: `ColumnDictGrid` of a header holding a list raises
  TypeError in Python, but the model's dict takes any value as a key.
- Aliasing between the sheets a book hands out and its own lists. Sheets are
  values here, so changing one through a list is not modelled.
- `ExcelReader.Open` builds a `Sheet` through `Sheet.Sheet.Load`. Where the
  source is not a table with a column, it states only the sheet's name and
  error.
- Sheet.Sheet.GetCell: stated for tables whose rows all have the first
  row's length, which every successful rebuild gives.
- Sheet.Sheet.SetRow: read-back is stated for non-negative rows only. A
  negative index lands on a cell that depends on the table's size.
- Sheet.Sheet.SetCol: read-back is stated for non-negative columns only, for
  the same reason.
- Sheet.Sheet.SetRange: read-back is stated for a non-empty range with a
  non-negative corner and content of the range's shape.
- Grid.MaterializeKeeps: stated for records at non-negative positions only.
- Sheet.Sheet.Dump: the writer sheet must own a grid other than the sheet's.
  In the source it always does.
- HtmlFile.SaveHtml: stated for a sheet whose grid is a list grid, as
  `HTMLSheet` makes it. A sheet with another kind of grid fails in the
  source's table generator.
- `ExcelWriter.sheets` and `ExcelDocument.sheets` return the list itself.
  Because sheets are values here, the property is the `sheets` field.
- `ReadSheet.data` returns a copy of the data, which is the `data` field
  here.
