/** The front end for reading workbooks: the choice of a reader engine, the
    registry it is looked up in, and the reader that turns every sheet the
    engine parsed into an in-memory `Sheet`. */
module ExcelReader {
  import opened Wrappers
  import opened PyDict
  import opened Text
  import Register
  import BaseReader
  import Sheet
  import Deprecated

  /** `auto_engine(fmt)` */
  function AutoEngine(fmt: string): (r: string)
    ensures r == "xlrd" <==> fmt == "xls"
    ensures r != "xlrd" ==> r == "openpyxl"
  {
    if fmt == "xls" then "xlrd" else "openpyxl"
  }

  /** What the reader is given to read: a path, or an open stream or bytes. */
  datatype FileArg = Path(path: string) | Stream | Bytes

  /** The engine `ExcelReader.__init__` asks the registry for. */
  function ChooseEngine(file: FileArg, engine: string, fmt: string): (r: string)
    ensures engine != "" ==> r == engine
    ensures engine == "" && fmt != "" ==> r == AutoEngine(fmt)
    ensures engine == "" && fmt == "" && file.Path? ==> r == AutoEngine(Lower(LastPiece(file.path, '.')))
    ensures engine == "" && fmt == "" && !file.Path? ==> r == ""
  {
    if engine != "" then engine
    else if fmt != "" then AutoEngine(fmt)
    else if file.Path? then AutoEngine(Lower(LastPiece(file.path, '.')))
    else engine
  }

  /** `_sheets_dic` as the loop builds it: each sheet put under its name,
      so a later sheet of the same name replaces an earlier one. */
  function NameIndex(sheets: seq<Sheet.Sheet>): (d: Dict<string, Sheet.Sheet>)
    ensures d.Valid()
  {
    if sheets == [] then Empty()
    else
      var last := sheets[|sheets| - 1];
      Put(NameIndex(sheets[..|sheets| - 1]), last.name, last)
  }

  /** The sheet at `k` is the last one named `name`. */
  predicate LastNamedAt(sheets: seq<Sheet.Sheet>, name: string, k: int)
  {
    0 <= k < |sheets| && sheets[k].name == name && forall i :: k < i < |sheets| ==> sheets[i].name != name
  }

  /** A name is in the index exactly when some sheet has it, and then it
      maps to the last sheet that has it. */
  lemma {:induction false} NameIndexLast(sheets: seq<Sheet.Sheet>, name: string)
    ensures name in NameIndex(sheets).entries <==> name in Sheet.Names(sheets)
    ensures name in NameIndex(sheets).entries ==>
      exists k :: LastNamedAt(sheets, name, k) && NameIndex(sheets).entries[name] == sheets[k]
  {
    if sheets != [] {
      var n := |sheets| - 1;
      NameIndexLast(sheets[..n], name);
      assert Sheet.Names(sheets) == Sheet.Names(sheets[..n]) + [sheets[n].name];
      if sheets[n].name == name {
        assert LastNamedAt(sheets, name, n);
      } else if name in NameIndex(sheets).entries {
        var k :| LastNamedAt(sheets[..n], name, k) && NameIndex(sheets[..n]).entries[name] == sheets[..n][k];
        assert LastNamedAt(sheets, name, k);
      }
    }
  }

  /** The index lists every sheet name once, in the order the names first
      appear. */
  lemma NameIndexKeys(sheets: seq<Sheet.Sheet>)
    ensures forall i, j :: 0 <= i < j < |NameIndex(sheets).keys| ==> NameIndex(sheets).keys[i] != NameIndex(sheets).keys[j]
    ensures forall name :: name in NameIndex(sheets).keys <==> name in Sheet.Names(sheets)
  {
    forall name
      ensures name in NameIndex(sheets).keys <==> name in Sheet.Names(sheets)
    {
      NameIndexLast(sheets, name);
    }
  }

  /** An `ExcelReader`: the engine it read with, the loaded sheets in
      order, and the sheets by name. */
  class ExcelReader {
    const engineName: string
    var sheets: seq<Sheet.Sheet>
    var sheetsDic: Dict<string, Sheet.Sheet>

    /** The name map is the one the loading loop builds from the list. */
    ghost predicate Valid()
      reads this
    {
      sheetsDic == NameIndex(sheets)
    }

    constructor (engineName: string)
      ensures this.engineName == engineName && sheets == [] && sheetsDic == Empty() && Valid()
    {
      this.engineName := engineName;
      sheets := [];
      sheetsDic := Empty();
    }

    /** The loading loop's step: the sheet goes at the end of the list and
        under its name in the map, so the map stays the list's index. */
    method Append(st: Sheet.Sheet)
      requires Valid()
      modifies this
      ensures sheets == old(sheets) + [st] && Valid()
    {
      assert (sheets + [st])[..|sheets|] == sheets;
      sheets := sheets + [st];
      sheetsDic := Put(sheetsDic, st.name, st);
    }

    /** `nsheets()` */
    function NSheets(): (n: nat)
      reads this
      ensures n == |Sheet.Names(sheets)|
    {
      |sheets|
    }

    /** `sheet_by_index(idx)`: IndexError outside `0 .. nsheets() - 1`;
        negative indices are refused, not counted from the end. */
    function SheetByIndex(idx: int): (r: Result<Sheet.Sheet>)
      reads this
      ensures r.Ok? <==> 0 <= idx < NSheets()
      ensures r.Ok? ==> r.value == sheets[idx]
      ensures r.Err? ==> r.error == IndexError
    {
      if idx < 0 || idx >= NSheets() then Err(IndexError) else Ok(sheets[idx])
    }

    /** `sheet_by_name(name)`: KeyError for a name no sheet has; with two
        sheets of one name, the later one. */
    function SheetByName(name: string): (r: Result<Sheet.Sheet>)
      reads this
      requires Valid()
      ensures r.Ok? <==> name in Sheet.Names(sheets)
      ensures r.Err? ==> r.error == KeyError
      ensures r.Ok? ==> exists k :: LastNamedAt(sheets, name, k) && r.value == sheets[k]
    {
      NameIndexLast(sheets, name);
      if name !in sheetsDic.entries then Err(KeyError) else Ok(sheetsDic.entries[name])
    }

    /** `sheets()`: a new list holding the sheets, so changing it leaves the
        reader's own list alone. */
    function Sheets(): (r: seq<Sheet.Sheet>)
      reads this
      ensures |r| == NSheets() && forall i :: 0 <= i < |r| ==> SheetByIndex(i) == Ok(r[i])
    {
      sheets
    }

    /** `sheet_names()`: the keys of the name map, so each name once, in the
        order it first appears. */
    function SheetNames(): (r: seq<string>)
      reads this
      requires Valid()
      ensures forall i, j :: 0 <= i < j < |r| ==> r[i] != r[j]
      ensures forall name :: name in r <==> name in Sheet.Names(sheets)
    {
      NameIndexKeys(sheets);
      sheetsDic.keys
    }
  }

  /** `ExcelReader(file, engine, fmt)`.  The engine class is looked up by
      the chosen name (KeyError when none is registered) and its
      `__deprecated__` information, given by `deprecation`, decides the
      warning printed; `book` stands for the engine instance reading
      `file`, whose sheets are then loaded. */
  method Open<E>(file: FileArg, engine: string, fmt: string, readers: Register.Register<E>,
                 deprecation: E -> Deprecated.DeprecatedInfo, book: BaseReader.ReadBook)
    returns (r: Result<ExcelReader>, printed: Option<string>)
    requires book.Valid()
    ensures readers.Get(ChooseEngine(file, engine, fmt)).Err? ==> r == Err(KeyError) && printed == None
    ensures readers.Get(ChooseEngine(file, engine, fmt)).Ok? ==>
      printed == Deprecated.ProcessDeprecated(deprecation(readers.Get(ChooseEngine(file, engine, fmt)).value),
                                              ChooseEngine(file, engine, fmt))
    ensures r.Ok? ==> readers.Get(ChooseEngine(file, engine, fmt)).Ok?
    ensures r.Ok? ==> fresh(r.value) && r.value.Valid() && r.value.engineName == ChooseEngine(file, engine, fmt)
    ensures r.Ok? ==> LoadedFrom(r.value.sheets, book.Sheets())
    ensures readers.Get(ChooseEngine(file, engine, fmt)).Ok? && AllTables(book.Sheets()) ==> r.Ok?
  {
    var name := ChooseEngine(file, engine, fmt);
    var cls := readers.Get(name);
    if cls.Err? {
      return Err(cls.error), None;
    }
    printed := Deprecated.ProcessDeprecated(deprecation(cls.value), name);
    r := LoadSheets(name, book);
  }

  /** The loading loop of `ExcelReader.__init__`: every sheet the engine
      parsed becomes a `Sheet` of the same name loaded with its data, kept
      in order and under its name; a load that raises ends the
      construction with its error. */
  method LoadSheets(name: string, book: BaseReader.ReadBook) returns (r: Result<ExcelReader>)
    requires book.Valid()
    ensures r.Ok? ==> fresh(r.value) && r.value.Valid() && r.value.engineName == name
    ensures r.Ok? ==> LoadedFrom(r.value.sheets, book.Sheets())
    ensures AllTables(book.Sheets()) ==> r.Ok?
  {
    var srcs := book.Sheets();
    var reader := new ExcelReader(name);
    var i := 0;
    while i < |srcs|
      invariant i <= |srcs| && reader.Valid()
      invariant fresh(reader) && reader.engineName == name
      invariant LoadedFrom(reader.sheets, srcs[..i])
    {
      var st := LoadSheet(srcs[i]);
      if st.Err? {
        assert !AllTables(srcs) by {
          assert !(Sheet.Shaped(srcs[i].data) && |srcs[i].data[0]| > 0);
        }
        return Err(st.error);
      }
      LoadedStep(reader.sheets, srcs, i, st.value);
      reader.Append(st.value);
      i := i + 1;
    }
    assert srcs[..i] == srcs;
    r := Ok(reader);
  }

  /** Every source is a table with at least one column. */
  predicate AllTables(srcs: seq<BaseReader.ReadSheet>)
  {
    forall j :: 0 <= j < |srcs| ==> Sheet.Shaped(srcs[j].data) && |srcs[j].data[0]| > 0
  }

  /** Each sheet has the name of the source at its position and, when that
      source is a table with at least one column, its data. */
  ghost predicate LoadedFrom(sheets: seq<Sheet.Sheet>, srcs: seq<BaseReader.ReadSheet>)
    reads sheets
  {
    |sheets| == |srcs| &&
    forall j :: 0 <= j < |srcs| ==>
      sheets[j].name == srcs[j].name &&
      (Sheet.Shaped(srcs[j].data) && |srcs[j].data[0]| > 0 ==> sheets[j].data == srcs[j].data)
  }

  lemma LoadedStep(sheets: seq<Sheet.Sheet>, srcs: seq<BaseReader.ReadSheet>, i: nat, st: Sheet.Sheet)
    requires i < |srcs| && LoadedFrom(sheets, srcs[..i])
    requires st.name == srcs[i].name
    requires Sheet.Shaped(srcs[i].data) && |srcs[i].data[0]| > 0 ==> st.data == srcs[i].data
    ensures LoadedFrom(sheets + [st], srcs[..i + 1])
  {
    assert forall j :: 0 <= j < i ==> (sheets + [st])[j] == sheets[j] && srcs[..i + 1][j] == srcs[..i][j];
  }

  /** One pass of the loading loop: `Sheet(s.name)` and `_load(s)`. */
  method LoadSheet(src: BaseReader.ReadSheet) returns (r: Result<Sheet.Sheet>)
    ensures r.Ok? ==> fresh(r.value) && r.value.name == src.name
    ensures r.Ok? && Sheet.Shaped(src.data) && |src.data[0]| > 0 ==> r.value.data == src.data
    ensures Sheet.Shaped(src.data) && |src.data[0]| > 0 ==> r.Ok?
  {
    var st := new Sheet.Sheet(src.name);
    var o := st.Load(src);
    if o.Fail? {
      return Err(o.error);
    }
    r := Ok(st);
  }
}
