/** The front end for writing workbooks: the choice of a writer engine, and
    the writer that keeps the engine's list of sheets. */
module ExcelWriter {
  import opened Wrappers
  import opened PyList
  import Register
  import Sheet
  import Deprecated

  /** `auto_engine(fmt)` */
  function AutoEngine(fmt: string): (r: string)
    ensures r == "xlwt" <==> fmt == "xls"
    ensures r != "xlwt" ==> r == "xlsxwriter"
  {
    if fmt == "xls" then "xlwt" else "xlsxwriter"
  }

  /** `engine or auto_engine(fmt)`: a non-empty engine name wins. */
  function ChooseEngine(engine: string, fmt: string): (r: string)
    ensures engine != "" ==> r == engine
    ensures engine == "" ==> r == AutoEngine(fmt)
  {
    if engine != "" then engine else AutoEngine(fmt)
  }

  /** The argument of `get_sheet`: an index or a name. */
  datatype SheetKey = ByIndex(index: int) | ByName(name: string)

  /** An `ExcelWriter`: the engine it writes with and that engine's list of
      sheets. */
  class ExcelWriter {
    const engineName: string
    var sheets: seq<Sheet.Sheet>

    /** A writer whose fresh engine has no sheets yet. */
    constructor (engineName: string)
      ensures this.engineName == engineName && sheets == []
    {
      this.engineName := engineName;
      sheets := [];
    }

    /** `add_sheet(s, index)`: appended when `index` is -1, inserted at
        `index` otherwise. */
    method AddSheet(s: Sheet.Sheet, index: int)
      modifies this
      ensures sheets == AddAt(old(sheets), s, index)
    {
      if index == -1 {
        sheets := sheets + [s];
      } else {
        sheets := Insert(sheets, index, s);
      }
    }

    /** `get_sheet(name_or_idx)`: an index is plain list indexing (IndexError
        outside the list, negative counts from the end); a name gives the
        first sheet with that name, or LookupError. */
    method GetSheet(key: SheetKey) returns (r: Result<Sheet.Sheet>)
      ensures key.ByIndex? ==> r == Index(sheets, key.index)
      ensures key.ByName? ==> (r.Ok? <==> key.name in Sheet.Names(sheets))
      ensures key.ByName? && r.Ok? ==> exists k :: Sheet.FirstNamedAt(sheets, key.name, k) && r.value == sheets[k]
      ensures key.ByName? && r.Err? ==> r.error == LookupError
    {
      if key.ByIndex? {
        return Index(sheets, key.index);
      }
      var i := 0;
      while i < |sheets|
        invariant i <= |sheets|
        invariant forall j :: 0 <= j < i ==> sheets[j].name != key.name
      {
        if sheets[i].name == key.name {
          assert Sheet.FirstNamedAt(sheets, key.name, i);
          return Ok(sheets[i]);
        }
        i := i + 1;
      }
      r := Err(LookupError);
    }

    /** `sheet_names`: one name per sheet, in order. */
    function SheetNames(): (r: seq<string>)
      reads this
      ensures |r| == |sheets| && forall i :: 0 <= i < |r| ==> r[i] == sheets[i].name
    {
      Sheet.Names(sheets)
    }
  }

  /** `ExcelWriter(engine, fmt)`: the writer engine registered under the
      chosen name, or KeyError; the engine class's `__deprecated__`
      information, given by `deprecation`, decides the warning printed. */
  method Open<E>(engine: string, fmt: string, writers: Register.Register<E>, deprecation: E -> Deprecated.DeprecatedInfo)
    returns (r: Result<ExcelWriter>, printed: Option<string>)
    ensures r.Err? <==> writers.Get(ChooseEngine(engine, fmt)).Err?
    ensures r.Err? ==> r.error == KeyError && printed == None
    ensures r.Ok? ==> fresh(r.value) && r.value.engineName == ChooseEngine(engine, fmt) && r.value.sheets == []
    ensures r.Ok? ==> printed == Deprecated.ProcessDeprecated(deprecation(writers.Get(ChooseEngine(engine, fmt)).value), ChooseEngine(engine, fmt))
  {
    var name := ChooseEngine(engine, fmt);
    var cls := writers.Get(name);
    if cls.Err? {
      return Err(cls.error), None;
    }
    printed := Deprecated.ProcessDeprecated(deprecation(cls.value), name);
    var w := new ExcelWriter(name);
    r := Ok(w);
  }
}
