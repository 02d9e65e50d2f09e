/** The base of the workbook classes: a list of worksheets, kept with the
    same rules as a document's. */
module BookBase {
  import opened Wrappers
  import opened PyList
  import Sheet

  class BaseWorkbook {
    var sheets: seq<Sheet.Sheet>

    constructor ()
      ensures sheets == []
    {
      sheets := [];
    }

    /** `add_sheet(s, index)`: appended when `index` is -1, inserted at
        `index` otherwise. */
    method AddSheet(s: Sheet.Sheet, index: int)
      modifies this
      ensures sheets == AddAt(old(sheets), s, index)
    {
      if index == -1 {
        sheets := sheets + [s];
      } else {
        sheets := Insert(sheets, index, s);
      }
    }

    /** `nsheets` */
    function NSheets(): (n: nat)
      reads this
      ensures n == |Sheet.Names(sheets)|
    {
      |sheets|
    }

    /** `sheet_by_name(name)`: the first sheet with the name, or KeyError. */
    function SheetByName(name: string): (r: Result<Sheet.Sheet>)
      reads this
      ensures r.Ok? <==> name in Sheet.Names(sheets)
      ensures r.Err? ==> r.error == KeyError
      ensures r.Ok? ==> exists k :: Sheet.FirstNamedAt(sheets, name, k) && r.value == sheets[k]
    {
      Sheet.SheetByName(sheets, name)
    }

    /** `sheet_by_index(idx)`: plain list indexing, so a negative index
        counts from the end and IndexError is raised only outside
        `-nsheets .. nsheets - 1`. */
    function SheetByIndex(idx: int): (r: Result<Sheet.Sheet>)
      reads this
      ensures r.Ok? <==> -(NSheets() as int) <= idx < NSheets()
      ensures r.Err? ==> r.error == IndexError
      ensures 0 <= idx < NSheets() ==> r == Ok(sheets[idx])
      ensures -(NSheets() as int) <= idx < 0 ==> r == Ok(sheets[idx + NSheets()])
    {
      Index(sheets, idx)
    }
  }
}
