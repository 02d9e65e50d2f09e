/** A document: the list of sheets a workbook file is read into and
    written from. */
module ExcelDocument {
  import opened Wrappers
  import opened PyList
  import Sheet

  class Document {
    var sheets: seq<Sheet.Sheet>

    constructor ()
      ensures sheets == []
    {
      sheets := [];
    }

    /** `add_sheet(s, index)`: appended when `index` is -1, inserted at
        `index` otherwise. */
    method AddSheet(s: Sheet.Sheet, index: int)
      modifies this
      ensures sheets == AddAt(old(sheets), s, index)
    {
      if index == -1 {
        sheets := sheets + [s];
      } else {
        sheets := Insert(sheets, index, s);
      }
    }

    /** `nsheets` */
    function NSheets(): (n: nat)
      reads this
      ensures n == |Sheet.Names(sheets)|
    {
      |sheets|
    }

    /** `sheet_by_name(name)`: the first sheet with the name, or KeyError. */
    function SheetByName(name: string): (r: Result<Sheet.Sheet>)
      reads this
      ensures r.Ok? <==> name in Sheet.Names(sheets)
      ensures r.Err? ==> r.error == KeyError
      ensures r.Ok? ==> exists k :: Sheet.FirstNamedAt(sheets, name, k) && r.value == sheets[k]
    {
      Sheet.SheetByName(sheets, name)
    }

    /** `sheet_by_index(idx)`: OverflowError outside `0 .. nsheets - 1`;
        negative indices are refused, not counted from the end. */
    function SheetByIndex(idx: int): (r: Result<Sheet.Sheet>)
      reads this
      ensures r.Ok? <==> 0 <= idx < NSheets()
      ensures r.Ok? ==> r.value == sheets[idx]
      ensures r.Err? ==> r.error == OverflowError
    {
      if idx < 0 || idx >= |sheets| then Err(OverflowError) else Ok(sheets[idx])
    }
  }
}
