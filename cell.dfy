/** A cell position of a spreadsheet: zero-based row and column. */
module Cell {
  import opened Wrappers
  import opened Text
  import Coordinate
  import Utils

  datatype Cell = Cell(row: int, col: int)
  {
    /** `Cell.to_string()`: the A1 label of the cell; a cell with a negative
        column has none (ValueError). */
    function ToString(): (r: Result<string>)
      ensures r.Err? <==> col < 0
    {
      Utils.Pos2String(row, col)
    }

    /** `Cell.__repr__`. */
    function Repr(): (s: string)
      ensures |s| > |"PyAutoExcel.Cell(row="|
    {
      "PyAutoExcel.Cell(row=" + Decimal(row) + ", col=" + Decimal(col) + ")"
    }

    /** `Cell.__eq__`: same row and same column. */
    predicate Eq(other: Cell)
    {
      other.row == row && other.col == col
    }

    /** `Cell.__ne__`: the negation of `__eq__`. */
    predicate Ne(other: Cell)
    {
      !Eq(other)
    }
  }

  /** The ways `Cell(...)` is called: `Cell(row, col)`, `Cell("B3")` and
      `Cell((row, col))`. */
  datatype CellArg = Pair(row: int, col: int) | Label(coord: string) | Tuple(items: seq<int>)

  /** `Cell.__init__`: a label is decoded and shifted to zero-based; a tuple
      must hold exactly two items (ValueError otherwise). */
  function NewCell(arg: CellArg): (r: Result<Cell>)
    ensures arg.Pair? ==> r == Ok(Cell(arg.row, arg.col))
    ensures arg.Tuple? ==> (r.Ok? <==> |arg.items| == 2)
    ensures arg.Tuple? && r.Err? ==> r.error == ValueError
    ensures arg.Label? ==>
      (r.Ok? <==> Coordinate.CoordinateToTuple(arg.coord).Ok?)
    ensures arg.Label? && r.Ok? ==> r.value.row >= 0 && r.value.col >= 0
  {
    match arg
    case Pair(row, col) => Ok(Cell(row, col))
    case Label(coord) =>
      var pos :- Coordinate.CoordinateToTuple(coord);
      Ok(Cell(pos.0 - 1, pos.1 - 1))
    case Tuple(items) =>
      if |items| == 2 then Ok(Cell(items[0], items[1])) else Err(ValueError)
  }

  /** The three constructor forms agree: the label of a cell and the pair
      tuple both build that same cell. */
  lemma CellForms(row: nat, col: nat)
    ensures Cell(row, col).ToString().Ok?
    ensures NewCell(Label(Cell(row, col).ToString().value)) == Ok(Cell(row, col))
    ensures NewCell(Tuple([row, col])) == NewCell(Pair(row, col))
  {
  }

  /** `__eq__` is equality of the two coordinates and `__ne__` its negation. */
  lemma EqIsEquality(a: Cell, b: Cell)
    ensures a.Eq(b) <==> a == b
    ensures a.Ne(b) <==> a != b
    ensures a.Eq(b) <==> b.Eq(a)
  {
  }

  /** `__repr__` split at the comma after the row. */
  lemma ReprParts(c: Cell)
    ensures c.Repr() == "PyAutoExcel.Cell(row=" + (Decimal(c.row) + [','] + (" col=" + Decimal(c.col) + ")"))
  {
  }

  /** Different cells have different representations. */
  lemma ReprInjective(a: Cell, b: Cell)
    requires a.Repr() == b.Repr()
    ensures a == b
  {
    var p := "PyAutoExcel.Cell(row=";
    var ta := " col=" + Decimal(a.col) + ")";
    var tb := " col=" + Decimal(b.col) + ")";
    var xa := Decimal(a.row) + [','] + ta;
    var xb := Decimal(b.row) + [','] + tb;
    ReprParts(a);
    ReprParts(b);
    assert p + xa == p + xb;
    assert xa == (p + xa)[|p|..] == (p + xb)[|p|..] == xb;
    CutAtFirst(Decimal(a.row), ta, Decimal(b.row), tb, ',');
    DecimalInjective(a.row, b.row);
    assert Decimal(a.col) == ta[5..|ta| - 1] == tb[5..|tb| - 1] == Decimal(b.col);
    DecimalInjective(a.col, b.col);
  }
}
