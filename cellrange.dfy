/** A rectangular block of cells given by its first and last (inclusive)
    zero-based row and column. */
module CellRange {
  import opened Wrappers
  import opened Text
  import Coordinate
  import Utils
  import opened Cell

  datatype CellRange = CellRange(rowStart: int, colStart: int, rowEnd: int, colEnd: int)
  {
    /** `row_count`: rows from the first to the last, both included. */
    function RowCount(): (n: int)
      ensures n >= 1 <==> rowStart <= rowEnd
      ensures n == 1 <==> rowStart == rowEnd
    {
      rowEnd - rowStart + 1
    }

    /** `col_count`: columns from the first to the last, both included. */
    function ColCount(): (n: int)
      ensures n >= 1 <==> colStart <= colEnd
      ensures n == 1 <==> colStart == colEnd
    {
      colEnd - colStart + 1
    }

    /** `area`: the number of cells of the block. */
    function Area(): (n: int)
      ensures RowCount() >= 0 && ColCount() >= 0 ==> n >= 0
      ensures n == 0 <==> RowCount() == 0 || ColCount() == 0
    {
      RowCount() * ColCount()
    }

    /** `single_cell`: the first and the last corner coincide. */
    predicate SingleCell()
      ensures SingleCell() <==> First() == Last()
    {
      rowStart == rowEnd && colStart == colEnd
    }

    /** `to_string()`: "<first>:<last>" as A1 labels; a corner with a
        negative column has no label (ValueError). */
    function ToString(): (r: Result<string>)
      ensures r.Err? <==> colStart < 0 || colEnd < 0
    {
      var first :- Utils.Pos2String(rowStart, colStart);
      var last :- Utils.Pos2String(rowEnd, colEnd);
      Ok(first + ":" + last)
    }

    /** `__eq__`: all four bounds agree. */
    predicate Eq(other: CellRange)
    {
      rowStart == other.rowStart && colStart == other.colStart &&
      rowEnd == other.rowEnd && colEnd == other.colEnd
    }

    /** The first corner as a cell. */
    function First(): Cell { Cell(rowStart, colStart) }

    /** The last corner as a cell. */
    function Last(): Cell { Cell(rowEnd, colEnd) }
  }

  /** One argument of `CellRange(...)`: absent, an int, a string, a `Cell`,
      a tuple or list of ints, a `range`/`slice` with integer start and
      stop, or anything else. */
  datatype Arg =
    | NoArg
    | IntArg(i: int)
    | StrArg(s: string)
    | CellArg(c: Cell)
    | TupleArg(items: seq<int>)
    | ListArg(elems: seq<int>)
    | SpanArg(start: int, stop: int)
    | OtherArg
  {
    predicate IsSequence() { TupleArg? || ListArg? }

    function Items(): seq<int>
      requires IsSequence()
    {
      if TupleArg? then items else elems
    }
  }

  /** A decoded label made zero-based. */
  function Corner(coord: string): (r: Result<(int, int)>)
    ensures r.Ok? ==> r.value.0 >= 0 && r.value.1 >= 0
    ensures r.Ok? <==> Coordinate.CoordinateToTuple(coord).Ok?
  {
    var pos :- Coordinate.CoordinateToTuple(coord);
    Ok((pos.0 - 1, pos.1 - 1))
  }

  /** Python's `a, b = items` on a sequence of ints. */
  function UnpackPair(items: seq<int>): (r: Result<(int, int)>)
    ensures r.Ok? <==> |items| == 2
    ensures r.Err? ==> r.error == ValueError
  {
    if |items| == 2 then Ok((items[0], items[1])) else Err(ValueError)
  }

  /** A single string argument: "A1:B2" names both corners (a string with
      another number of ':' fails to unpack, ValueError); "B2" names the
      last corner of a range starting at A1. */
  function FromLabel(s: string): (r: Result<CellRange>)
  {
    if ':' in s then
      var parts := Split(s, ':');
      if |parts| != 2 then Err(ValueError)
      else
        var first :- Corner(parts[0]);
        var last :- Corner(parts[1]);
        Ok(CellRange(first.0, first.1, last.0, last.1))
    else
      var last :- Corner(s);
      Ok(CellRange(0, 0, last.0, last.1))
  }

  /** The label of a zero-based position decodes to that position. */
  lemma CornerOfLabel(row: nat, col: nat)
    ensures Utils.Pos2String(row, col).Ok?
    ensures Corner(Utils.Pos2String(row, col).value) == Ok((row, col))
    ensures ':' !in Utils.Pos2String(row, col).value
  {
  }

  /** `CellRange.__init__(row_start, col_start, row_end, col_end)`: the forms
      are tried in the order `CellRange.__init__` lists them, and the first
      that applies decides.
      Labels that do not decode fail with InvalidCoordinate; tuples of the
      wrong length and unknown forms fail with ValueError. */
  function Make(a: Arg, b: Arg, c: Arg, d: Arg): (r: Result<CellRange>)
  {
    if a.IntArg? && b.IntArg? && c.IntArg? && d.IntArg? then
      Ok(CellRange(a.i, b.i, c.i, d.i))
    else if PairForm(a, b) then
      FromPair(a, b)
    else
      FromOne(a)
  }

  /** The first two arguments are of the same kind: two labels, two cells,
      two tuples or lists, two spans or two ints. */
  predicate PairForm(a: Arg, b: Arg)
  {
    (a.StrArg? && b.StrArg?) || (a.CellArg? && b.CellArg?) ||
    (a.IsSequence() && b.IsSequence()) || (a.SpanArg? && b.SpanArg?) ||
    (a.IntArg? && b.IntArg?)
  }

  /** The two-argument forms: the first names the first corner and the
      second the last one, except two ints, which name the last corner of a
      range starting at A1.  A span stops before its `stop`. */
  function FromPair(a: Arg, b: Arg): (r: Result<CellRange>)
    requires PairForm(a, b)
  {
    if a.StrArg? then
      var first :- Corner(a.s);
      var last :- Corner(b.s);
      Ok(CellRange(first.0, first.1, last.0, last.1))
    else if a.CellArg? then
      Ok(CellRange(a.c.row, a.c.col, b.c.row, b.c.col))
    else if a.IsSequence() then
      var first :- UnpackPair(a.Items());
      var last :- UnpackPair(b.Items());
      Ok(CellRange(first.0, first.1, last.0, last.1))
    else if a.SpanArg? then
      Ok(CellRange(a.start, b.start, a.stop - 1, b.stop - 1))
    else
      Ok(CellRange(0, 0, a.i, b.i))
  }

  /** The one-argument forms: a label (see `FromLabel`), a cell naming the
      last corner, a pair naming the last corner or a four-tuple naming
      both; anything else is a ValueError. */
  function FromOne(a: Arg): (r: Result<CellRange>)
  {
    if a.StrArg? then
      FromLabel(a.s)
    else if a.CellArg? then
      Ok(CellRange(0, 0, a.c.row, a.c.col))
    else if a.TupleArg? then
      var items := if |a.items| == 2 then [0, 0, a.items[0], a.items[1]] else a.items;
      if |items| == 4 then Ok(CellRange(items[0], items[1], items[2], items[3]))
      else Err(ValueError)
    else
      Err(ValueError)
  }

  /** The label written by `to_string` of a range with non-negative
      corners builds that range again. */
  lemma ToStringRoundTrip(rng: CellRange)
    requires rng.rowStart >= 0 && rng.colStart >= 0 && rng.rowEnd >= 0 && rng.colEnd >= 0
    ensures rng.ToString().Ok?
    ensures Make(StrArg(rng.ToString().value), NoArg, NoArg, NoArg) == Ok(rng)
  {
    CornerOfLabel(rng.rowStart, rng.colStart);
    CornerOfLabel(rng.rowEnd, rng.colEnd);
    var first := Utils.Pos2String(rng.rowStart, rng.colStart).value;
    var last := Utils.Pos2String(rng.rowEnd, rng.colEnd).value;
    assert rng.ToString() == Ok(first + ":" + last);
    FromLabelPair(first, last);
    MakeOneString(first + ":" + last);
  }

  /** A string given alone is decoded by `FromLabel`. */
  lemma MakeOneString(s: string)
    ensures Make(StrArg(s), NoArg, NoArg, NoArg) == FromLabel(s)
  {
  }

  /** "<first>:<last>" decodes each side as one corner. */
  lemma FromLabelPair(first: string, last: string)
    requires ':' !in first && ':' !in last
    requires Corner(first).Ok? && Corner(last).Ok?
    ensures FromLabel(first + ":" + last) ==
      Ok(CellRange(Corner(first).value.0, Corner(first).value.1,
                   Corner(last).value.0, Corner(last).value.1))
  {
    var s := first + ":" + last;
    assert s == first + [':'] + last;
    SplitAtSeparator(first, last, ':');
    assert s[|first|] == ':';
  }

  /** The other forms naming both corners build the same range: four ints,
      two labels, two cells, a tuple and a list, two spans and one
      four-tuple. */
  lemma MakeForms(rng: CellRange)
    requires rng.rowStart >= 0 && rng.colStart >= 0 && rng.rowEnd >= 0 && rng.colEnd >= 0
    ensures Make(IntArg(rng.rowStart), IntArg(rng.colStart), IntArg(rng.rowEnd), IntArg(rng.colEnd)) == Ok(rng)
    ensures rng.First().ToString().Ok? && rng.Last().ToString().Ok?
    ensures Make(StrArg(rng.First().ToString().value), StrArg(rng.Last().ToString().value), NoArg, NoArg) == Ok(rng)
    ensures Make(CellArg(rng.First()), CellArg(rng.Last()), NoArg, NoArg) == Ok(rng)
    ensures Make(TupleArg([rng.rowStart, rng.colStart]), ListArg([rng.rowEnd, rng.colEnd]), NoArg, NoArg) == Ok(rng)
    ensures Make(SpanArg(rng.rowStart, rng.rowEnd + 1), SpanArg(rng.colStart, rng.colEnd + 1), NoArg, NoArg) == Ok(rng)
    ensures Make(TupleArg([rng.rowStart, rng.colStart, rng.rowEnd, rng.colEnd]), NoArg, NoArg, NoArg) == Ok(rng)
  {
    var f, l := rng.First(), rng.Last();
    CornerOfLabel(rng.rowStart, rng.colStart);
    CornerOfLabel(rng.rowEnd, rng.colEnd);
    assert f.ToString() == Utils.Pos2String(rng.rowStart, rng.colStart);
    assert l.ToString() == Utils.Pos2String(rng.rowEnd, rng.colEnd);
    MakeTwoLabels(f.ToString().value, l.ToString().value);
    MakeCornerForms(rng);
  }

  /** The forms that give the four bounds as numbers. */
  lemma MakeCornerForms(rng: CellRange)
    ensures Make(IntArg(rng.rowStart), IntArg(rng.colStart), IntArg(rng.rowEnd), IntArg(rng.colEnd)) == Ok(rng)
    ensures Make(CellArg(rng.First()), CellArg(rng.Last()), NoArg, NoArg) == Ok(rng)
    ensures Make(TupleArg([rng.rowStart, rng.colStart]), ListArg([rng.rowEnd, rng.colEnd]), NoArg, NoArg) == Ok(rng)
    ensures Make(SpanArg(rng.rowStart, rng.rowEnd + 1), SpanArg(rng.colStart, rng.colEnd + 1), NoArg, NoArg) == Ok(rng)
    ensures Make(TupleArg([rng.rowStart, rng.colStart, rng.rowEnd, rng.colEnd]), NoArg, NoArg, NoArg) == Ok(rng)
  {
  }

  /** Two labels are decoded one corner each. */
  lemma MakeTwoLabels(first: string, last: string)
    requires Corner(first).Ok? && Corner(last).Ok?
    ensures Make(StrArg(first), StrArg(last), NoArg, NoArg) ==
      Ok(CellRange(Corner(first).value.0, Corner(first).value.1,
                   Corner(last).value.0, Corner(last).value.1))
  {
  }

  /** The forms that name only the last corner start the range at A1. */
  lemma MakeFromOrigin(row: nat, col: nat)
    ensures Make(IntArg(row), IntArg(col), NoArg, NoArg) == Ok(CellRange(0, 0, row, col))
    ensures Cell(row, col).ToString().Ok?
    ensures Make(StrArg(Cell(row, col).ToString().value), NoArg, NoArg, NoArg) == Ok(CellRange(0, 0, row, col))
    ensures Make(CellArg(Cell(row, col)), NoArg, NoArg, NoArg) == Ok(CellRange(0, 0, row, col))
    ensures Make(TupleArg([row, col]), NoArg, NoArg, NoArg) == Ok(CellRange(0, 0, row, col))
  {
    MakeFromOriginText(row, col);
    MakeFromOriginInts(row, col);
    MakeFromOriginCell(row, col);
    MakeFromOriginTuple(row, col);
  }

  lemma MakeFromOriginInts(row: nat, col: nat)
    ensures Make(IntArg(row), IntArg(col), NoArg, NoArg) == Ok(CellRange(0, 0, row, col))
  {
  }

  lemma MakeFromOriginCell(row: nat, col: nat)
    ensures Make(CellArg(Cell(row, col)), NoArg, NoArg, NoArg) == Ok(CellRange(0, 0, row, col))
  {
  }

  lemma MakeFromOriginTuple(row: nat, col: nat)
    ensures Make(TupleArg([row, col]), NoArg, NoArg, NoArg) == Ok(CellRange(0, 0, row, col))
  {
  }

  lemma MakeFromOriginText(row: nat, col: nat)
    ensures Cell(row, col).ToString().Ok?
    ensures Make(StrArg(Cell(row, col).ToString().value), NoArg, NoArg, NoArg) == Ok(CellRange(0, 0, row, col))
  {
    CornerOfLabel(row, col);
    var text := Utils.Pos2String(row, col).value;
    MakeOneString(text);
    SplitNoSeparator(text, ':');
  }

  /** A string with more than one ':' is rejected, as is a list given alone. */
  lemma MakeRejects(a: string, b: string, rest: string, items: seq<int>)
    ensures Make(StrArg(a + ":" + b + ":" + rest), NoArg, NoArg, NoArg) == Err(ValueError)
    ensures Make(ListArg(items), NoArg, NoArg, NoArg) == Err(ValueError)
  {
    var s := a + ":" + b + ":" + rest;
    assert s[|a|] == ':';
    assert ':' in s;
    SplitLength(s, ':');
    assert multiset(s) == multiset(a) + multiset(":") + multiset(b) + multiset(":") + multiset(rest);
  }

  /** A single-cell range is exactly one with one row and one column, and
      then its area is 1. */
  lemma SingleCellShape(rng: CellRange)
    ensures rng.SingleCell() <==> rng.RowCount() == 1 && rng.ColCount() == 1
    ensures rng.SingleCell() ==> rng.Area() == 1
  {
  }

  /** `__eq__` is equality of the four bounds. */
  lemma EqIsEquality(a: CellRange, b: CellRange)
    ensures a.Eq(b) <==> a == b
  {
  }
}
