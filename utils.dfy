/** Helper functions of the library: the A1 label of a zero-based position,
    the conversions from column dicts and record lists back to a table of
    rows, and the English list formatter used in messages. */
module Utils {
  import opened Wrappers
  import opened Text
  import opened Values
  import opened PyList
  import opened PyDict
  import Coordinate

  /** `pos2string(row, col)`: the label of a zero-based position, e.g. "A1"
      for (0, 0).  A negative column has no letter (ValueError); a negative
      row is printed as it is.  The label of a position decodes back to it. */
  function Pos2String(row: int, col: int): (r: Result<string>)
    ensures r.Err? <==> col < 0
    ensures r.Err? ==> r.error == ValueError
    ensures r.Ok? && row >= 0 ==>
      Coordinate.CoordinateToTuple(r.value) == Ok((row + 1, col + 1)) && ':' !in r.value
  {
    if col < 0 then Err(ValueError)
    else
      var s := Coordinate.ColumnLetter(col + 1) + Decimal(row + 1);
      if row >= 0 then
        Coordinate.LabelRoundTrip(row + 1, col + 1);
        assert s == Coordinate.Label(row + 1, col + 1);
        Ok(s)
      else
        Ok(s)
  }

  /** `column_dict_to_list(cdict)`: the keys as the header row, followed by
      the columns transposed into rows (cut to the shortest column). */
  function ColumnDictToList(cdict: Dict<Value, seq<Value>>): (t: seq<seq<Value>>)
    requires cdict.Valid()
    ensures |t| >= 1 && t[0] == cdict.keys
    ensures |cdict.keys| > 0 ==> |t| == 1 + MinLen(ValueList(cdict))
    ensures |cdict.keys| == 0 ==> t == [[]]
    ensures forall i, j :: 1 <= i < |t| && 0 <= j < |cdict.keys| ==>
      |t[i]| == |cdict.keys| && t[i][j] == cdict.entries[cdict.keys[j]][i - 1]
  {
    [cdict.keys] + Transpose(ValueList(cdict))
  }

  /** What `records_to_list` builds from a non-empty record list: the first
      record's keys, then each record's values in its own key order. */
  function RecordsTable(rlist: seq<Dict<Value, Value>>): (t: seq<seq<Value>>)
    requires |rlist| > 0
    requires forall i :: 0 <= i < |rlist| ==> rlist[i].Valid()
    ensures |t| == |rlist| + 1 && t[0] == rlist[0].keys
    ensures forall i :: 0 <= i < |rlist| ==> t[i + 1] == ValueList(rlist[i])
  {
    [rlist[0].keys] + seq(|rlist|, i requires 0 <= i < |rlist| => ValueList(rlist[i]))
  }

  /** `records_to_list(rlist)`: an empty list raises IndexError (no first
      record); otherwise one header row and one row per record. */
  method RecordsToList(rlist: seq<Dict<Value, Value>>) returns (r: Result<seq<seq<Value>>>)
    requires forall i :: 0 <= i < |rlist| ==> rlist[i].Valid()
    ensures r.Err? <==> |rlist| == 0
    ensures r.Err? ==> r.error == IndexError
    ensures r.Ok? ==> r.value == RecordsTable(rlist)
  {
    if |rlist| == 0 {
      return Err(IndexError);
    }
    var ret := [rlist[0].keys];
    for i := 0 to |rlist|
      invariant ret == [rlist[0].keys] + seq(i, k requires 0 <= k < i => ValueList(rlist[k]))
    {
      ret := ret + [ValueList(rlist[i])];
    }
    return Ok(ret);
  }

  /** The argument of `humanize_items`: a plain string or a list of strings. */
  datatype Items = Text(text: string) | List(items: seq<string>)

  /** `humanize_items(items, using_or)`: a string is returned as it is; one
      item is itself; otherwise all but the last joined by ", ", then " and "
      (" or " when `usingOr`), then the last.  An empty list raises
      IndexError when it reaches `items[-1]`. */
  function HumanizeItems(items: Items, usingOr: bool): (r: Result<string>)
  {
    var lastSeg := if usingOr then "or" else "and";
    match items
    case Text(s) => Ok(s)
    case List(xs) =>
      if |xs| == 1 then Ok(xs[0])
      else if |xs| == 2 then Ok(xs[0] + " " + lastSeg + " " + xs[1])
      else if |xs| == 0 then Err(IndexError)
      else Ok(Join(", ", xs[..|xs| - 1]) + " " + lastSeg + " " + xs[|xs| - 1])
  }

  /** The two-item case is the general rule with a one-item prefix, so every
      list of two or more items reads "a, b, … and z"; only the empty list
      fails. */
  lemma {:induction false} HumanizeItemsRule(xs: seq<string>, usingOr: bool)
    ensures |xs| == 0 <==> HumanizeItems(List(xs), usingOr).Err?
    ensures |xs| == 0 ==> HumanizeItems(List(xs), usingOr) == Err(IndexError)
    ensures |xs| >= 2 ==>
      HumanizeItems(List(xs), usingOr) ==
        Ok(Join(", ", xs[..|xs| - 1]) + (if usingOr then " or " else " and ") + xs[|xs| - 1])
    ensures |xs| == 1 ==> HumanizeItems(List(xs), usingOr) == Ok(xs[0])
  {
    var seg := if usingOr then "or" else "and";
    var mid := if usingOr then " or " else " and ";
    assert " " + seg + " " == mid;
    if |xs| >= 2 {
      var head := Join(", ", xs[..|xs| - 1]);
      var last := xs[|xs| - 1];
      assert head + " " + seg + " " + last == head + mid + last;
      if |xs| == 2 {
        assert xs[..1] == [xs[0]];
        assert head == xs[0];
      }
    }
  }
}
