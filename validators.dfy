/** The validators of the second parser interface.  Each one returns the
    value it is given when it accepts it and raises otherwise: ValueError
    for a value it rejects, TypeError when a comparison, `len()` or the
    regular-expression match is not defined on the value. */
module Validators {
  import opened Wrappers
  import opened Values
  import opened Text

  datatype Validator =
    | TypeCheck(types: seq<TypeTag>)
    | Range(minValue: Value, maxValue: Value)
    | Contains(allowed: seq<Value>)
    | Custom(pred: Value -> bool)
    | Url
    | StringLength(minLength: int, maxLength: int)
    | MinBoundary(minBoundary: Value)
    | MaxBoundary(maxBoundary: Value)
    | Unique
    | Concat(validators: seq<Validator>)

  /** `validator.validate(data)` */
  function Validate(v: Validator, data: Value): Result<Value>
    decreases v, 1
  {
    match v
    case TypeCheck(types) =>
      if TypeOf(data) in types then Ok(data) else Err(ValueError)
    case Range(lo, hi) =>
      // `lo <= data <= hi`: the second comparison runs only after the first holds
      var low :- LessEq(lo, data);
      if !low then Err(ValueError)
      else
        var high :- LessEq(data, hi);
        if !high then Err(ValueError) else Ok(data)
    case Contains(allowed) =>
      if In(data, allowed) then Ok(data) else Err(ValueError)
    case Custom(pred) =>
      if pred(data) then Ok(data) else Err(ValueError)
    case Url =>
      if !data.StrV? then Err(TypeError)
      else if UrlMatch(data.s) then Ok(data) else Err(ValueError)
    case StringLength(lo, hi) =>
      var n :- Len(data);
      if lo <= n <= hi then Ok(data) else Err(ValueError)
    case MinBoundary(lo) =>
      var below :- Less(data, lo);
      if below then Err(ValueError) else Ok(data)
    case MaxBoundary(hi) =>
      // `data > hi` on ints and strings is `hi < data`
      var above :- Less(hi, data);
      if above then Err(ValueError) else Ok(data)
    case Unique =>
      if data.SetV? then Ok(data)
      else if data.StrV? then (if DistinctChars(data.s) then Ok(data) else Err(ValueError))
      else if data.ListV? then
        if !AllHashable(data.items) then Err(TypeError)
        else if DistinctValues(data.items) then Ok(data) else Err(ValueError)
      else Err(TypeError)
    case Concat(vs) =>
      ValidateAll(vs, data)
  }

  /** `ConcatValidator.validate`: each validator is given what the one
      before it returned. */
  function ValidateAll(vs: seq<Validator>, data: Value): Result<Value>
    decreases vs, 0
  {
    if vs == [] then Ok(data)
    else
      var next :- Validate(vs[0], data);
      ValidateAll(vs[1..], next)
  }

  /** Values `set()` accepts: lists and sets are unhashable. */
  predicate AllHashable(items: seq<Value>)
  {
    forall i :: 0 <= i < |items| ==> !items[i].ListV? && !items[i].SetV?
  }

  /** `len(items) == len(set(items))` for hashable items. */
  predicate DistinctValues(items: seq<Value>)
  {
    forall i, j :: 0 <= i < j < |items| ==> items[i] != items[j]
  }

  predicate DistinctChars(s: string)
  {
    forall i, j :: 0 <= i < j < |s| ==> s[i] != s[j]
  }

  // ----- the URL patterns -----

  /** The prefixes of `^https?://.+$`, `^http://.+$`, `^ftp://.+$` and
      `^file://.+$`, tried in that order. */
  const Schemes: seq<string> := ["http://", "https://", "http://", "ftp://", "file://"]

  /** The number of leading characters `.` can match: all up to the first
      line break. */
  function LineLength(s: string): (k: nat)
    ensures k <= |s|
    ensures forall i :: 0 <= i < k ==> s[i] != '\n'
    ensures k < |s| ==> s[k] == '\n'
  {
    if s == [] || s[0] == '\n' then 0 else 1 + LineLength(s[1..])
  }

  /** `$` without MULTILINE: at the end, or just before a final line break. */
  predicate DollarAt(s: string, j: nat)
  {
    j == |s| || (j + 1 == |s| && s[j] == '\n')
  }

  /** `.+$` by backtracking: the greedy match of `j` characters, then one
      fewer, down to one, until `$` holds after it. */
  predicate Backtrack(s: string, j: nat)
  {
    if j == 0 then false else DollarAt(s, j) || Backtrack(s, j - 1)
  }

  /** `.+$` matched against the text after the scheme. */
  predicate DotPlusEnd(s: string)
  {
    Backtrack(s, LineLength(s))
  }

  /** One of the patterns matches at the start of `s`. */
  predicate UrlMatch(s: string)
  {
    exists k :: 0 <= k < |Schemes| && StartsWith(s, Schemes[k]) && DotPlusEnd(s[|Schemes[k]|..])
  }

  /** What `.+$` accepts, stated directly: one or more characters, none a
      line break, optionally followed by a single final line break. */
  predicate OneLine(s: string)
  {
    var body := if |s| > 0 && s[|s| - 1] == '\n' then s[..|s| - 1] else s;
    |body| > 0 && '\n' !in body
  }

  lemma {:induction false} BacktrackBelow(s: string, j: nat)
    requires j < LineLength(s)
    ensures !Backtrack(s, j)
  {
    if j > 0 {
      BacktrackBelow(s, j - 1);
    }
  }

  /** The backtracking match accepts exactly one line with at most one
      trailing line break. */
  lemma DotPlusEndIsOneLine(s: string)
    ensures DotPlusEnd(s) <==> OneLine(s)
  {
    var k := LineLength(s);
    if k > 0 {
      BacktrackBelow(s, k - 1);
    }
    if OneLine(s) {
      var body := if |s| > 0 && s[|s| - 1] == '\n' then s[..|s| - 1] else s;
      if k < |body| {
        assert false;
      }
      assert DollarAt(s, k);
    }
    if DotPlusEnd(s) {
      assert DollarAt(s, k);
      if k == |s| {
        assert forall i :: 0 <= i < |s| ==> s[i] != '\n';
      } else {
        assert s[..|s| - 1] == s[..k];
      }
    }
  }

  /** `UrlValidator` accepts a string exactly when it starts with
      `http://`, `https://`, `ftp://` or `file://` and the rest is one line
      of at least one character, optionally ended by one line break. */
  lemma UrlAccepts(s: string)
    ensures Validate(Url, StrV(s)).Ok? <==>
      exists k :: 0 <= k < |Schemes| && StartsWith(s, Schemes[k]) && OneLine(s[|Schemes[k]|..])
  {
    forall k | 0 <= k < |Schemes| && StartsWith(s, Schemes[k])
      ensures DotPlusEnd(s[|Schemes[k]|..]) <==> OneLine(s[|Schemes[k]|..])
    {
      DotPlusEndIsOneLine(s[|Schemes[k]|..]);
    }
  }

  /** `$` lets one final line break through: `"http://a\n"` is accepted. */
  lemma UrlTrailingBreak()
    ensures Validate(Url, StrV("http://a\n")).Ok?
  {
    var s := "http://a\n";
    assert StartsWith(s, Schemes[0]) && s[|Schemes[0]|..] == "a\n";
    DotPlusEndIsOneLine("a\n");
  }

  // ----- what every validator does -----

  /** A validator that accepts returns the value it was given; one that
      fails raises ValueError or TypeError. */
  lemma {:induction false} ValidateReturnsInput(v: Validator, data: Value)
    ensures Validate(v, data).Ok? ==> Validate(v, data).value == data
    ensures Validate(v, data).Err? ==> Validate(v, data).error in {ValueError, TypeError}
    decreases v, 1
  {
    match v
    case Concat(vs) => ValidateAllReturnsInput(vs, data);
    case Range(lo, hi) => CompareErrors(lo, data); CompareErrors(data, hi);
    case MinBoundary(lo) => CompareErrors(data, lo);
    case MaxBoundary(hi) => CompareErrors(hi, data);
    case _ =>
  }

  lemma {:induction false} ValidateAllReturnsInput(vs: seq<Validator>, data: Value)
    ensures ValidateAll(vs, data).Ok? ==> ValidateAll(vs, data).value == data
    ensures ValidateAll(vs, data).Err? ==> ValidateAll(vs, data).error in {ValueError, TypeError}
    decreases vs, 0
  {
    if vs != [] {
      ValidateReturnsInput(vs[0], data);
      ValidateAllReturnsInput(vs[1..], data);
    }
  }

  /** The chain accepts exactly when every validator in it accepts, and
      otherwise raises what the first one to fail raises. */
  lemma {:induction false} ValidateAllFirstFailure(vs: seq<Validator>, data: Value) returns (k: nat)
    ensures ValidateAll(vs, data).Ok? <==> forall i :: 0 <= i < |vs| ==> Validate(vs[i], data).Ok?
    ensures ValidateAll(vs, data).Err? ==>
      k < |vs| && (forall i :: 0 <= i < k ==> Validate(vs[i], data).Ok?) &&
      ValidateAll(vs, data) == Validate(vs[k], data)
    decreases vs
  {
    if vs == [] {
      k := 0;
    } else {
      ValidateReturnsInput(vs[0], data);
      var k' := ValidateAllFirstFailure(vs[1..], data);
      if Validate(vs[0], data).Err? {
        k := 0;
      } else {
        k := k' + 1;
        assert forall i :: 1 <= i < |vs| ==> vs[i] == vs[1..][i - 1];
      }
    }
  }

  /** `RangeValidator` on ints: accepts iff `min <= x <= max`. */
  lemma RangeAccepts(lo: int, hi: int, x: int)
    ensures Validate(Range(IntV(lo), IntV(hi)), IntV(x)) ==
      (if lo <= x <= hi then Ok(IntV(x)) else Err(ValueError))
  {
  }

  /** `StringLengthValidator` on strings and lists: accepts iff the length
      is within the bounds; on an int or `None`, `len()` raises TypeError. */
  lemma StringLengthAccepts(lo: int, hi: int, data: Value)
    ensures data.StrV? ==> (Validate(StringLength(lo, hi), data).Ok? <==> lo <= |data.s| <= hi)
    ensures data.ListV? ==> (Validate(StringLength(lo, hi), data).Ok? <==> lo <= |data.items| <= hi)
    ensures data.IntV? || data.NoneV? ==> Validate(StringLength(lo, hi), data) == Err(TypeError)
  {
  }

  /** `MinBoundaryValidator` rejects iff `x < min`; `MaxBoundaryValidator`
      rejects iff `x > max`. */
  lemma BoundariesReject(bound: int, x: int)
    ensures Validate(MinBoundary(IntV(bound)), IntV(x)).Err? <==> x < bound
    ensures Validate(MaxBoundary(IntV(bound)), IntV(x)).Err? <==> x > bound
  {
  }

  /** The bounds validators order lists lexicographically: `[2]` is not
      below `[1]` and lies between `[1]` and `[3]`, a proper prefix is below
      the list it starts, and a list whose first unequal items are an int
      and a string cannot be compared. */
  lemma ListBounds()
    ensures Validate(MinBoundary(ListV([IntV(1)])), ListV([IntV(2)])) == Ok(ListV([IntV(2)]))
    ensures Validate(Range(ListV([IntV(1)]), ListV([IntV(3)])), ListV([IntV(2)])) == Ok(ListV([IntV(2)]))
    ensures Validate(MinBoundary(ListV([IntV(1), IntV(5)])), ListV([IntV(1)])) == Err(ValueError)
    ensures Validate(MinBoundary(ListV([IntV(1)])), ListV([StrV("a")])) == Err(TypeError)
  {
    assert ListV([IntV(1), IntV(5)]).items[1..] == [IntV(5)];
  }

  /** The bounds validators order sets by inclusion: `{1}` is not above
      `{1, 2}`. */
  lemma SetBounds()
    ensures Validate(MaxBoundary(SetV([IntV(1), IntV(2)])), SetV([IntV(1)])) == Ok(SetV([IntV(1)]))
  {
    assert Members([IntV(1), IntV(2)]) == {IntV(1), IntV(2)};
    assert Members([IntV(1)]) == {IntV(1)};
  }

  /** `ContainsValidator` accepts iff the value is among the allowed ones;
      `CustomValidator` iff its function says so. */
  lemma MembershipAccepts(allowed: seq<Value>, pred: Value -> bool, data: Value)
    ensures Validate(Contains(allowed), data).Ok? <==> In(data, allowed)
    ensures Validate(Custom(pred), data).Ok? <==> pred(data)
  {
  }

  /** `UniqueValidator` accepts every set, and a list of hashable values
      iff no value occurs twice. */
  lemma UniqueAccepts(data: Value)
    ensures data.SetV? ==> Validate(Unique, data) == Ok(data)
    ensures data.ListV? && AllHashable(data.items) ==>
      (Validate(Unique, data).Ok? <==> DistinctValues(data.items))
    ensures data.ListV? && !AllHashable(data.items) ==> Validate(Unique, data) == Err(TypeError)
  {
  }
}
