/** The A1 label codec that the library takes from openpyxl
    (`get_column_letter`, `coordinate_to_tuple`): column letters in
    bijective base 26 (A = 1 … Z = 26, AA = 27 …) followed by the 1-based
    decimal row number. */
module Coordinate {
  import opened Wrappers
  import opened Text

  predicate IsLetter(ch: char) { 'A' <= ch <= 'Z' }

  predicate AllLetters(s: string) { forall i :: 0 <= i < |s| ==> IsLetter(s[i]) }

  /** The letter for a digit 1 ..= 26 of bijective base 26. */
  function Letter(d: nat): (ch: char)
    requires 1 <= d <= 26
    ensures IsLetter(ch)
  {
    (('A' as int) + d - 1) as char
  }

  /** `get_column_letter(n)`: the letters of the 1-based column `n`. */
  function ColumnLetter(n: nat): (s: string)
    requires n >= 1
    ensures |s| > 0 && AllLetters(s)
  {
    if n <= 26 then [Letter(n)]
    else ColumnLetter((n - 1) / 26) + [Letter((n - 1) % 26 + 1)]
  }

  /** `column_index_from_string(s)`: the 1-based column a string of letters names. */
  function ColumnIndex(s: string): nat
    requires AllLetters(s)
  {
    if s == [] then 0
    else ColumnIndex(s[..|s| - 1]) * 26 + (s[|s| - 1] as int - 'A' as int + 1)
  }

  lemma {:induction false} ColumnLetterRoundTrip(n: nat)
    requires n >= 1
    ensures ColumnIndex(ColumnLetter(n)) == n
  {
    if n > 26 {
      var q, d := (n - 1) / 26, (n - 1) % 26 + 1;
      var s := ColumnLetter(n);
      assert s[..|s| - 1] == ColumnLetter(q);
      ColumnLetterRoundTrip(q);
      assert ColumnIndex(s) == q * 26 + d;
    }
  }

  /** The number of leading letters of `s`. */
  function LetterPrefix(s: string): (k: nat)
    ensures k <= |s| && AllLetters(s[..k])
    ensures k < |s| ==> !IsLetter(s[k])
  {
    if s == [] || !IsLetter(s[0]) then 0
    else
      var k := 1 + LetterPrefix(s[1..]);
      assert s[..k] == [s[0]] + s[1..][..k - 1];
      k
  }

  /** `coordinate_to_tuple(label)`: the 1-based (row, column) of a string of
      the form letters-then-digits with a row of at least 1; any other label
      is an InvalidCoordinate error. */
  function CoordinateToTuple(coord: string): (r: Result<(int, int)>)
    ensures r.Ok? ==> r.value.0 >= 1 && r.value.1 >= 1
  {
    var k := LetterPrefix(coord);
    var letters, digits := coord[..k], coord[k..];
    if k == 0 || digits == [] || !AllDigits(digits) then Err(InvalidCoordinate)
    else
      var row := DigitsValue(digits);
      var col := ColumnIndex(letters);
      if row == 0 || col == 0 then Err(InvalidCoordinate) else Ok((row, col))
  }

  /** The label of the 1-based (row, column). */
  function Label(row: nat, col: nat): string
    requires row >= 1 && col >= 1
  {
    ColumnLetter(col) + Digits(row)
  }

  lemma {:induction false} LetterPrefixOfLabel(letters: string, digits: string)
    requires AllLetters(letters) && AllDigits(digits) && digits != []
    ensures LetterPrefix(letters + digits) == |letters|
  {
    if letters != [] {
      LetterPrefixOfLabel(letters[1..], digits);
      assert (letters + digits)[1..] == letters[1..] + digits;
    } else {
      assert letters + digits == digits;
      assert !IsLetter(digits[0]);
    }
  }

  /** Decoding the label of a 1-based position gives the position back. */
  lemma {:induction false} LabelRoundTrip(row: nat, col: nat)
    requires row >= 1 && col >= 1
    ensures CoordinateToTuple(Label(row, col)) == Ok((row, col))
    ensures ':' !in Label(row, col)
  {
    var letters, digits := ColumnLetter(col), Digits(row);
    var text := letters + digits;
    LetterPrefixOfLabel(letters, digits);
    assert text[..|letters|] == letters && text[|letters|..] == digits;
    ColumnLetterRoundTrip(col);
    DigitsRoundTrip(row);
  }
}
