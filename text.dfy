/** String helpers that stand for Python built-ins: `str(int)`, `hex(int)`,
    `str.join`, `str.split`, `str.lower` (ASCII letters only) and the
    prefix test used by regular-expression anchors. */
module Text {

  predicate IsDigit(ch: char) { '0' <= ch <= '9' }

  predicate AllDigits(s: string) { forall i :: 0 <= i < |s| ==> IsDigit(s[i]) }

  function DigitChar(d: nat): (ch: char)
    requires d < 10
    ensures IsDigit(ch)
  {
    "0123456789"[d]
  }

  /** Decimal digits of a natural number, without leading zeros. */
  function Digits(n: nat): (s: string)
    ensures |s| > 0 && AllDigits(s)
  {
    if n < 10 then [DigitChar(n)] else Digits(n / 10) + [DigitChar(n % 10)]
  }

  /** The value of a string of decimal digits (Python `int(s)` on digits). */
  function DigitsValue(s: string): nat
    requires AllDigits(s)
  {
    if s == [] then 0
    else DigitsValue(s[..|s| - 1]) * 10 + (s[|s| - 1] as int - '0' as int)
  }

  lemma {:induction false} DigitsRoundTrip(n: nat)
    ensures DigitsValue(Digits(n)) == n
  {
    if n >= 10 {
      var s := Digits(n);
      assert s[..|s| - 1] == Digits(n / 10);
      DigitsRoundTrip(n / 10);
    }
  }

  /** Python `str(n)` for an int. */
  function Decimal(n: int): (s: string)
    ensures forall i :: 0 <= i < |s| ==> s[i] == '-' || IsDigit(s[i])
  {
    if n < 0 then "-" + Digits(-n) else Digits(n)
  }

  /** The sign of `str(n)` and the digits after it. */
  lemma DecimalSign(n: int)
    ensures |Decimal(n)| > 0
    ensures Decimal(n)[0] == '-' <==> n < 0
    ensures n < 0 ==> Decimal(n)[1..] == Digits(-n)
    ensures n >= 0 ==> Decimal(n) == Digits(n)
  {
    if n < 0 {
      assert Decimal(n) == ['-'] + Digits(-n);
    }
  }

  /** Distinct integers print differently. */
  lemma {:induction false} DecimalInjective(a: int, b: int)
    requires Decimal(a) == Decimal(b)
    ensures a == b
  {
    DecimalSign(a);
    DecimalSign(b);
    if a < 0 {
      assert b < 0;
      DigitsInjective(-a, -b);
    } else {
      assert b >= 0;
      DigitsInjective(a, b);
    }
  }

  lemma DigitsInjective(m: nat, n: nat)
    requires Digits(m) == Digits(n)
    ensures m == n
  {
    DigitsRoundTrip(m);
    DigitsRoundTrip(n);
  }

  /** Two strings that agree and each hold `sep` only at a marked position
      agree on what comes before and after it. */
  lemma CutAtFirst(x: string, y: string, x2: string, y2: string, sep: char)
    requires sep !in x && sep !in x2
    requires x + [sep] + y == x2 + [sep] + y2
    ensures x == x2 && y == y2
  {
    var s := x + [sep] + y;
    assert s[|x|] == sep && s[|x2|] == sep;
    assert forall i :: 0 <= i < |x| ==> s[i] == x[i];
    assert forall i :: 0 <= i < |x2| ==> s[i] == x2[i];
    assert |x| == |x2|;
    assert x == s[..|x|] == x2;
    assert y == s[|x| + 1..] == y2;
  }

  function HexDigits(n: nat): (s: string)
    ensures |s| > 0
  {
    if n < 16 then ["0123456789abcdef"[n]]
    else HexDigits(n / 16) + ["0123456789abcdef"[n % 16]]
  }

  /** Python `hex(n)`: lower-case digits after `0x`, a leading `-` when negative. */
  function Hex(n: int): string
  {
    if n < 0 then "-0x" + HexDigits(-n) else "0x" + HexDigits(n)
  }

  /** Python `sep.join(parts)`. */
  function Join(sep: string, parts: seq<string>): string
  {
    if |parts| == 0 then ""
    else if |parts| == 1 then parts[0]
    else Join(sep, parts[..|parts| - 1]) + sep + parts[|parts| - 1]
  }

  /** Python `s.split(sep)` for a one-character separator: the pieces between
      occurrences of `sep`, always at least one. */
  function Split(s: string, sep: char): (parts: seq<string>)
    ensures |parts| > 0
  {
    if s == [] then [""]
    else
      var rest := Split(s[1..], sep);
      if s[0] == sep then [""] + rest
      else [[s[0]] + rest[0]] + rest[1..]
  }

  lemma {:induction false} SplitNoSeparator(s: string, sep: char)
    requires sep !in s
    ensures Split(s, sep) == [s]
  {
    if s != [] {
      SplitNoSeparator(s[1..], sep);
      assert [s[0]] + s[1..] == s;
    }
  }

  lemma {:induction false} SplitAtSeparator(a: string, b: string, sep: char)
    requires sep !in a && sep !in b
    ensures Split(a + [sep] + b, sep) == [a, b]
  {
    if a == [] {
      assert a + [sep] + b == [sep] + b;
      assert ([sep] + b)[1..] == b;
      SplitNoSeparator(b, sep);
    } else {
      SplitAtSeparator(a[1..], b, sep);
      assert (a + [sep] + b)[1..] == a[1..] + [sep] + b;
      assert [a[0]] + a[1..] == a;
    }
  }

  /** There is one more piece than there are separators. */
  lemma {:induction false} SplitLength(s: string, sep: char)
    ensures |Split(s, sep)| == 1 + multiset(s)[sep]
  {
    if s != [] {
      SplitLength(s[1..], sep);
      assert s == [s[0]] + s[1..];
      assert multiset(s) == multiset([s[0]]) + multiset(s[1..]);
    }
  }

  /** `s.split(sep)[-1]`: the last piece. */
  function LastPiece(s: string, sep: char): string
  {
    Split(s, sep)[|Split(s, sep)| - 1]
  }

  /** The last piece is the text after the last `sep`: a suffix of `s`
      holding no `sep`, which is either all of `s` or comes right after a
      `sep`. */
  lemma {:induction false} LastPieceAfterLast(s: string, sep: char)
    ensures sep !in LastPiece(s, sep) && |LastPiece(s, sep)| <= |s|
    ensures s[|s| - |LastPiece(s, sep)|..] == LastPiece(s, sep)
    ensures |LastPiece(s, sep)| == |s| || s[|s| - |LastPiece(s, sep)| - 1] == sep
  {
    if s != [] {
      var t := s[1..];
      LastPieceAfterLast(t, sep);
      var rest := Split(t, sep);
      if s[0] == sep {
        assert Split(s, sep) == [""] + rest;
        assert LastPiece(s, sep) == LastPiece(t, sep);
        assert s[|s| - |LastPiece(t, sep)|..] == t[|t| - |LastPiece(t, sep)|..];
      } else if sep !in t {
        assert sep !in s;
        SplitNoSeparator(s, sep);
      } else {
        SplitLength(t, sep);
        assert multiset(t)[sep] > 0;
        assert Split(s, sep) == [[s[0]] + rest[0]] + rest[1..];
        assert LastPiece(s, sep) == LastPiece(t, sep);
        assert s[|s| - |LastPiece(t, sep)|..] == t[|t| - |LastPiece(t, sep)|..];
      }
    }
  }

  /** Python `s.lower()` restricted to ASCII letters. */
  function Lower(s: string): (r: string)
    ensures |r| == |s|
  {
    seq(|s|, i requires 0 <= i < |s| =>
      if 'A' <= s[i] <= 'Z' then (s[i] as int + 32) as char else s[i])
  }

  predicate StartsWith(s: string, prefix: string)
  {
    |prefix| <= |s| && s[..|prefix|] == prefix
  }
}
