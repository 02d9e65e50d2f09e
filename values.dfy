/** The dynamic values that flow through sheets, fields and validators:
    a model of the Python values the library stores in cells and passes to
    validators, with `str()`, truthiness, `len()`, ordering and `isinstance`. */
module Values {
  import opened Wrappers
  import opened Text

  /** A Python value.  A set is represented by its iteration order. */
  datatype Value =
    | NoneV
    | IntV(i: int)
    | StrV(s: string)
    | ListV(items: seq<Value>)
    | SetV(members: seq<Value>)

  /** The empty string, which unwritten grid cells hold. */
  const EmptyStr: Value := StrV("")

  /** The classes `isinstance` distinguishes. */
  datatype TypeTag = NoneType | IntType | StrType | ListType | SetType

  function TypeOf(v: Value): TypeTag
  {
    match v
    case NoneV => NoneType
    case IntV(_) => IntType
    case StrV(_) => StrType
    case ListV(_) => ListType
    case SetV(_) => SetType
  }

  /** Python truthiness: `None`, `0` and empty containers are false. */
  predicate Truthy(v: Value)
  {
    match v
    case NoneV => false
    case IntV(i) => i != 0
    case StrV(s) => s != ""
    case ListV(items) => items != []
    case SetV(members) => members != []
  }

  /** Python `repr()`; a string is quoted and escaped by `StrRepr`. */
  function Repr(v: Value): string
    decreases v, 1
  {
    match v
    case NoneV => "None"
    case IntV(i) => Decimal(i)
    case StrV(s) => StrRepr(s)
    case ListV(items) => "[" + Join(", ", ReprAll(items)) + "]"
    case SetV(members) => if members == [] then "set()" else "{" + Join(", ", ReprAll(members)) + "}"
  }

  function ReprAll(vs: seq<Value>): (r: seq<string>)
    ensures |r| == |vs|
    decreases vs, 0
  {
    if vs == [] then [] else ReprAll(vs[..|vs| - 1]) + [Repr(vs[|vs| - 1])]
  }

  /** The quote `repr()` puts around a string: `"` when the text holds a
      `'` and no `"`, `'` otherwise. */
  function Quote(s: string): (q: char)
    ensures q == '\'' || q == '"'
  {
    if '\'' in s && '"' !in s then '"' else '\''
  }

  /** Python `repr()` of a string.  Characters outside ASCII are kept as
      they are. */
  function StrRepr(s: string): string
  {
    [Quote(s)] + Escape(s, Quote(s)) + [Quote(s)]
  }

  const HexChars: string := "0123456789abcdef"

  /** How `repr()` writes one character inside the quote `q`: the
      backslash and the quote get a backslash, tab, line feed and carriage
      return their letter escapes, the other characters below space and
      DEL a `\xhh` escape; the rest stand for themselves. */
  function EscapeChar(c: char, q: char): string
  {
    if c == q || c == '\\' then ['\\', c]
    else if c == '\t' then ['\\', 't']
    else if c == '\n' then ['\\', 'n']
    else if c == '\r' then ['\\', 'r']
    else if c < ' ' || c == '\U{7f}' then ['\\', 'x', HexChars[c as int / 16], HexChars[c as int % 16]]
    else [c]
  }

  function Escape(s: string, q: char): string
  {
    if s == [] then [] else EscapeChar(s[0], q) + Escape(s[1..], q)
  }

  /** The value of a lower-case hex digit. */
  function HexValue(ch: char): (d: nat)
    ensures d < 16
  {
    if '0' <= ch <= '9' then ch as int - '0' as int
    else if 'a' <= ch <= 'f' then ch as int - 'a' as int + 10
    else 0
  }

  /** Reading the escapes back, as Python reads a string literal. */
  function Unescape(t: string): string
    decreases |t|
  {
    if t == [] then []
    else if t[0] == '\\' && |t| >= 2 then
      if t[1] == 't' then ['\t'] + Unescape(t[2..])
      else if t[1] == 'n' then ['\n'] + Unescape(t[2..])
      else if t[1] == 'r' then ['\r'] + Unescape(t[2..])
      else if t[1] == 'x' && |t| >= 4 then [(HexValue(t[2]) * 16 + HexValue(t[3])) as char] + Unescape(t[4..])
      else [t[1]] + Unescape(t[2..])
    else [t[0]] + Unescape(t[1..])
  }

  lemma HexCharValue(d: nat)
    requires d < 16
    ensures HexValue(HexChars[d]) == d
  {
  }

  /** One escaped character reads back as itself. */
  lemma UnescapeChar(c: char, q: char, rest: string)
    requires q == '\'' || q == '"'
    ensures Unescape(EscapeChar(c, q) + rest) == [c] + Unescape(rest)
  {
    var e := EscapeChar(c, q);
    var t := e + rest;
    if |e| == 1 {
      assert t[1..] == rest;
    } else if |e| == 2 {
      assert t[0] == '\\' && t[1] == e[1] && t[2..] == rest;
    } else {
      assert t[..4] == e && t[4..] == rest;
      HexCharValue(c as int / 16);
      HexCharValue(c as int % 16);
    }
  }

  /** The escapes `repr()` writes read back as the text. */
  lemma {:induction false} UnescapeEscape(s: string, q: char)
    requires q == '\'' || q == '"'
    ensures Unescape(Escape(s, q)) == s
  {
    if s != [] {
      UnescapeChar(s[0], q, Escape(s[1..], q));
      UnescapeEscape(s[1..], q);
      assert s == [s[0]] + s[1..];
    }
  }

  /** The escaped text holds no line break nor any other character below
      space: `repr()` of a string is a single line. */
  lemma {:induction false} EscapePrintable(s: string, q: char)
    requires q == '\'' || q == '"'
    ensures forall i :: 0 <= i < |Escape(s, q)| ==> Escape(s, q)[i] >= ' '
  {
    if s != [] {
      EscapePrintable(s[1..], q);
      var e, t := EscapeChar(s[0], q), Escape(s[1..], q);
      assert forall i :: 0 <= i < |e| ==> e[i] >= ' ';
      assert forall i :: |e| <= i < |e + t| ==> (e + t)[i] == t[i - |e|];
    }
  }

  /** `repr()` of a string is its text quoted and escaped: it starts and
      ends with the quote, is one line, and reading its inside back gives
      the text. */
  lemma StrReprRoundTrip(s: string)
    ensures |StrRepr(s)| >= 2 && StrRepr(s)[0] == StrRepr(s)[|StrRepr(s)| - 1] == Quote(s)
    ensures Unescape(StrRepr(s)[1..|StrRepr(s)| - 1]) == s
    ensures '\n' !in StrRepr(s)
  {
    var q := Quote(s);
    var r := StrRepr(s);
    assert r[1..|r| - 1] == Escape(s, q);
    UnescapeEscape(s, q);
    EscapePrintable(s, q);
    assert forall i :: 0 <= i < |r| ==> r[i] >= ' ';
  }

  /** Python `str()`, which is also what an f-string substitutes. */
  function Str(v: Value): string
  {
    if v.StrV? then v.s else Repr(v)
  }

  /** The members of a set, each once. */
  function Members(members: seq<Value>): set<Value>
  {
    set m | m in members
  }

  /** Python `len()`: defined on strings, lists and sets (a set counts each
      member once), a TypeError otherwise. */
  function Len(v: Value): Result<nat>
  {
    match v
    case StrV(s) => Ok(|s|)
    case ListV(items) => Ok(|items|)
    case SetV(members) => Ok(|Members(members)|)
    case _ => Err(TypeError)
  }

  /** Python `a == b`: lists are equal item by item, sets when they have
      the same members, and values of different types are unequal.  A set
      member is hashable (`None`, an int or a string), so plain equality
      decides it. */
  predicate Equal(a: Value, b: Value)
    decreases a, 1
  {
    match a
    case ListV(xs) => b.ListV? && ItemsEqual(xs, b.items)
    case SetV(ms) => b.SetV? && Members(ms) == Members(b.members)
    case _ => a == b
  }

  /** Two lists of the same length whose items are pairwise `==`. */
  predicate ItemsEqual(xs: seq<Value>, ys: seq<Value>)
    decreases xs, 0
  {
    |xs| == |ys| && (xs == [] || (Equal(xs[0], ys[0]) && ItemsEqual(xs[1..], ys[1..])))
  }

  /** Python `x in xs` on a list or tuple: some item is `==` to `x`. */
  predicate In(x: Value, xs: seq<Value>)
  {
    exists i :: 0 <= i < |xs| && Equal(xs[i], x)
  }

  /** Lexicographic order of strings by code point. */
  predicate StrLess(a: string, b: string)
  {
    if a == [] then b != []
    else if b == [] then false
    else if a[0] != b[0] then a[0] < b[0]
    else StrLess(a[1..], b[1..])
  }

  /** Python `a < b` (`orEqual` false) and `a <= b` (`orEqual` true): ints
      compare numerically, strings lexicographically, lists at their first
      pair of unequal items (or by length when one is a prefix of the
      other), sets by inclusion; any other pairing raises TypeError. */
  function Compare(a: Value, b: Value, orEqual: bool): Result<bool>
    decreases a, 1
  {
    if a.IntV? && b.IntV? then Ok(if orEqual then a.i <= b.i else a.i < b.i)
    else if a.StrV? && b.StrV? then Ok(StrLess(a.s, b.s) || (orEqual && a.s == b.s))
    else if a.ListV? && b.ListV? then CompareItems(a.items, b.items, orEqual)
    else if a.SetV? && b.SetV? then
      Ok(Members(a.members) <= Members(b.members) &&
         (orEqual || |Members(a.members)| < |Members(b.members)|))
    else Err(TypeError)
  }

  /** The list comparison: the first pair of items that are not `==`
      decides, by comparing them; without one, the lengths decide. */
  function CompareItems(xs: seq<Value>, ys: seq<Value>, orEqual: bool): Result<bool>
    decreases xs, 0
  {
    if xs == [] || ys == [] then Ok(if orEqual then |xs| <= |ys| else |xs| < |ys|)
    else if Equal(xs[0], ys[0]) then CompareItems(xs[1..], ys[1..], orEqual)
    else Compare(xs[0], ys[0], orEqual)
  }

  /** Python `a < b`. */
  function Less(a: Value, b: Value): Result<bool>
  {
    Compare(a, b, false)
  }

  /** Python `a <= b`. */
  function LessEq(a: Value, b: Value): Result<bool>
  {
    Compare(a, b, true)
  }

  /** A comparison either answers or raises TypeError, and `a < b` raises
      exactly when `a <= b` does. */
  lemma {:induction false} CompareErrors(a: Value, b: Value)
    ensures Compare(a, b, false).Err? ==> Compare(a, b, false).error == TypeError
    ensures Compare(a, b, true).Err? ==> Compare(a, b, true).error == TypeError
    ensures Compare(a, b, false).Err? <==> Compare(a, b, true).Err?
    decreases a, 1
  {
    if a.ListV? && b.ListV? {
      CompareItemsErrors(a.items, b.items);
    }
  }

  lemma {:induction false} CompareItemsErrors(xs: seq<Value>, ys: seq<Value>)
    ensures CompareItems(xs, ys, false).Err? ==> CompareItems(xs, ys, false).error == TypeError
    ensures CompareItems(xs, ys, true).Err? ==> CompareItems(xs, ys, true).error == TypeError
    ensures CompareItems(xs, ys, false).Err? <==> CompareItems(xs, ys, true).Err?
    decreases xs, 0
  {
    if xs != [] && ys != [] {
      if Equal(xs[0], ys[0]) {
        CompareItemsErrors(xs[1..], ys[1..]);
      } else {
        CompareErrors(xs[0], ys[0]);
      }
    }
  }

  /** Where the comparison answers, `a <= b` holds exactly when `a < b` or
      `a == b` does. */
  lemma {:induction false} LessEqIsLessOrEqual(a: Value, b: Value)
    requires LessEq(a, b).Ok?
    ensures Less(a, b).Ok?
    ensures LessEq(a, b).value <==> Less(a, b).value || Equal(a, b)
    decreases a, 1
  {
    CompareErrors(a, b);
    if a.ListV? && b.ListV? {
      ItemsLessEqIsLessOrEqual(a.items, b.items);
    } else if a.SetV? && b.SetV? {
      var m, n := Members(a.members), Members(b.members);
      if m <= n && |m| >= |n| {
        SubsetSameSize(m, n);
      }
    }
  }

  lemma {:induction false} ItemsLessEqIsLessOrEqual(xs: seq<Value>, ys: seq<Value>)
    requires CompareItems(xs, ys, true).Ok?
    ensures CompareItems(xs, ys, false).Ok?
    ensures CompareItems(xs, ys, true).value <==> CompareItems(xs, ys, false).value || ItemsEqual(xs, ys)
    decreases xs, 0
  {
    CompareItemsErrors(xs, ys);
    if xs != [] && ys != [] {
      if Equal(xs[0], ys[0]) {
        ItemsLessEqIsLessOrEqual(xs[1..], ys[1..]);
      } else {
        LessEqIsLessOrEqual(xs[0], ys[0]);
      }
    }
  }

  /** A subset at least as large as its superset is the whole of it. */
  lemma SubsetSameSize(m: set<Value>, n: set<Value>)
    requires m <= n && |m| >= |n|
    ensures m == n
  {
    assert n == m + (n - m);
    assert |n| == |m| + |n - m|;
  }

  /** `==` is reflexive and symmetric. */
  lemma {:induction false} EqualIsEquivalence(a: Value, b: Value)
    ensures Equal(a, a)
    ensures Equal(a, b) <==> Equal(b, a)
    decreases a, 1
  {
    if a.ListV? {
      ItemsEqualIsEquivalence(a.items, a.items);
      if b.ListV? {
        ItemsEqualIsEquivalence(a.items, b.items);
      }
    }
  }

  lemma {:induction false} ItemsEqualIsEquivalence(xs: seq<Value>, ys: seq<Value>)
    ensures ItemsEqual(xs, xs)
    ensures ItemsEqual(xs, ys) <==> ItemsEqual(ys, xs)
    decreases xs, 0
  {
    if xs != [] {
      EqualIsEquivalence(xs[0], xs[0]);
      ItemsEqualIsEquivalence(xs[1..], xs[1..]);
      if |ys| == |xs| {
        EqualIsEquivalence(xs[0], ys[0]);
        ItemsEqualIsEquivalence(xs[1..], ys[1..]);
      }
    }
  }

  /** A value holding no set anywhere. */
  predicate SetFree(v: Value)
    decreases v, 1
  {
    match v
    case SetV(_) => false
    case ListV(xs) => ItemsSetFree(xs)
    case _ => true
  }

  predicate ItemsSetFree(xs: seq<Value>)
    decreases xs, 0
  {
    xs == [] || (SetFree(xs[0]) && ItemsSetFree(xs[1..]))
  }

  /** On values holding no set, Python `==` is plain equality; only a set
      can be `==` to a value listing its members in another order. */
  lemma {:induction false} EqualOfSetFree(a: Value, b: Value)
    requires SetFree(a)
    ensures Equal(a, b) <==> a == b
    decreases a, 1
  {
    EqualIsEquivalence(a, a);
    if a.ListV? && b.ListV? {
      ItemsEqualOfSetFree(a.items, b.items);
    }
  }

  lemma {:induction false} ItemsEqualOfSetFree(xs: seq<Value>, ys: seq<Value>)
    requires ItemsSetFree(xs)
    ensures ItemsEqual(xs, ys) <==> xs == ys
    decreases xs, 0
  {
    if xs != [] && |ys| == |xs| {
      EqualOfSetFree(xs[0], ys[0]);
      ItemsEqualOfSetFree(xs[1..], ys[1..]);
      if xs[0] == ys[0] && xs[1..] == ys[1..] {
        assert xs == [xs[0]] + xs[1..] && ys == [ys[0]] + ys[1..];
      }
    }
  }
}
