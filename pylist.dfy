/** Python list semantics the modelled code relies on: subscripting with
    negative indices, slicing that clamps silently, and `list.insert`. */
module PyList {
  import opened Wrappers

  /** Python `s[i]`: a negative index counts from the end; anything outside
      `-len(s) .. len(s)-1` raises IndexError. */
  function Index<T>(s: seq<T>, i: int): (r: Result<T>)
    ensures r.Ok? <==> -|s| <= i < |s|
    ensures 0 <= i < |s| ==> r == Ok(s[i])
    ensures -|s| <= i < 0 ==> r == Ok(s[i + |s|])
  {
    if 0 <= i < |s| then Ok(s[i])
    else if -|s| <= i < 0 then Ok(s[i + |s|])
    else Err(IndexError)
  }

  /** A slice bound after Python's normalisation: negative counts from the
      end, then clamped into `0 .. n`. */
  function Clamp(i: int, n: nat): (r: nat)
    ensures r <= n
    ensures 0 <= i <= n ==> r == i
  {
    if i < 0 then (if i + n < 0 then 0 else i + n)
    else if i > n then n
    else i
  }

  /** Python `s[lo:hi]`: never raises, empty when the bounds cross. */
  function Slice<T>(s: seq<T>, lo: int, hi: int): (r: seq<T>)
    ensures 0 <= lo <= hi <= |s| ==> r == s[lo..hi]
  {
    var a := Clamp(lo, |s|);
    var b := Clamp(hi, |s|);
    if a < b then s[a..b] else []
  }

  /** Python `s.insert(i, x)`: the position is normalised like a slice bound. */
  function Insert<T>(s: seq<T>, i: int, x: T): (r: seq<T>)
    ensures |r| == |s| + 1
  {
    var k := Clamp(i, |s|);
    s[..k] + [x] + s[k..]
  }

  /** Python's `s.append(x)` when `index == -1`, `s.insert(index, x)`
      otherwise: the rule every `add_sheet` follows. */
  function AddAt<T>(s: seq<T>, x: T, index: int): (r: seq<T>)
  {
    if index == -1 then s + [x] else Insert(s, index, x)
  }

  lemma {:induction false} AddAtPlacement<T>(s: seq<T>, x: T, index: int)
    ensures |AddAt(s, x, index)| == |s| + 1
    ensures index == -1 ==> AddAt(s, x, index) == s + [x]
    ensures 0 <= index <= |s| ==>
      AddAt(s, x, index)[index] == x &&
      AddAt(s, x, index)[..index] == s[..index] &&
      AddAt(s, x, index)[index + 1..] == s[index..]
    ensures multiset(AddAt(s, x, index)) == multiset(s) + multiset{x}
  {
    var r := AddAt(s, x, index);
    if index != -1 {
      var k := Clamp(index, |s|);
      assert r == s[..k] + [x] + s[k..];
      assert r[k + 1..] == s[k..];
      assert s == s[..k] + s[k..];
      calc {
        multiset(r);
        multiset(s[..k]) + multiset{x} + multiset(s[k..]);
        { assert multiset(s) == multiset(s[..k]) + multiset(s[k..]); }
        multiset(s) + multiset{x};
      }
    }
  }

  /** The length of the shortest of `rows` (0 when there are none). */
  function MinLen<T>(rows: seq<seq<T>>): (m: nat)
    ensures forall i :: 0 <= i < |rows| ==> m <= |rows[i]|
    ensures |rows| > 0 ==> exists i :: 0 <= i < |rows| && m == |rows[i]|
  {
    if |rows| == 0 then 0
    else if |rows| == 1 then |rows[0]|
    else
      var m := MinLen(rows[1..]);
      assert forall i :: 1 <= i < |rows| ==> rows[1..][i - 1] == rows[i];
      if |rows[0]| <= m then |rows[0]| else m
  }

  /** Python `list(zip(*rows))` with each tuple as a list: the transpose,
      cut to the shortest row; empty when `rows` is. */
  function Transpose<T>(rows: seq<seq<T>>): (t: seq<seq<T>>)
    ensures |rows| > 0 ==> |t| == MinLen(rows)
    ensures |rows| == 0 ==> t == []
    ensures forall j :: 0 <= j < |t| ==> |t[j]| == |rows|
    ensures forall j, i :: 0 <= j < |t| && 0 <= i < |rows| ==> t[j][i] == rows[i][j]
  {
    if |rows| == 0 then []
    else
      var m := MinLen(rows);
      seq(m, j requires 0 <= j < m => seq(|rows|, i requires 0 <= i < |rows| => rows[i][j]))
  }

  /** Python `list(zip(a, b))`: pairs up to the shorter of the two. */
  function Zip<A, B>(a: seq<A>, b: seq<B>): (z: seq<(A, B)>)
    ensures |z| == if |a| <= |b| then |a| else |b|
    ensures forall i :: 0 <= i < |z| ==> z[i] == (a[i], b[i])
  {
    var n := if |a| <= |b| then |a| else |b|;
    seq(n, i requires 0 <= i < n => (a[i], b[i]))
  }

  /** Transposing a non-empty rectangular table with non-empty rows twice
      gives it back. */
  lemma TransposeTwice<T>(rows: seq<seq<T>>, width: nat)
    requires |rows| > 0 && width > 0
    requires forall i :: 0 <= i < |rows| ==> |rows[i]| == width
    ensures |Transpose(rows)| == width
    ensures Transpose(Transpose(rows)) == rows
  {
    var t := Transpose(rows);
    assert MinLen(rows) == width;
    assert |t| == width && |t[0]| == |rows|;
    assert MinLen(t) == |rows|;
    var tt := Transpose(t);
    assert |tt| == |rows|;
    forall i | 0 <= i < |rows| ensures tt[i] == rows[i] {
      assert |tt[i]| == width;
    }
  }
}
