/** An insertion-ordered Python dict: `keys` in first-insertion order and
    the mapping itself.  Assigning an existing key keeps its position. */
module PyDict {
  import opened Wrappers

  datatype Dict<K(!new), V> = Dict(keys: seq<K>, entries: map<K, V>)
  {
    /** Keys are distinct and are exactly the mapped ones. */
    ghost predicate Valid()
    {
      (forall i, j :: 0 <= i < j < |keys| ==> keys[i] != keys[j]) &&
      (forall k :: k in entries <==> k in keys)
    }

    function Size(): nat { |keys| }
  }

  function Empty<K(!new), V>(): (d: Dict<K, V>)
    ensures d.Valid() && d.Size() == 0
  {
    Dict([], map[])
  }

  /** `d[k] = v` */
  function Put<K(!new), V>(d: Dict<K, V>, k: K, v: V): (r: Dict<K, V>)
    requires d.Valid()
    ensures r.Valid()
    ensures r.entries == d.entries[k := v]
    ensures k in d.entries ==> r.keys == d.keys
    ensures k !in d.entries ==> r.keys == d.keys + [k]
  {
    if k in d.entries then Dict(d.keys, d.entries[k := v])
    else Dict(d.keys + [k], d.entries[k := v])
  }

  /** `d[k]`, a KeyError when absent. */
  function Get<K(!new), V>(d: Dict<K, V>, k: K): (r: Result<V>)
    ensures r.Ok? <==> k in d.entries
    ensures r.Ok? ==> r.value == d.entries[k]
  {
    if k in d.entries then Ok(d.entries[k]) else Err(KeyError)
  }

  /** `del d[k]` when present. */
  function Remove<K(!new), V>(d: Dict<K, V>, k: K): (r: Dict<K, V>)
    requires d.Valid()
    ensures r.Valid()
    ensures r.entries == d.entries - {k}
  {
    Dict(RemoveKey(d.keys, k), d.entries - {k})
  }

  function RemoveKey<K(==, !new)>(ks: seq<K>, k: K): (r: seq<K>)
    ensures forall x :: x in r <==> x in ks && x != k
    ensures (forall i, j :: 0 <= i < j < |ks| ==> ks[i] != ks[j]) ==>
            (forall i, j :: 0 <= i < j < |r| ==> r[i] != r[j])
  {
    if ks == [] then []
    else if ks[0] == k then RemoveKey(ks[1..], k)
    else
      var rest := RemoveKey(ks[1..], k);
      assert (forall i, j :: 0 <= i < j < |ks| ==> ks[i] != ks[j]) ==> ks[0] !in ks[1..];
      [ks[0]] + rest
  }

  /** `list(d.values())` */
  function ValueList<K(!new), V>(d: Dict<K, V>): (r: seq<V>)
    requires d.Valid()
    ensures |r| == |d.keys|
    ensures forall i :: 0 <= i < |d.keys| ==> r[i] == d.entries[d.keys[i]]
  {
    seq(|d.keys|, i requires 0 <= i < |d.keys| => d.entries[d.keys[i]])
  }

  /** The first components of `pairs`, in order. */
  function Firsts<K(!new), V>(pairs: seq<(K, V)>): (ks: seq<K>)
    ensures |ks| == |pairs|
    ensures forall i :: 0 <= i < |pairs| ==> ks[i] == pairs[i].0
  {
    seq(|pairs|, i requires 0 <= i < |pairs| => pairs[i].0)
  }

  /** `dict(pairs)`: a later pair overwrites the value of an earlier equal
      key but not its position. */
  function FromPairs<K(!new), V>(pairs: seq<(K, V)>): (d: Dict<K, V>)
    ensures d.Valid()
    ensures forall k :: k in d.entries <==> k in Firsts(pairs)
  {
    if pairs == [] then Empty()
    else
      var init := pairs[..|pairs| - 1];
      var last := pairs[|pairs| - 1];
      assert Firsts(pairs) == Firsts(init) + [last.0];
      Put(FromPairs(init), last.0, last.1)
  }

  /** When the keys of `pairs` are distinct, `dict(pairs)` keeps them in order
      and maps each to its own value. */
  lemma {:induction false} FromDistinctPairs<K(!new), V>(pairs: seq<(K, V)>)
    requires forall i, j :: 0 <= i < j < |pairs| ==> pairs[i].0 != pairs[j].0
    ensures FromPairs(pairs).keys == Firsts(pairs)
    ensures forall i :: 0 <= i < |pairs| ==> FromPairs(pairs).entries[pairs[i].0] == pairs[i].1
  {
    if pairs != [] {
      var init := pairs[..|pairs| - 1];
      DistinctPrefix(pairs, init);
      FromDistinctPairs(init);
      FromPairsSnoc(pairs);
      FirstsSnoc(pairs);
      DistinctStep(pairs, init, FromPairs(init), FromPairs(pairs));
    }
  }

  lemma DistinctPrefix<K(!new), V>(pairs: seq<(K, V)>, init: seq<(K, V)>)
    requires pairs != [] && init == pairs[..|pairs| - 1]
    requires forall i, j :: 0 <= i < j < |pairs| ==> pairs[i].0 != pairs[j].0
    ensures forall i, j :: 0 <= i < j < |init| ==> init[i].0 != init[j].0
  {
    assert forall i :: 0 <= i < |init| ==> init[i] == pairs[i];
  }

  /** The last step of `dict(pairs)` when its key is new. */
  lemma DistinctStep<K(!new), V>(pairs: seq<(K, V)>, init: seq<(K, V)>, d0: Dict<K, V>, d: Dict<K, V>)
    requires pairs != [] && init == pairs[..|pairs| - 1]
    requires forall i, j :: 0 <= i < j < |pairs| ==> pairs[i].0 != pairs[j].0
    requires d0.Valid() && d0.keys == Firsts(init)
    requires forall i :: 0 <= i < |init| ==> d0.entries[init[i].0] == init[i].1
    requires Firsts(pairs) == Firsts(init) + [pairs[|pairs| - 1].0]
    requires d == Put(d0, pairs[|pairs| - 1].0, pairs[|pairs| - 1].1)
    ensures d.keys == Firsts(pairs)
    ensures forall i :: 0 <= i < |pairs| ==> d.entries[pairs[i].0] == pairs[i].1
  {
    var last := pairs[|pairs| - 1];
    forall i | 0 <= i < |init| ensures d0.keys[i] != last.0 && init[i] == pairs[i] {
      assert init[i] == pairs[i];
    }
    assert last.0 !in d0.entries;
    forall i | 0 <= i < |pairs| ensures d.entries[pairs[i].0] == pairs[i].1 {
      if i < |init| {
        assert init[i] == pairs[i];
      }
    }
  }

  lemma FromPairsSnoc<K(!new), V>(pairs: seq<(K, V)>)
    requires pairs != []
    ensures FromPairs(pairs) == Put(FromPairs(pairs[..|pairs| - 1]), pairs[|pairs| - 1].0, pairs[|pairs| - 1].1)
  {
  }

  lemma FirstsSnoc<K(!new), V>(pairs: seq<(K, V)>)
    requires pairs != []
    ensures Firsts(pairs) == Firsts(pairs[..|pairs| - 1]) + [pairs[|pairs| - 1].0]
  {
    var a, b := Firsts(pairs), Firsts(pairs[..|pairs| - 1]) + [pairs[|pairs| - 1].0];
    assert |a| == |b|;
    forall i | 0 <= i < |a| ensures a[i] == b[i] {
      if i < |pairs| - 1 {
        assert pairs[..|pairs| - 1][i] == pairs[i];
      }
    }
  }

  /** A dict is rebuilt by `dict(zip(d.keys(), d.values()))`. */
  lemma FromOwnPairs<K(!new), V>(d: Dict<K, V>, pairs: seq<(K, V)>)
    requires d.Valid()
    requires |pairs| == |d.keys|
    requires forall i :: 0 <= i < |pairs| ==> pairs[i] == (d.keys[i], d.entries[d.keys[i]])
    ensures FromPairs(pairs) == d
  {
    assert forall i, j :: 0 <= i < j < |pairs| ==> pairs[i].0 != pairs[j].0 by {
      assert forall i :: 0 <= i < |pairs| ==> pairs[i].0 == d.keys[i];
    }
    FromDistinctPairs(pairs);
    RebuiltIs(d, pairs, FromPairs(pairs));
  }

  /** A valid dict whose keys are those of `d`'s own pairs, each mapped to
      its pair's value, is `d`. */
  lemma RebuiltIs<K(!new), V>(d: Dict<K, V>, pairs: seq<(K, V)>, e: Dict<K, V>)
    requires d.Valid() && e.Valid()
    requires |pairs| == |d.keys|
    requires forall i :: 0 <= i < |pairs| ==> pairs[i] == (d.keys[i], d.entries[d.keys[i]])
    requires e.keys == Firsts(pairs)
    requires forall i :: 0 <= i < |pairs| ==> e.entries[pairs[i].0] == pairs[i].1
    ensures e == d
  {
    assert e.keys == d.keys;
    forall k | k in d.entries
      ensures k in e.entries && e.entries[k] == d.entries[k]
    {
      var i :| 0 <= i < |d.keys| && d.keys[i] == k;
      assert pairs[i].0 == k;
    }
  }
}
