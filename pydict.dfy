/**
 * Python's `dict`: a key-to-value map that remembers the order in which keys
 * were first inserted. Assigning to a key that is already present replaces its
 * value and keeps its position; assigning to a new key appends it.
 */
module PyDict {
  import opened Wrappers

  /** No element occurs twice. */
  ghost predicate Distinct<T>(s: seq<T>)
  {
    forall i, j :: 0 <= i < j < |s| ==> s[i] != s[j]
  }

  /** The executable test for `Distinct`. */
  function AllDistinct<T(==)>(s: seq<T>): (b: bool)
    ensures b <==> Distinct(s)
  {
    if s == [] then true
    else
      var init := s[..|s| - 1];
      assert forall i :: 0 <= i < |init| ==> init[i] == s[i];
      s[|s| - 1] !in init && AllDistinct(init)
  }

  datatype Dict<K(!new), V> = Dict(keys: seq<K>, entries: map<K, V>)
  {
    /** The key order lists every key of the map exactly once. */
    ghost predicate Valid()
    {
      Distinct(keys) && forall k :: k in entries <==> k in keys
    }
  }

  /** `{}` */
  function Empty<K(!new), V>(): (d: Dict<K, V>)
    ensures d.Valid() && d.keys == [] && d.entries == map[]
  {
    Dict([], map[])
  }

  /** `d[k] = v` */
  function Put<K(!new), V>(d: Dict<K, V>, k: K, v: V): (r: Dict<K, V>)
    requires d.Valid()
    ensures r.Valid()
    ensures k in r.entries && r.entries[k] == v
    ensures forall j :: j != k ==> (j in r.entries <==> j in d.entries)
    ensures forall j :: j in d.entries && j != k ==> r.entries[j] == d.entries[j]
    ensures k in d.entries ==> r.keys == d.keys
    ensures k !in d.entries ==> r.keys == d.keys + [k]
  {
    if k in d.entries then Dict(d.keys, d.entries[k := v])
    else Dict(d.keys + [k], d.entries[k := v])
  }

  /** `d.get(k)` */
  function Get<K(!new), V>(d: Dict<K, V>, k: K): (r: Option<V>)
    ensures r.Some? <==> k in d.entries
    ensures r.Some? ==> r.value == d.entries[k]
  {
    if k in d.entries then Some(d.entries[k]) else None
  }

  /** Reading back after `d[k] = v`: `k` gives `v` and every other key gives
      what it gave before. */
  lemma GetAfterPut<K(!new), V>(d: Dict<K, V>, k: K, v: V, j: K)
    requires d.Valid()
    ensures Get(Put(d, k, v), k) == Some(v)
    ensures j != k ==> Get(Put(d, k, v), j) == Get(d, j)
  {
  }

  /** `dict(pairs)`: the pairs inserted one after the other, so a later pair
      with a repeated key overwrites the value but not the position. */
  function FromPairs<K(!new), V>(pairs: seq<(K, V)>): (d: Dict<K, V>)
    ensures d.Valid()
  {
    if pairs == [] then Empty()
    else Put(FromPairs(pairs[..|pairs| - 1]), pairs[|pairs| - 1].0, pairs[|pairs| - 1].1)
  }

  /** The first components of a sequence of pairs. */
  function Firsts<K, V>(pairs: seq<(K, V)>): (ks: seq<K>)
    ensures |ks| == |pairs| && forall i :: 0 <= i < |pairs| ==> ks[i] == pairs[i].0
  {
    seq(|pairs|, i requires 0 <= i < |pairs| => pairs[i].0)
  }

  /** With distinct keys, `dict(pairs)` keeps every pair, in order. */
  lemma DistinctPrefix<T>(s: seq<T>, n: nat)
    requires Distinct(s) && n <= |s|
    ensures Distinct(s[..n])
  {
    forall i, j | 0 <= i < j < n ensures s[..n][i] != s[..n][j] {
      assert s[..n][i] == s[i] && s[..n][j] == s[j];
    }
  }

  lemma FirstsPrefix<K, V>(pairs: seq<(K, V)>, n: nat)
    requires n <= |pairs|
    ensures Firsts(pairs[..n]) == Firsts(pairs)[..n]
  {
    forall i | 0 <= i < n ensures Firsts(pairs[..n])[i] == Firsts(pairs)[i] {
      assert pairs[..n][i] == pairs[i];
    }
  }

  /** Over distinct keys, the keys come out in the order of the pairs. */
  lemma {:induction false} FromPairsKeys<K(!new), V>(pairs: seq<(K, V)>)
    requires Distinct(Firsts(pairs))
    ensures FromPairs(pairs).keys == Firsts(pairs)
  {
    if pairs != [] {
      var n := |pairs| - 1;
      var ks := Firsts(pairs);
      FirstsPrefix(pairs, n);
      DistinctPrefix(ks, n);
      FromPairsKeys(pairs[..n]);
      assert ks[n] !in ks[..n] by {
        forall i | 0 <= i < n ensures ks[..n][i] != ks[n] {
          assert ks[..n][i] == ks[i];
        }
      }
      assert ks == ks[..n] + [ks[n]];
    }
  }

  /** Over distinct keys, each pair's value is kept. */
  lemma {:induction false} FromPairsValue<K(!new), V>(pairs: seq<(K, V)>, i: nat)
    requires Distinct(Firsts(pairs)) && i < |pairs|
    ensures pairs[i].0 in FromPairs(pairs).entries && FromPairs(pairs).entries[pairs[i].0] == pairs[i].1
  {
    var n := |pairs| - 1;
    if i < n {
      var ks := Firsts(pairs);
      FirstsPrefix(pairs, n);
      DistinctPrefix(ks, n);
      FromPairsValue(pairs[..n], i);
      assert pairs[..n][i] == pairs[i];
      assert ks[i] != ks[n];
    }
  }

  /** Building a dict from pairs with distinct keys keeps their order and
      every value. */
  lemma FromDistinctPairs<K(!new), V>(pairs: seq<(K, V)>)
    requires Distinct(Firsts(pairs))
    ensures FromPairs(pairs).keys == Firsts(pairs)
    ensures forall i :: 0 <= i < |pairs| ==> FromPairs(pairs).entries[pairs[i].0] == pairs[i].1
  {
    FromPairsKeys(pairs);
    forall i | 0 <= i < |pairs| ensures FromPairs(pairs).entries[pairs[i].0] == pairs[i].1 {
      FromPairsValue(pairs, i);
    }
  }
}
