/** Python dictionaries: insertion ordered, and assigning to a key that is already present
    replaces its value where it stands. A dictionary is its list of (key, value) entries. */
module Dicts {

  import opened Results

  type Dict<K, V> = seq<(K, V)>

  function Keys<K(==), V>(d: Dict<K, V>): (ks: seq<K>)
    ensures |ks| == |d| && forall i :: 0 <= i < |d| ==> ks[i] == d[i].0
  {
    if |d| == 0 then [] else Keys(d[..|d| - 1]) + [d[|d| - 1].0]
  }

  /** No key occurs twice, as in every Python dictionary. */
  predicate Wellformed<K(==), V>(d: Dict<K, V>)
  {
    forall i, j :: 0 <= i < j < |d| ==> d[i].0 != d[j].0
  }

  /** `k in d` */
  predicate HasKey<K(==), V>(d: Dict<K, V>, k: K)
  {
    exists i :: 0 <= i < |d| && d[i].0 == k
  }

  /** The position of a present key. */
  function IndexOf<K(==), V>(d: Dict<K, V>, k: K): (i: nat)
    requires HasKey(d, k)
    ensures i < |d| && d[i].0 == k
    ensures forall j :: 0 <= j < i ==> d[j].0 != k
  {
    if d[0].0 == k then 0 else 1 + IndexOf(d[1..], k)
  }

  /** `d.get(k)` */
  function Get<K(==), V>(d: Dict<K, V>, k: K): (r: Option<V>)
    ensures r.Some? <==> HasKey(d, k)
    ensures r.Some? && Wellformed(d) ==> forall i :: 0 <= i < |d| && d[i].0 == k ==> d[i].1 == r.value
  {
    if HasKey(d, k) then Some(d[IndexOf(d, k)].1) else None
  }

  /** `d[k] = v`: a present key keeps its place and takes the new value; a new key goes last. */
  function Put<K(==), V>(d: Dict<K, V>, k: K, v: V): Dict<K, V>
  {
    if HasKey(d, k) then d[IndexOf(d, k) := (k, v)] else d + [(k, v)]
  }

  /** `Put` keeps a dictionary well formed, maps `k` to `v` and leaves every other key alone. */
  lemma {:induction false} PutSpec<K, V>(d: Dict<K, V>, k: K, v: V)
    requires Wellformed(d)
    ensures Wellformed(Put(d, k, v))
    ensures Get(Put(d, k, v), k) == Some(v)
    ensures forall k' :: k' != k ==> Get(Put(d, k, v), k') == Get(d, k')
    ensures Keys(Put(d, k, v)) == if HasKey(d, k) then Keys(d) else Keys(d) + [k]
  {
    var r := Put(d, k, v);
    forall k' | k' != k ensures Get(r, k') == Get(d, k') {
      if HasKey(d, k') {
        var i := IndexOf(d, k');
        assert r[i] == d[i];
      } else {
        assert forall i :: 0 <= i < |r| ==> r[i].0 == k || (i < |d| && r[i] == d[i]);
      }
    }
    assert HasKey(r, k) by {
      if HasKey(d, k) { assert r[IndexOf(d, k)].0 == k; } else { assert r[|d|].0 == k; }
    }
  }

  /** Appending a new key maps it to its value and leaves the key `other` alone. */
  lemma {:induction false} GetAppendNew<K, V>(d: Dict<K, V>, k: K, v: V, other: K)
    requires Wellformed(d) && !HasKey(d, k)
    ensures Get(d + [(k, v)], k) == Some(v)
    ensures other != k ==> Get(d + [(k, v)], other) == Get(d, other)
  {
    PutSpec(d, k, v);
    assert Put(d, k, v) == d + [(k, v)];
  }

  /** After `d[k] = v` the keys are the old keys and `k`. */
  lemma {:induction false} PutKeys<K, V>(d: Dict<K, V>, k: K, v: V)
    ensures forall k' :: HasKey(Put(d, k, v), k') <==> HasKey(d, k') || k' == k
  {
    var r := Put(d, k, v);
    if HasKey(d, k) {
      forall k' ensures HasKey(r, k') <==> HasKey(d, k') {
        if HasKey(d, k') {
          var i :| 0 <= i < |d| && d[i].0 == k';
          assert r[i].0 == k';
        }
        if HasKey(r, k') {
          var i :| 0 <= i < |r| && r[i].0 == k';
          assert d[i].0 == k';
        }
      }
    } else {
      assert r[|d|].0 == k;
      forall k' | HasKey(r, k') && k' != k ensures HasKey(d, k') {
        var i :| 0 <= i < |r| && r[i].0 == k';
        assert d[i].0 == k';
      }
      forall k' | HasKey(d, k') ensures HasKey(r, k') {
        var i :| 0 <= i < |d| && d[i].0 == k';
        assert r[i].0 == k';
      }
    }
  }
}
