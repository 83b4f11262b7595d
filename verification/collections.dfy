/** The two bulk writes of a stored map, and sums over maps. */
module Collections {

  /** Inserts the items in order, so a later item replaces an earlier one with the same key. */
  function PutAll<K, V>(m: map<K, V>, items: seq<(K, V)>): (r: map<K, V>) {
    if items == [] then m
    else
      var last := items[|items| - 1];
      PutAll(m, items[..|items| - 1])[last.0 := last.1]
  }

  function DropAll<K, V>(m: map<K, V>, keys: set<K>): (r: map<K, V>) {
    map k | k in m && k !in keys :: m[k]
  }

  ghost predicate IsPut<K, V>(items: seq<(K, V)>, k: K, v: V) {
    exists i :: 0 <= i < |items| && items[i] == (k, v)
  }

  predicate Mentions<K(==), V>(items: seq<(K, V)>, k: K) {
    exists i :: 0 <= i < |items| && items[i].0 == k
  }

  /** What a bulk insert leaves under one key: a value put there, or else the old value. */
  lemma {:induction false} PutAllAt<K, V>(m: map<K, V>, items: seq<(K, V)>, k: K)
    ensures k in PutAll(m, items) <==> k in m || Mentions(items, k)
    ensures Mentions(items, k) ==> IsPut(items, k, PutAll(m, items)[k])
    ensures !Mentions(items, k) && k in m ==> PutAll(m, items)[k] == m[k]
  {
    if items != [] {
      var n := |items| - 1;
      var front := items[..n];
      PutAllAt(m, front, k);
      forall i | 0 <= i < |items| && items[i].0 == k
        ensures i == n || Mentions(front, k)
      {
        if i < n { assert front[i] == items[i]; }
      }
      if items[n].0 == k {
        assert items[n] == (k, PutAll(m, items)[k]);
      } else if Mentions(front, k) {
        var v := PutAll(m, front)[k];
        var i :| 0 <= i < |front| && front[i] == (k, v);
        assert items[i] == (k, v);
      }
    }
  }

  /** Of the items with one key the last stays. */
  lemma {:induction false} PutAllLast<K, V>(m: map<K, V>, items: seq<(K, V)>, i: nat)
    requires i < |items| && forall j :: i < j < |items| ==> items[j].0 != items[i].0
    ensures items[i].0 in PutAll(m, items) && PutAll(m, items)[items[i].0] == items[i].1
  {
    if i < |items| - 1 { PutAllLast(m, items[..|items| - 1], i); }
  }

  /** The sum of the values of a map. */
  ghost function Sum<K(!new)>(m: map<K, nat>): (s: nat)
    decreases |m|
  {
    if m == map[] then 0
    else
      var k :| k in m;
      assert m.Keys - {k} == (m - {k}).Keys;
      m[k] + Sum(m - {k})
  }

  /** The sum does not depend on the order in which the keys are taken. */
  lemma {:induction false} SumAt<K(!new)>(m: map<K, nat>, k: K)
    requires k in m
    ensures Sum(m) == m[k] + Sum(m - {k})
    decreases |m|
  {
    var j :| j in m && Sum(m) == m[j] + Sum(m - {j});
    if j != k {
      assert (m - {j}).Keys == m.Keys - {j} && (m - {k}).Keys == m.Keys - {k};
      SumAt(m - {j}, k);
      SumAt(m - {k}, j);
      assert m - {j} - {k} == m - {k} - {j};
    }
  }

  /** Changing one point changes the sum by the difference. */
  lemma SumUpdate<K(!new)>(m: map<K, nat>, k: K, v: nat)
    ensures Sum(m[k := v]) == Sum(m - {k}) + v
  {
    SumAt(m[k := v], k);
    assert m[k := v] - {k} == m - {k};
  }
}
