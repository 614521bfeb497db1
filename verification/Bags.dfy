/** The multiset of all entries of a map of lists, however the map is iterated. */
module Bags {

  ghost function Bag<K, V>(m: map<K, seq<V>>): multiset<V>
    decreases m.Keys
  {
    if m == map[] then multiset{}
    else var k :| k in m; multiset(m[k]) + Bag(m - {k})
  }

  /** Any key can be taken out first. */
  lemma {:induction false} BagWithout<K, V>(m: map<K, seq<V>>, k: K)
    requires k in m
    ensures Bag(m) == multiset(m[k]) + Bag(m - {k})
    decreases m.Keys
  {
    var j :| j in m && Bag(m) == multiset(m[j]) + Bag(m - {j});
    if j != k {
      BagWithout(m - {j}, k);
      BagWithout(m - {k}, j);
      assert m - {j} - {k} == m - {k} - {j};
    }
  }

  lemma BagWith<K, V>(m: map<K, seq<V>>, k: K, vs: seq<V>)
    requires k !in m
    ensures Bag(m[k := vs]) == Bag(m) + multiset(vs)
  {
    BagWithout(m[k := vs], k);
    assert m[k := vs] - {k} == m;
  }

  lemma {:induction false} InBag<K, V>(m: map<K, seq<V>>, v: V)
    ensures v in Bag(m) <==> exists k | k in m :: v in m[k]
    decreases m.Keys
  {
    if m != map[] {
      var k :| k in m;
      BagWithout(m, k);
      var rest := m - {k};
      InBag(rest, v);
      assert v in multiset(m[k]) <==> v in m[k];
      if j :| j in m && v in m[j] {
        assert j == k || (j in rest && v in rest[j]);
      }
      if j :| j in rest && v in rest[j] {
        assert v in m[j];
      }
    }
  }
}
