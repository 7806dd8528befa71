/** Small facts about sequences and maps that several components need. */
module Collections {
  /** No element occurs twice. */
  ghost predicate Distinct<T>(xs: seq<T>) {
    forall i, j :: 0 <= i < j < |xs| ==> xs[i] != xs[j]
  }

  /** A listing that has every key once. */
  ghost predicate Enumerates<T(!new)>(order: seq<T>, keys: set<T>) {
    Distinct(order) && forall k :: k in order <==> k in keys
  }

  /** Python's `min` over a dictionary's keys: a key whose value ranks no higher than any other. */
  method LeastRanked<K(==), V>(m: map<K, V>, rank: V -> real) returns (least: K)
    requires m != map[]
    ensures least in m && forall k :: k in m ==> rank(m[least]) <= rank(m[k])
  {
    least :| least in m;
    var todo := m.Keys - {least};
    while todo != {}
      invariant todo <= m.Keys && least in m
      invariant forall k :: k in m && k !in todo ==> rank(m[least]) <= rank(m[k])
      decreases todo
    {
      var k :| k in todo;
      todo := todo - {k};
      if rank(m[k]) < rank(m[least]) {
        least := k;
      }
    }
  }
}
