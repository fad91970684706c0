/** Sums over the values of a finite map, as SQL's SUM computes them. */
module Totals {

  ghost function Total<K>(m: map<K, nat>): nat {
    if m == map[] then 0
    else
      var k :| k in m;
      m[k] + Total(m - {k})
  }

  lemma {:induction false} TotalWithout<K>(m: map<K, nat>, k: K)
    requires k in m
    ensures Total(m) == m[k] + Total(m - {k})
    decreases |m|
  {
    var p :| p in m && Total(m) == m[p] + Total(m - {p});
    if p != k {
      TotalWithout(m - {p}, k);
      TotalWithout(m - {k}, p);
      assert m - {p} - {k} == m - {k} - {p};
    }
  }

  lemma TotalInsert<K>(m: map<K, nat>, k: K, v: nat)
    requires k !in m
    ensures Total(m[k := v]) == Total(m) + v
  {
    TotalWithout(m[k := v], k);
    assert m[k := v] - {k} == m;
  }

  /** Removing rows takes away exactly the sum of the removed rows. */
  lemma {:induction false} TotalSplit<K>(m: map<K, nat>, gone: set<K>)
    ensures Total(m) == Total(m - gone) + Total(map k | k in m && k in gone :: m[k])
    decreases gone
  {
    var dropped := map k | k in m && k in gone :: m[k];
    if gone == {} {
      assert m - gone == m && dropped == map[];
    } else {
      var k :| k in gone;
      var rest := gone - {k};
      var fewer := map x | x in m && x in rest :: m[x];
      TotalSplit(m, rest);
      if k in m {
        TotalWithout(m - rest, k);
        assert m - rest - {k} == m - gone;
        TotalInsert(fewer, k, m[k]);
        assert fewer[k := m[k]] == dropped;
      } else {
        assert m - gone == m - rest && fewer == dropped;
      }
    }
  }

  lemma TotalOfPart<K>(part: map<K, nat>, m: map<K, nat>)
    requires part.Keys <= m.Keys && forall k :: k in part ==> part[k] == m[k]
    ensures Total(part) <= Total(m)
  {
    TotalSplit(m, m.Keys - part.Keys);
    assert m - (m.Keys - part.Keys) == part;
  }

  lemma {:induction false} TotalAtMost<K>(a: map<K, nat>, b: map<K, nat>)
    requires a.Keys == b.Keys && forall k :: k in a ==> a[k] <= b[k]
    ensures Total(a) <= Total(b)
    decreases |a|
  {
    if a == map[] {
      assert b == map[];
    } else {
      var k :| k in a;
      TotalWithout(a, k);
      TotalWithout(b, k);
      TotalAtMost(a - {k}, b - {k});
    }
  }

  lemma TotalLess<K>(a: map<K, nat>, b: map<K, nat>, k: K)
    requires a.Keys == b.Keys && k in a && a[k] < b[k] && forall x :: x in a ==> a[x] <= b[x]
    ensures Total(a) < Total(b)
  {
    TotalWithout(a, k);
    TotalWithout(b, k);
    TotalAtMost(a - {k}, b - {k});
  }

  method Sum<K(==)>(m: map<K, nat>) returns (total: nat)
    ensures total == Total(m)
  {
    total := 0;
    var left := m;
    while left != map[]
      invariant total + Total(left) == Total(m)
      decreases |left|
    {
      var k :| k in left;
      TotalWithout(left, k);
      total := total + left[k];
      left := left - {k};
    }
  }
}
