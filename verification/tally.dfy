/**
 The sum of the counts stored in a map, used to state that the client's key
 merge moves counts between keys without creating or losing any.
 */
module Tally {

  /** Some element of a non-empty set. */
  ghost function Pick<K>(s: set<K>): (k: K)
    requires s != {}
    ensures k in s
  {
    var k :| k in s; k
  }

  /** The sum of the values `m` gives the keys in `ks`. */
  ghost function SumOver<K>(m: map<K, int>, ks: set<K>): int
    requires ks <= m.Keys
    decreases ks
  {
    if ks == {} then 0
    else
      var k := Pick(ks);
      m[k] + SumOver(m, ks - {k})
  }

  /** The sum of all values of `m`. */
  ghost function Total<K>(m: map<K, int>): int
  {
    SumOver(m, m.Keys)
  }

  /** The value of `k`, or 0 when absent: `map[k] || 0`. */
  function Get<K>(m: map<K, int>, k: K): int
  {
    if k in m then m[k] else 0
  }

  /** Any key can be taken out of the sum first. */
  lemma {:induction false} SumOverRemove<K>(m: map<K, int>, ks: set<K>, k: K)
    requires ks <= m.Keys && k in ks
    ensures SumOver(m, ks) == m[k] + SumOver(m, ks - {k})
    decreases ks
  {
    var j := Pick(ks);
    if j != k {
      SumOverRemove(m, ks - {j}, k);
      SumOverRemove(m, ks - {k}, j);
      assert ks - {j} - {k} == ks - {k} - {j};
    }
  }

  /** The sum depends only on the values of the summed keys. */
  lemma {:induction false} SumOverFrame<K>(m1: map<K, int>, m2: map<K, int>, ks: set<K>)
    requires ks <= m1.Keys && ks <= m2.Keys
    requires forall k :: k in ks ==> m1[k] == m2[k]
    ensures SumOver(m1, ks) == SumOver(m2, ks)
    decreases ks
  {
    if ks != {} {
      var k := Pick(ks);
      SumOverFrame(m1, m2, ks - {k});
    }
  }

  /** The sum splits over any partition of the summed keys. */
  lemma {:induction false} SumOverSplit<K>(m: map<K, int>, ks: set<K>, part: set<K>)
    requires ks <= m.Keys
    ensures SumOver(m, ks) == SumOver(m, ks - part) + SumOver(m, ks * part)
    decreases ks
  {
    if ks * part == {} {
      forall x | x in ks ensures x !in part {
        assert x !in ks * part;
      }
      assert ks - part == ks;
    } else {
      var k := Pick(ks * part);
      SumOverSplit(m, ks - {k}, part);
      SumOverRemove(m, ks, k);
      SumOverRemove(m, ks * part, k);
      assert (ks - {k}) - part == ks - part;
      assert (ks - {k}) * part == ks * part - {k};
    }
  }

  /** The sum of the values of the keys in `ks`, whichever of them `m` has. */
  ghost function TotalOf<K>(m: map<K, int>, ks: set<K>): int
  {
    SumOver(m, m.Keys * ks)
  }

  /** Removing keys removes exactly their part of the total. */
  lemma TotalRemoveKeys<K>(m: map<K, int>, ks: set<K>)
    ensures Total(m) == Total(m - ks) + TotalOf(m, ks)
  {
    SumOverSplit(m, m.Keys, ks);
    assert (m - ks).Keys == m.Keys - ks;
    SumOverFrame(m, m - ks, m.Keys - ks);
  }

  /** Setting one key changes the total by the change of that key. */
  lemma TotalUpdate<K>(m: map<K, int>, k: K, v: int)
    ensures Total(m[k := v]) == Total(m) - Get(m, k) + v
  {
    var m' := m[k := v];
    SumOverRemove(m', m'.Keys, k);
    assert m'.Keys - {k} == m.Keys - {k};
    SumOverFrame(m, m', m.Keys - {k});
    if k in m {
      SumOverRemove(m, m.Keys, k);
    } else {
      assert m.Keys - {k} == m.Keys;
    }
  }

  /** Adding one more key of `m` to the summed set adds its value. */
  lemma TotalOfAdd<K>(m: map<K, int>, ks: set<K>, k: K)
    requires k in m && k !in ks
    ensures TotalOf(m, ks + {k}) == TotalOf(m, ks) + m[k]
  {
    var all := m.Keys * (ks + {k});
    SumOverRemove(m, all, k);
    assert all - {k} == m.Keys * ks;
  }

  /** Every value at least `lo`. */
  predicate AllAtLeast<K>(m: map<K, int>, lo: int)
  {
    forall k :: k in m ==> m[k] >= lo
  }

  /** A sum of values that are all at least 0 is at least 0. */
  lemma {:induction false} SumOverNonNegative<K>(m: map<K, int>, ks: set<K>)
    requires ks <= m.Keys && AllAtLeast(m, 0)
    ensures SumOver(m, ks) >= 0
    decreases ks
  {
    if ks != {} {
      SumOverNonNegative(m, ks - {Pick(ks)});
    }
  }
}
