/** Sums over sequences and over the values of a map, the accumulator loops
    the solvers use. A map's sum does not depend on the order its entries are
    visited in. */
module Sums {
  import Text

  function Sum(xs: seq<int>): int
  {
    if xs == [] then 0 else Sum(xs[..|xs| - 1]) + xs[|xs| - 1]
  }

  lemma {:induction false} SumSnoc(xs: seq<int>, x: int)
    ensures Sum(xs + [x]) == Sum(xs) + x
  {
    assert (xs + [x])[..|xs|] == xs;
  }

  lemma {:induction false} SumAppend(a: seq<int>, b: seq<int>)
    ensures Sum(a + b) == Sum(a) + Sum(b)
    decreases |b|
  {
    if b != [] {
      SumAppend(a, b[..|b| - 1]);
      assert (a + b)[..|a + b| - 1] == a + b[..|b| - 1];
    } else {
      assert a + b == a;
    }
  }

  /** Adding two sequences term by term adds their sums. */
  lemma {:induction false} SumPointwise(a: seq<int>, b: seq<int>, c: seq<int>)
    requires |a| == |b| == |c|
    requires forall i :: 0 <= i < |c| ==> c[i] == a[i] + b[i]
    ensures Sum(c) == Sum(a) + Sum(b)
    decreases |c|
  {
    if c != [] {
      var n := |c| - 1;
      SumPointwise(a[..n], b[..n], c[..n]);
    }
  }

  /** Negating every term negates the sum. */
  lemma {:induction false} SumNegate(a: seq<int>, b: seq<int>)
    requires |a| == |b|
    requires forall i :: 0 <= i < |b| ==> b[i] == -a[i]
    ensures Sum(b) == -Sum(a)
    decreases |b|
  {
    if b != [] {
      var n := |b| - 1;
      SumNegate(a[..n], b[..n]);
    }
  }

  /** The order of the terms does not change the sum. */
  lemma {:induction false} SumReverse(xs: seq<int>)
    ensures Sum(Text.Reverse(xs)) == Sum(xs)
    decreases |xs|
  {
    if xs != [] {
      var n := |xs| - 1;
      SumReverse(xs[..n]);
      assert Text.Reverse(xs) == [xs[n]] + Text.Reverse(xs[..n]);
      SumAppend([xs[n]], Text.Reverse(xs[..n]));
      assert Sum([xs[n]]) == xs[n] by {
        assert [xs[n]][..0] == [];
      }
    }
  }

  /** A sum of terms that are never negative is never negative, and it is 0
      exactly when every term is. */
  lemma {:induction false} SumNonNegative(xs: seq<int>)
    requires forall i :: 0 <= i < |xs| ==> xs[i] >= 0
    ensures Sum(xs) >= 0
    ensures Sum(xs) == 0 <==> forall i :: 0 <= i < |xs| ==> xs[i] == 0
    decreases |xs|
  {
    if xs != [] {
      var front := xs[..|xs| - 1];
      assert forall i :: 0 <= i < |front| ==> front[i] == xs[i];
      SumNonNegative(front);
    }
  }

  /** The sum of a map's values, taking the entries in any order. */
  ghost function SumValues<K>(m: map<K, int>): int
    decreases m.Keys
  {
    if m == map[] then 0
    else
      var k :| k in m;
      m[k] + SumValues(m - {k})
  }

  /** Any entry can be taken first. */
  lemma {:induction false} SumValuesRemove<K>(m: map<K, int>, k: K)
    requires k in m
    ensures SumValues(m) == m[k] + SumValues(m - {k})
    decreases m.Keys
  {
    SumValuesFirst(m);
    var j :| j in m && SumValues(m) == m[j] + SumValues(m - {j});
    if j != k {
      var mj, mk := m - {j}, m - {k};
      var rest := mj - {k};
      assert SumValues(mj) == m[k] + SumValues(rest) by {
        SumValuesRemove(mj, k);
      }
      assert SumValues(mk) == m[j] + SumValues(rest) by {
        SumValuesRemove(mk, j);
        RemoveTwo(m, j, k);
      }
    }
  }

  /** A map of non-negative values has a non-negative sum. */
  lemma {:induction false} SumValuesNonNegative<K>(m: map<K, int>)
    requires forall k :: k in m ==> m[k] >= 0
    ensures SumValues(m) >= 0
    decreases m.Keys
  {
    if m != map[] {
      var k :| k in m;
      SumValuesRemove(m, k);
      SumValuesNonNegative(m - {k});
    }
  }

  lemma {:induction false} SumValuesFirst<K>(m: map<K, int>)
    requires m != map[]
    ensures exists j :: j in m && SumValues(m) == m[j] + SumValues(m - {j})
  {
  }

  lemma {:induction false} RemoveTwo<K>(m: map<K, int>, j: K, k: K)
    ensures (m - {j}) - {k} == (m - {k}) - {j}
  {
  }

  /** Replacing or adding one entry changes the sum by the difference. */
  lemma {:induction false} SumValuesUpdate<K>(m: map<K, int>, k: K, v: int)
    ensures SumValues(m[k := v]) == SumValues(m) + v - (if k in m then m[k] else 0)
  {
    SumValuesRemove(m[k := v], k);
    if k in m {
      SumValuesRemove(m, k);
      assert m[k := v] - {k} == m - {k};
    } else {
      assert m[k := v] - {k} == m;
    }
  }

  /** A map whose values are all zero sums to zero. */
  lemma {:induction false} SumValuesZero<K>(m: map<K, int>)
    requires forall k :: k in m ==> m[k] == 0
    ensures SumValues(m) == 0
    decreases m.Keys
  {
    if m != map[] {
      var k :| k in m;
      SumValuesRemove(m, k);
      SumValuesZero(m - {k});
    }
  }

  /** A non-empty set has an element, the witness every `:|` over a set or
      a map's keys needs. */
  lemma {:induction false} HasElement<T>(s: set<T>) returns (x: T)
    requires s != {}
    ensures x in s
  {
    if forall y :: y !in s {
      assert false;
    }
    x :| x in s;
  }
}
