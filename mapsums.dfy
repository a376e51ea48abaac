/**
 The sum of the values of a map. Go ranges over a map in an unspecified order;
 `SumRemove` shows that peeling off any key gives the same total, so a loop may
 take the keys in whatever order it likes.
 */
module MapSums {

  ghost function Sum<K>(m: map<K, real>): real
    decreases |m|
  {
    if m == map[] then 0.0
    else
      var k :| k in m;
      m[k] + Sum(m - {k})
  }

  /** The value of `m` at `k`, and 0 where Go's zero value would be read. */
  function Get<K>(m: map<K, real>, k: K): real
  {
    if k in m then m[k] else 0.0
  }

  lemma {:induction false} SumRemove<K>(m: map<K, real>, k: K)
    requires k in m
    ensures Sum(m) == m[k] + Sum(m - {k})
    decreases |m|
  {
    var j :| j in m && Sum(m) == m[j] + Sum(m - {j});
    if j != k {
      var mj, mk := m - {j}, m - {k};
      SumRemove(mj, k);
      SumRemove(mk, j);
      assert mj - {k} == mk - {j};
    }
  }

  /** Writing `v` at `k` moves the sum by the difference with what was there. */
  lemma SumUpdate<K>(m: map<K, real>, k: K, v: real)
    ensures Sum(m[k := v]) == Sum(m) - Get(m, k) + v
  {
    var m' := m[k := v];
    SumRemove(m', k);
    assert m' - {k} == m - {k};
    if k in m {
      SumRemove(m, k);
    } else {
      assert m - {k} == m;
    }
  }

  lemma {:induction false} SumNonNegative<K>(m: map<K, real>)
    requires forall k :: k in m ==> m[k] >= 0.0
    ensures Sum(m) >= 0.0
    decreases |m|
  {
    if m != map[] {
      var k :| k in m;
      SumRemove(m, k);
      SumNonNegative(m - {k});
    }
  }

  /** With no negative values, every value is bounded by the sum. */
  lemma ValueAtMostSum<K>(m: map<K, real>, k: K)
    requires forall j :: j in m ==> m[j] >= 0.0
    requires k in m
    ensures m[k] <= Sum(m)
  {
    SumRemove(m, k);
    SumNonNegative(m - {k});
  }

  /** Division distributes over a sum; kept apart so that nonlinear arithmetic stays out of larger proofs. */
  lemma DivideAdd(a: real, b: real, t: real)
    requires t != 0.0
    ensures a / t + b / t == (a + b) / t
  {
  }

  /** Dividing every value by `t` divides the sum by `t`. */
  lemma {:induction false} SumDivide<K>(m: map<K, real>, t: real)
    requires t != 0.0
    ensures Sum(map k | k in m :: m[k] / t) == Sum(m) / t
    decreases |m|
  {
    var d := map k | k in m :: m[k] / t;
    if m != map[] {
      var k :| k in m;
      SumRemove(m, k);
      SumRemove(d, k);
      var rest := m - {k};
      assert d - {k} == map j | j in rest :: rest[j] / t;
      SumDivide(rest, t);
      DivideAdd(m[k], Sum(rest), t);
    } else {
      assert d == map[];
    }
  }
}
