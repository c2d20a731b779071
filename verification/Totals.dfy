/** Sums over the values of a finite map. */
module Totals {

  ghost function Total(m: map<string, nat>): nat
    decreases |m|
  {
    if m == map[] then 0 else
      var k :| k in m;
      m[k] + Total(m - {k})
  }

  lemma {:induction false} TotalPick(m: map<string, nat>, k: string)
    requires k in m
    ensures Total(m) == m[k] + Total(m - {k})
    decreases |m|
  {
    var k' :| k' in m && Total(m) == m[k'] + Total(m - {k'});
    if k' != k {
      TotalPick(m - {k'}, k);
      TotalPick(m - {k}, k');
      assert m - {k'} - {k} == m - {k} - {k'};
    }
  }

  lemma {:induction false} TotalMonotone(m: map<string, nat>, n: map<string, nat>)
    requires m.Keys == n.Keys && forall k :: k in m ==> m[k] <= n[k]
    ensures Total(m) <= Total(n)
    ensures (exists k :: k in m && m[k] < n[k]) ==> Total(m) < Total(n)
    decreases |m|
  {
    if m != map[] {
      var k: string :| k in m && ((exists j :: j in m && m[j] < n[j]) ==> m[k] < n[k]);
      TotalPick(m, k);
      TotalPick(n, k);
      TotalMonotone(m - {k}, n - {k});
    } else {
      assert n == map[];
    }
  }

  lemma {:induction false} TotalZero(m: map<string, nat>)
    requires forall k :: k in m ==> m[k] == 0
    ensures Total(m) == 0
    decreases |m|
  {
    if m != map[] {
      var k :| k in m && Total(m) == m[k] + Total(m - {k});
      TotalZero(m - {k});
    }
  }

  /** Raising one value by one raises the sum by one. */
  lemma TotalBump(m: map<string, nat>, k: string)
    requires k in m
    ensures Total(m[k := m[k] + 1]) == Total(m) + 1
  {
    var n := m[k := m[k] + 1];
    TotalPick(m, k);
    TotalPick(n, k);
    assert n - {k} == m - {k};
  }
}
