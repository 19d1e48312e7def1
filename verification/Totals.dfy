/** SQL's sum() over one integer column, keyed by inode. */
module Totals {
  import opened Wrappers

  ghost function Total(m: map<int, int>): int
    decreases |m|
  {
    if |m| == 0 then 0
    else var k := Pick(m.Keys); m[k] + Total(m - {k})
  }

  /** Any row may be taken out of the sum first. */
  lemma {:induction false} TotalWithout(m: map<int, int>, k: int)
    requires k in m
    ensures Total(m) == m[k] + Total(m - {k})
    decreases |m|
  {
    var j := Pick(m.Keys);
    if j != k {
      TotalWithout(m - {j}, k);
      TotalWithout(m - {k}, j);
      assert m - {j} - {k} == m - {k} - {j};
    }
  }

  lemma TotalInsert(m: map<int, int>, k: int, v: int)
    requires k !in m
    ensures Total(m[k := v]) == Total(m) + v
  {
    TotalWithout(m[k := v], k);
    assert m[k := v] - {k} == m;
  }

  lemma TotalUpdate(m: map<int, int>, k: int, v: int)
    requires k in m
    ensures Total(m[k := v]) == Total(m) - m[k] + v
  {
    TotalWithout(m, k);
    TotalWithout(m[k := v], k);
    assert m[k := v] - {k} == m - {k};
  }
}
