/** Totals of finite integer records (`Object.values(r).reduce(...)`). */
module Totals {
  function Get(m: map<string, int>, k: string): int {
    if k in m then m[k] else 0
  }

  ghost function SumOf(m: map<string, int>): int {
    if m == map[] then 0
    else
      var k :| k in m;
      m[k] + SumOf(m - {k})
  }

  lemma {:induction false} SumRemove(m: map<string, int>, k: string)
    requires k in m
    ensures SumOf(m) == m[k] + SumOf(m - {k})
    decreases |m|
  {
    var c :| c in m && SumOf(m) == m[c] + SumOf(m - {c});
    if c != k {
      SumRemove(m - {c}, k);
      SumRemove(m - {k}, c);
      assert m - {c} - {k} == m - {k} - {c};
    }
  }

  lemma {:induction false} SumUpdate(m: map<string, int>, k: string, v: int)
    ensures SumOf(m[k := v]) == SumOf(m) - Get(m, k) + v
  {
    SumRemove(m[k := v], k);
    if k in m {
      SumRemove(m, k);
      assert m[k := v] - {k} == m - {k};
    } else {
      assert m[k := v] - {k} == m;
    }
  }

  method Total(m: map<string, int>) returns (t: int)
    ensures t == SumOf(m)
  {
    t := 0;
    var left := m;
    while left != map[]
      invariant t + SumOf(left) == SumOf(m)
      decreases |left|
    {
      var k :| k in left;
      SumRemove(left, k);
      t := t + left[k];
      left := left - {k};
    }
  }
}
