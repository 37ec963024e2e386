/** Sums over count maps and powers of a decay factor. */
module Sums {
  import opened LinkModel

  ghost function Total(m: map<string, nat>): nat
    decreases |m|
  {
    if m == map[] then 0
    else
      var k :| k in m;
      assert |m - {k}| < |m| by { TotalRemoveSize(m, k); }
      m[k] + Total(m - {k})
  }

  lemma TotalRemoveSize(m: map<string, nat>, k: string)
    requires k in m
    ensures |m - {k}| < |m|
  {
    assert (m - {k}).Keys == m.Keys - {k};
    assert |(m - {k}).Keys| == |m.Keys| - 1;
  }

  /** The total does not depend on which entry is taken out first. */
  lemma {:induction false} TotalRemove(m: map<string, nat>, k: string)
    requires k in m
    ensures Total(m) == m[k] + Total(m - {k})
    decreases |m|
  {
    var c :| c in m && Total(m) == m[c] + Total(m - {c});
    if c != k {
      TotalRemoveSize(m, c);
      TotalRemoveSize(m, k);
      TotalRemove(m - {c}, k);
      TotalRemove(m - {k}, c);
      assert m - {c} - {k} == m - {k} - {c};
    }
  }

  lemma TotalSet(m: map<string, nat>, k: string, v: nat)
    ensures Total(m[k := v]) == Total(m) - (if k in m then m[k] else 0) + v
  {
    var m' := m[k := v];
    TotalRemove(m', k);
    assert m' - {k} == m - {k};
    if k in m {
      TotalRemove(m, k);
    } else {
      assert m - {k} == m;
    }
  }

  lemma MergeCountsPeel(a: map<string, nat>, b: map<string, nat>, k: string)
    requires k in b
    ensures MergeCounts(a, b) == MergeCounts(a, b - {k})[k := (if k in a then a[k] else 0) + b[k]]
    ensures k in MergeCounts(a, b - {k}) <==> k in a
    ensures k in a ==> MergeCounts(a, b - {k})[k] == a[k]
  {
  }

  lemma MergeOneEntry(m: map<string, nat>, m': map<string, nat>, was: nat, b: map<string, nat>, k: string)
    requires k in b && m' == m[k := was + b[k]]
    requires if k in m then m[k] == was else was == 0
    ensures Total(m') - Total(m) == Total(b) - Total(b - {k})
  {
    TotalSet(m, k, was + b[k]);
    TotalRemove(b, k);
  }

  lemma MergePeelTotal(a: map<string, nat>, b: map<string, nat>, k: string)
    requires k in b
    ensures Total(MergeCounts(a, b)) - Total(MergeCounts(a, b - {k})) == Total(b) - Total(b - {k})
  {
    var was := if k in a then a[k] else 0;
    MergeCountsPeel(a, b, k);
    MergeOneEntry(MergeCounts(a, b - {k}), MergeCounts(a, b), was, b, k);
  }

  lemma {:induction false} TotalMerge(a: map<string, nat>, b: map<string, nat>)
    ensures Total(MergeCounts(a, b)) == Total(a) + Total(b)
    decreases |b|
  {
    if b == map[] {
      assert MergeCounts(a, b) == a;
    } else {
      var k :| k in b;
      TotalRemoveSize(b, k);
      TotalMerge(a, b - {k});
      MergePeelTotal(a, b, k);
    }
  }

  lemma {:induction false} PowAdd(r: real, m: nat, n: nat)
    ensures Pow(r, m + n) == Pow(r, m) * Pow(r, n)
  {
    if m > 0 {
      PowAdd(r, m - 1, n);
    }
  }

  lemma {:induction false} PowBounds(r: real, n: nat)
    requires 0.0 < r <= 1.0
    ensures 0.0 < Pow(r, n) <= 1.0
  {
    if n > 0 {
      PowBounds(r, n - 1);
      ProductBounds(r, Pow(r, n - 1));
    }
  }

  lemma ProductBounds(x: real, y: real)
    requires 0.0 < x <= 1.0 && 0.0 < y <= 1.0
    ensures 0.0 < x * y <= 1.0
  {
    assert x * y <= 1.0 * y;
  }
}
