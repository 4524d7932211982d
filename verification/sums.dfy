// Sums over the entries of a map, independent of the order in which they are visited.
module Sums {
  ghost function Sum(m: map<string, real>): real {
    if m == map[] then 0.0
    else
      var k :| k in m;
      m[k] + Sum(m - {k})
  }

  lemma {:induction false} SumRemove(m: map<string, real>, k: string)
    requires k in m
    ensures Sum(m) == m[k] + Sum(m - {k})
    decreases |m|
  {
    var j :| j in m && Sum(m) == m[j] + Sum(m - {j});
    if j != k {
      SumRemove(m - {j}, k);
      SumRemove(m - {k}, j);
      assert m - {j} - {k} == m - {k} - {j};
    }
  }

  lemma SumAdd(m: map<string, real>, k: string, v: real)
    requires k !in m
    ensures Sum(m[k := v]) == Sum(m) + v
  {
    SumRemove(m[k := v], k);
    assert m[k := v] - {k} == m;
  }

  lemma {:induction false} SumUnion(m: map<string, real>, n: map<string, real>)
    requires m.Keys !! n.Keys
    ensures Sum(m + n) == Sum(m) + Sum(n)
    decreases n.Keys
  {
    if n == map[] {
      assert m + n == m;
    } else {
      var k :| k in n;
      var rest := n - {k};
      assert Sum(n) == n[k] + Sum(rest) by { SumRemove(n, k); }
      assert Sum(m + rest) == Sum(m) + Sum(rest) by {
        assert rest.Keys <= n.Keys && k !in rest.Keys;
        SumUnion(m, rest);
      }
      assert m + n == (m + rest)[k := n[k]];
      SumAdd(m + rest, k, n[k]);
    }
  }

  /** n times c, by adding. */
  ghost function Times(n: nat, c: real): real {
    if n == 0 then 0.0 else Times(n - 1, c) + c
  }

  lemma {:induction false} TimesIsProduct(n: nat, c: real)
    ensures Times(n, c) == n as real * c
  {
    if n > 0 {
      TimesIsProduct(n - 1, c);
      assert n as real * c == (n - 1) as real * c + c;
    }
  }

  lemma {:induction false} SumConstant(m: map<string, real>, c: real)
    requires forall k :: k in m ==> m[k] == c
    ensures Sum(m) == Times(|m|, c)
    decreases |m|
  {
    if m != map[] {
      var k :| k in m;
      SumRemove(m, k);
      SumConstant(m - {k}, c);
      assert |m - {k}| == |m| - 1;
    }
  }

  ghost function IntSum(m: map<string, int>): int {
    if m == map[] then 0
    else
      var k :| k in m;
      m[k] + IntSum(m - {k})
  }

  lemma {:induction false} IntSumRemove(m: map<string, int>, k: string)
    requires k in m
    ensures IntSum(m) == m[k] + IntSum(m - {k})
    decreases |m|
  {
    var j :| j in m && IntSum(m) == m[j] + IntSum(m - {j});
    if j != k {
      IntSumRemove(m - {j}, k);
      IntSumRemove(m - {k}, j);
      assert m - {j} - {k} == m - {k} - {j};
    }
  }

  lemma IntSumAdd(m: map<string, int>, k: string, v: int)
    requires k !in m
    ensures IntSum(m[k := v]) == IntSum(m) + v
  {
    IntSumRemove(m[k := v], k);
    assert m[k := v] - {k} == m;
  }
}
