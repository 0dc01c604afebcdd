/** Sums of finite families of multisets, the bookkeeping behind every reference-count argument. */
module Sums {

  function Sum<T>(parts: seq<multiset<T>>): multiset<T> {
    if |parts| == 0 then multiset{} else Sum(parts[..|parts| - 1]) + parts[|parts| - 1]
  }

  lemma SumSnoc<T>(parts: seq<multiset<T>>, m: multiset<T>)
    ensures Sum(parts + [m]) == Sum(parts) + m
  {
    assert (parts + [m])[..|parts|] == parts;
  }

  lemma {:induction false} SumUpdate<T>(parts: seq<multiset<T>>, k: nat, m: multiset<T>)
    requires k < |parts|
    ensures parts[k] <= Sum(parts)
    ensures Sum(parts[k := m]) == Sum(parts) - parts[k] + m
  {
    var n := |parts| - 1;
    if k < n {
      SumUpdate(parts[..n], k, m);
      assert parts[k := m][..n] == parts[..n][k := m];
    } else {
      assert parts[k := m][..n] == parts[..n];
    }
  }

  lemma {:induction false} InSum<T>(parts: seq<multiset<T>>, x: T)
    ensures x in Sum(parts) <==> exists i :: 0 <= i < |parts| && x in parts[i]
  {
    if |parts| > 0 {
      var n := |parts| - 1;
      InSum(parts[..n], x);
      assert forall i :: 0 <= i < n ==> parts[..n][i] == parts[i];
    }
  }

  /** The sum of the shares of all entries of a map. */
  ghost function Total<V, T>(m: map<nat, V>, share: V -> multiset<T>): multiset<T> {
    if m == map[] then multiset{}
    else
      var k :| k in m;
      share(m[k]) + Total(m - {k}, share)
  }

  lemma {:induction false} TotalPick<V, T>(m: map<nat, V>, share: V -> multiset<T>, k: nat)
    requires k in m
    ensures Total(m, share) == share(m[k]) + Total(m - {k}, share)
    decreases |m|
  {
    var j :| j in m && Total(m, share) == share(m[j]) + Total(m - {j}, share);
    if j != k {
      TotalPick(m - {j}, share, k);
      TotalPick(m - {k}, share, j);
      assert m - {j} - {k} == m - {k} - {j};
    }
  }

  lemma TotalAdd<V, T>(m: map<nat, V>, share: V -> multiset<T>, k: nat, v: V)
    requires k !in m
    ensures Total(m[k := v], share) == Total(m, share) + share(v)
  {
    TotalPick(m[k := v], share, k);
    assert m[k := v] - {k} == m;
  }

  lemma TotalDrop<V, T>(m: map<nat, V>, share: V -> multiset<T>, k: nat)
    requires k in m
    ensures share(m[k]) <= Total(m, share)
    ensures Total(m - {k}, share) == Total(m, share) - share(m[k])
  {
    TotalPick(m, share, k);
  }

  lemma TotalUpdate<V, T>(m: map<nat, V>, share: V -> multiset<T>, k: nat, v: V)
    requires k in m
    ensures share(m[k]) <= Total(m, share)
    ensures Total(m[k := v], share) == Total(m, share) - share(m[k]) + share(v)
  {
    TotalPick(m, share, k);
    TotalPick(m[k := v], share, k);
    assert m[k := v] - {k} == m - {k};
  }

  lemma {:induction false} InTotal<V, T>(m: map<nat, V>, share: V -> multiset<T>, x: T)
    ensures x in Total(m, share) <==> exists k :: k in m && x in share(m[k])
    decreases |m|
  {
    if m != map[] {
      var k :| k in m;
      TotalPick(m, share, k);
      InTotal(m - {k}, share, x);
      if j :| j in m && x in share(m[j]) {
        assert j == k || j in m - {k};
      }
    }
  }

  /** A part of a map, with the same shares, sums to no more. */
  lemma {:induction false} TotalPart<V, T>(m: map<nat, V>, n: map<nat, V>, share: V -> multiset<T>)
    requires m.Keys <= n.Keys && forall k :: k in m ==> share(m[k]) == share(n[k])
    ensures Total(m, share) <= Total(n, share)
    decreases |m|
  {
    if m != map[] {
      var k :| k in m;
      TotalPick(m, share, k);
      TotalPick(n, share, k);
      TotalPart(m - {k}, n - {k}, share);
    }
  }
}
