/** Results of guarded steps, a few words about values, and weighted sums over the rows of a table.

    A table keyed by identifier is a `map`; a sum over its rows does not depend on the
    order in which the rows are visited, so it is defined by picking rows one at a time
    and `MapSumTake` shows that any row may be picked first. */
module Sums {

  datatype Option<+T> = None | Some(value: T)

  /** What a guarded step does: it either commits a new state with an answer,
      or refuses and leaves the state as it was. */
  datatype Step<+S, +T> = Done(state: S, value: T) | Refused

  predicate Distinct<T(==)>(s: seq<T>) {
    forall i, j | 0 <= i < j < |s| :: s[i] != s[j]
  }

  function Max(x: nat, y: nat): nat {
    if x > y then x else y
  }

  ghost function MapSum<K, V>(m: map<K, V>, w: (K, V) -> int): int
    decreases |m|
  {
    if m == map[] then 0
    else
      var k :| k in m;
      w(k, m[k]) + MapSum(m - {k}, w)
  }

  lemma {:induction false} MapSumTake<K, V>(m: map<K, V>, w: (K, V) -> int, k: K)
    requires k in m
    ensures MapSum(m, w) == w(k, m[k]) + MapSum(m - {k}, w)
    decreases |m|
  {
    var j :| j in m && MapSum(m, w) == w(j, m[j]) + MapSum(m - {j}, w);
    if j != k {
      MapSumTake(m - {j}, w, k);
      MapSumTake(m - {k}, w, j);
      assert m - {j} - {k} == m - {k} - {j};
    }
  }

  /** Writing one row changes a sum by exactly that row's weight. */
  lemma MapSumPut<K, V>(m: map<K, V>, w: (K, V) -> int, k: K, v: V)
    ensures MapSum(m[k := v], w) == MapSum(m, w) - (if k in m then w(k, m[k]) else 0) + w(k, v)
  {
    var m' := m[k := v];
    MapSumTake(m', w, k);
    assert m' - {k} == m - {k};
    if k in m {
      MapSumTake(m, w, k);
    } else {
      assert m - {k} == m;
    }
  }

  lemma {:induction false} MapSumAgree<K, V>(m: map<K, V>, w: (K, V) -> int, u: (K, V) -> int)
    requires forall k | k in m :: w(k, m[k]) == u(k, m[k])
    ensures MapSum(m, w) == MapSum(m, u)
    decreases |m|
  {
    if m != map[] {
      var k :| k in m;
      MapSumTake(m, w, k);
      MapSumTake(m, u, k);
      MapSumAgree(m - {k}, w, u);
    }
  }

  lemma {:induction false} MapSumAdd<K, V>(m: map<K, V>, w: (K, V) -> int, u: (K, V) -> int, t: (K, V) -> int)
    requires forall k | k in m :: t(k, m[k]) == w(k, m[k]) + u(k, m[k])
    ensures MapSum(m, t) == MapSum(m, w) + MapSum(m, u)
    decreases |m|
  {
    if m != map[] {
      var k :| k in m;
      MapSumTake(m, w, k);
      MapSumTake(m, u, k);
      MapSumTake(m, t, k);
      MapSumAdd(m - {k}, w, u, t);
    }
  }

  lemma {:induction false} MapSumAtMost<K, V>(m: map<K, V>, w: (K, V) -> int, u: (K, V) -> int)
    requires forall k | k in m :: w(k, m[k]) <= u(k, m[k])
    ensures MapSum(m, w) <= MapSum(m, u)
    decreases |m|
  {
    if m != map[] {
      var k :| k in m;
      MapSumTake(m, w, k);
      MapSumTake(m, u, k);
      MapSumAtMost(m - {k}, w, u);
    }
  }

  /** A sum of ones counts the rows it counts. */
  lemma {:induction false} MapSumCounts<K, V>(m: map<K, V>, w: (K, V) -> int, counted: set<K>)
    requires counted <= m.Keys && forall k | k in m :: w(k, m[k]) == if k in counted then 1 else 0
    ensures MapSum(m, w) == |counted|
    decreases |m|
  {
    if m != map[] {
      var k :| k in m;
      MapSumTake(m, w, k);
      MapSumCounts(m - {k}, w, counted - {k});
    }
  }
}
