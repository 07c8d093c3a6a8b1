/** Sums over finite maps. */
module Sums {
  ghost function Sum<K>(m: map<K, nat>): nat {
    if m == map[] then 0 else
      var k :| k in m;
      m[k] + Sum(m - {k})
  }

  lemma {:induction false} SumRemove<K>(m: map<K, nat>, k: K)
    requires k in m
    ensures Sum(m) == m[k] + Sum(m - {k})
    decreases |m|
  {
    var j :| j in m && Sum(m) == m[j] + Sum(m - {j});
    if j != k {
      SumRemove(m - {j}, k);
      SumRemove(m - {k}, j);
      assert m - {j} - {k} == m - {k} - {j};
    }
  }

  lemma {:induction false} SumAdd<K>(m: map<K, nat>, k: K, v: nat)
    requires k !in m
    ensures Sum(m[k := v]) == Sum(m) + v
  {
    SumRemove(m[k := v], k);
    assert m[k := v] - {k} == m;
  }

  lemma {:induction false} SumReplace<K>(m: map<K, nat>, k: K, v: nat)
    requires k in m
    ensures Sum(m[k := v]) + m[k] == Sum(m) + v
  {
    SumRemove(m[k := v], k);
    SumRemove(m, k);
    assert m[k := v] - {k} == m - {k};
  }

  lemma {:induction false} SumZero<K>(m: map<K, nat>)
    requires forall k :: k in m ==> m[k] == 0
    ensures Sum(m) == 0
    decreases |m|
  {
    if m != map[] {
      var k :| k in m;
      SumRemove(m, k);
      SumZero(m - {k});
    }
  }

  /** Pointwise smaller maps over the same keys have smaller sums. */
  lemma {:induction false} SumMonotone<K>(m: map<K, nat>, n: map<K, nat>)
    requires m.Keys == n.Keys && forall k :: k in m ==> m[k] <= n[k]
    ensures Sum(m) <= Sum(n)
    decreases |m|
  {
    if m != map[] {
      var k :| k in m;
      SumRemove(m, k);
      SumRemove(n, k);
      assert (m - {k}).Keys == (n - {k}).Keys;
      SumMonotone(m - {k}, n - {k});
    }
  }

  // ------------------------------------------------------------------ weighted maps

  ghost function Weigh<K, V>(m: map<K, V>, w: V -> nat): nat {
    Sum(map k | k in m :: w(m[k]))
  }

  lemma {:induction false} WeighAdd<K, V>(m: map<K, V>, w: V -> nat, k: K, v: V)
    requires k !in m
    ensures Weigh(m[k := v], w) == Weigh(m, w) + w(v)
  {
    var n := map j | j in m :: w(m[j]);
    SumAdd(n, k, w(v));
    var m' := m[k := v];
    assert n[k := w(v)] == map j | j in m' :: w(m'[j]);
  }

  lemma {:induction false} WeighRemove<K, V>(m: map<K, V>, w: V -> nat, k: K)
    requires k in m
    ensures Weigh(m, w) == Weigh(m - {k}, w) + w(m[k])
  {
    var n := map j | j in m :: w(m[j]);
    SumRemove(n, k);
    var m' := m - {k};
    assert n - {k} == map j | j in m' :: w(m'[j]);
  }

  lemma {:induction false} WeighReplace<K, V>(m: map<K, V>, w: V -> nat, k: K, v: V)
    requires k in m
    ensures Weigh(m[k := v], w) + w(m[k]) == Weigh(m, w) + w(v)
  {
    WeighRemove(m, w, k);
    WeighAdd(m - {k}, w, k, v);
    assert (m - {k})[k := v] == m[k := v];
  }

  /** Weights of the entries only: two maps whose entries weigh the same weigh the same. */
  lemma {:induction false} WeighSame<K, V>(m: map<K, V>, n: map<K, V>, w: V -> nat)
    requires m.Keys == n.Keys && forall k :: k in m ==> w(m[k]) == w(n[k])
    ensures Weigh(m, w) == Weigh(n, w)
  {
    assert (map k | k in m :: w(m[k])) == map k | k in n :: w(n[k]);
  }

  lemma {:induction false} WeighMonotone<K, V>(m: map<K, V>, w: V -> nat, u: V -> nat)
    requires forall k :: k in m ==> w(m[k]) <= u(m[k])
    ensures Weigh(m, w) <= Weigh(m, u)
  {
    SumMonotone(map k | k in m :: w(m[k]), map k | k in m :: u(m[k]));
  }

  lemma {:induction false} WeighEmpty<K, V>(m: map<K, V>, w: V -> nat)
    requires m == map[]
    ensures Weigh(m, w) == 0
  {
    SumZero(map k | k in m :: w(m[k]));
  }

  /** One step of a loop over a map: `seen` holds the entries whose keys are not in `todo`. */
  lemma {:induction false} Visit<K, V>(m: map<K, V>, todo: set<K>, seen: map<K, V>, k: K, next: map<K, V>)
    requires todo <= m.Keys && seen == m - todo && k in todo && next == seen[k := m[k]]
    ensures k !in seen && todo - {k} <= m.Keys && next == m - (todo - {k}) && |todo - {k}| < |todo|
  {}
}
