/** Vocabulary shared by the contract models: outcomes of an invocation, optional
    storage entries, truncating division, and sums over storage maps. */
module Storage {

  datatype Option<+T> = None | Some(value: T)

  /** Outcome of one contract call. A VM exception rolls the whole transaction back,
      so a `Fault` never comes with a new state. */
  datatype Result<+T, +E> = Ok(value: T) | Fault(error: E)

  /** A stored integer; a missing one reads as zero. */
  function Get<K>(m: map<K, int>, k: K): int {
    if k in m then m[k] else 0
  }

  /** Division as NeoVM does it: the quotient is truncated toward zero. */
  function TruncDiv(a: int, b: int): (q: int)
    requires b != 0
    ensures 0 < b ==> -b < a - q * b < b
    ensures 0 < b && 0 <= a ==> 0 <= q && 0 <= a - q * b
    ensures 0 < b && a <= 0 ==> q <= 0 && a - q * b <= 0
  {
    if 0 <= a then a / b else -((-a) / b)
  }

  /** Sum of what the entries of a storage map are worth. */
  ghost function Sum<K, V>(m: map<K, V>, worth: (K, V) -> int): int {
    if m == map[] then 0 else
      var k :| k in m;
      worth(k, m[k]) + Sum(m - {k}, worth)
  }

  /** Worth of one entry; a missing one is worth nothing. */
  function Entry<K, V>(m: map<K, V>, k: K, worth: (K, V) -> int): int {
    if k in m then worth(k, m[k]) else 0
  }

  lemma {:induction false} SumDelete<K, V>(m: map<K, V>, k: K, worth: (K, V) -> int)
    ensures Sum(m - {k}, worth) == Sum(m, worth) - Entry(m, k, worth)
    decreases |m|
  {
    if k !in m {
      assert m - {k} == m;
    } else {
      var c :| c in m && Sum(m, worth) == worth(c, m[c]) + Sum(m - {c}, worth);
      if c != k {
        SumDelete(m - {c}, k, worth);
        SumDelete(m - {k}, c, worth);
        assert m - {c} - {k} == m - {k} - {c};
      }
    }
  }

  lemma SumPut<K, V>(m: map<K, V>, k: K, v: V, worth: (K, V) -> int)
    ensures Sum(m[k := v], worth) == Sum(m, worth) - Entry(m, k, worth) + worth(k, v)
  {
    SumDelete(m[k := v], k, worth);
    SumDelete(m, k, worth);
    assert m[k := v] - {k} == m - {k};
  }

  lemma {:induction false} SumNonNegative<K, V>(m: map<K, V>, worth: (K, V) -> int)
    requires forall k :: k in m ==> 0 <= worth(k, m[k])
    ensures 0 <= Sum(m, worth)
    ensures forall k :: k in m ==> worth(k, m[k]) <= Sum(m, worth)
    decreases |m|
  {
    forall k | k in m
      ensures 0 <= worth(k, m[k]) <= Sum(m, worth)
    {
      SumDelete(m, k, worth);
      SumNonNegative(m - {k}, worth);
    }
  }

  lemma {:induction false} SumWorthless<K, V>(m: map<K, V>, worth: (K, V) -> int)
    requires forall k :: k in m ==> worth(k, m[k]) == 0
    ensures Sum(m, worth) == 0
    decreases |m|
  {
    if m != map[] {
      var k :| k in m;
      SumDelete(m, k, worth);
      SumWorthless(m - {k}, worth);
    }
  }

  /** Maps that agree entry by entry, where missing entries count as worthless, have the same sum. */
  ghost predicate Agree<K(!new), V>(m: map<K, V>, n: map<K, V>, f: (K, V) -> int, g: (K, V) -> int) {
    forall k :: Entry(m, k, f) == Entry(n, k, g)
  }

  lemma {:induction false} SumAgrees<K(!new), V>(m: map<K, V>, n: map<K, V>, f: (K, V) -> int, g: (K, V) -> int)
    requires Agree(m, n, f, g)
    ensures Sum(m, f) == Sum(n, g)
    decreases |m|
  {
    if m == map[] {
      forall k | k in n
        ensures g(k, n[k]) == 0
      {
        assert Entry(m, k, f) == Entry(n, k, g);
      }
      SumWorthless(n, g);
    } else {
      var k :| k in m;
      SumDelete(m, k, f);
      SumDelete(n, k, g);
      assert Entry(m, k, f) == Entry(n, k, g);
      forall j
        ensures Entry(m - {k}, j, f) == Entry(n - {k}, j, g)
      {
        assert Entry(m, j, f) == Entry(n, j, g);
      }
      SumAgrees(m - {k}, n - {k}, f, g);
    }
  }
}
