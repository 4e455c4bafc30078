/** The SQL aggregates the marts use, over a column given as a map from row to value. */
module Aggregates {
  import opened Prelude

  /** 1900-01-01, from which load times count: what MAX over no rows is coalesced to. */
  const EPOCH := 0

  lemma {:induction false} Smaller<K, V>(m: map<K, V>, k: K)
    requires k in m
    ensures |m - {k}| < |m|
  {
    assert (m - {k}).Keys + {k} == m.Keys;
  }

  /** COALESCE(MAX(column), 1900-01-01). */
  ghost function HighWater<K>(times: map<K, int>): (h: int)
    ensures times == map[] ==> h == EPOCH
    ensures times != map[] ==> exists k :: k in times && times[k] == h
    ensures forall k :: k in times ==> times[k] <= h
    decreases |times|
  {
    if times == map[] then EPOCH
    else
      var k :| k in times;
      var rest := times - {k};
      Smaller(times, k);
      assert forall j :: j in times ==> j == k || j in rest;
      if rest == map[] then times[k] else Max(times[k], HighWater(rest))
  }

  /** SUM(column). */
  ghost function Total<K>(m: map<K, int>): int
    decreases |m|
  {
    if m == map[] then 0
    else
      var k :| k in m;
      Smaller(m, k);
      m[k] + Total(m - {k})
  }

  lemma {:induction false} TotalWithout<K>(m: map<K, int>, k: K)
    requires k in m
    ensures Total(m) == m[k] + Total(m - {k})
    decreases |m|
  {
    var j :| j in m && Total(m) == m[j] + Total(m - {j});
    if j != k {
      Smaller(m, j);
      Smaller(m, k);
      TotalWithout(m - {j}, k);
      TotalWithout(m - {k}, j);
      assert (m - {j}) - {k} == (m - {k}) - {j};
    }
  }

  function Within<K>(m: map<K, int>, part: set<K>): map<K, int> {
    map k | k in m && k in part :: m[k]
  }

  lemma {:induction false} TotalSplit<K>(m: map<K, int>, part: set<K>)
    ensures Total(m) == Total(Within(m, part)) + Total(m - part)
    decreases |m|
  {
    if m == map[] {
      assert Within(m, part) == map[] && m - part == map[];
    } else {
      var k :| k in m;
      Smaller(m, k);
      TotalWithout(m, k);
      TotalSplit(m - {k}, part);
      if k in part {
        TotalWithout(Within(m, part), k);
        assert Within(m - {k}, part) == Within(m, part) - {k};
        assert (m - {k}) - part == m - part;
      } else {
        TotalWithout(m - part, k);
        assert Within(m - {k}, part) == Within(m, part);
        assert (m - {k}) - part == (m - part) - {k};
      }
    }
  }

  /** A sum of non-negative values is zero exactly when all of them are. */
  lemma {:induction false} ZeroTotal<K>(m: map<K, int>)
    requires forall k :: k in m ==> m[k] >= 0
    ensures Total(m) >= 0
    ensures Total(m) == 0 <==> forall k :: k in m ==> m[k] == 0
    decreases |m|
  {
    if m == map[] {
    } else {
      var k :| k in m;
      Smaller(m, k);
      TotalWithout(m, k);
      ZeroTotal(m - {k});
      assert forall j :: j in m ==> j == k || j in m - {k};
    }
  }

  /** A sum of zeros is zero. */
  lemma {:induction false} TotalOfZeros<K>(m: map<K, int>)
    requires forall k :: k in m ==> m[k] == 0
    ensures Total(m) == 0
  {
    ZeroTotal(m);
  }

  /** SUM(CASE WHEN row in chosen THEN 1 ELSE 0 END) counts the chosen rows. */
  lemma {:induction false} IndicatorCounts<K>(m: map<K, int>, chosen: set<K>)
    requires chosen <= m.Keys
    requires forall k :: k in m ==> m[k] == if k in chosen then 1 else 0
    ensures Total(m) == |chosen|
    decreases |m|
  {
    if m == map[] {
      assert chosen == {};
    } else {
      var k :| k in m;
      Smaller(m, k);
      TotalWithout(m, k);
      IndicatorCounts(m - {k}, chosen - {k});
      assert k !in chosen ==> chosen - {k} == chosen;
    }
  }

  /** The high water is the one bound that is attained. */
  lemma {:induction false} HighWaterIs<K>(times: map<K, int>, k: K)
    requires k in times && forall j :: j in times ==> times[j] <= times[k]
    ensures HighWater(times) == times[k]
  {
    var j :| j in times && times[j] == HighWater(times);
  }

  /** MAX row by row. */
  method MaxOf<K(==)>(times: map<K, int>) returns (h: int)
    ensures h == HighWater(times)
  {
    hide HighWater;
    h := EPOCH;
    var rest := times.Keys;
    ghost var best: Option<K> := None;
    while rest != {}
      invariant rest <= times.Keys
      invariant best.None? <==> rest == times.Keys
      invariant best.None? ==> h == EPOCH
      invariant best.Some? ==> best.value in times && times[best.value] == h
      invariant forall k :: k in times && k !in rest ==> times[k] <= h
      decreases |rest|
    {
      var k :| k in rest;
      if rest == times.Keys || h < times[k] {
        h, best := times[k], Some(k);
      }
      rest := rest - {k};
    }
    if best.Some? {
      HighWaterIs(times, best.value);
    }
  }

  /** SUM row by row. */
  method SumOf<K(==)>(m: map<K, int>) returns (sum: int)
    ensures sum == Total(m)
  {
    sum := 0;
    var rest := m;
    while rest != map[]
      invariant sum + Total(rest) == Total(m)
      decreases |rest|
    {
      var k :| k in rest;
      Smaller(rest, k);
      TotalWithout(rest, k);
      sum, rest := sum + rest[k], rest - {k};
    }
  }
}
