/**
 * The records of internal/database/stats.go, shared by both pool managers,
 * and the summation over a pool table that the health checks perform.
 */
module Stats {
  import opened Driver

  /** time.Time{}: the zero time a field holds when the code never sets it. */
  const ZeroTime: int := 0

  /** One entry of PoolStats.TenantStats (the per-pool sql.DBStats copy is not modelled). */
  datatype TenantPoolStats = TenantPoolStats(UserID: UserId, OrgID: OrgId, Role: string, CreatedAt: int, LastUsed: int)

  /** PoolStats (MasterStats and LastCleanup are not modelled). */
  datatype PoolStats = PoolStats(TotalTenantPools: int, MaxTenantPools: int, TenantStats: seq<TenantPoolStats>)

  datatype HealthStatus = HealthStatus(
    Healthy: bool,
    MasterHealthy: bool,
    RedisHealthy: bool,
    TotalConnections: int,
    TenantPoolsActive: int,
    Timestamp: int,
    Errors: seq<string>,
    LastCheck: int,
    CheckInterval: int,
    PoolType: string)

  /** The sum of the values of a map, in no particular order. */
  ghost function SumValues<K>(m: map<K, nat>): nat
    decreases |m.Keys|
  {
    if m.Keys == {} then 0
    else
      var k :| k in m;
      assert (m - {k}).Keys < m.Keys;
      m[k] + SumValues(m - {k})
  }

  /** The sum does not depend on which entry is taken out first. */
  lemma {:induction false} SumValuesRemove<K>(m: map<K, nat>, k: K)
    requires k in m
    ensures SumValues(m) == m[k] + SumValues(m - {k})
    decreases |m.Keys|
  {
    var j :| j in m && SumValues(m) == m[j] + SumValues(m - {j});
    if j != k {
      assert (m - {j}).Keys < m.Keys && (m - {k}).Keys < m.Keys;
      SumValuesRemove(m - {j}, k);
      SumValuesRemove(m - {k}, j);
      assert m - {j} - {k} == m - {k} - {j};
    }
  }

  function Restrict<K, V>(m: map<K, V>, keys: set<K>): (r: map<K, V>)
    ensures r.Keys == m.Keys * keys
    ensures forall k :: k in r ==> r[k] == m[k]
  {
    map k | k in m && k in keys :: m[k]
  }

  lemma {:induction false} SubsetCard<T>(a: set<T>, b: set<T>)
    requires a <= b
    ensures |a| <= |b|
    decreases b
  {
    if a != {} {
      var x :| x in a;
      SubsetCard(a - {x}, b - {x});
    }
  }

  /** A table with fewer keys has no more entries. */
  lemma SubmapCard<K, V>(a: map<K, V>, b: map<K, V>)
    requires a.Keys <= b.Keys
    ensures |a| <= |b|
  {
    SubsetCard(a.Keys, b.Keys);
  }
}
