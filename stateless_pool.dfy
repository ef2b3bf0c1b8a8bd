/**
 * internal/database/stateless_pool.go: one shared pool whose connections
 * get the user's row-level-security context set on every lease, a
 * cache-aside session store in Redis, metrics and a health check.
 *
 * Redis is the map `cache` from key to stored entry; whether a client is
 * configured is `hasRedis`, and whether the server answers a given call is
 * the `redisUp` parameter. The directory query of getUserSessionFromDB is
 * an oracle.
 */
module Stateless {
  import opened Wrappers
  import opened Uuids
  import opened Config
  import opened Driver
  import opened Stats

  /** The lifetime of a cached session, both in ExpiresAt and as the Redis TTL. */
  const SessionTTL: int := 30 * Minute

  const SessionKeyPrefix: string := "user:session:"

  datatype UserSession = UserSession(UserID: UserId, OrgID: OrgId, Role: string, ExpiresAt: int)

  /** What Redis holds under a key: the session and the TTL it was stored with. */
  datatype CacheEntry = CacheEntry(session: UserSession, ttl: int)

  datatype PoolMetrics = PoolMetrics(
    TotalConnections: int,
    ActiveConnections: int,
    ContextSwitches: int,
    RedisCacheHits: int,
    RedisCacheMisses: int,
    AverageResponseTime: int,
    LastReset: int)

  /** Why getUserSessionFromCache did not produce a session. */
  datatype CacheMiss =
    | RedisUnavailable       // "redis not available"
    | NotInCache             // "session not found in cache"
    | RedisFailed            // "redis error: %w"
    | SessionExpiredInCache  // "session expired"

  /** The key under which get, put and invalidate all file a user's session. */
  function SessionKey(u: UserId): (k: string)
    ensures |k| == |SessionKeyPrefix| + 36 && k[..|SessionKeyPrefix|] == SessionKeyPrefix
  {
    SessionKeyPrefix + UuidString(u)
  }

  /** Different users never share a cache key. */
  lemma SessionKeyInjective(u: UserId, v: UserId)
    requires SessionKey(u) == SessionKey(v)
    ensures u == v
  {
    assert SessionKey(u)[|SessionKeyPrefix|..] == UuidString(u);
    assert SessionKey(v)[|SessionKeyPrefix|..] == UuidString(v);
    UuidStringInjective(u, v);
  }

  /** time.Now().After(ExpiresAt): strictly later, so a session is still good at its ExpiresAt. */
  predicate Expired(s: UserSession, now: int) {
    now > s.ExpiresAt
  }

  /** Every entry is filed under the key of its own user. */
  ghost predicate CacheKeyed(cache: map<string, CacheEntry>) {
    forall k :: k in cache ==> k == SessionKey(cache[k].session.UserID)
  }

  /** What a cache lookup for `u` at `now` finds: a stored session that has not expired. */
  function CachedSession(cache: map<string, CacheEntry>, u: UserId, now: int): Option<UserSession> {
    if SessionKey(u) in cache && !Expired(cache[SessionKey(u)].session, now)
    then Some(cache[SessionKey(u)].session)
    else None
  }

  /** The cache after a lookup for `u`: a stored but expired session is deleted. */
  function AfterLookup(cache: map<string, CacheEntry>, u: UserId, now: int): map<string, CacheEntry> {
    if SessionKey(u) in cache && Expired(cache[SessionKey(u)].session, now)
    then cache - {SessionKey(u)}
    else cache
  }

  /** cacheUserSession: SET the session under its user's key with the 30-minute TTL. */
  function StoreSession(cache: map<string, CacheEntry>, s: UserSession): map<string, CacheEntry> {
    cache[SessionKey(s.UserID) := CacheEntry(s, SessionTTL)]
  }

  /** InvalidateUserSession: DEL the user's key. */
  function Invalidate(cache: map<string, CacheEntry>, u: UserId): map<string, CacheEntry> {
    cache - {SessionKey(u)}
  }

  /** A lookup finds only the session of the user it asked for. */
  lemma CachedSessionBelongs(cache: map<string, CacheEntry>, u: UserId, now: int)
    requires CacheKeyed(cache) && CachedSession(cache, u, now).Some?
    ensures CachedSession(cache, u, now).value.UserID == u
    ensures !Expired(CachedSession(cache, u, now).value, now)
  {
    SessionKeyInjective(u, cache[SessionKey(u)].session.UserID);
  }

  /** Invalidate followed by a lookup always misses. */
  lemma InvalidateThenMiss(cache: map<string, CacheEntry>, u: UserId, now: int)
    ensures CachedSession(Invalidate(cache, u), u, now) == None
  {
  }

  /** Storing, invalidating, or sweeping one user's key leaves every other user's lookup as it was. */
  lemma OtherUsersUnaffected(cache: map<string, CacheEntry>, u: UserId, v: UserId, s: UserSession, now: int, later: int)
    requires u != v && s.UserID == u
    ensures CachedSession(Invalidate(cache, u), v, later) == CachedSession(cache, v, later)
    ensures CachedSession(StoreSession(cache, s), v, later) == CachedSession(cache, v, later)
    ensures CachedSession(AfterLookup(cache, u, now), v, later) == CachedSession(cache, v, later)
  {
    if SessionKey(u) == SessionKey(v) {
      SessionKeyInjective(u, v);
    }
  }

  /** A stored session is found by every lookup up to its expiry, and by none after it. */
  lemma StoreThenLookup(cache: map<string, CacheEntry>, s: UserSession, later: int)
    ensures CachedSession(StoreSession(cache, s), s.UserID, later) == if Expired(s, later) then None else Some(s)
  {
  }

  /** The lookup that deletes an expired entry finds the same as a lookup that does not. */
  lemma AfterLookupSameAnswer(cache: map<string, CacheEntry>, u: UserId, now: int)
    ensures CachedSession(AfterLookup(cache, u, now), u, now) == CachedSession(cache, u, now)
    ensures AfterLookup(cache, u, now).Keys <= cache.Keys
  {
  }

  /** Every cache change of the manager keeps each entry under its own user's key. */
  lemma CacheKeyedPreserved(cache: map<string, CacheEntry>, u: UserId, s: UserSession, now: int)
    requires CacheKeyed(cache)
    ensures CacheKeyed(StoreSession(cache, s))
    ensures CacheKeyed(Invalidate(cache, u))
    ensures CacheKeyed(AfterLookup(cache, u, now))
  {
  }

  /**
   * getUserSessionFromDB, given whether a connection was leased and what
   * the newest-membership query answers: a session that expires 30 minutes from now.
   */
  function SessionFromDB(userID: UserId, now: int, connOk: bool, answer: DirectoryAnswer): (r: Result<UserSession, DbError>)
    ensures r.Success? <==> connOk && answer.Membership?
    ensures r.Success? ==> r.value == UserSession(userID, answer.org, answer.role, now + SessionTTL)
    ensures !connOk ==> r == Failure(SessionLookupFailed(LookupConnFailed))
    ensures connOk && answer.NoMembership? ==> r == Failure(SessionLookupFailed(NotInAnyOrganization))
    ensures connOk && answer.DirectoryQueryFailed? ==> r == Failure(SessionLookupFailed(LookupQueryFailed))
  {
    if !connOk then Failure(SessionLookupFailed(LookupConnFailed))
    else match answer
      case NoMembership => Failure(SessionLookupFailed(NotInAnyOrganization))
      case DirectoryQueryFailed => Failure(SessionLookupFailed(LookupQueryFailed))
      case Membership(org, role) => Success(UserSession(userID, org, role, now + SessionTTL))
  }

  /** A session read from the database stays good for exactly the TTL. */
  lemma FreshSessionLifetime(userID: UserId, now: int, answer: DirectoryAnswer, later: int)
    requires SessionFromDB(userID, now, true, answer).Success?
    ensures !Expired(SessionFromDB(userID, now, true, answer).value, later) <==> later - now <= SessionTTL
  {
  }

  /** Go's integer division by two, which truncates toward zero. */
  function HalfTowardZero(x: int): (h: int)
    ensures x >= 0 ==> 0 <= x - 2 * h <= 1
    ensures x < 0 ==> -1 <= x - 2 * h <= 0
  {
    if x >= 0 then x / 2 else -((-x) / 2)
  }

  /** recordMetrics' average: the first sample, then the truncated mean of the old average and the sample. */
  function RollingAverage(avg: int, d: int): (r: int)
    ensures avg == 0 ==> r == d
    ensures avg != 0 ==> (avg <= r <= d || d <= r <= avg)
    ensures avg == d ==> r == d
  {
    if avg == 0 then d else HalfTowardZero(avg + d)
  }

  /** The metrics after recordMetrics with elapsed time `d`: one more context switch, the average updated, nothing else. */
  function Recorded(m: PoolMetrics, d: int): (r: PoolMetrics)
    ensures r.ContextSwitches == m.ContextSwitches + 1
    ensures r.AverageResponseTime == RollingAverage(m.AverageResponseTime, d)
    ensures r.(ContextSwitches := m.ContextSwitches, AverageResponseTime := m.AverageResponseTime) == m
  {
    m.(ContextSwitches := m.ContextSwitches + 1, AverageResponseTime := RollingAverage(m.AverageResponseTime, d))
  }

  /** PoolMetrics{LastReset: now}: every counter zero. */
  function FreshMetrics(now: int): (m: PoolMetrics)
    ensures m.TotalConnections == 0 && m.ActiveConnections == 0 && m.ContextSwitches == 0
    ensures m.RedisCacheHits == 0 && m.RedisCacheMisses == 0 && m.AverageResponseTime == 0
    ensures m.LastReset == now
  {
    PoolMetrics(0, 0, 0, 0, 0, 0, now)
  }

  const RedisNotInitialized: string := "Redis client not initialized"

  /** The error list of the stateless health check, in the order the checks append. */
  function StatelessHealthErrors(hasRedis: bool, masterPing: Option<string>, redisPing: Option<string>, total: int, max: int): (errs: seq<string>)
    ensures |errs| <= 3
    ensures (hasRedis && masterPing.None? && redisPing.None? && total <= max) <==> errs == []
  {
    (if masterPing.Some? then ["Master database ping failed: " + masterPing.value] else [])
    + (if hasRedis then (if redisPing.Some? then ["Redis ping failed: " + redisPing.value] else []) else [RedisNotInitialized])
    + (if total > max then ["Too many open connections: " + FormatInt(total) + " > " + FormatInt(max)] else [])
  }

  /**
   * The stateless check is healthy exactly when every error it reports is
   * the missing Redis client: that one error leaves Healthy true, every
   * other one sets it false.
   */
  lemma HealthyIffOnlyRedisMissing(hasRedis: bool, masterPing: Option<string>, redisPing: Option<string>, total: int, max: int)
    ensures (masterPing.None? && (hasRedis ==> redisPing.None?) && total <= max) <==>
      forall e :: e in StatelessHealthErrors(hasRedis, masterPing, redisPing, total, max) ==> e == RedisNotInitialized
  {
    var errs := StatelessHealthErrors(hasRedis, masterPing, redisPing, total, max);
    if masterPing.Some? {
      var e := "Master database ping failed: " + masterPing.value;
      assert e in errs && e[0] != RedisNotInitialized[0];
    } else if hasRedis && redisPing.Some? {
      var e := "Redis ping failed: " + redisPing.value;
      assert e in errs && e[6] != RedisNotInitialized[6];
    } else if total > max {
      var e := "Too many open connections: " + FormatInt(total) + " > " + FormatInt(max);
      assert e in errs && e[0] != RedisNotInitialized[0];
    }
  }

  /** The stateless setUserContext: SET app.current_user_id, then app.request_timestamp, whose failure is ignored. */
  method SetUserContext(conn: Conn, userID: UserId, answer: SetAnswer, timestampOk: bool, now: int) returns (err: Option<ContextFailure>)
    modifies conn`userContext, conn`requestTimestamp
    ensures answer == SetOk ==> err.None? && conn.userContext == Some(userID)
    ensures answer == SetOk ==> conn.requestTimestamp == if timestampOk then Some(now) else old(conn.requestTimestamp)
    ensures answer == SetCastRejected ==> err == Some(CastFailed)
    ensures answer == SetRejected ==> err == Some(SetFailed)
    ensures answer != SetOk ==> conn.userContext == old(conn.userContext) && conn.requestTimestamp == old(conn.requestTimestamp)
  {
    match answer {
      case SetCastRejected => err := Some(CastFailed);
      case SetRejected => err := Some(SetFailed);
      case SetOk =>
        conn.userContext := Some(userID);
        if timestampOk {
          conn.requestTimestamp := Some(now);
        }
        err := None;
    }
  }

  /** Whether GetUserSession for `u` is answered from the cache: a client, a server that answers, an unexpired entry. */
  predicate LookupHits(cache: map<string, CacheEntry>, hasRedis: bool, redisUp: bool, u: UserId, now: int) {
    hasRedis && redisUp && CachedSession(cache, u, now).Some?
  }

  /** What GetUserSession for `u` answers: the cached session on a hit, the database lookup otherwise. */
  function LookupAnswer(cache: map<string, CacheEntry>, hasRedis: bool, redisUp: bool, u: UserId, now: int,
                        connOk: bool, answer: DirectoryAnswer): Result<UserSession, DbError>
  {
    if LookupHits(cache, hasRedis, redisUp, u, now) then Success(CachedSession(cache, u, now).value)
    else SessionFromDB(u, now, connOk, answer)
  }

  /**
   * The cache GetUserSession for `u` leaves: unchanged without a client, without
   * an answering server or on a hit; otherwise the stale key is gone and a
   * session read from the database is written back.
   */
  function LookupCache(cache: map<string, CacheEntry>, hasRedis: bool, redisUp: bool, u: UserId, now: int,
                       connOk: bool, answer: DirectoryAnswer): map<string, CacheEntry>
  {
    if !hasRedis || !redisUp || CachedSession(cache, u, now).Some? then cache
    else match SessionFromDB(u, now, connOk, answer)
      case Success(s) => StoreSession(AfterLookup(cache, u, now), s)
      case Failure(_) => AfterLookup(cache, u, now)
  }

  /** The metrics GetUserSession for `u` leaves: one hit, or one miss when there is a client, and nothing else. */
  function LookupMetrics(m: PoolMetrics, cache: map<string, CacheEntry>, hasRedis: bool, redisUp: bool, u: UserId, now: int): PoolMetrics {
    if LookupHits(cache, hasRedis, redisUp, u, now) then m.(RedisCacheHits := m.RedisCacheHits + 1)
    else if hasRedis then m.(RedisCacheMisses := m.RedisCacheMisses + 1)
    else m
  }

  class StatelessPoolManager {
    const config: Database
    const masterDB: SqlPool
    const hasRedis: bool
    var cache: map<string, CacheEntry>
    var metrics: PoolMetrics

    /**
     * NewStatelessPoolManager over an opened master pool, the Redis client
     * (if any) and whatever Redis holds now, which need not have been
     * written by this manager.
     */
    constructor (cfg: Database, master: SqlPool, hasRedis: bool, stored: map<string, CacheEntry>, now: int)
      ensures config == cfg && masterDB == master && this.hasRedis == hasRedis
      ensures cache == stored && metrics == FreshMetrics(now)
    {
      config, masterDB, this.hasRedis := cfg, master, hasRedis;
      cache := stored;
      metrics := FreshMetrics(now);
    }

    /**
     * GetTenantConnection: lease a connection from the shared pool and set
     * the user context; a failure closes the connection and leaves the
     * metrics alone, a success records one context switch taking `elapsed`.
     */
    method GetTenantConnection(userID: UserId, now: int, elapsed: int, connOk: bool, setAnswer: SetAnswer, timestampOk: bool)
      returns (r: Result<Conn, DbError>, ghost leased: Conn?)
      modifies this`metrics
      ensures !connOk ==> r == Failure(PoolConnFailed) && leased == null
      ensures connOk ==> leased != null && fresh(leased) && leased.source == masterDB
      ensures r.Success? <==> connOk && setAnswer == SetOk
      ensures r.Success? ==>
        && r.value == leased && leased.userContext == Some(userID) && leased.closeCount == 0
        && metrics == Recorded(old(metrics), elapsed)
      ensures r.Failure? ==> metrics == old(metrics)
      ensures r.Failure? && leased != null ==>
        && r.error == UserContextFailed(if setAnswer == SetCastRejected then CastFailed else SetFailed)
        && leased.closeCount == 1 && leased.userContext == None
    {
      if !connOk {
        return Failure(PoolConnFailed), null;
      }
      var conn := new Conn(masterDB);
      leased := conn;
      var setErr := SetUserContext(conn, userID, setAnswer, timestampOk, now);
      if setErr.Some? {
        var _ := conn.Close();
        return Failure(UserContextFailed(setErr.value)), conn;
      }
      RecordMetrics(elapsed);
      r := Success(conn);
    }

    /**
     * ReleaseConnection: nil is accepted; otherwise RESET ALL and the
     * search_path reset run through the driver (their failures, `resetOk`,
     * only logged) and the connection is always closed. The driver cast
     * failing, or the connection already being closed, is the one error
     * reported ahead of the close error.
     */
    method ReleaseConnection(conn: Conn?, castOk: bool, resetOk: bool) returns (err: Option<DbError>)
      modifies if conn == null then {} else {conn}
      ensures conn == null ==> err.None?
      ensures conn != null ==> conn.closeCount == old(conn.closeCount) + 1 && conn.statements == old(conn.statements)
      ensures conn != null && castOk && resetOk && old(conn.closeCount) == 0 ==> conn.userContext == None && conn.requestTimestamp == None
      ensures conn != null && !(castOk && resetOk && old(conn.closeCount) == 0) ==>
        conn.userContext == old(conn.userContext) && conn.requestTimestamp == old(conn.requestTimestamp)
      ensures conn != null ==> err == if castOk && old(conn.closeCount) == 0 then None else Some(ContextResetFailed)
    {
      if conn == null {
        return None;
      }
      var rawOk := castOk && conn.closeCount == 0;
      if rawOk && resetOk {
        conn.userContext := None;
        conn.requestTimestamp := None;
      }
      var closeErr := conn.Close();
      err := if !rawOk then Some(ContextResetFailed) else closeErr;
    }

    /** getUserSessionFromCache: find the user's session; an expired one is deleted and reported as such. */
    method GetUserSessionFromCache(userID: UserId, now: int, redisUp: bool) returns (r: Result<UserSession, CacheMiss>)
      modifies this`cache
      ensures CacheKeyed(old(cache)) ==> CacheKeyed(cache)
      ensures !hasRedis ==> r == Failure(RedisUnavailable) && cache == old(cache)
      ensures hasRedis && !redisUp ==> r == Failure(RedisFailed) && cache == old(cache)
      ensures hasRedis && redisUp ==>
        && cache == AfterLookup(old(cache), userID, now)
        && (r.Success? <==> CachedSession(old(cache), userID, now).Some?)
        && (r.Success? ==> r.value == CachedSession(old(cache), userID, now).value)
        && (r.Failure? ==> r.error == if SessionKey(userID) in old(cache) then SessionExpiredInCache else NotInCache)
    {
      if !hasRedis {
        return Failure(RedisUnavailable);
      }
      if !redisUp {
        return Failure(RedisFailed);
      }
      var key := SessionKey(userID);
      if key !in cache {
        return Failure(NotInCache);
      }
      var session := cache[key].session;
      if now > session.ExpiresAt {
        if CacheKeyed(cache) {
          CacheKeyedPreserved(cache, userID, session, now);
        }
        cache := cache - {key};
        return Failure(SessionExpiredInCache);
      }
      r := Success(session);
    }

    /** cacheUserSession: a no-op without a client; otherwise SET with the 30-minute TTL. */
    method CacheUserSession(session: UserSession, redisUp: bool) returns (err: Option<DbError>)
      modifies this`cache
      ensures CacheKeyed(old(cache)) ==> CacheKeyed(cache)
      ensures !hasRedis ==> err.None? && cache == old(cache)
      ensures hasRedis && !redisUp ==> err == Some(CacheFailed) && cache == old(cache)
      ensures hasRedis && redisUp ==> err.None? && cache == StoreSession(old(cache), session)
    {
      if !hasRedis {
        return None;
      }
      if !redisUp {
        return Some(CacheFailed);
      }
      if CacheKeyed(cache) {
        CacheKeyedPreserved(cache, session.UserID, session, 0);
      }
      cache := cache[SessionKey(session.UserID) := CacheEntry(session, SessionTTL)];
      err := None;
    }

    /** InvalidateUserSession: a no-op returning nil without a client; otherwise DEL the user's key. */
    method InvalidateUserSession(userID: UserId, redisUp: bool) returns (err: Option<DbError>)
      modifies this`cache
      ensures CacheKeyed(old(cache)) ==> CacheKeyed(cache)
      ensures !hasRedis ==> err.None? && cache == old(cache)
      ensures hasRedis && !redisUp ==> err == Some(CacheFailed) && cache == old(cache)
      ensures hasRedis && redisUp ==> err.None? && cache == Invalidate(old(cache), userID)
    {
      if !hasRedis {
        return None;
      }
      if !redisUp {
        return Some(CacheFailed);
      }
      if CacheKeyed(cache) {
        CacheKeyedPreserved(cache, userID, UserSession(userID, Nil, "", 0), 0);
      }
      cache := cache - {SessionKey(userID)};
      err := None;
    }

    /** Whether GetUserSession answers from the cache. */
    ghost predicate Hit(userID: UserId, now: int, redisUp: bool)
      reads this
    {
      LookupHits(cache, hasRedis, redisUp, userID, now)
    }

    /**
     * GetUserSession: cache first (a hit counts in RedisCacheHits, anything
     * else with a client in RedisCacheMisses), then the database, whose
     * answer is written back to the cache; a database error is returned and
     * nothing is cached. Without a client neither counter moves.
     */
    method GetUserSession(userID: UserId, now: int, redisUp: bool, connOk: bool, answer: DirectoryAnswer) returns (r: Result<UserSession, DbError>)
      modifies this`cache, this`metrics
      ensures CacheKeyed(old(cache)) ==> CacheKeyed(cache)
      ensures old(Hit(userID, now, redisUp)) ==>
        && r == Success(CachedSession(old(cache), userID, now).value)
        && metrics == old(metrics).(RedisCacheHits := old(metrics).RedisCacheHits + 1)
        && cache == old(cache)
      ensures !old(Hit(userID, now, redisUp)) ==> r == SessionFromDB(userID, now, connOk, answer)
      ensures !old(Hit(userID, now, redisUp)) && hasRedis ==>
        metrics == old(metrics).(RedisCacheMisses := old(metrics).RedisCacheMisses + 1)
      ensures !hasRedis ==> metrics == old(metrics) && cache == old(cache)
      ensures hasRedis && !redisUp ==> cache == old(cache)
      ensures !old(Hit(userID, now, redisUp)) && hasRedis && redisUp ==>
        cache == if r.Success? then StoreSession(AfterLookup(old(cache), userID, now), r.value) else AfterLookup(old(cache), userID, now)
      ensures r.Success? ==> !Expired(r.value, now)
      ensures r.Success? && !old(Hit(userID, now, redisUp)) ==> r.value.UserID == userID
      ensures r.Success? && CacheKeyed(old(cache)) ==> r.value.UserID == userID
      ensures r == LookupAnswer(old(cache), hasRedis, redisUp, userID, now, connOk, answer)
      ensures cache == LookupCache(old(cache), hasRedis, redisUp, userID, now, connOk, answer)
      ensures metrics == LookupMetrics(old(metrics), old(cache), hasRedis, redisUp, userID, now)
    {
      if hasRedis {
        var cached := GetUserSessionFromCache(userID, now, redisUp);
        if cached.Success? {
          if CacheKeyed(old(cache)) {
            CachedSessionBelongs(old(cache), userID, now);
          }
          metrics := metrics.(RedisCacheHits := metrics.RedisCacheHits + 1);
          return Success(cached.value);
        }
        metrics := metrics.(RedisCacheMisses := metrics.RedisCacheMisses + 1);
      }
      r := SessionFromDB(userID, now, connOk, answer);
      if r.Failure? {
        return;
      }
      if hasRedis {
        var _ := CacheUserSession(r.value, redisUp);
      }
    }

    /** recordMetrics with the elapsed time of the lease. */
    method RecordMetrics(elapsed: int)
      modifies this`metrics
      ensures metrics == Recorded(old(metrics), elapsed)
    {
      var avg := metrics.AverageResponseTime;
      if avg == 0 {
        avg := elapsed;
      } else {
        avg := HalfTowardZero(avg + elapsed);
      }
      metrics := metrics.(ContextSwitches := metrics.ContextSwitches + 1, AverageResponseTime := avg);
    }

    /** ResetMetrics: every counter back to zero, LastReset now. */
    method ResetMetrics(now: int)
      modifies this`metrics
      ensures metrics == FreshMetrics(now)
    {
      metrics := PoolMetrics(0, 0, 0, 0, 0, 0, now);
    }

    /** GetMetrics: the recorded counters, with the two connection gauges read from the pool's driver. */
    function GetMetrics(): (m: PoolMetrics)
      reads this, masterDB
      ensures m.TotalConnections == masterDB.openConnections && m.ActiveConnections == masterDB.inUse
      ensures m.(TotalConnections := metrics.TotalConnections, ActiveConnections := metrics.ActiveConnections) == metrics
    {
      metrics.(TotalConnections := masterDB.openConnections, ActiveConnections := masterDB.inUse)
    }

    /**
     * GetHealth: starts healthy, then pings the master (`masterPing`) and,
     * with a client, Redis (`redisPing`), and compares the pool's open
     * connections against MaxOpenConns. A missing Redis client is reported
     * but does not make the pool unhealthy.
     */
    method GetHealth(now: int, masterPing: Option<string>, redisPing: Option<string>) returns (status: HealthStatus)
      ensures status.Healthy <==> masterPing.None? && (hasRedis ==> redisPing.None?) && masterDB.openConnections <= config.MaxOpenConns
      ensures status.Healthy <==> forall e :: e in status.Errors ==> e == RedisNotInitialized
      ensures status.MasterHealthy <==> masterPing.None?
      ensures status.RedisHealthy <==> hasRedis && redisPing.None?
      ensures status.TotalConnections == masterDB.openConnections
      ensures status.Errors == StatelessHealthErrors(hasRedis, masterPing, redisPing, masterDB.openConnections, config.MaxOpenConns)
      ensures status.Timestamp == now && status.LastCheck == now && status.CheckInterval == 30 * Second
      ensures status.TenantPoolsActive == 0 && status.PoolType == ""
    {
      status := HealthStatus(true, false, false, 0, 0, now, [], now, 30 * Second, "");
      if masterPing.Some? {
        status := status.(MasterHealthy := false, Healthy := false,
                          Errors := status.Errors + ["Master database ping failed: " + masterPing.value]);
      } else {
        status := status.(MasterHealthy := true);
      }
      if hasRedis {
        if redisPing.Some? {
          status := status.(RedisHealthy := false, Healthy := false,
                            Errors := status.Errors + ["Redis ping failed: " + redisPing.value]);
        } else {
          status := status.(RedisHealthy := true);
        }
      } else {
        status := status.(RedisHealthy := false, Errors := status.Errors + [RedisNotInitialized]);
      }
      var m := GetMetrics();
      status := status.(TotalConnections := m.TotalConnections);
      var maxConnections := config.MaxOpenConns;
      if status.TotalConnections > maxConnections {
        status := status.(Healthy := false,
                          Errors := status.Errors + ["Too many open connections: " + FormatInt(status.TotalConnections) + " > " + FormatInt(maxConnections)]);
      }
      assert status.Errors == StatelessHealthErrors(hasRedis, masterPing, redisPing, masterDB.openConnections, config.MaxOpenConns);
      HealthyIffOnlyRedisMissing(hasRedis, masterPing, redisPing, masterDB.openConnections, config.MaxOpenConns);
    }

    /** Close: close the master and the Redis client; the last failure is the one returned. */
    method Close(masterCloseOk: bool, redisCloseOk: bool) returns (err: Option<DbError>)
      modifies masterDB`closeCount
      ensures masterDB.closeCount == old(masterDB.closeCount) + 1
      ensures err == if hasRedis && !redisCloseOk then Some(CacheFailed) else if !masterCloseOk then Some(CloseFailed) else None
    {
      err := None;
      masterDB.Close();
      if !masterCloseOk {
        err := Some(CloseFailed);
      }
      if hasRedis && !redisCloseOk {
        err := Some(CacheFailed);
      }
    }
  }

  /**
   * Two lookups within the TTL of a user with nothing cached: the first
   * reads the database and fills the cache, the second is a hit and
   * returns the same session.
   */
  method SecondGetHits(spm: StatelessPoolManager, userID: UserId, now: int, later: int, answer: DirectoryAnswer)
    returns (first: Result<UserSession, DbError>, second: Result<UserSession, DbError>)
    requires spm.hasRedis && answer.Membership? && SessionKey(userID) !in spm.cache
    requires now <= later <= now + SessionTTL
    modifies spm`cache, spm`metrics
    ensures first.Success? && second == first
    ensures spm.metrics.RedisCacheMisses == old(spm.metrics.RedisCacheMisses) + 1
    ensures spm.metrics.RedisCacheHits == old(spm.metrics.RedisCacheHits) + 1
  {
    first := spm.GetUserSession(userID, now, true, true, answer);
    StoreThenLookup(old(spm.cache), first.value, later);
    second := spm.GetUserSession(userID, later, true, true, answer);
  }
}
