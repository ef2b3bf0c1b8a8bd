/**
 * internal/database/stateless_tenant.go: the handle over a connection of
 * the shared pool, the session-based role check, and session preloading.
 */
module StatelessTenant {
  import opened Wrappers
  import opened Driver
  import opened Stateless
  import Tenant

  /** A StatelessTenantDB: a connection scoped to one user and the single-use `released` flag. */
  class StatelessTenantDB {
    const conn: Conn
    const userID: UserId
    const pool: StatelessPoolManager
    var released: bool

    /** The connection has been handed back (closed) exactly when the handle was released, and then once. */
    ghost predicate Valid()
      reads this, conn
    {
      conn.closeCount == if released then 1 else 0
    }

    constructor (conn: Conn, userID: UserId, pool: StatelessPoolManager)
      requires conn.closeCount == 0
      ensures Valid() && !released
      ensures this.conn == conn && this.userID == userID && this.pool == pool
    {
      this.conn, this.userID, this.pool := conn, userID, pool;
      released := false;
    }

    /** ExecContext: "connection has been released" on a released handle, without touching the connection. */
    method ExecContext(answer: Option<DbError>) returns (err: Option<DbError>)
      requires Valid()
      modifies conn`statements
      ensures Valid()
      ensures released ==> err == Some(ConnectionReleased) && conn.statements == old(conn.statements)
      ensures !released ==> err == answer && conn.statements == old(conn.statements) + 1
    {
      if released {
        return Some(ConnectionReleased);
      }
      err := conn.Run(answer);
    }

    /** QueryContext: the same guard as ExecContext. */
    method QueryContext(answer: Option<DbError>) returns (err: Option<DbError>)
      requires Valid()
      modifies conn`statements
      ensures Valid()
      ensures released ==> err == Some(ConnectionReleased) && conn.statements == old(conn.statements)
      ensures !released ==> err == answer && conn.statements == old(conn.statements) + 1
    {
      if released {
        return Some(ConnectionReleased);
      }
      err := conn.Run(answer);
    }

    /** QueryRowContext: the placeholder row on a released handle. */
    method QueryRowContext(answer: Option<DbError>) returns (row: Tenant.Row)
      requires Valid()
      modifies conn`statements
      ensures Valid()
      ensures released ==> row == Tenant.PlaceholderRow && conn.statements == old(conn.statements)
      ensures !released ==> row == Tenant.ConnRow(answer) && conn.statements == old(conn.statements) + 1
    {
      if released {
        return Tenant.PlaceholderRow;
      }
      var err := conn.Run(answer);
      row := Tenant.ConnRow(err);
    }

    /** BeginTx: the same guard as ExecContext. */
    method BeginTx(answer: Option<DbError>) returns (err: Option<DbError>)
      requires Valid()
      modifies conn`statements
      ensures Valid()
      ensures released ==> err == Some(ConnectionReleased) && conn.statements == old(conn.statements)
      ensures !released ==> err == answer && conn.statements == old(conn.statements) + 1
    {
      if released {
        return Some(ConnectionReleased);
      }
      err := conn.Run(answer);
    }

    /** Ping: guarded, and it pings the shared master pool (answer `masterPing`), not the connection. */
    method Ping(masterPing: Option<DbError>) returns (err: Option<DbError>)
      ensures err == if released then Some(ConnectionReleased) else masterPing
    {
      if released {
        return Some(ConnectionReleased);
      }
      err := masterPing;
    }

    /**
     * Release: the first call marks the handle released and hands the
     * connection to ReleaseConnection (its reset answers are `castOk` and
     * `resetOk`); later calls return nil, so ReleaseConnection runs at most once.
     */
    method Release(castOk: bool, resetOk: bool) returns (err: Option<DbError>)
      requires Valid()
      modifies this`released, conn
      ensures Valid() && released
      ensures conn.closeCount == 1 && conn.statements == old(conn.statements)
      ensures old(released) ==> err.None? && conn.userContext == old(conn.userContext)
      ensures !old(released) ==> err == if castOk then None else Some(ContextResetFailed)
      ensures !old(released) && castOk && resetOk ==> conn.userContext == None && conn.requestTimestamp == None
      ensures old(released) || !(castOk && resetOk) ==>
        conn.userContext == old(conn.userContext) && conn.requestTimestamp == old(conn.requestTimestamp)
      ensures old(released) ==> conn.closeCount == old(conn.closeCount)
    {
      if released {
        return None;
      }
      released := true;
      err := pool.ReleaseConnection(conn, castOk, resetOk);
    }

    /** WithTransaction: begin through the guard, run fn, commit only when fn succeeded. */
    method WithTransaction(beginAnswer: Option<DbError>, fnErr: Option<DbError>, commitErr: Option<DbError>) returns (t: TxRun)
      requires Valid()
      modifies conn`statements
      ensures Valid()
      ensures t == RunTransaction(if released then Some(ConnectionReleased) else beginAnswer, fnErr, commitErr)
      ensures released ==> !t.fnCalled && !t.commitCalled
      ensures conn.statements == old(conn.statements) + (if released then 0 else 1)
    {
      var begin := BeginTx(beginAnswer);
      t := RunTransaction(begin, fnErr, commitErr);
    }

    /** GetUserSession: the manager's GetUserSession for the handle's user. */
    method GetUserSession(now: int, redisUp: bool, connOk: bool, answer: DirectoryAnswer) returns (r: Result<UserSession, DbError>)
      modifies pool`cache, pool`metrics
      ensures old(pool.Hit(userID, now, redisUp)) ==>
        && r == Success(CachedSession(old(pool.cache), userID, now).value)
        && pool.metrics == old(pool.metrics).(RedisCacheHits := old(pool.metrics).RedisCacheHits + 1)
        && pool.cache == old(pool.cache)
      ensures !old(pool.Hit(userID, now, redisUp)) ==> r == SessionFromDB(userID, now, connOk, answer)
      ensures !old(pool.Hit(userID, now, redisUp)) && pool.hasRedis ==>
        pool.metrics == old(pool.metrics).(RedisCacheMisses := old(pool.metrics).RedisCacheMisses + 1)
      ensures !pool.hasRedis ==> pool.metrics == old(pool.metrics) && pool.cache == old(pool.cache)
      ensures pool.hasRedis && !redisUp ==> pool.cache == old(pool.cache)
      ensures !old(pool.Hit(userID, now, redisUp)) && pool.hasRedis && redisUp ==>
        pool.cache == if r.Success? then StoreSession(AfterLookup(old(pool.cache), userID, now), r.value) else AfterLookup(old(pool.cache), userID, now)
      ensures r.Success? ==> !Expired(r.value, now)
      ensures r.Success? && CacheKeyed(old(pool.cache)) ==> r.value.UserID == userID
      ensures CacheKeyed(old(pool.cache)) ==> CacheKeyed(pool.cache)
      ensures r == LookupAnswer(old(pool.cache), pool.hasRedis, redisUp, userID, now, connOk, answer)
      ensures pool.cache == LookupCache(old(pool.cache), pool.hasRedis, redisUp, userID, now, connOk, answer)
      ensures pool.metrics == LookupMetrics(old(pool.metrics), old(pool.cache), pool.hasRedis, redisUp, userID, now)
    {
      r := pool.GetUserSession(userID, now, redisUp, connOk, answer);
    }
  }

  /** The stateless NewTenantDB: lease a scoped connection from the shared pool and wrap it. */
  method NewTenantDB(spm: StatelessPoolManager, userID: UserId, now: int, elapsed: int, connOk: bool, setAnswer: SetAnswer, timestampOk: bool)
    returns (r: Result<StatelessTenantDB, DbError>)
    modifies spm`metrics
    ensures r.Success? <==> connOk && setAnswer == SetOk
    ensures r.Success? ==> spm.metrics == Recorded(old(spm.metrics), elapsed)
    ensures r.Failure? ==> spm.metrics == old(spm.metrics)
    ensures !connOk ==> r == Failure(PoolConnFailed)
    ensures connOk && setAnswer != SetOk ==> r == Failure(UserContextFailed(if setAnswer == SetCastRejected then CastFailed else SetFailed))
    ensures r.Success? ==>
      && fresh(r.value) && r.value.Valid() && !r.value.released
      && r.value.userID == userID && r.value.pool == spm
      && r.value.conn.userContext == Some(userID) && r.value.conn.source == spm.masterDB
  {
    var c;
    ghost var leased;
    c, leased := spm.GetTenantConnection(userID, now, elapsed, connOk, setAnswer, timestampOk);
    if c.Failure? {
      return Failure(c.error);
    }
    var t := new StatelessTenantDB(c.value, userID, spm);
    r := Success(t);
  }

  /** What the session says about a role request, read at `checkNow`. */
  datatype RoleVerdict = SessionStale | Verdict(granted: bool)

  /**
   * The checks of HasRole after the session is found: expired at the second
   * clock reading, then organisation, then role (an empty role matches any).
   */
  function RoleDecision(s: UserSession, orgID: OrgId, role: string, checkNow: int): (v: RoleVerdict)
  {
    if Expired(s, checkNow) then SessionStale
    else if s.OrgID != orgID then Verdict(false)
    else if role != "" && s.Role != role then Verdict(false)
    else Verdict(true)
  }

  /** The role is granted exactly for a live session of the same organisation whose role matches, or any role when none is asked. */
  lemma RoleDecisionGranted(s: UserSession, orgID: OrgId, role: string, checkNow: int)
    ensures RoleDecision(s, orgID, role, checkNow) == Verdict(true) <==>
      !Expired(s, checkNow) && s.OrgID == orgID && (role == "" || s.Role == role)
    ensures RoleDecision(s, orgID, role, checkNow) == SessionStale <==> Expired(s, checkNow)
  {
  }

  /** Asking for no particular role is never stricter than asking for the session's own role. */
  lemma EmptyRoleMatchesAny(s: UserSession, orgID: OrgId, role: string, checkNow: int)
    requires RoleDecision(s, orgID, role, checkNow) == Verdict(true)
    ensures RoleDecision(s, orgID, "", checkNow) == Verdict(true)
    ensures RoleDecision(s, orgID, s.Role, checkNow) == Verdict(true)
  {
  }

  /** What HasRole returns for a session it found. */
  function RoleAnswer(s: UserSession, orgID: OrgId, role: string, checkNow: int): (r: Result<bool, DbError>)
    ensures r.Failure? <==> Expired(s, checkNow)
    ensures r.Failure? ==> r.error == SessionExpired
  {
    match RoleDecision(s, orgID, role, checkNow)
    case SessionStale => Failure(SessionExpired)
    case Verdict(granted) => Success(granted)
  }

  /**
   * StatelessTenantOperations.HasRole: look the session up (at `now`), then
   * decide at the later reading `checkNow`; a stale session is invalidated
   * in the cache and reported as "session expired". A lookup error is
   * returned with the answer false.
   */
  method HasRole(spm: StatelessPoolManager, userID: UserId, orgID: OrgId, role: string, now: int, checkNow: int,
                 redisUp: bool, connOk: bool, answer: DirectoryAnswer) returns (r: Result<bool, DbError>)
    modifies spm`cache, spm`metrics
    ensures old(spm.Hit(userID, now, redisUp)) ==>
      r == RoleAnswer(CachedSession(old(spm.cache), userID, now).value, orgID, role, checkNow)
    ensures !old(spm.Hit(userID, now, redisUp)) ==>
      r == match SessionFromDB(userID, now, connOk, answer)
           case Failure(e) => Failure(e)
           case Success(s) => RoleAnswer(s, orgID, role, checkNow)
    ensures r == Failure(SessionExpired) ==> checkNow > now
    ensures r == Failure(SessionExpired) && spm.hasRedis && redisUp ==> CachedSession(spm.cache, userID, checkNow) == None
    ensures spm.metrics == LookupMetrics(old(spm.metrics), old(spm.cache), spm.hasRedis, redisUp, userID, now)
    ensures var s := LookupAnswer(old(spm.cache), spm.hasRedis, redisUp, userID, now, connOk, answer);
      var c := LookupCache(old(spm.cache), spm.hasRedis, redisUp, userID, now, connOk, answer);
      spm.cache == if s.Success? && Expired(s.value, checkNow) && spm.hasRedis && redisUp then Invalidate(c, userID) else c
  {
    var session := spm.GetUserSession(userID, now, redisUp, connOk, answer);
    if session.Failure? {
      return Failure(session.error);
    }
    if checkNow > session.value.ExpiresAt {
      var _ := spm.InvalidateUserSession(userID, redisUp);
      return Failure(SessionExpired);
    }
    if session.value.OrgID != orgID {
      return Success(false);
    }
    if role != "" && session.value.Role != role {
      return Success(false);
    }
    r := Success(true);
  }

  /** PreloadUserSession: GetUserSession for its effect on the cache, passing on only the error. */
  method PreloadUserSession(spm: StatelessPoolManager, userID: UserId, now: int, redisUp: bool, connOk: bool, answer: DirectoryAnswer)
    returns (err: Option<DbError>)
    modifies spm`cache, spm`metrics
    ensures err.None? <==> old(spm.Hit(userID, now, redisUp)) || SessionFromDB(userID, now, connOk, answer).Success?
    ensures spm.hasRedis && redisUp && err.None? ==> CachedSession(spm.cache, userID, now).Some?
    ensures spm.hasRedis ==> spm.metrics.RedisCacheHits + spm.metrics.RedisCacheMisses == old(spm.metrics.RedisCacheHits + spm.metrics.RedisCacheMisses) + 1
    ensures forall v :: v != userID ==> CachedSession(spm.cache, v, now) == CachedSession(old(spm.cache), v, now)
    ensures err == match LookupAnswer(old(spm.cache), spm.hasRedis, redisUp, userID, now, connOk, answer)
                   case Failure(e) => Some(e)
                   case Success(_) => None
    ensures spm.cache == LookupCache(old(spm.cache), spm.hasRedis, redisUp, userID, now, connOk, answer)
    ensures spm.metrics == LookupMetrics(old(spm.metrics), old(spm.cache), spm.hasRedis, redisUp, userID, now)
  {
    var r := spm.GetUserSession(userID, now, redisUp, connOk, answer);
    err := if r.Failure? then Some(r.error) else None;
    if r.Success? && spm.hasRedis && redisUp && !old(spm.Hit(userID, now, redisUp)) {
      StoreThenLookup(AfterLookup(old(spm.cache), userID, now), r.value, now);
    }
    forall v | v != userID
      ensures CachedSession(spm.cache, v, now) == CachedSession(old(spm.cache), v, now)
    {
      var stored := UserSession(userID, Uuids.Nil, "", 0);
      if r.Success? && r.value.UserID == userID {
        stored := r.value;
      }
      OtherUsersUnaffected(old(spm.cache), userID, v, stored, now, now);
      OtherUsersUnaffected(AfterLookup(old(spm.cache), userID, now), userID, v, stored, now, now);
    }
  }

  /** The cache and metrics after one GetUserSession per user of `users`, in order. */
  function PreloadedState(cache: map<string, CacheEntry>, m: PoolMetrics, hasRedis: bool, redisUp: bool, users: seq<UserId>,
                          now: int, connOk: UserId -> bool, directory: UserId -> DirectoryAnswer): (map<string, CacheEntry>, PoolMetrics)
    decreases |users|
  {
    if users == [] then (cache, m)
    else
      var prev := PreloadedState(cache, m, hasRedis, redisUp, users[..|users| - 1], now, connOk, directory);
      var u := users[|users| - 1];
      (LookupCache(prev.0, hasRedis, redisUp, u, now, connOk(u), directory(u)),
       LookupMetrics(prev.1, prev.0, hasRedis, redisUp, u, now))
  }

  /**
   * Preloading moves only the two cache counters, never down, and by one
   * lookup per user when there is a client; without a client nothing changes.
   */
  lemma {:induction false} PreloadCountsLookups(cache: map<string, CacheEntry>, m: PoolMetrics, hasRedis: bool, redisUp: bool,
                                                users: seq<UserId>, now: int, connOk: UserId -> bool, directory: UserId -> DirectoryAnswer)
    ensures var after := PreloadedState(cache, m, hasRedis, redisUp, users, now, connOk, directory).1;
      && after == m.(RedisCacheHits := after.RedisCacheHits, RedisCacheMisses := after.RedisCacheMisses)
      && after.RedisCacheHits >= m.RedisCacheHits && after.RedisCacheMisses >= m.RedisCacheMisses
      && (hasRedis ==> after.RedisCacheHits + after.RedisCacheMisses == m.RedisCacheHits + m.RedisCacheMisses + |users|)
    ensures !hasRedis ==> PreloadedState(cache, m, hasRedis, redisUp, users, now, connOk, directory) == (cache, m)
    decreases |users|
  {
    if users != [] {
      PreloadCountsLookups(cache, m, hasRedis, redisUp, users[..|users| - 1], now, connOk, directory);
    }
  }

  /**
   * BatchPreloadUserSessions: preload every user in order, counting the
   * successes (the count is only logged) and always returning nil. With a
   * reachable cache, every user preloaded successfully is cached at the end.
   */
  method BatchPreloadUserSessions(spm: StatelessPoolManager, userIDs: seq<UserId>, now: int, redisUp: bool,
                                  connOk: UserId -> bool, directory: UserId -> DirectoryAnswer)
    returns (err: Option<DbError>, successCount: nat)
    modifies spm`cache, spm`metrics
    ensures err.None? && successCount <= |userIDs|
    ensures (forall i :: 0 <= i < |userIDs| ==> SessionFromDB(userIDs[i], now, connOk(userIDs[i]), directory(userIDs[i])).Success?) ==>
      successCount == |userIDs|
    ensures spm.hasRedis ==> spm.metrics.RedisCacheHits + spm.metrics.RedisCacheMisses == old(spm.metrics.RedisCacheHits + spm.metrics.RedisCacheMisses) + |userIDs|
    ensures spm.hasRedis && redisUp ==> forall i :: 0 <= i < |userIDs| && SessionFromDB(userIDs[i], now, connOk(userIDs[i]), directory(userIDs[i])).Success? ==>
      CachedSession(spm.cache, userIDs[i], now).Some?
    ensures (spm.cache, spm.metrics) == PreloadedState(old(spm.cache), old(spm.metrics), spm.hasRedis, redisUp, userIDs, now, connOk, directory)
    ensures spm.metrics == old(spm.metrics).(RedisCacheHits := spm.metrics.RedisCacheHits, RedisCacheMisses := spm.metrics.RedisCacheMisses)
    ensures spm.metrics.RedisCacheHits >= old(spm.metrics.RedisCacheHits) && spm.metrics.RedisCacheMisses >= old(spm.metrics.RedisCacheMisses)
    ensures !spm.hasRedis ==> spm.cache == old(spm.cache) && spm.metrics == old(spm.metrics)
  {
    successCount := 0;
    for i := 0 to |userIDs|
      invariant successCount <= i
      invariant (forall j :: 0 <= j < i ==> SessionFromDB(userIDs[j], now, connOk(userIDs[j]), directory(userIDs[j])).Success?) ==> successCount == i
      invariant spm.hasRedis && redisUp ==> forall j :: 0 <= j < i && SessionFromDB(userIDs[j], now, connOk(userIDs[j]), directory(userIDs[j])).Success? ==>
        CachedSession(spm.cache, userIDs[j], now).Some?
      invariant (spm.cache, spm.metrics) == PreloadedState(old(spm.cache), old(spm.metrics), spm.hasRedis, redisUp, userIDs[..i], now, connOk, directory)
    {
      var u := userIDs[i];
      assert userIDs[..i + 1][..i] == userIDs[..i];
      var e := PreloadUserSession(spm, u, now, redisUp, connOk(u), directory(u));
      if e.None? {
        successCount := successCount + 1;
      }
    }
    assert userIDs[..|userIDs|] == userIDs;
    PreloadCountsLookups(old(spm.cache), old(spm.metrics), spm.hasRedis, redisUp, userIDs, now, connOk, directory);
    err := None;
  }
}
