/**
 * The dedicated tenant-pool manager of internal/database/pool.go, with
 * InvalidateUserPools and PreloadTenantPools (tenant.go) and GetHealth
 * (stats.go). One *sql.DB per user, created on first use after a directory
 * lookup, bounded by MaxTenantPools, touched on every lease and swept when
 * idle.
 */
module TenantPools {
  import opened Wrappers
  import opened Config
  import opened Driver
  import opened Stats

  /** A user's dedicated pool and what the directory said about the user. */
  datatype TenantPool = TenantPool(UserID: UserId, OrgID: OrgId, Role: string, DB: SqlPool, CreatedAt: int, LastUsed: int)

  /** The settings every tenant pool gets, smaller than the master pool's. */
  const TenantMaxOpenConns: int := 10
  const TenantMaxIdleConns: int := 2
  const TenantConnMaxLifetime: int := 30 * Minute
  const TenantConnMaxIdleTime: int := 5 * Minute

  /** The table may be empty whatever the limit; otherwise it holds at most `max` pools. */
  predicate WithinCapacity(count: int, max: int) {
    count == 0 || count <= max
  }

  /**
   * The error createTenantPool reports for `userID` when the table has the
   * keys `keys`, in the order the code checks: an existing pool is no error,
   * then the limit, then the directory lookup, then opening the database.
   */
  function CreateCheck(keys: set<UserId>, userID: UserId, max: int, answer: DirectoryAnswer, openOk: bool): (e: Option<DbError>)
    ensures userID in keys ==> e.None?
    ensures userID !in keys && |keys| >= max ==> e == Some(MaxTenantPoolsReached(max))
    ensures userID !in keys && e.None? ==> |keys| < max && answer.Membership? && openOk
  {
    if userID in keys then None
    else if |keys| >= max then Some(MaxTenantPoolsReached(max))
    else match answer
      case NoMembership => Some(OrgInfoFailed(NotInAnyOrganization))
      case DirectoryQueryFailed => Some(OrgInfoFailed(LookupQueryFailed))
      case Membership(_, _) => if openOk then None else Some(OpenTenantDatabaseFailed)
  }

  /** A successful creation never takes the table past its limit. */
  lemma CreateKeepsCapacity(keys: set<UserId>, userID: UserId, max: int, answer: DirectoryAnswer, openOk: bool)
    requires WithinCapacity(|keys|, max)
    requires CreateCheck(keys, userID, max, answer, openOk).None?
    ensures WithinCapacity(|keys + {userID}|, max)
  {
    if userID in keys {
      assert keys + {userID} == keys;
    }
  }

  /** A failed directory lookup is reported as such, whatever the database would have done. */
  lemma LookupFailureAddsNothing(keys: set<UserId>, userID: UserId, max: int, answer: DirectoryAnswer, openOk: bool)
    requires userID !in keys && |keys| < max && !answer.Membership?
    ensures CreateCheck(keys, userID, max, answer, openOk).Some?
    ensures answer.NoMembership? ==> CreateCheck(keys, userID, max, answer, openOk) == Some(OrgInfoFailed(NotInAnyOrganization))
  {
  }

  /** The record createTenantPool makes at `now` for a member of the directory. */
  predicate NewEntry(p: TenantPool, userID: UserId, answer: DirectoryAnswer, now: int) {
    && answer.Membership?
    && p.UserID == userID && p.OrgID == answer.org && p.Role == answer.role
    && p.CreatedAt == now && p.LastUsed == now
  }

  /** A just-opened tenant database: the tenant pool settings, nothing open, never closed. */
  predicate FreshDB(db: SqlPool)
    reads db
  {
    && db.maxOpenConns == TenantMaxOpenConns && db.maxIdleConns == TenantMaxIdleConns
    && db.connMaxLifetime == TenantConnMaxLifetime && db.connMaxIdleTime == TenantConnMaxIdleTime
    && db.openConnections == 0 && db.closeCount == 0
  }

  /**
   * How a lease for `userID` at `now` changes the table: the user's entry is
   * there with LastUsed = now (an existing one otherwise unchanged, a new one
   * made from the directory's answer) and every other entry is untouched.
   */
  predicate TouchedTable(before: map<UserId, TenantPool>, after: map<UserId, TenantPool>, userID: UserId, answer: DirectoryAnswer, now: int)
  {
    && after.Keys == before.Keys + {userID}
    && after[userID].LastUsed == now
    && (forall u :: u in before && u != userID ==> after[u] == before[u])
    && (userID in before ==> after[userID] == before[userID].(LastUsed := now))
    && (userID !in before ==> NewEntry(after[userID], userID, answer, now))
  }

  /**
   * `after` keeps every entry of `before` and every other entry is a pool
   * made at `now` from the directory's answer for its user.
   */
  predicate GrownBy(before: map<UserId, TenantPool>, after: map<UserId, TenantPool>, directory: UserId -> DirectoryAnswer, now: int)
  {
    && (forall u :: u in before ==> u in after && after[u] == before[u])
    && (forall u :: u in after && u !in before ==> NewEntry(after[u], u, directory(u), now))
  }

  lemma GrownByStep(before: map<UserId, TenantPool>, mid: map<UserId, TenantPool>, after: map<UserId, TenantPool>,
                    directory: UserId -> DirectoryAnswer, now: int, userID: UserId)
    requires GrownBy(before, mid, directory, now)
    requires after == mid || (userID !in mid && userID in after && after == mid[userID := after[userID]] && NewEntry(after[userID], userID, directory(userID), now))
    ensures GrownBy(before, after, directory, now)
  {
  }

  /** The sweep's test: strictly longer than the timeout since the last lease. */
  predicate IsIdle(p: TenantPool, now: int, timeout: int) {
    now - p.LastUsed > timeout
  }

  /** The table cleanupIdlePools leaves behind. */
  function Survivors(pools: map<UserId, TenantPool>, now: int, timeout: int): (s: map<UserId, TenantPool>)
  {
    map u | u in pools && !IsIdle(pools[u], now, timeout) :: pools[u]
  }

  /** The sweep removes exactly the idle entries and leaves every other one as it was. */
  lemma SurvivorsExact(pools: map<UserId, TenantPool>, now: int, timeout: int)
    ensures forall u :: u in Survivors(pools, now, timeout) <==> u in pools && now - pools[u].LastUsed <= timeout
    ensures forall u :: u in Survivors(pools, now, timeout) ==> Survivors(pools, now, timeout)[u] == pools[u]
    ensures |Survivors(pools, now, timeout)| <= |pools|
  {
    SubmapCard(Survivors(pools, now, timeout), pools);
  }

  /** The table part-way through the sweep: `remaining` not yet looked at, idle entries among the rest gone. */
  ghost predicate SweptExcept(pools: map<UserId, TenantPool>, current: map<UserId, TenantPool>, remaining: set<UserId>, now: int, timeout: int) {
    && current.Keys <= pools.Keys
    && (forall u :: u in current ==> current[u] == pools[u])
    && (forall u :: u in pools ==> (u in current <==> u in remaining || !IsIdle(pools[u], now, timeout)))
  }

  lemma SweepStep(pools: map<UserId, TenantPool>, current: map<UserId, TenantPool>, remaining: set<UserId>, now: int, timeout: int, u: UserId)
    requires SweptExcept(pools, current, remaining, now, timeout) && u in remaining && remaining <= pools.Keys
    ensures u in current && current[u] == pools[u]
    ensures SweptExcept(pools, if IsIdle(pools[u], now, timeout) then current - {u} else current, remaining - {u}, now, timeout)
  {
  }

  lemma SweepDone(pools: map<UserId, TenantPool>, current: map<UserId, TenantPool>, now: int, timeout: int)
    requires SweptExcept(pools, current, {}, now, timeout)
    ensures current == Survivors(pools, now, timeout)
  {
  }

  /** A pool leased at `t` survives every sweep up to `t + timeout`, the boundary included. */
  lemma LeaseResetsIdleClock(pools: map<UserId, TenantPool>, u: UserId, t: int, now: int, timeout: int)
    requires u in pools && now <= t + timeout
    ensures u in Survivors(pools[u := pools[u].(LastUsed := t)], now, timeout)
  {
  }

  /** Sweeping twice at the same instant removes nothing more. */
  lemma SweepIdempotent(pools: map<UserId, TenantPool>, now: int, timeout: int)
    ensures Survivors(Survivors(pools, now, timeout), now, timeout) == Survivors(pools, now, timeout)
  {
  }

  /** One step of PreloadTenantPools: the keys after createTenantPool(u). */
  function PreloadStep(keys: set<UserId>, u: UserId, max: int, directory: UserId -> DirectoryAnswer, openOk: bool): set<UserId>
  {
    if CreateCheck(keys, u, max, directory(u), openOk).None? then keys + {u} else keys
  }

  /** The keys after createTenantPool has run for every user of `users`, in order. */
  function PreloadKeys(keys: set<UserId>, users: seq<UserId>, max: int, directory: UserId -> DirectoryAnswer, openOk: bool): set<UserId>
    decreases |users|
  {
    if users == [] then keys
    else PreloadStep(PreloadKeys(keys, users[..|users| - 1], max, directory, openOk), users[|users| - 1], max, directory, openOk)
  }

  /** Preloading one more user is one more PreloadStep. */
  lemma PreloadKeysSnoc(keys: set<UserId>, users: seq<UserId>, u: UserId, max: int, directory: UserId -> DirectoryAnswer, openOk: bool)
    ensures PreloadKeys(keys, users + [u], max, directory, openOk) == PreloadStep(PreloadKeys(keys, users, max, directory, openOk), u, max, directory, openOk)
  {
    assert (users + [u])[..|users|] == users;
  }

  /** Preloading keeps every existing key and adds only users from the list. */
  lemma {:induction false} PreloadAddsOnlyListedUsers(keys: set<UserId>, users: seq<UserId>, max: int, directory: UserId -> DirectoryAnswer, openOk: bool)
    ensures keys <= PreloadKeys(keys, users, max, directory, openOk)
    ensures forall u :: u in PreloadKeys(keys, users, max, directory, openOk) ==> u in keys || u in users
    decreases |users|
  {
    if users != [] {
      var init := users[..|users| - 1];
      PreloadAddsOnlyListedUsers(keys, init, max, directory, openOk);
      forall u | u in init ensures u in users {
        var i :| 0 <= i < |init| && init[i] == u;
        assert users[i] == u;
      }
    }
  }

  /** Preloading never takes the table past its limit. */
  lemma {:induction false} PreloadWithinCapacity(keys: set<UserId>, users: seq<UserId>, max: int, directory: UserId -> DirectoryAnswer, openOk: bool)
    requires WithinCapacity(|keys|, max)
    ensures WithinCapacity(|PreloadKeys(keys, users, max, directory, openOk)|, max)
    decreases |users|
  {
    if users != [] {
      var init := users[..|users| - 1];
      PreloadWithinCapacity(keys, init, max, directory, openOk);
      var before := PreloadKeys(keys, init, max, directory, openOk);
      var u := users[|users| - 1];
      if CreateCheck(before, u, max, directory(u), openOk).None? {
        CreateKeepsCapacity(before, u, max, directory(u), openOk);
      }
    }
  }

  /** A user the directory does not list as a member is never preloaded. */
  lemma {:induction false} PreloadSkipsNonMembers(keys: set<UserId>, users: seq<UserId>, max: int, directory: UserId -> DirectoryAnswer, openOk: bool, u: UserId)
    requires u !in keys && !directory(u).Membership?
    ensures u !in PreloadKeys(keys, users, max, directory, openOk)
    decreases |users|
  {
    if users != [] {
      PreloadSkipsNonMembers(keys, users[..|users| - 1], max, directory, openOk, u);
    }
  }

  /** With room for everyone and every user a member, preloading creates a pool for every listed user. */
  lemma {:induction false} PreloadCreatesAllWhenRoom(keys: set<UserId>, users: seq<UserId>, max: int, directory: UserId -> DirectoryAnswer, openOk: bool)
    requires openOk
    requires forall u :: u in users ==> directory(u).Membership?
    requires |keys + set u | u in users| <= max
    ensures PreloadKeys(keys, users, max, directory, openOk) == keys + set u | u in users
    decreases |users|
  {
    if users != [] {
      var init := users[..|users| - 1];
      var last := users[|users| - 1];
      assert users == init + [last];
      var all := keys + set u | u in users;
      var before := keys + set u | u in init;
      assert before + {last} == all;
      SubsetCard(before, all);
      PreloadCreatesAllWhenRoom(keys, init, max, directory, openOk);
      if last !in before {
        SubsetCard(before + {last}, all);
      }
    }
  }

  /** The Go error messages of the dedicated manager's health check, in the order they are appended. */
  function DedicatedHealthErrors(masterPing: Option<string>, overLimit: bool): (errs: seq<string>)
    ensures |errs| <= 2
    ensures errs == [] <==> masterPing.None? && !overLimit
  {
    (if masterPing.Some? then ["Master database ping failed: " + masterPing.value] else [])
    + (if overLimit then ["Too many open connections"] else [])
  }

  /** No two users share a *sql.DB. */
  ghost predicate DistinctDBs(pools: map<UserId, TenantPool>) {
    forall u, v :: u in pools && v in pools && u != v ==> pools[u].DB != pools[v].DB
  }

  /**
   * The invariant of the pool table: every entry is filed under its own
   * user, no two users share a pool, no tenant pool is the master pool, and
   * the table respects the limit.
   */
  ghost predicate ValidTable(pools: map<UserId, TenantPool>, master: SqlPool, max: int) {
    && (forall u :: u in pools ==> pools[u].UserID == u)
    && DistinctDBs(pools)
    && (forall u :: u in pools ==> pools[u].DB != master)
    && WithinCapacity(|pools|, max)
  }

  /** Dropping entries (the sweep, invalidation, Close) keeps the invariant. */
  lemma ValidTableSubmap(small: map<UserId, TenantPool>, pools: map<UserId, TenantPool>, master: SqlPool, max: int)
    requires ValidTable(pools, master, max)
    requires small.Keys <= pools.Keys && forall u :: u in small ==> small[u] == pools[u]
    ensures ValidTable(small, master, max)
  {
    SubmapCard(small, pools);
  }

  /** Marking an entry used keeps the invariant. */
  lemma ValidTableTouch(pools: map<UserId, TenantPool>, master: SqlPool, max: int, u: UserId, now: int)
    requires ValidTable(pools, master, max) && u in pools
    ensures ValidTable(pools[u := pools[u].(LastUsed := now)], master, max)
  {
    assert pools[u := pools[u].(LastUsed := now)].Keys == pools.Keys;
  }

  /** Adding a pool of a database nobody else uses keeps the invariant while there is room. */
  lemma ValidTableInsert(pools: map<UserId, TenantPool>, master: SqlPool, max: int, p: TenantPool)
    requires ValidTable(pools, master, max)
    requires p.UserID !in pools && |pools| < max
    requires p.DB != master && forall u :: u in pools ==> pools[u].DB != p.DB
    ensures ValidTable(pools[p.UserID := p], master, max)
  {
  }

  /** setUserContext: SET LOCAL app.current_user_id through the driver connection. */
  method SetUserContext(conn: Conn, userID: UserId, answer: SetAnswer) returns (err: Option<ContextFailure>)
    modifies conn`userContext
    ensures answer == SetOk ==> err.None? && conn.userContext == Some(userID)
    ensures answer == SetCastRejected ==> err == Some(CastFailed) && conn.userContext == old(conn.userContext)
    ensures answer == SetRejected ==> err == Some(SetFailed) && conn.userContext == old(conn.userContext)
  {
    match answer {
      case SetCastRejected => err := Some(CastFailed);
      case SetRejected => err := Some(SetFailed);
      case SetOk =>
        conn.userContext := Some(userID);
        err := None;
    }
  }

  /**
   * The tail of GetTenantConnection once a connection is leased from `db`:
   * set the user context, and on failure close the connection and return
   * the error, so an unscoped connection never escapes.
   */
  method LeaseScoped(db: SqlPool, userID: UserId, setAnswer: SetAnswer) returns (r: Result<Conn, DbError>, ghost leased: Conn)
    ensures fresh(leased) && leased.source == db
    ensures r.Success? <==> setAnswer == SetOk
    ensures r.Success? ==> r.value == leased && leased.userContext == Some(userID) && leased.closeCount == 0
    ensures r.Failure? ==>
      && r.error == UserContextFailed(if setAnswer == SetCastRejected then CastFailed else SetFailed)
      && leased.closeCount == 1 && leased.userContext == None
  {
    var conn := new Conn(db);
    leased := conn;
    var setErr := SetUserContext(conn, userID, setAnswer);
    if setErr.Some? {
      var _ := conn.Close();
      return Failure(UserContextFailed(setErr.value)), conn;
    }
    r := Success(conn);
  }

  class PoolManager {
    const config: Database
    const masterDB: SqlPool
    var tenantPools: map<UserId, TenantPool>

    /** The table invariant, on the current table. */
    ghost predicate Valid()
      reads this
    {
      ValidTable(tenantPools, masterDB, config.MaxTenantPools)
    }

    ghost function Pools(): set<SqlPool>
      reads this
    {
      set u | u in tenantPools :: tenantPools[u].DB
    }

    /** The pools the sweep at `now` closes. */
    ghost function IdlePools(now: int): set<SqlPool>
      reads this
    {
      set u | u in tenantPools && IsIdle(tenantPools[u], now, config.PoolIdleTimeout) :: tenantPools[u].DB
    }

    /** OpenConnections of every tenant pool, by user. */
    ghost function OpenCounts(): map<UserId, nat>
      reads this, Pools()
    {
      map u | u in tenantPools :: tenantPools[u].DB.openConnections
    }

    /** The connection count above which the health check complains. */
    function ConnectionLimit(): int {
      config.MaxOpenConns + config.MaxTenantPools * TenantMaxOpenConns
    }

    /** NewPoolManager, given the master pool createMasterConnection opened; the cleanup ticker is not modelled. */
    constructor (cfg: Database, master: SqlPool)
      ensures Valid()
      ensures config == cfg && masterDB == master && tenantPools == map[]
    {
      config := cfg;
      masterDB := master;
      tenantPools := map[];
    }

    /** createTenantPool, given the directory's answer for the user and whether sql.Open succeeds. */
    method CreateTenantPool(userID: UserId, now: int, answer: DirectoryAnswer, openOk: bool) returns (r: Result<TenantPool, DbError>)
      requires Valid()
      modifies this
      ensures Valid()
      ensures r.Failure? <==> CreateCheck(old(tenantPools).Keys, userID, config.MaxTenantPools, answer, openOk).Some?
      ensures r.Failure? ==> r.error == CreateCheck(old(tenantPools).Keys, userID, config.MaxTenantPools, answer, openOk).value && tenantPools == old(tenantPools)
      ensures userID in old(tenantPools) ==> r == Success(old(tenantPools)[userID]) && tenantPools == old(tenantPools)
      ensures r.Success? && userID !in old(tenantPools) ==>
        && tenantPools == old(tenantPools)[userID := r.value]
        && fresh(r.value.DB)
        && NewEntry(r.value, userID, answer, now) && FreshDB(r.value.DB)
    {
      if userID in tenantPools {
        return Success(tenantPools[userID]);
      }
      if |tenantPools| >= config.MaxTenantPools {
        return Failure(MaxTenantPoolsReached(config.MaxTenantPools));
      }
      var org: OrgId, role: string;
      match answer {
        case NoMembership => return Failure(OrgInfoFailed(NotInAnyOrganization));
        case DirectoryQueryFailed => return Failure(OrgInfoFailed(LookupQueryFailed));
        case Membership(o, ro) => org, role := o, ro;
      }
      if !openOk {
        return Failure(OpenTenantDatabaseFailed);
      }
      var pool := InsertPool(userID, org, role, now);
      r := Success(pool);
    }

    /** The last step of createTenantPool: open the tenant database with the tenant settings and file the record. */
    method InsertPool(userID: UserId, org: OrgId, role: string, now: int) returns (pool: TenantPool)
      requires Valid() && userID !in tenantPools && |tenantPools| < config.MaxTenantPools
      modifies this`tenantPools
      ensures Valid() && tenantPools == old(tenantPools)[userID := pool]
      ensures pool == TenantPool(userID, org, role, pool.DB, now, now) && fresh(pool.DB) && FreshDB(pool.DB)
    {
      var db := new SqlPool(TenantMaxOpenConns, TenantMaxIdleConns, TenantConnMaxLifetime, TenantConnMaxIdleTime);
      pool := TenantPool(userID, org, role, db, now, now);
      ValidTableInsert(tenantPools, masterDB, config.MaxTenantPools, pool);
      tenantPools := tenantPools[userID := pool];
    }

    /**
     * The first half of GetTenantConnection: find the user's pool or create
     * it, then mark it used at `now`.
     */
    method AcquirePool(userID: UserId, now: int, answer: DirectoryAnswer, openOk: bool) returns (r: Result<TenantPool, DbError>)
      requires Valid()
      modifies this
      ensures Valid()
      ensures r.Failure? <==> CreateCheck(old(tenantPools).Keys, userID, config.MaxTenantPools, answer, openOk).Some?
      ensures r.Failure? ==> r.error == CreateCheck(old(tenantPools).Keys, userID, config.MaxTenantPools, answer, openOk).value && tenantPools == old(tenantPools)
      ensures r.Success? ==>
        && TouchedTable(old(tenantPools), tenantPools, userID, answer, now)
        && r.value == tenantPools[userID]
        && (userID !in old(tenantPools) ==> fresh(r.value.DB))
    {
      if userID !in tenantPools {
        var created := CreateTenantPool(userID, now, answer, openOk);
        if created.Failure? {
          return created;
        }
      }
      Touch(userID, now);
      r := Success(tenantPools[userID]);
    }

    /** Mark the user's pool used at `now`. */
    method Touch(userID: UserId, now: int)
      requires Valid() && userID in tenantPools
      modifies this`tenantPools
      ensures Valid()
      ensures tenantPools == old(tenantPools)[userID := old(tenantPools)[userID].(LastUsed := now)]
    {
      ValidTableTouch(tenantPools, masterDB, config.MaxTenantPools, userID, now);
      tenantPools := tenantPools[userID := tenantPools[userID].(LastUsed := now)];
    }

    /**
     * GetTenantConnection: find or create the user's pool, mark it used at
     * `now`, lease a connection (`connOk`) and scope it to the user
     * (`setAnswer`); a connection whose scoping failed is closed, never handed out.
     */
    method GetTenantConnection(userID: UserId, now: int, answer: DirectoryAnswer, openOk: bool, connOk: bool, setAnswer: SetAnswer)
      returns (r: Result<Conn, DbError>, ghost leased: Conn?)
      requires Valid()
      modifies this
      ensures Valid()
      ensures CreateCheck(old(tenantPools).Keys, userID, config.MaxTenantPools, answer, openOk).Some? ==>
        r == Failure(CreateCheck(old(tenantPools).Keys, userID, config.MaxTenantPools, answer, openOk).value) && tenantPools == old(tenantPools) && leased == null
      ensures CreateCheck(old(tenantPools).Keys, userID, config.MaxTenantPools, answer, openOk).None? ==>
        && TouchedTable(old(tenantPools), tenantPools, userID, answer, now)
        && (userID !in old(tenantPools) ==> fresh(tenantPools[userID].DB))
      ensures CreateCheck(old(tenantPools).Keys, userID, config.MaxTenantPools, answer, openOk).None? && !connOk ==> r == Failure(TenantConnFailed) && leased == null
      ensures CreateCheck(old(tenantPools).Keys, userID, config.MaxTenantPools, answer, openOk).None? && connOk ==>
        && leased != null && fresh(leased)
        && leased.source == tenantPools[userID].DB
        && (r.Success? <==> setAnswer == SetOk)
      ensures r.Success? ==> leased == r.value && r.value.userContext == Some(userID) && r.value.closeCount == 0
      ensures r.Failure? && leased != null ==>
        && r.error == UserContextFailed(if setAnswer == SetCastRejected then CastFailed else SetFailed)
        && leased.closeCount == 1 && leased.userContext == None
    {
      var acquired := AcquirePool(userID, now, answer, openOk);
      if acquired.Failure? {
        return Failure(acquired.error), null;
      }
      if !connOk {
        return Failure(TenantConnFailed), null;
      }
      r, leased := LeaseScoped(acquired.value.DB, userID, setAnswer);
    }

    /** The loop of Close: close every tenant pool's database; `allOk` says whether every close succeeded. */
    method CloseTenantPools(tenantCloseOk: UserId -> bool) returns (allOk: bool)
      requires DistinctDBs(tenantPools)
      modifies Pools()`closeCount
      ensures forall u :: u in tenantPools ==> tenantPools[u].DB.closeCount == old(tenantPools[u].DB.closeCount) + 1
      ensures allOk <==> forall u :: u in tenantPools ==> tenantCloseOk(u)
    {
      ghost var before := map u | u in tenantPools :: tenantPools[u].DB.closeCount;
      ghost var all := Pools();
      var remaining := tenantPools.Keys;
      allOk := true;
      while remaining != {}
        invariant remaining <= tenantPools.Keys
        invariant ClosedExcept(before, remaining)
        invariant allOk <==> forall u :: u in tenantPools && u !in remaining ==> tenantCloseOk(u)
        decreases remaining
      {
        var u :| u in remaining;
        assert tenantPools[u].DB in all;
        CloseEntry(u, before, remaining);
        allOk := allOk && tenantCloseOk(u);
        remaining := remaining - {u};
      }
    }

    /** Close part-way through: every pool outside `remaining` closed once more than at the start. */
    ghost predicate ClosedExcept(before: map<UserId, nat>, remaining: set<UserId>)
      reads this, Pools()
    {
      && before.Keys == tenantPools.Keys
      && DistinctDBs(tenantPools)
      && forall u :: u in tenantPools ==> tenantPools[u].DB.closeCount == before[u] + (if u in remaining then 0 else 1)
    }

    /** One iteration of CloseTenantPools: close the database of `u`. */
    method CloseEntry(u: UserId, ghost before: map<UserId, nat>, ghost remaining: set<UserId>)
      requires ClosedExcept(before, remaining) && u in remaining && u in tenantPools
      modifies tenantPools[u].DB`closeCount
      ensures ClosedExcept(before, remaining - {u})
    {
      tenantPools[u].DB.Close();
    }

    /**
     * Close: close every tenant pool and then the master, report an error
     * if any close failed (`tenantCloseOk`, `masterCloseOk`), empty the table.
     */
    method Close(tenantCloseOk: UserId -> bool, masterCloseOk: bool) returns (err: Option<DbError>)
      requires Valid()
      modifies this`tenantPools, Pools()`closeCount, masterDB`closeCount
      ensures Valid() && tenantPools == map[]
      ensures forall u :: u in old(tenantPools) ==> old(tenantPools)[u].DB.closeCount == old(tenantPools[u].DB.closeCount) + 1
      ensures forall u :: u in old(tenantPools) ==> old(tenantPools)[u].DB.OnlyCloseCountChanged()
      ensures masterDB.closeCount == old(masterDB.closeCount) + 1
      ensures masterDB.OnlyCloseCountChanged()
      ensures err.None? <==> masterCloseOk && forall u :: u in old(tenantPools) ==> tenantCloseOk(u)
      ensures err.Some? ==> err == Some(CloseFailed)
    {
      var tenantsOk := CloseTenantPools(tenantCloseOk);
      masterDB.Close();
      err := if tenantsOk && masterCloseOk then None else Some(CloseFailed);
      tenantPools := map[];
    }

    /** The TenantStats entry GetStats reports for a pool. */
    static function StatsOf(p: TenantPool): TenantPoolStats {
      TenantPoolStats(p.UserID, p.OrgID, p.Role, p.CreatedAt, p.LastUsed)
    }

    /**
     * GetStats part-way through: `entries` reports the pools of `order`, a
     * list of the distinct users already visited, in visiting order.
     */
    static ghost predicate StatsSoFar(pools: map<UserId, TenantPool>, entries: seq<TenantPoolStats>, order: seq<UserId>, remaining: set<UserId>) {
      && remaining <= pools.Keys
      && |entries| == |order| && |order| + |remaining| == |pools|
      && (forall i :: 0 <= i < |order| ==> order[i] in pools && order[i] !in remaining)
      && (forall i :: 0 <= i < |order| ==> entries[i] == StatsOf(pools[order[i]]))
      && (forall i, j :: 0 <= i < j < |order| ==> order[i] != order[j])
      && (forall u :: u in pools && u !in remaining ==> u in order)
    }

    static lemma StatsStep(pools: map<UserId, TenantPool>, entries: seq<TenantPoolStats>, order: seq<UserId>, remaining: set<UserId>, u: UserId)
      requires StatsSoFar(pools, entries, order, remaining) && u in remaining
      ensures StatsSoFar(pools, entries + [StatsOf(pools[u])], order + [u], remaining - {u})
    {
    }

    static lemma StatsDone(pools: map<UserId, TenantPool>, entries: seq<TenantPoolStats>, order: seq<UserId>)
      requires StatsSoFar(pools, entries, order, {})
      requires forall u :: u in pools ==> pools[u].UserID == u
      ensures |entries| == |pools|
      ensures forall i :: 0 <= i < |entries| ==> entries[i].UserID in pools && entries[i] == StatsOf(pools[entries[i].UserID])
      ensures forall i, j :: 0 <= i < j < |entries| ==> entries[i].UserID != entries[j].UserID
      ensures forall u :: u in pools ==> exists i :: 0 <= i < |entries| && entries[i].UserID == u
    {
      forall u | u in pools
        ensures exists i :: 0 <= i < |entries| && entries[i].UserID == u
      {
        var i :| 0 <= i < |order| && order[i] == u;
        assert entries[i].UserID == u;
      }
    }

    /** GetStats: the table size, the limit, and one entry per pool, in map order. */
    method GetStats() returns (stats: PoolStats)
      requires Valid()
      ensures stats.TotalTenantPools == |tenantPools| && stats.MaxTenantPools == config.MaxTenantPools
      ensures |stats.TenantStats| == |tenantPools|
      ensures forall i :: 0 <= i < |stats.TenantStats| ==>
        stats.TenantStats[i].UserID in tenantPools && stats.TenantStats[i] == StatsOf(tenantPools[stats.TenantStats[i].UserID])
      ensures forall i, j :: 0 <= i < j < |stats.TenantStats| ==> stats.TenantStats[i].UserID != stats.TenantStats[j].UserID
      ensures forall u :: u in tenantPools ==> exists i :: 0 <= i < |stats.TenantStats| && stats.TenantStats[i].UserID == u
    {
      var entries: seq<TenantPoolStats> := [];
      var remaining := tenantPools.Keys;
      ghost var order: seq<UserId> := [];
      while remaining != {}
        invariant StatsSoFar(tenantPools, entries, order, remaining)
        decreases remaining
      {
        var u :| u in remaining;
        StatsStep(tenantPools, entries, order, remaining, u);
        entries := entries + [StatsOf(tenantPools[u])];
        order := order + [u];
        remaining := remaining - {u};
      }
      StatsDone(tenantPools, entries, order);
      stats := PoolStats(|tenantPools|, config.MaxTenantPools, entries);
    }

    /** cleanupIdlePools at `now`: close and drop every pool idle strictly longer than PoolIdleTimeout. */
    method CleanupIdlePools(now: int)
      requires Valid()
      modifies this, IdlePools(now)
      ensures Valid()
      ensures tenantPools == Survivors(old(tenantPools), now, config.PoolIdleTimeout)
      ensures forall u :: u in old(tenantPools) && IsIdle(old(tenantPools)[u], now, config.PoolIdleTimeout) ==>
        old(tenantPools)[u].DB.closeCount == old(tenantPools[u].DB.closeCount) + 1
    {
      ghost var pools := tenantPools;
      ghost var before := map u | u in pools :: pools[u].DB.closeCount;
      ghost var idle := IdlePools(now);
      var remaining := tenantPools.Keys;
      while remaining != {}
        invariant SweepState(pools, before, remaining, now)
        decreases remaining
      {
        var u :| u in remaining;
        assert IsIdle(pools[u], now, config.PoolIdleTimeout) ==> pools[u].DB in idle;
        SweepEntry(u, now, pools, before, remaining);
        remaining := remaining - {u};
      }
      SweepDone(pools, tenantPools, now, config.PoolIdleTimeout);
      ValidTableSubmap(tenantPools, pools, masterDB, config.MaxTenantPools);
    }

    /**
     * The sweep part-way through: `remaining` not looked at yet; every
     * other pool closed once if idle and untouched if not.
     */
    ghost predicate SweepState(pools: map<UserId, TenantPool>, before: map<UserId, nat>, remaining: set<UserId>, now: int)
      reads this, set u | u in pools :: pools[u].DB
    {
      && remaining <= pools.Keys && before.Keys == pools.Keys
      && DistinctDBs(pools)
      && SweptExcept(pools, tenantPools, remaining, now, config.PoolIdleTimeout)
      && (forall u :: u in pools ==>
            pools[u].DB.closeCount == before[u] + (if u !in remaining && IsIdle(pools[u], now, config.PoolIdleTimeout) then 1 else 0))
    }

    /** One iteration of the sweep: look at `u`, drop it if idle. */
    method SweepEntry(u: UserId, now: int, ghost pools: map<UserId, TenantPool>, ghost before: map<UserId, nat>, ghost remaining: set<UserId>)
      requires SweepState(pools, before, remaining, now) && u in remaining
      modifies this`tenantPools, if IsIdle(pools[u], now, config.PoolIdleTimeout) then {pools[u].DB} else {}
      ensures SweepState(pools, before, remaining - {u}, now)
    {
      SweepStep(pools, tenantPools, remaining, now, config.PoolIdleTimeout, u);
      if IsIdle(tenantPools[u], now, config.PoolIdleTimeout) {
        DropPool(u);
      }
    }

    /** Close a user's pool and drop it from the table: the step shared by the sweep and invalidation. */
    method DropPool(userID: UserId)
      requires userID in tenantPools
      modifies this`tenantPools, tenantPools[userID].DB
      ensures tenantPools == old(tenantPools) - {userID}
      ensures old(tenantPools)[userID].DB.closeCount == old(tenantPools[userID].DB.closeCount) + 1
    {
      tenantPools[userID].DB.Close();
      tenantPools := tenantPools - {userID};
    }

    /** InvalidateUserPools: close and drop the user's pool, if there is one. */
    method InvalidateUserPools(userID: UserId)
      requires Valid()
      modifies this, if userID in tenantPools then {tenantPools[userID].DB} else {}
      ensures Valid()
      ensures tenantPools == old(tenantPools) - {userID}
      ensures userID in old(tenantPools) ==>
        old(tenantPools)[userID].DB.closeCount == old(tenantPools[userID].DB.closeCount) + 1
    {
      if userID in tenantPools {
        tenantPools[userID].DB.Close();
        ValidTableSubmap(tenantPools - {userID}, tenantPools, masterDB, config.MaxTenantPools);
        tenantPools := tenantPools - {userID};
      }
    }

    /** PreloadTenantPools: createTenantPool for each user in order, failures ignored, always nil. */
    method PreloadTenantPools(userIDs: seq<UserId>, now: int, directory: UserId -> DirectoryAnswer, openOk: bool) returns (err: Option<DbError>)
      requires Valid()
      modifies this
      ensures Valid() && err.None?
      ensures tenantPools.Keys == PreloadKeys(old(tenantPools).Keys, userIDs, config.MaxTenantPools, directory, openOk)
      ensures GrownBy(old(tenantPools), tenantPools, directory, now)
    {
      for i := 0 to |userIDs|
        invariant Valid()
        invariant tenantPools.Keys == PreloadKeys(old(tenantPools).Keys, userIDs[..i], config.MaxTenantPools, directory, openOk)
        invariant GrownBy(old(tenantPools), tenantPools, directory, now)
      {
        assert userIDs[..i + 1] == userIDs[..i] + [userIDs[i]];
        PreloadOne(userIDs[i], now, directory, openOk, old(tenantPools), userIDs[..i]);
      }
      assert userIDs[..|userIDs|] == userIDs;
      err := None;
    }

    /** One iteration of PreloadTenantPools: create (or find) the pool of `userID`, ignoring any error. */
    method PreloadOne(userID: UserId, now: int, directory: UserId -> DirectoryAnswer, openOk: bool,
                      ghost start: map<UserId, TenantPool>, ghost prefix: seq<UserId>)
      requires Valid()
      requires tenantPools.Keys == PreloadKeys(start.Keys, prefix, config.MaxTenantPools, directory, openOk)
      requires GrownBy(start, tenantPools, directory, now)
      modifies this
      ensures Valid()
      ensures tenantPools.Keys == PreloadKeys(start.Keys, prefix + [userID], config.MaxTenantPools, directory, openOk)
      ensures GrownBy(start, tenantPools, directory, now)
    {
      ghost var mid := tenantPools;
      PreloadKeysSnoc(start.Keys, prefix, userID, config.MaxTenantPools, directory, openOk);
      var created := CreateTenantPool(userID, now, directory(userID), openOk);
      if created.Success? && userID !in mid {
        assert tenantPools.Keys == mid.Keys + {userID};
      }
      GrownByStep(start, mid, tenantPools, directory, now, userID);
    }

    /** The connection count of the health check: every tenant pool's OpenConnections, then the master's. */
    method TotalOpenConnections() returns (total: int)
      ensures total == SumValues(OpenCounts()) + masterDB.openConnections
    {
      total := 0;
      var remaining := tenantPools.Keys;
      assert Restrict(OpenCounts(), remaining) == OpenCounts();
      while remaining != {}
        invariant remaining <= tenantPools.Keys
        invariant total + SumValues(Restrict(OpenCounts(), remaining)) == SumValues(OpenCounts())
        decreases remaining
      {
        var u :| u in remaining;
        SumValuesRemove(Restrict(OpenCounts(), remaining), u);
        assert Restrict(OpenCounts(), remaining) - {u} == Restrict(OpenCounts(), remaining - {u});
        total := total + tenantPools[u].DB.openConnections;
        remaining := remaining - {u};
      }
      assert Restrict(OpenCounts(), {}) == map[];
      total := total + masterDB.openConnections;
    }

    /**
     * The body of GetHealth, from a status whose Healthy field starts at
     * `startHealthy`: ping the master (`masterPing` is its error message, if
     * any), count connections, compare against the limit.
     */
    method AssessHealth(now: int, masterPing: Option<string>, startHealthy: bool) returns (status: HealthStatus)
      ensures status.TotalConnections == SumValues(OpenCounts()) + masterDB.openConnections
      ensures status.Healthy <==> startHealthy && masterPing.None? && status.TotalConnections <= ConnectionLimit()
      ensures status.MasterHealthy <==> masterPing.None?
      ensures status.TenantPoolsActive == |tenantPools|
      ensures status.Errors == DedicatedHealthErrors(masterPing, status.TotalConnections > ConnectionLimit())
      ensures status.Timestamp == now && status.CheckInterval == 30 * Second
      ensures !status.RedisHealthy && status.LastCheck == ZeroTime && status.PoolType == ""
    {
      status := HealthStatus(startHealthy, false, false, 0, 0, now, [], ZeroTime, 30 * Second, "");
      if masterPing.Some? {
        status := status.(MasterHealthy := false, Healthy := false,
                          Errors := status.Errors + ["Master database ping failed: " + masterPing.value]);
      } else {
        status := status.(MasterHealthy := true);
      }
      status := status.(TenantPoolsActive := |tenantPools|);
      var total := TotalOpenConnections();
      status := status.(TotalConnections := total);
      if status.TotalConnections > ConnectionLimit() {
        status := status.(Healthy := false, Errors := status.Errors + ["Too many open connections"]);
      }
    }

    /**
     * GetHealth as written: the status literal never sets Healthy, so it
     * stays false even when every check passes and Errors is empty.
     */
    method GetHealth(now: int, masterPing: Option<string>) returns (status: HealthStatus)
      ensures !status.Healthy
      ensures status.Errors == [] <==> masterPing.None? && status.TotalConnections <= ConnectionLimit()
      ensures status.TotalConnections == SumValues(OpenCounts()) + masterDB.openConnections
      ensures status.MasterHealthy <==> masterPing.None?
      ensures status.TenantPoolsActive == |tenantPools|
    {
      status := AssessHealth(now, masterPing, false);
    }

    /** GetHealth as intended: healthy exactly when neither check appended an error. */
    method GetHealthCorrected(now: int, masterPing: Option<string>) returns (status: HealthStatus)
      ensures status.Healthy <==> status.Errors == []
      ensures status.Healthy <==> masterPing.None? && status.TotalConnections <= ConnectionLimit()
      ensures status.Errors == DedicatedHealthErrors(masterPing, status.TotalConnections > ConnectionLimit())
      ensures status.TotalConnections == SumValues(OpenCounts()) + masterDB.openConnections
      ensures status.MasterHealthy <==> masterPing.None?
      ensures status.TenantPoolsActive == |tenantPools|
    {
      status := AssessHealth(now, masterPing, true);
    }
  }

  /** A manager just made by NewPoolManager reports no tenant pools and its configured limit. */
  method FreshManagerStats(cfg: Database, master: SqlPool) returns (stats: PoolStats)
    ensures stats.TotalTenantPools == 0 && stats.TenantStats == [] && stats.MaxTenantPools == cfg.MaxTenantPools
  {
    var pm := new PoolManager(cfg, master);
    stats := pm.GetStats();
  }
}
