# Tenant connection pooling, modelled in Dafny

This project models the multi-tenant database layer of the openvdo server.
Each part is a Dafny module:

- **TenantPools** (`pool.dfy`): the *dedicated* pool manager.
  - Every user gets an own `*sql.DB`, created on first use.
  - Creation follows a directory lookup of the user's organisation and role.
  - The table is bounded by `MaxTenantPools`.
  - Each lease marks the pool used. A sweep closes pools idle for longer than `PoolIdleTimeout`.
  - The module also covers per-user invalidation, preloading, closing, statistics and the health check.
- **Tenant** (`tenant.go` → `tenant.dfy`):
  - the single-use `TenantDB` handle, whose `released` flag guards every operation;
  - transactions;
  - the in-place `TenantQueryBuilder`;
  - the argument building of `HasRole`.
- **Stateless** (`stateless_pool.dfy`): the *stateless* manager.
  - One shared master pool.
  - Each connection is scoped to the user with a session variable and reset on release.
  - A cache-aside Redis session cache, with hit/miss counters, a 30-minute lifetime and one key format (`user:session:<uuid>`).
  - Rolling response-time metrics and the health check.
- **StatelessTenant** (`stateless_tenant.dfy`):
  - the stateless handle;
  - the session-based role decision;
  - single and batch session preloading.
- **Config** (`config.dfy`):
  - `parseInt`;
  - the koanf → environment → default fallback chains;
  - the defaults of `Load`;
  - the DSN and Redis address strings, each proved to split back into their fields.
- Supporting modules:
  - **Driver** abstracts `*sql.DB` (`SqlPool`), `*sql.Conn` (`Conn`), the error values and the answers of the database and the directory.
  - **Uuids** renders a UUID as its 36-character text and proves the rendering injective.
  - **Stats** holds the reported records and a few map/set facts.
  - **Wrappers** holds `Option`/`Result`.

The Go maps are keyed by `userID.String()`. The model keys them by the UUID itself. `Uuids.UuidStringInjective` shows the two are the same thing: distinct users never share a key.

## How the environment is modelled

Outside effects become parameters.

- **Time.** `now: int` is a reading of the clock in nanoseconds. Durations are nanosecond integers, as Go's `time.Duration` is.
- **Directory lookup.** The lookup behind `getUserOrgInfo` and `getUserSessionFromDB` is a `DirectoryAnswer`:
  - `Membership(org, role)`;
  - `NoMembership`, standing for `sql.ErrNoRows`;
  - `DirectoryQueryFailed`.
- **Driver outcomes.** These are booleans or small answer types:
  - whether `sql.Open` succeeds (`openOk`);
  - whether a connection can be leased (`connOk`);
  - how `SET LOCAL` ends (`SetAnswer`);
  - whether the `RESET ALL` cast succeeds and whether the reset itself succeeds;
  - what each close returns.
- **Connections.** Closing a pool or a connection increments its `closeCount`. Running a statement increments `statements`. So "closed exactly once" and "the connection was not used" are stated on those counters.
- **Redis.** Redis is a `map<string, CacheEntry>`. `hasRedis` says whether a client exists (`redis != nil`); `redisUp` says whether the server answers the current call.

## Model

| member | source | states |
|---|---|---|
| Uuids.UuidString | internal/database/pool.go:89 | the key text is 36 characters: dashes at positions 8, 13, 18 and 23, lower-case hex digits elsewhere |
| Uuids.UuidStringInjective | internal/database/pool.go:164 | two users with the same key text are the same user, so keying the table by user ID loses nothing |
| Config.ParseInt | internal/config/config.go:150-160 | the digit loop computes the left-to-right decimal value of an all-digit string and 0 for anything else |
| Config.DecimalRoundTrip | internal/config/config.go:150-160 | reading back the decimal rendering of any natural number gives that number |
| Config.ParseIntOfFormatInt | internal/config/config.go:150-160 | parseInt of a %d rendering gives the number when it is non-negative and 0 when it is negative (the minus sign is a non-digit) |
| Config.ParseIntRejects | internal/config/config.go:151-156 | the empty string and any string with a non-digit parse to 0 |
| Config.GetEnv | internal/config/config.go:98-103 | the variable's value is returned exactly when it is non-empty (or equals the default), else the default |
| Config.GetEnvAsInt | internal/config/config.go:105-112 | a variable that parseInt maps to a non-zero number yields that number; anything else yields the default; so a result other than the default is positive |
| Config.GetEnvAsIntFallsBack | internal/config/config.go:105-112 | every value parseInt maps to 0 ("", "0", "abc", "-5") yields the default |
| Config.GetEnvAsIntReadsDecimal | internal/config/config.go:105-112 | a variable holding a positive number in decimal yields that number |
| Config.GetEnvAsDuration | internal/config/config.go:114-121 | a set variable that parses as a duration yields the parsed value; an unset or unparsable one yields the default |
| Config.GetEnvWithKoanf | internal/config/config.go:123-130 | the answer is the koanf value, the variable or the default; anything but the koanf value means koanf had nothing; it is empty only when the default is |
| Config.GetIntWithKoanf | internal/config/config.go:132-139 | the answer is the koanf number, the parsed variable or the default; anything but the koanf number means koanf answered 0; it is 0 only when the default is |
| Config.GetDurationWithKoanf | internal/config/config.go:141-148 | the answer is the koanf duration, the parsed variable or the default; anything but the koanf duration means koanf answered 0 |
| Config.StringChainOrder | internal/config/config.go:123-130 | a non-empty koanf value wins, then a non-empty environment value, then the default |
| Config.IntChainOrder | internal/config/config.go:132-139 | a non-zero koanf value wins, else getEnvAsInt; the chain answers 0 only if the default is 0 |
| Config.DurationChainOrder | internal/config/config.go:141-148 | a non-zero koanf duration wins, else getEnvAsDuration |
| Config.Load | internal/config/config.go:45-86 | whatever the sources hold, host, port, user, name, SSL mode and the Redis host and port are non-empty, and MaxOpenConns, MaxIdleConns and MaxTenantPools are non-zero |
| Config.LoadDefaults | internal/config/config.go:61-86 | with no sources, every field has its documented default (100, 10, 50, 5 min, 30 s, 10 min, localhost, 5432, postgres, openvdo, disable, Redis localhost:6379 db 0) |
| Config.LoadReadsTenantPoolCap | internal/config/config.go:56-77 | with koanf mirroring the environment, as the env provider makes it, a DB_MAX_TENANT_POOLS holding a positive number n sets MaxTenantPools to n, and the environment fallback alone gives n too |
| Config.DSN | internal/config/config.go:89-92 | the DSN is exactly "host=H port=P user=U password=W dbname=N sslmode=S" with the six settings in that order |
| Config.DsnRoundTrip | internal/config/config.go:89-92 | for space-free fields, splitting the DSN at spaces gives the six key=value fields in order |
| Config.Address | internal/config/config.go:94-96 | the address is the host, one ':' and the port, in that order |
| Config.AddressRoundTrip | internal/config/config.go:94-96 | when neither host nor port holds a colon, splitting the address at ':' gives host and port |
| Driver.SqlPool.Close | internal/database/pool.go:222 | closing a pool increments its close count and changes no other field |
| Driver.Conn.Run | internal/database/tenant.go:41 | on a closed connection the statement never reaches the server and sql.ErrConnDone is returned; otherwise the statement runs once and the server's answer is returned |
| Driver.Conn.Close | internal/database/tenant.go:85 | a connection's first close succeeds; later ones return sql.ErrConnDone; each increments the close count |
| Driver.RunTransaction | internal/database/tenant.go:94-106 | fn runs iff begin succeeds; commit runs iff fn also succeeds; a begin error is wrapped; fn's error is returned as is; nil iff all three steps succeed |
| TenantPools.CreateCheck | internal/database/pool.go:122-168 | the error createTenantPool reports, in code order: an existing user is never an error; a full table gives MaxTenantPoolsReached; success needs room, membership and a successful open |
| TenantPools.CreateKeepsCapacity | internal/database/pool.go:131-134 | a successful creation keeps the table within MaxTenantPools |
| TenantPools.LookupFailureAddsNothing | internal/database/pool.go:136-140 | a failed directory lookup always fails creation; no membership gives the "not in any organization" error |
| TenantPools.PoolManager.constructor | internal/database/pool.go:39-59 | a new manager has an empty table, the given configuration and master pool, and satisfies the table invariant |
| TenantPools.PoolManager.CreateTenantPool | internal/database/pool.go:122-168 | an existing entry is returned and the table is unchanged; failure iff CreateCheck names an error, and then that error and an unchanged table; success adds exactly the user's entry, with the directory's org and role, CreatedAt = LastUsed = now and a fresh database with the tenant settings |
| TenantPools.PoolManager.InsertPool | internal/database/pool.go:143-164 | the new record carries the tenant settings (10 open, 2 idle, 30 min, 5 min) on a fresh database and is the only change to the table |
| TenantPools.PoolManager.AcquirePool | internal/database/pool.go:88-104 | find-or-create then touch: on failure, the table is unchanged; on success only the user's LastUsed becomes now (or the user's new entry is added) |
| TenantPools.PoolManager.Touch | internal/database/pool.go:101-104 | only the user's LastUsed changes |
| TenantPools.SetUserContext | internal/database/pool.go:194-202 | SET LOCAL scopes the connection to the user, or fails with the cast or the statement error and leaves it unscoped |
| TenantPools.LeaseScoped | internal/database/pool.go:107-118 | a fresh connection of the user's pool; on a SET failure it is closed once and never returned; on success it is open and scoped to the user |
| TenantPools.PoolManager.GetTenantConnection | internal/database/pool.go:87-119 | a creation error is returned with the table untouched; otherwise LastUsed becomes now; a failed lease gives TenantConnFailed; a connection is returned only if it is scoped to the user, and a failed scoping closes it |
| TenantPools.PoolManager.CloseTenantPools | internal/database/pool.go:221-226 | every tenant pool is closed exactly once, and the frame lets only the close counters change; the result is true iff every close succeeded |
| TenantPools.PoolManager.CloseEntry | internal/database/pool.go:222 | one iteration of the close loop: the user's pool is closed once more, every other pool's count is unchanged |
| TenantPools.PoolManager.Close | internal/database/pool.go:210-235 | every tenant pool and the master are closed exactly once, with their settings and connection counters unchanged, and the table ends empty; nil iff every close succeeded |
| TenantPools.PoolManager.GetStats | internal/database/pool.go:238-260 | TotalTenantPools is the table size; MaxTenantPools is the limit; there is exactly one entry per pool, each a copy of that pool's record, with no duplicates |
| TenantPools.FreshManagerStats | internal/database/pool_test.go:35-37 | a new manager reports 0 pools, no entries and its configured limit |
| TenantPools.SurvivorsExact | internal/database/pool.go:302-311 | after a sweep at now, an entry remains iff now - LastUsed <= PoolIdleTimeout (strict removal), and the remaining entries are unchanged |
| TenantPools.PoolManager.SweepEntry | internal/database/pool.go:302-311 | one iteration of the sweep: an idle entry is closed once and dropped, any other entry is kept as it is |
| TenantPools.PoolManager.DropPool | internal/database/pool.go:303-307 | the user's entry is removed, every other entry is kept, and the user's pool is closed once |
| TenantPools.PoolManager.CleanupIdlePools | internal/database/pool.go:295-316 | the table becomes the survivors of the sweep; every removed pool is closed exactly once; the invariant is kept |
| TenantPools.LeaseResetsIdleClock | internal/database/pool.go:103 | a pool leased at t survives every sweep up to t + PoolIdleTimeout, the boundary included |
| TenantPools.SweepIdempotent | internal/database/pool.go:302-311 | a second sweep at the same instant removes nothing |
| TenantPools.PoolManager.InvalidateUserPools | internal/database/tenant.go:243-254 | only the user's entry is removed and its pool closed once; with no entry nothing changes |
| TenantPools.PoolManager.PreloadTenantPools | internal/database/tenant.go:257-268 | creation is attempted for each user in order and failures are ignored; the result is nil; the key set is PreloadKeys of the list; old entries are unchanged and new ones are directory-made records at now |
| TenantPools.PoolManager.PreloadOne | internal/database/tenant.go:259-265 | one iteration of the preload loop: the keys grow by exactly what createTenantPool adds |
| TenantPools.PreloadAddsOnlyListedUsers | internal/database/tenant.go:257-268 | preloading keeps every existing pool and adds only listed users |
| TenantPools.PreloadWithinCapacity | internal/database/tenant.go:257-268 | preloading never takes the table past MaxTenantPools |
| TenantPools.PreloadSkipsNonMembers | internal/database/tenant.go:257-268 | a user who is in no organisation is never preloaded |
| TenantPools.PreloadCreatesAllWhenRoom | internal/database/tenant.go:257-268 | with room for everyone, every user a member and opens succeeding, a pool exists for every listed user |
| TenantPools.DedicatedHealthErrors | internal/database/stats.go:64-85 | the error list is empty iff the ping succeeded and the count is within the limit; the ping error comes before the count error |
| TenantPools.PoolManager.TotalOpenConnections | internal/database/stats.go:72-80 | the total is the sum of OpenConnections over every tenant pool plus the master's |
| TenantPools.PoolManager.AssessHealth | internal/database/stats.go:54-89 | MasterHealthy iff the ping succeeds; TenantPoolsActive is the table size; TotalConnections is the sum; the errors are appended in order; the limit is MaxOpenConns + MaxTenantPools*10, compared strictly |
| TenantPools.PoolManager.GetHealth | internal/database/stats.go:54-89 | as written, Healthy is false for every input, even when Errors is empty |
| TenantPools.PoolManager.GetHealthCorrected | internal/database/stats.go:54-89 | corrected: Healthy iff Errors is empty iff the ping succeeded and the count is within the limit |
| Tenant.TenantDB.constructor | internal/database/tenant.go:23-34 | a new handle is unreleased and holds an unclosed connection |
| Tenant.TenantDB.ExecContext | internal/database/tenant.go:37-42 | a released handle returns ConnectionReleased without touching the connection; otherwise one statement runs and its result is returned |
| Tenant.TenantDB.QueryContext | internal/database/tenant.go:45-50 | the same guard, for queries |
| Tenant.TenantDB.QueryRowContext | internal/database/tenant.go:53-59 | a released handle gives the placeholder row without using the connection; otherwise the connection's row |
| Tenant.TenantDB.BeginTx | internal/database/tenant.go:62-67 | the same guard, for beginning a transaction |
| Tenant.TenantDB.Ping | internal/database/tenant.go:70-76 | a released handle returns ConnectionReleased; otherwise the master ping's result |
| Tenant.TenantDB.Release | internal/database/tenant.go:79-86 | the handle is released and the result is nil; the connection ends closed exactly once overall; a repeated call closes nothing |
| Tenant.ReleaseTwice | internal/database/tenant.go:79-86 | releasing twice returns nil both times and closes the connection exactly once |
| Tenant.TenantDB.WithTransaction | internal/database/tenant.go:94-106 | the RunTransaction outcome; on a released handle begin fails with ConnectionReleased, fn never runs and nothing is sent on the connection; otherwise BEGIN is the one statement sent on it |
| Tenant.NewTenantDB | internal/database/tenant.go:23-34 | success iff the pool can be had, a connection leased and the context set; a creation error is returned with the table unchanged; a failed lease gives TenantConnFailed; a failed SET gives UserContextFailed with the cast or the statement error; otherwise the user's LastUsed becomes now (or the user's new entry is added); a new handle is unreleased, holds a fresh connection of the user's own pool and is scoped to the user |
| Tenant.RenderCollects | internal/database/tenant.go:123-154 | the builder's arguments are the clauses' arguments in order, and its text starts with the base query |
| Tenant.TenantQueryBuilder.constructor | internal/database/tenant.go:115-120 | a new builder holds the base query and no arguments |
| Tenant.TenantQueryBuilder.Where | internal/database/tenant.go:123-131 | appends " WHERE c" when no arguments have been collected yet and " AND c" otherwise, then appends the new arguments in order; returns the builder itself |
| Tenant.TenantQueryBuilder.OrderBy | internal/database/tenant.go:134-137 | appends exactly " ORDER BY x" and leaves the arguments alone; returns the builder itself |
| Tenant.TenantQueryBuilder.Limit | internal/database/tenant.go:140-143 | appends exactly " LIMIT n" with n in decimal; returns the builder itself |
| Tenant.TenantQueryBuilder.Offset | internal/database/tenant.go:146-149 | appends exactly " OFFSET n" with n in decimal; returns the builder itself |
| Tenant.TenantQueryBuilder.Build | internal/database/tenant.go:152-154 | returns the accumulated text and arguments unchanged, equal to the rendering of the clauses so far |
| Tenant.WhereDoubledAsWritten | internal/database/tenant.go:124 | as written, two argument-less Where calls render "… WHERE a WHERE b" |
| Tenant.CorrectedWhereChain | internal/database/tenant.go:123-131 | corrected: a chain of Where calls renders base WHERE c1 AND c2 …, with arguments unchanged |
| Tenant.AsWrittenAgreesWithArgs | internal/database/tenant.go:123-131 | when every Where carries an argument, the code and the correction render the same query |
| Tenant.HasRoleQuery | internal/database/tenant.go:186-191 | the query has two arguments (user, org); " AND role = $3" and a third argument are added exactly when the role is non-empty |
| Tenant.HasRole | internal/database/tenant.go:180-199 | a scan error is returned; otherwise the answer is count > 0 |
| Tenant.CountPositive | internal/database/tenant.go:198 | the count is positive iff some row matches |
| Tenant.HasRoleAgainstTable | internal/database/tenant.go:180-199 | against a membership table: true iff a row has the user, the org and (if given) the role |
| Stateless.SessionKey | internal/database/stateless_pool.go:188 | the key is "user:session:" followed by the 36-character UUID |
| Stateless.SessionKeyInjective | internal/database/stateless_pool.go:251 | get, put and invalidate agree on the key: distinct users have distinct keys |
| Stateless.CachedSessionBelongs | internal/database/stateless_pool.go:183-209 | when every entry is filed under its own user's key, a cache hit is the requested user's session and has not expired |
| Stateless.InvalidateThenMiss | internal/database/stateless_pool.go:261-268 | after invalidation the next lookup misses |
| Stateless.OtherUsersUnaffected | internal/database/stateless_pool.go:246-268 | storing, invalidating or looking up one user's session never changes another user's answer |
| Stateless.StoreThenLookup | internal/database/stateless_pool.go:246-258 | a stored session is found until it expires |
| Stateless.AfterLookupSameAnswer | internal/database/stateless_pool.go:202-206 | deleting the stale key does not change the lookup's answer and only removes keys |
| Stateless.SessionFromDB | internal/database/stateless_pool.go:212-243 | success iff a connection is had and the user is a member; the session then expires at now + 30 min; each failure gives its own error |
| Stateless.FreshSessionLifetime | internal/database/stateless_pool.go:241 | a fresh session is valid exactly for the next 30 minutes, the boundary included |
| Stateless.HalfTowardZero | internal/database/stateless_pool.go:376 | Go's division by 2, which truncates toward zero |
| Stateless.RollingAverage | internal/database/stateless_pool.go:373-378 | the first sample becomes the average; after that the average always lies between the old average and the sample |
| Stateless.Recorded | internal/database/stateless_pool.go:365-379 | ContextSwitches rises by one; the average is updated; every other counter is unchanged |
| Stateless.FreshMetrics | internal/database/stateless_pool.go:391-398 | every counter is zero and LastReset is now |
| Stateless.StatelessHealthErrors | internal/database/stateless_pool.go:302-334 | the error list is empty iff the client exists, both pings succeed and the count is within MaxOpenConns |
| Stateless.HealthyIffOnlyRedisMissing | internal/database/stateless_pool.go:302-334 | the checks pass iff every error is "Redis client not initialized" |
| Stateless.SetUserContext | internal/database/stateless_pool.go:92-113 | the first SET scopes the connection or fails with its own error; a failure of the second SET (the timestamp) is ignored |
| Stateless.StatelessPoolManager.constructor | internal/database/stateless_pool.go:50-67 | the manager holds the configuration, the master pool, the client and whatever Redis already stores, with fresh metrics |
| Stateless.StatelessPoolManager.GetTenantConnection | internal/database/stateless_pool.go:70-89 | a failed lease gives the error; on a SET failure the connection is closed and the metrics are unchanged; a success returns a scoped connection and ContextSwitches rises by exactly one |
| Stateless.StatelessPoolManager.ReleaseConnection | internal/database/stateless_pool.go:116-154 | nil for no connection; otherwise the connection is always closed once; a failed cast, or a connection already closed, is reported, and reset failures are merely logged |
| Stateless.StatelessPoolManager.GetUserSessionFromCache | internal/database/stateless_pool.go:183-209 | no client or no answer: a miss, cache unchanged; otherwise the unexpired stored session, and a stale one is deleted |
| Stateless.StatelessPoolManager.CacheUserSession | internal/database/stateless_pool.go:246-258 | with no client, a no-op; otherwise the session is stored under its key with a 30-minute TTL, or the write error is reported |
| Stateless.StatelessPoolManager.InvalidateUserSession | internal/database/stateless_pool.go:261-268 | with no client, a no-op returning nil; otherwise the user's key is deleted |
| Stateless.StatelessPoolManager.GetUserSession | internal/database/stateless_pool.go:157-180 | a hit returns the cached session and only RedisCacheHits rises; otherwise RedisCacheMisses rises once and the database result is returned and written back; with no client, neither counter changes; a result is always unexpired; a database result is the user's own, and so is a hit when every entry is filed under its own user's key, a property the call keeps; answer, cache and metrics are LookupAnswer, LookupCache and LookupMetrics of the old state |
| Stateless.StatelessPoolManager.RecordMetrics | internal/database/stateless_pool.go:365-379 | the metrics become Recorded(old, elapsed) |
| Stateless.StatelessPoolManager.ResetMetrics | internal/database/stateless_pool.go:391-398 | every counter is zeroed and LastReset is now |
| Stateless.StatelessPoolManager.GetMetrics | internal/database/stateless_pool.go:276-288 | the two connection counts come from the master pool; every other field is the recorded metrics |
| Stateless.StatelessPoolManager.GetHealth | internal/database/stateless_pool.go:291-337 | Healthy iff the master ping succeeds, a present client's ping succeeds and the count is at most MaxOpenConns; a missing client adds an error but keeps Healthy |
| Stateless.StatelessPoolManager.Close | internal/database/stateless_pool.go:340-362 | the master is always closed; a failing Redis close wins over a failing master close |
| Stateless.SecondGetHits | internal/database/stateless_pool.go:157-180 | with no entry under the user's key and the user a member, the first lookup misses, succeeds and writes back, and a second lookup within 30 minutes is a hit on the same session |
| StatelessTenant.StatelessTenantDB.ExecContext | internal/database/stateless_tenant.go:36-41 | a released handle returns ConnectionReleased without using the connection |
| StatelessTenant.StatelessTenantDB.QueryContext | internal/database/stateless_tenant.go:44-49 | the same guard, for queries |
| StatelessTenant.StatelessTenantDB.QueryRowContext | internal/database/stateless_tenant.go:52-58 | a released handle gives the placeholder row |
| StatelessTenant.StatelessTenantDB.BeginTx | internal/database/stateless_tenant.go:61-66 | the same guard, for transactions |
| StatelessTenant.StatelessTenantDB.Ping | internal/database/stateless_tenant.go:69-75 | a released handle returns ConnectionReleased; otherwise the master ping |
| StatelessTenant.StatelessTenantDB.Release | internal/database/stateless_tenant.go:78-85 | ReleaseConnection runs at most once and the connection ends closed exactly once; a repeated call returns nil and changes nothing on the connection; the user context and timestamp are cleared only by a first call whose cast and reset succeed, and otherwise stay as they were |
| StatelessTenant.StatelessTenantDB.WithTransaction | internal/database/stateless_tenant.go:98-110 | the RunTransaction outcome; a released handle never runs fn and sends nothing on the connection; otherwise BEGIN is the one statement sent on it |
| StatelessTenant.StatelessTenantDB.GetUserSession | internal/database/stateless_tenant.go:93-95 | the manager's lookup for the handle's user, with all of its guarantees: a hit returns the cached session and counts a hit; a miss returns the database result, counts a miss and writes it back; no client changes nothing; a result is unexpired, and the user's own when every entry is filed under its own user's key |
| StatelessTenant.NewTenantDB | internal/database/stateless_tenant.go:22-33 | success iff a connection is leased and the user context set; a failed lease gives its error, a failed SET gives UserContextFailed with the cast or the statement error; success records one context switch, failure leaves the metrics unchanged; a new handle is unreleased and holds a connection of the shared pool scoped to the user |
| StatelessTenant.RoleDecisionGranted | internal/database/stateless_tenant.go:130-146 | granted iff the session is unexpired, the org matches and the role is empty or equal |
| StatelessTenant.EmptyRoleMatchesAny | internal/database/stateless_tenant.go:142-146 | an empty role, or the session's own role, is granted on an unexpired session of the org |
| StatelessTenant.RoleAnswer | internal/database/stateless_tenant.go:130-146 | an expired session gives SessionExpired, and only then |
| StatelessTenant.HasRole | internal/database/stateless_tenant.go:123-147 | a failed lookup returns its error; an expired session is invalidated and gives SessionExpired (possible only if the check's clock reading is later than the lookup's); otherwise the role decision; the metrics are those of the one lookup (a hit or a miss, nothing else); the cache is the lookup's, with the user's key deleted when the session had expired and Redis answers |
| StatelessTenant.PreloadUserSession | internal/database/stateless_tenant.go:192-196 | nil iff the session was cached or the database lookup succeeded, else the lookup's error; with a client and an answering Redis, a nil result leaves the user cached; the cache and metrics are exactly those GetUserSession leaves (a hit counts a hit, a miss with a client a miss, no other counter moves); other users' answers are unchanged |
| StatelessTenant.BatchPreloadUserSessions | internal/database/stateless_tenant.go:199-213 | every user is attempted in order; the result is nil; the success count is the list length when every lookup succeeds; the cache and metrics are PreloadedState, one GetUserSession per user in order; only the two cache counters move, never down, one lookup per user with a client; without a client nothing changes; with a client and an answering Redis, every user whose database lookup succeeds ends cached |
| StatelessTenant.PreloadCountsLookups | internal/database/stateless_tenant.go:199-213 | over any list, preloading changes only RedisCacheHits and RedisCacheMisses, neither decreases, their sum rises by the list length when there is a client, and without a client cache and metrics are unchanged |

## Left out

- Concurrency is out of scope. The model is sequential and does not cover:
  - `sync.RWMutex` locking and the read-then-write double check in `createTenantPool`;
  - the cleanup ticker goroutine (`startCleanupRoutine`, internal/database/pool.go:277-292);
  - context cancellation;
  - the unsynchronised counter increments in `GetUserSession`.
- SQL execution and PostgreSQL semantics are outcome parameters:
  - `SET LOCAL`, `RESET ALL`, the `conn.Raw` cast and row-level security;
  - the directory queries of `getUserOrgInfo` and `getUserSessionFromDB`;
  - the `COUNT(*)` scan of `HasRole`.
- `getUserSessionFromDB` leases and releases a master connection. That connection is folded into the `connOk` parameter.
- Redis and JSON encoding are modelled abstractly:
  - The Redis client is a map. Redis's own TTL expiry is not simulated; the TTL given to SET is recorded.
  - JSON marshalling is identity, so a marshal or unmarshal error is not modelled.
  - One `redisUp` answer covers all Redis calls made inside one operation.
- The text of time stamps is not modelled. The timestamp set on connections is the integer `now`, not its RFC 3339 text.
- Logging is left out: the `log.Printf` calls, `recordError` (log only), and the `removedCount`/`successCount` log lines in the dedicated sweep and preload.
- Some operations do nothing worth modelling:
  - `getConnectionStats` only copies `sql.DBStats`, so `PoolStats.MasterStats` and `LastCleanup` are not reported.
  - `GetMasterConnection` and `GetUserID` are field getters.
  - `StatelessTenantOperations.InvalidateUserSession` only delegates to the manager.
- Purely SQL operations are left out: `CreateUserOrganization` and both `GetUserOrganizations`.
- `createMasterConnection`, `sql.Open` and `Ping` are outcome parameters. The files database.go, middleware.go, the handlers and the routes are not part of this model.
- `Load` reads a file, koanf and the environment. The model starts from the values those sources produced. `time.ParseDuration` is a table of already parsed values (`parsedDurations`).
- `Load` copies every environment variable into koanf (internal/config/config.go:56). `Sources` does not force the koanf maps to mirror `env`; lemmas that depend on mirroring, such as Config.LoadReadsTenantPoolCap, state it as a hypothesis.
- Stateless.StatelessPoolManager.GetUserSession: a cache hit is known to be the requested user's session only while Redis holds entries filed under their own user's key (`CacheKeyed`). Go does not check the session's user on a hit, and neither does the model. The manager accepts whatever Redis already holds, so this is a hypothesis, not an invariant.
- Config.ParseInt: integers are unbounded. Go's `int` overflow on very long digit strings is not modelled.
- Stateless.RollingAverage: the int64 nanosecond sum is unbounded, so Go's wrap-around on `avg + d` is not modelled.
- TenantPools.PoolManager.PreloadTenantPools does not state that the new pools' databases are fresh. CreateTenantPool states that for each creation.
- A transaction's statements after BEGIN run on the `*sql.Tx`; fn and Commit are outcome parameters, so `statements` counts only BEGIN.
- The placeholder `*sql.Row` of a released handle is a constant. Its `Scan` behaviour is not modelled.

## Findings

| source | as written | input that shows it | evidently intended | confidence | as-written member | corrected member |
|---|---|---|---|---|---|---|
| internal/database/stats.go:55-58 | the `HealthStatus` literal never sets `Healthy`. The later checks only ever assign `false`, so the dedicated manager always reports unhealthy. | a manager whose master ping succeeds and whose connection total is within the limit gets `Healthy == false` with an empty Errors list. internal/database/pool_test.go:107 expects `true` in that case. | start from `Healthy: true`, as the stateless manager does (internal/database/stateless_pool.go:296), so that Healthy holds iff no error was appended | not executed | TenantPools.PoolManager.GetHealth | TenantPools.PoolManager.GetHealthCorrected |
| internal/database/tenant.go:124 | `Where` picks " WHERE " or " AND " by whether any arguments have been collected, not by whether a condition has been added | `Where("a")` then `Where("b")`, both without arguments, on base `SELECT 1` gives `SELECT 1 WHERE a WHERE b` | one WHERE followed by AND-joined conditions. It agrees with the code whenever every condition carries an argument (Tenant.AsWrittenAgreesWithArgs). | not executed | Tenant.WhereDoubledAsWritten | Tenant.CorrectedWhereChain |
