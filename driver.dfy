/**
 * What the pooling core sees of database/sql and of PostgreSQL: a pool
 * object (*sql.DB), a leased connection (*sql.Conn) carrying the
 * connection-local settings the row-level-security policies read, the
 * errors the core returns, and the answers of the queries it delegates.
 * SQL itself is not modelled: each statement the core issues is an
 * operation that succeeds or fails, and which one happens is a parameter.
 */
module Driver {
  import opened Wrappers
  import opened Uuids

  /** User and organisation identifiers are uuid.UUID values. */
  type UserId = Uuid
  type OrgId = Uuid

  /** The errors the core returns; each comment gives the Go message. */
  datatype LookupFailure =
    | NotInAnyOrganization   // "user not found in any organization"
    | LookupQueryFailed      // "failed to query user org info: %w" / "failed to query user session: %w"
    | LookupConnFailed       // "failed to get connection: %w"

  datatype ContextFailure =
    | CastFailed             // "failed to cast connection to PostgreSQL driver"
    | SetFailed              // the SET statement's own error

  datatype DbError =
    | MaxTenantPoolsReached(max: int)        // "maximum tenant pools (%d) reached"
    | OrgInfoFailed(cause: LookupFailure)    // "failed to get user org info: %w"
    | OpenTenantDatabaseFailed               // "failed to open tenant database: %w"
    | TenantConnFailed                       // "failed to get connection from tenant pool: %w"
    | PoolConnFailed                         // "failed to get connection from pool: %w"
    | UserContextFailed(why: ContextFailure) // "failed to set user context: %w"
    | ConnectionReleased                     // "connection has been released"
    | BeginTransactionFailed(inner: DbError) // "failed to begin transaction: %w"
    | ContextResetFailed                     // "context reset error: %w, close error: %w"
    | ConnDone                               // sql.ErrConnDone: closing a closed connection
    | SessionLookupFailed(cause: LookupFailure)
    | SessionExpired                         // "session expired"
    | CacheFailed                            // an error answered by the Redis server
    | CloseFailed                            // an error from (*sql.DB).Close
    | StatementFailed                        // an error passed through from the driver unchanged

  /** What the directory query behind getUserOrgInfo answers for a user. */
  datatype DirectoryAnswer =
    | Membership(org: OrgId, role: string)
    | NoMembership
    | DirectoryQueryFailed

  /** What the Raw callback that sets a connection-local setting answers. */
  datatype SetAnswer = SetOk | SetCastRejected | SetRejected

  /** A *sql.DB: its pool settings, the driver's connection counters, and how often it was closed. */
  class SqlPool {
    var maxOpenConns: int
    var maxIdleConns: int
    var connMaxLifetime: int
    var connMaxIdleTime: int
    var openConnections: nat
    var inUse: nat
    var closeCount: nat

    constructor (maxOpen: int, maxIdle: int, lifetime: int, idleTime: int)
      ensures maxOpenConns == maxOpen && maxIdleConns == maxIdle
      ensures connMaxLifetime == lifetime && connMaxIdleTime == idleTime
      ensures openConnections == 0 && inUse == 0 && closeCount == 0
    {
      maxOpenConns, maxIdleConns := maxOpen, maxIdle;
      connMaxLifetime, connMaxIdleTime := lifetime, idleTime;
      openConnections, inUse, closeCount := 0, 0, 0;
    }

    method Close()
      modifies this`closeCount
      ensures closeCount == old(closeCount) + 1
    {
      closeCount := closeCount + 1;
    }

    /** Every field but the close counter holds what it held in the old state. */
    twostate predicate OnlyCloseCountChanged()
      reads this
    {
      && old(maxOpenConns) == maxOpenConns && old(maxIdleConns) == maxIdleConns
      && old(connMaxLifetime) == connMaxLifetime && old(connMaxIdleTime) == connMaxIdleTime
      && old(openConnections) == openConnections && old(inUse) == inUse
    }
  }

  /**
   * A *sql.Conn leased from `source`. `userContext` is app.current_user_id and
   * `requestTimestamp` is app.request_timestamp, the connection-local settings
   * the row-level-security policies read; None is the server default.
   * `statements` counts the statements that reached the server through it.
   */
  class Conn {
    const source: SqlPool
    var userContext: Option<UserId>
    var requestTimestamp: Option<int>
    var statements: nat
    var closeCount: nat

    constructor (source: SqlPool)
      ensures this.source == source
      ensures userContext == None && requestTimestamp == None && statements == 0 && closeCount == 0
    {
      this.source := source;
      userContext, requestTimestamp, statements, closeCount := None, None, 0, 0;
    }

    /**
     * ExecContext, QueryContext or BeginTx on the connection: on a closed
     * connection database/sql answers ErrConnDone without reaching the
     * server; otherwise the statement runs and `answer` is what the server says.
     */
    method Run(answer: Option<DbError>) returns (err: Option<DbError>)
      modifies this`statements
      ensures old(closeCount) > 0 ==> err == Some(ConnDone) && statements == old(statements)
      ensures old(closeCount) == 0 ==> err == answer && statements == old(statements) + 1
    {
      if closeCount > 0 {
        err := Some(ConnDone);
      } else {
        err := answer;
        statements := statements + 1;
      }
    }

    /** (*sql.Conn).Close: the first call returns the connection, later calls answer ErrConnDone. */
    method Close() returns (err: Option<DbError>)
      modifies this`closeCount
      ensures closeCount == old(closeCount) + 1
      ensures err == if old(closeCount) == 0 then None else Some(ConnDone)
    {
      err := if closeCount == 0 then None else Some(ConnDone);
      closeCount := closeCount + 1;
    }
  }

  /** The deferred-rollback transaction helper shared by both handle kinds, with what it called. */
  datatype TxRun = TxRun(err: Option<DbError>, fnCalled: bool, commitCalled: bool, rollbackCalled: bool)

  /**
   * WithTransaction, given what BeginTx, fn and Commit answer: begin, run fn,
   * commit only if fn succeeds; the deferred Rollback runs whenever the
   * transaction began (after a commit it is a no-op).
   */
  function RunTransaction(begin: Option<DbError>, fnErr: Option<DbError>, commitErr: Option<DbError>): (t: TxRun)
    ensures t.fnCalled <==> begin.None?
    ensures t.commitCalled <==> begin.None? && fnErr.None?
    ensures t.rollbackCalled <==> begin.None?
    ensures begin.Some? ==> t.err == Some(BeginTransactionFailed(begin.value))
    ensures begin.None? && fnErr.Some? ==> t.err == fnErr
    ensures t.err.None? <==> begin.None? && fnErr.None? && commitErr.None?
  {
    if begin.Some? then TxRun(Some(BeginTransactionFailed(begin.value)), false, false, false)
    else if fnErr.Some? then TxRun(fnErr, true, false, true)
    else TxRun(commitErr, true, true, true)
  }
}
