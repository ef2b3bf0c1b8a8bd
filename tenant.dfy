/**
 * internal/database/tenant.go: the tenant-scoped handle TenantDB over a
 * leased connection, the TenantQueryBuilder string/argument accumulator,
 * and the query TenantOperations.HasRole sends to the master database.
 * InvalidateUserPools and PreloadTenantPools, which tenant.go adds to
 * PoolManager, are in the TenantPools module next to the rest of the table.
 */
module Tenant {
  import opened Wrappers
  import opened Uuids
  import opened Config
  import opened Driver
  import opened TenantPools

  /** What QueryRowContext hands back: the empty sql.Row of a released handle, or the connection's row. */
  datatype Row = PlaceholderRow | ConnRow(err: Option<DbError>)

  /**
   * A TenantDB: a connection leased for one user, the manager it came from,
   * and the single-use `released` flag.
   */
  class TenantDB {
    const conn: Conn
    const userID: UserId
    const pool: PoolManager
    var released: bool

    /** The connection has been closed exactly when the handle was released, and then exactly once. */
    ghost predicate Valid()
      reads this, conn
    {
      conn.closeCount == if released then 1 else 0
    }

    constructor (conn: Conn, userID: UserId, pool: PoolManager)
      requires conn.closeCount == 0
      ensures Valid() && !released
      ensures this.conn == conn && this.userID == userID && this.pool == pool
    {
      this.conn, this.userID, this.pool := conn, userID, pool;
      released := false;
    }

    /**
     * ExecContext: a released handle answers "connection has been released"
     * and leaves the connection alone; otherwise the statement runs, and
     * since the connection is still open the server's `answer` comes back.
     */
    method ExecContext(answer: Option<DbError>) returns (err: Option<DbError>)
      requires Valid()
      modifies conn`statements
      ensures Valid()
      ensures released ==> err == Some(ConnectionReleased) && conn.statements == old(conn.statements)
      ensures !released ==> err == answer && conn.statements == old(conn.statements) + 1
    {
      if released {
        return Some(ConnectionReleased);
      }
      err := conn.Run(answer);
    }

    /** QueryContext: the same guard as ExecContext. */
    method QueryContext(answer: Option<DbError>) returns (err: Option<DbError>)
      requires Valid()
      modifies conn`statements
      ensures Valid()
      ensures released ==> err == Some(ConnectionReleased) && conn.statements == old(conn.statements)
      ensures !released ==> err == answer && conn.statements == old(conn.statements) + 1
    {
      if released {
        return Some(ConnectionReleased);
      }
      err := conn.Run(answer);
    }

    /** QueryRowContext: a released handle gives the placeholder row without touching the connection. */
    method QueryRowContext(answer: Option<DbError>) returns (row: Row)
      requires Valid()
      modifies conn`statements
      ensures Valid()
      ensures released ==> row == PlaceholderRow && conn.statements == old(conn.statements)
      ensures !released ==> row == ConnRow(answer) && conn.statements == old(conn.statements) + 1
    {
      if released {
        return PlaceholderRow;
      }
      var err := conn.Run(answer);
      row := ConnRow(err);
    }

    /** BeginTx: the same guard as ExecContext. */
    method BeginTx(answer: Option<DbError>) returns (err: Option<DbError>)
      requires Valid()
      modifies conn`statements
      ensures Valid()
      ensures released ==> err == Some(ConnectionReleased) && conn.statements == old(conn.statements)
      ensures !released ==> err == answer && conn.statements == old(conn.statements) + 1
    {
      if released {
        return Some(ConnectionReleased);
      }
      err := conn.Run(answer);
    }

    /**
     * Ping: guarded like the others, but it pings the manager's master
     * database (the answer is `masterPing`), never the leased connection.
     */
    method Ping(masterPing: Option<DbError>) returns (err: Option<DbError>)
      ensures err == if released then Some(ConnectionReleased) else masterPing
    {
      if released {
        return Some(ConnectionReleased);
      }
      err := masterPing;
    }

    /**
     * Release: the first call marks the handle released and closes the
     * connection, which succeeds because it was still open; every later
     * call returns nil and changes nothing.
     */
    method Release() returns (err: Option<DbError>)
      requires Valid()
      modifies this`released, conn`closeCount
      ensures Valid() && released && err.None?
      ensures old(released) ==> conn.closeCount == old(conn.closeCount)
      ensures conn.closeCount == 1
    {
      if released {
        return None;
      }
      released := true;
      err := conn.Close();
    }

    /**
     * WithTransaction: BeginTx through the guard, then fn (its error is
     * `fnErr`), then Commit (`commitErr`) only when fn succeeded.
     */
    method WithTransaction(beginAnswer: Option<DbError>, fnErr: Option<DbError>, commitErr: Option<DbError>) returns (t: TxRun)
      requires Valid()
      modifies conn`statements
      ensures Valid()
      ensures t == RunTransaction(if released then Some(ConnectionReleased) else beginAnswer, fnErr, commitErr)
      ensures released ==> !t.fnCalled && !t.commitCalled && t.err == Some(BeginTransactionFailed(ConnectionReleased))
      ensures conn.statements == old(conn.statements) + (if released then 0 else 1)
    {
      var begin := BeginTx(beginAnswer);
      t := RunTransaction(begin, fnErr, commitErr);
    }
  }

  /** Two Release calls close the connection once; the second changes nothing. */
  method ReleaseTwice(t: TenantDB) returns (first: Option<DbError>, second: Option<DbError>)
    requires t.Valid() && !t.released
    modifies t`released, t.conn`closeCount
    ensures first.None? && second.None?
    ensures t.released && t.conn.closeCount == old(t.conn.closeCount) + 1
  {
    first := t.Release();
    second := t.Release();
  }

  /**
   * NewTenantDB: lease a scoped connection from the manager and wrap it;
   * any error of GetTenantConnection is returned as it is.
   */
  method NewTenantDB(pm: PoolManager, userID: UserId, now: int, answer: DirectoryAnswer, openOk: bool, connOk: bool, setAnswer: SetAnswer)
    returns (r: Result<TenantDB, DbError>)
    requires pm.Valid()
    modifies pm
    ensures pm.Valid()
    ensures r.Success? <==> CreateCheck(old(pm.tenantPools).Keys, userID, pm.config.MaxTenantPools, answer, openOk).None? && connOk && setAnswer == SetOk
    ensures CreateCheck(old(pm.tenantPools).Keys, userID, pm.config.MaxTenantPools, answer, openOk).Some? ==>
      r == Failure(CreateCheck(old(pm.tenantPools).Keys, userID, pm.config.MaxTenantPools, answer, openOk).value)
      && pm.tenantPools == old(pm.tenantPools)
    ensures CreateCheck(old(pm.tenantPools).Keys, userID, pm.config.MaxTenantPools, answer, openOk).None? ==>
      && TouchedTable(old(pm.tenantPools), pm.tenantPools, userID, answer, now)
      && (userID !in old(pm.tenantPools) ==> fresh(pm.tenantPools[userID].DB))
    ensures CreateCheck(old(pm.tenantPools).Keys, userID, pm.config.MaxTenantPools, answer, openOk).None? && !connOk ==>
      r == Failure(TenantConnFailed)
    ensures CreateCheck(old(pm.tenantPools).Keys, userID, pm.config.MaxTenantPools, answer, openOk).None? && connOk && setAnswer != SetOk ==>
      r == Failure(UserContextFailed(if setAnswer == SetCastRejected then CastFailed else SetFailed))
    ensures r.Success? ==>
      && fresh(r.value) && r.value.Valid() && !r.value.released
      && r.value.userID == userID && r.value.pool == pm
      && r.value.conn.userContext == Some(userID)
      && fresh(r.value.conn) && r.value.conn.source == pm.tenantPools[userID].DB
  {
    var c;
    ghost var leased;
    c, leased := pm.GetTenantConnection(userID, now, answer, openOk, connOk, setAnswer);
    if c.Failure? {
      return Failure(c.error);
    }
    var t := new TenantDB(c.value, userID, pm);
    r := Success(t);
  }

  // ---------------------------------------------------------------------
  // TenantQueryBuilder
  // ---------------------------------------------------------------------

  /** A query argument (Go's interface{} values as the core passes them). */
  datatype SqlArg = UuidArg(id: Uuid) | TextArg(text: string) | IntArg(number: int)

  /** One builder call, as the caller made it. */
  datatype Clause =
    | WhereClause(condition: string, args: seq<SqlArg>)
    | OrderByClause(orderBy: string)
    | LimitClause(limit: int)
    | OffsetClause(offset: int)

  /** The text and arguments accumulated so far. */
  datatype Built = Built(query: string, args: seq<SqlArg>)

  /** One builder call as tenant.go writes it: Where chooses its keyword by whether any argument has been collected. */
  function ApplyClause(b: Built, c: Clause): Built {
    match c
    case WhereClause(condition, args) =>
      Built(b.query + (if |b.args| == 0 then " WHERE " else " AND ") + condition, b.args + args)
    case OrderByClause(orderBy) => Built(b.query + " ORDER BY " + orderBy, b.args)
    case LimitClause(limit) => Built(b.query + " LIMIT " + FormatInt(limit), b.args)
    case OffsetClause(offset) => Built(b.query + " OFFSET " + FormatInt(offset), b.args)
  }

  /** The builder's state after the calls `clauses`, starting from NewTenantQueryBuilder(base). */
  function Render(base: string, clauses: seq<Clause>): Built
    decreases |clauses|
  {
    if |clauses| == 0 then Built(base, [])
    else ApplyClause(Render(base, clauses[..|clauses| - 1]), clauses[|clauses| - 1])
  }

  /** The arguments the calls supply, in call order. */
  function ClauseArgs(clauses: seq<Clause>): seq<SqlArg>
    decreases |clauses|
  {
    if |clauses| == 0 then []
    else ClauseArgs(clauses[..|clauses| - 1]) + (if clauses[|clauses| - 1].WhereClause? then clauses[|clauses| - 1].args else [])
  }

  /** Build hands back exactly the arguments of the Where calls, in call order, after a text that starts with the base query. */
  lemma {:induction false} RenderCollects(base: string, clauses: seq<Clause>)
    ensures Render(base, clauses).args == ClauseArgs(clauses)
    ensures |base| <= |Render(base, clauses).query| && Render(base, clauses).query[..|base|] == base
    decreases |clauses|
  {
    if |clauses| > 0 {
      RenderCollects(base, clauses[..|clauses| - 1]);
    }
  }

  /**
   * The builder object. `base` and `clauses` are the calls it has seen;
   * the fields always hold what those calls render to. Where, OrderBy,
   * Limit and Offset return the builder itself, so calls chain.
   */
  class TenantQueryBuilder {
    var baseQuery: string
    var args: seq<SqlArg>
    ghost var base: string
    ghost var clauses: seq<Clause>

    ghost predicate Valid()
      reads this
    {
      Built(baseQuery, args) == Render(base, clauses)
    }

    /** NewTenantQueryBuilder: the base query and no arguments. */
    constructor (baseQuery: string)
      ensures Valid() && base == baseQuery && clauses == []
      ensures this.baseQuery == baseQuery && args == []
    {
      this.baseQuery := baseQuery;
      args := [];
      base := baseQuery;
      clauses := [];
    }

    /** Where: " WHERE " while no argument has been collected, " AND " after; then the arguments in order. */
    method Where(condition: string, newArgs: seq<SqlArg>) returns (b: TenantQueryBuilder)
      requires Valid()
      modifies this
      ensures b == this
      ensures Valid() && base == old(base) && clauses == old(clauses) + [WhereClause(condition, newArgs)]
      ensures baseQuery == old(baseQuery) + (if |old(args)| == 0 then " WHERE " else " AND ") + condition
      ensures args == old(args) + newArgs
    {
      if |args| == 0 {
        baseQuery := baseQuery + " WHERE " + condition;
      } else {
        baseQuery := baseQuery + " AND " + condition;
      }
      args := args + newArgs;
      clauses := clauses + [WhereClause(condition, newArgs)];
      assert clauses[..|clauses| - 1] == old(clauses);
      b := this;
    }

    /** OrderBy: append " ORDER BY " and the column list. */
    method OrderBy(orderBy: string) returns (b: TenantQueryBuilder)
      requires Valid()
      modifies this
      ensures b == this
      ensures Valid() && base == old(base) && clauses == old(clauses) + [OrderByClause(orderBy)]
      ensures baseQuery == old(baseQuery) + " ORDER BY " + orderBy && args == old(args)
    {
      baseQuery := baseQuery + " ORDER BY " + orderBy;
      clauses := clauses + [OrderByClause(orderBy)];
      assert clauses[..|clauses| - 1] == old(clauses);
      b := this;
    }

    /** Limit: append " LIMIT " and the number in decimal. */
    method Limit(limit: int) returns (b: TenantQueryBuilder)
      requires Valid()
      modifies this
      ensures b == this
      ensures Valid() && base == old(base) && clauses == old(clauses) + [LimitClause(limit)]
      ensures baseQuery == old(baseQuery) + " LIMIT " + FormatInt(limit) && args == old(args)
    {
      baseQuery := baseQuery + " LIMIT " + FormatInt(limit);
      clauses := clauses + [LimitClause(limit)];
      assert clauses[..|clauses| - 1] == old(clauses);
      b := this;
    }

    /** Offset: append " OFFSET " and the number in decimal. */
    method Offset(offset: int) returns (b: TenantQueryBuilder)
      requires Valid()
      modifies this
      ensures b == this
      ensures Valid() && base == old(base) && clauses == old(clauses) + [OffsetClause(offset)]
      ensures baseQuery == old(baseQuery) + " OFFSET " + FormatInt(offset) && args == old(args)
    {
      baseQuery := baseQuery + " OFFSET " + FormatInt(offset);
      clauses := clauses + [OffsetClause(offset)];
      assert clauses[..|clauses| - 1] == old(clauses);
      b := this;
    }

    /** Build: the accumulated text and arguments, unchanged; the arguments are those of the Where calls in order. */
    method Build() returns (query: string, queryArgs: seq<SqlArg>)
      requires Valid()
      ensures Built(query, queryArgs) == Render(base, clauses)
      ensures queryArgs == ClauseArgs(clauses)
    {
      RenderCollects(base, clauses);
      query, queryArgs := baseQuery, args;
    }
  }

  /** The conditions of a run of Where calls joined with " AND ". */
  function JoinAnd(conditions: seq<string>): string
    decreases |conditions|
  {
    if |conditions| == 0 then ""
    else if |conditions| == 1 then conditions[0]
    else JoinAnd(conditions[..|conditions| - 1]) + " AND " + conditions[|conditions| - 1]
  }

  /** The conditions of a sequence of clauses. */
  function Conditions(clauses: seq<Clause>): seq<string>
    requires forall i :: 0 <= i < |clauses| ==> clauses[i].WhereClause?
  {
    seq(|clauses|, i requires 0 <= i < |clauses| => clauses[i].condition)
  }

  /**
   * As written, a Where call with no arguments leaves the next Where
   * believing no WHERE has been emitted: two argument-less conditions
   * render with two WHERE keywords.
   */
  lemma WhereDoubledAsWritten()
    ensures Render("SELECT 1", [WhereClause("a", []), WhereClause("b", [])]).query == "SELECT 1 WHERE a WHERE b"
  {
    var once := [WhereClause("a", [])];
    assert [WhereClause("a", []), WhereClause("b", [])][..1] == once;
    assert once[..0] == [];
  }

  /** The intended rendering: the keyword depends on whether a WHERE has been emitted, not on the arguments. */
  datatype Rendering = Rendering(built: Built, hasWhere: bool)

  function ApplyCorrected(r: Rendering, c: Clause): Rendering {
    match c
    case WhereClause(condition, args) =>
      Rendering(Built(r.built.query + (if r.hasWhere then " AND " else " WHERE ") + condition, r.built.args + args), true)
    case _ => Rendering(ApplyClause(r.built, c), r.hasWhere)
  }

  /** The corrected builder's state after the calls `clauses`. */
  function CorrectedRender(base: string, clauses: seq<Clause>): Rendering
    decreases |clauses|
  {
    if |clauses| == 0 then Rendering(Built(base, []), false)
    else ApplyCorrected(CorrectedRender(base, clauses[..|clauses| - 1]), clauses[|clauses| - 1])
  }

  /**
   * The corrected builder turns any non-empty run of Where calls into one
   * WHERE followed by the conditions joined with AND, whatever the
   * arguments, and collects the arguments in order.
   */
  lemma {:induction false} CorrectedWhereChain(base: string, clauses: seq<Clause>)
    requires |clauses| > 0
    requires forall i :: 0 <= i < |clauses| ==> clauses[i].WhereClause?
    ensures CorrectedRender(base, clauses).built.query == base + " WHERE " + JoinAnd(Conditions(clauses))
    ensures CorrectedRender(base, clauses).built.args == ClauseArgs(clauses)
    ensures CorrectedRender(base, clauses).hasWhere
    decreases |clauses|
  {
    var init := clauses[..|clauses| - 1];
    if |init| == 0 {
      assert CorrectedRender(base, init) == Rendering(Built(base, []), false);
      assert ClauseArgs(init) == [];
    } else {
      CorrectedWhereChain(base, init);
      assert Conditions(clauses)[..|clauses| - 1] == Conditions(init);
    }
  }

  /**
   * When every Where call carries at least one argument, the code as
   * written and the corrected builder produce the same query and arguments.
   */
  lemma {:induction false} AsWrittenAgreesWithArgs(base: string, clauses: seq<Clause>)
    requires forall i :: 0 <= i < |clauses| && clauses[i].WhereClause? ==> |clauses[i].args| > 0
    ensures Render(base, clauses) == CorrectedRender(base, clauses).built
    ensures CorrectedRender(base, clauses).hasWhere <==> |Render(base, clauses).args| > 0
    decreases |clauses|
  {
    if |clauses| > 0 {
      AsWrittenAgreesWithArgs(base, clauses[..|clauses| - 1]);
    }
  }

  // ---------------------------------------------------------------------
  // TenantOperations.HasRole
  // ---------------------------------------------------------------------

  /** The count query of HasRole before the optional role filter. */
  const HasRoleBaseQuery: string := "\n\t\tSELECT COUNT(*) FROM user_org_roles\n\t\tWHERE user_id = $1 AND organization_id = $2\n\t"

  /** The query and arguments HasRole sends: the role filter and its argument only for a non-empty role. */
  function HasRoleQuery(userID: UserId, orgID: OrgId, role: string): (q: Built)
    ensures |q.args| >= 2 && q.args[..2] == [UuidArg(userID), UuidArg(orgID)]
    ensures role == "" ==> q.query == HasRoleBaseQuery && |q.args| == 2
    ensures role != "" ==> q.query == HasRoleBaseQuery + " AND role = $3" && q.args == [UuidArg(userID), UuidArg(orgID), TextArg(role)]
  {
    if role != "" then Built(HasRoleBaseQuery + " AND role = $3", [UuidArg(userID), UuidArg(orgID), TextArg(role)])
    else Built(HasRoleBaseQuery, [UuidArg(userID), UuidArg(orgID)])
  }

  /** HasRole: scan the count the server answers (`scan`) and report whether it is positive; a scan error is returned. */
  function HasRole(userID: UserId, orgID: OrgId, role: string, scan: Built -> Result<int, DbError>): (r: Result<bool, DbError>)
    ensures scan(HasRoleQuery(userID, orgID, role)).Failure? ==> r == Failure(scan(HasRoleQuery(userID, orgID, role)).error)
    ensures scan(HasRoleQuery(userID, orgID, role)).Success? ==> r.Success? && (r.value <==> scan(HasRoleQuery(userID, orgID, role)).value > 0)
  {
    var answer := scan(HasRoleQuery(userID, orgID, role));
    if answer.Failure? then Failure(answer.error) else Success(answer.value > 0)
  }

  /** A row of user_org_roles. */
  datatype RoleRow = RoleRow(user: UserId, org: OrgId, role: string)

  /** Whether a row satisfies the filters spelled by the bound arguments. */
  predicate RowMatches(row: RoleRow, args: seq<SqlArg>) {
    && |args| >= 2 && args[0] == UuidArg(row.user) && args[1] == UuidArg(row.org)
    && (|args| >= 3 ==> args[2] == TextArg(row.role))
  }

  /** What COUNT(*) answers over `rows` for the filters the arguments bind. */
  function CountMatching(rows: seq<RoleRow>, args: seq<SqlArg>): nat
    decreases |rows|
  {
    if |rows| == 0 then 0
    else CountMatching(rows[..|rows| - 1], args) + (if RowMatches(rows[|rows| - 1], args) then 1 else 0)
  }

  lemma {:induction false} CountPositive(rows: seq<RoleRow>, args: seq<SqlArg>)
    ensures CountMatching(rows, args) > 0 <==> exists i :: 0 <= i < |rows| && RowMatches(rows[i], args)
    decreases |rows|
  {
    if |rows| > 0 {
      var init := rows[..|rows| - 1];
      CountPositive(init, args);
      if exists i :: 0 <= i < |init| && RowMatches(init[i], args) {
        var i :| 0 <= i < |init| && RowMatches(init[i], args);
        assert rows[i] == init[i];
      }
      if exists i :: 0 <= i < |rows| && RowMatches(rows[i], args) {
        var i :| 0 <= i < |rows| && RowMatches(rows[i], args);
        if i < |init| {
          assert init[i] == rows[i];
        }
      }
    }
  }

  /**
   * Against a user_org_roles table, HasRole answers true exactly when some
   * row has the user and the organisation and, for a non-empty role, that role.
   */
  lemma HasRoleAgainstTable(rows: seq<RoleRow>, userID: UserId, orgID: OrgId, role: string)
    ensures HasRole(userID, orgID, role, (q: Built) => Success(CountMatching(rows, q.args))) ==
      Success(exists i :: 0 <= i < |rows| && rows[i].user == userID && rows[i].org == orgID && (role == "" || rows[i].role == role))
  {
    var q := HasRoleQuery(userID, orgID, role);
    CountPositive(rows, q.args);
    forall i | 0 <= i < |rows|
      ensures RowMatches(rows[i], q.args) <==> rows[i].user == userID && rows[i].org == orgID && (role == "" || rows[i].role == role)
    {
    }
  }
}
