/** The methods the layer attaches to every database client: pooled or
    pinned query routing, the transaction lease state machine, the templated
    query with its `{rowCount, rows}` projection, and the templated cursor. */
module PgClient {
  import opened Base
  import opened Leases
  import opened Template
  import opened Cursors

  /** The release function a transaction keeps: it gives back this lease. */
  datatype ReleaseFn = ReleaseFn(lease: nat)

  /** `_.pick(queryResult, ['rowCount', 'rows'])`. */
  function Pick(r: QueryResult): Projected
  {
    Projected(r.rowCount, r.rows)
  }

  /** The outcome of a templated query as its caller sees it. */
  function Projection(outcome: Result<QueryResult, DbError>): Result<Projected, DbError>
  {
    match outcome
    case Success(res) => Success(Pick(res))
    case Failure(e) => Failure(e)
  }

  /** `substVals` of `cursorTmpl`: left out, it becomes `[]`, which is truthy. */
  function CursorSubstArg(substVals: Option<SubstArg>): SubstArg
  {
    match substVals
    case None => Truthy(map[])
    case Some(arg) => arg
  }

  /** The log of a call routed through a fresh lease: lease, statement, release. */
  function PooledEvents(lease: nat, sql: string, values: seq<Value>): seq<Event>
  {
    [Leased(lease), Executed(lease, sql, values), Released(lease, false)]
  }

  /** A database client. `conn` identifies its physical connection; for a
      client handed out by the pool it is the lease that connection came with. */
  class Client {
    const conn: nat
    var inTransaction: bool
    var returnClientToPool: Option<ReleaseFn>

    constructor (conn: nat)
      ensures this.conn == conn && !inTransaction && returnClientToPool == None
    {
      this.conn := conn;
      inTransaction := false;
      returnClientToPool := None;
    }

    /** A client that holds an open transaction: flagged, keeping the release
        function of its own lease, and that lease still outstanding. */
    ghost predicate Pinned(pool: Pool)
      reads this, pool
    {
      inTransaction && returnClientToPool == Some(ReleaseFn(conn)) && conn in pool.outstanding
    }

    /** `queryAsync(query, bindVars?)` given the driver's outcome. Inside a
        transaction the statement runs on this client's own connection and
        no lease is taken; otherwise it runs on a freshly leased connection,
        which is released exactly once before the outcome, error or not, is
        handed back. Either way the outstanding leases are as before. */
    method QueryAsync(pool: Pool, query: string, bindVars: Option<seq<Value>>, outcome: Result<QueryResult, DbError>)
      returns (r: Result<QueryResult, DbError>)
      requires pool.Valid()
      modifies pool
      ensures pool.Valid() && r == outcome
      ensures pool.outstanding == old(pool.outstanding)
      ensures inTransaction ==>
        pool.nextLease == old(pool.nextLease) &&
        pool.log == old(pool.log) + [Executed(conn, query, ValuesOrEmpty(bindVars))]
      ensures !inTransaction ==>
        pool.nextLease == old(pool.nextLease) + 1 &&
        pool.log == old(pool.log) + PooledEvents(old(pool.nextLease), query, ValuesOrEmpty(bindVars))
    {
      var values := ValuesOrEmpty(bindVars);
      if inTransaction {
        pool.Execute(conn, query, values);
      } else {
        var lease := pool.Connect();
        pool.Execute(lease, query, values);
        pool.Release(lease, false);
      }
      r := outcome;
    }

    /** `transactionStart()`: leases a fresh client, stores its release
        function, flags it and issues BEGIN on it. The outcome of BEGIN is
        ignored. Nothing guards against a client already in a transaction:
        this client is left as it was and another lease is taken. */
    method TransactionStart(pool: Pool, begin: Result<QueryResult, DbError>) returns (c: Client)
      requires pool.Valid()
      modifies pool
      ensures pool.Valid() && fresh(c) && c.Pinned(pool)
      ensures c.conn == old(pool.nextLease) && pool.nextLease == old(pool.nextLease) + 1
      ensures c.conn !in old(pool.outstanding)
      ensures pool.outstanding == old(pool.outstanding) + {c.conn}
      ensures pool.log == old(pool.log) + [Leased(c.conn), Executed(c.conn, "BEGIN", [])]
    {
      var lease := pool.Connect();
      c := new Client(lease);
      c.returnClientToPool := Some(ReleaseFn(lease));
      c.inTransaction := true;
      pool.Execute(lease, "BEGIN", []);
    }

    /** Shared by `commit` and `rollback`: clear the flag, issue the
        statement, then call the stored release function whatever the
        statement's outcome, and pass that outcome on. The release function
        itself is not cleared. */
    method EndTransaction(pool: Pool, sql: string, outcome: Result<QueryResult, DbError>)
      returns (r: Result<QueryResult, DbError>)
      requires pool.Valid()
      requires returnClientToPool.Some? && returnClientToPool.value.lease in pool.outstanding
      modifies this, pool
      ensures pool.Valid() && r == outcome
      ensures !inTransaction && returnClientToPool == old(returnClientToPool)
      ensures pool.nextLease == old(pool.nextLease)
      ensures pool.outstanding == old(pool.outstanding) - {returnClientToPool.value.lease}
      ensures pool.log == old(pool.log) + [Executed(conn, sql, []), Released(returnClientToPool.value.lease, false)]
    {
      inTransaction := false;
      pool.Execute(conn, sql, []);
      pool.Release(returnClientToPool.value.lease, false);
      r := outcome;
    }

    /** `commit()`: COMMIT, then release. Calling it on a client that was
        never started (no release function) or whose lease is already back
        in the pool is outside the protocol. */
    method Commit(pool: Pool, outcome: Result<QueryResult, DbError>) returns (r: Result<QueryResult, DbError>)
      requires pool.Valid()
      requires returnClientToPool.Some? && returnClientToPool.value.lease in pool.outstanding
      modifies this, pool
      ensures pool.Valid() && r == outcome
      ensures !inTransaction && returnClientToPool == old(returnClientToPool)
      ensures pool.nextLease == old(pool.nextLease)
      ensures pool.outstanding == old(pool.outstanding) - {returnClientToPool.value.lease}
      ensures pool.log == old(pool.log) + [Executed(conn, "COMMIT", []), Released(returnClientToPool.value.lease, false)]
    {
      r := EndTransaction(pool, "COMMIT", outcome);
    }

    /** `rollback()`: ROLLBACK, then release, as for `commit()`. */
    method Rollback(pool: Pool, outcome: Result<QueryResult, DbError>) returns (r: Result<QueryResult, DbError>)
      requires pool.Valid()
      requires returnClientToPool.Some? && returnClientToPool.value.lease in pool.outstanding
      modifies this, pool
      ensures pool.Valid() && r == outcome
      ensures !inTransaction && returnClientToPool == old(returnClientToPool)
      ensures pool.nextLease == old(pool.nextLease)
      ensures pool.outstanding == old(pool.outstanding) - {returnClientToPool.value.lease}
      ensures pool.log == old(pool.log) + [Executed(conn, "ROLLBACK", []), Released(returnClientToPool.value.lease, false)]
    {
      r := EndTransaction(pool, "ROLLBACK", outcome);
    }

    /** `queryTmpl(obj, substVals)`: the template rewrite of `obj.query`,
        then `queryAsync` with `obj.values`, routed as above, and the result
        reduced to `{rowCount, rows}`; an error is passed on unchanged. */
    method QueryTmpl(pool: Pool, obj: Descriptor, substVals: SubstArg, subst: Subst, outcome: Result<QueryResult, DbError>)
      returns (r: Result<Projected, DbError>)
      requires pool.Valid()
      modifies obj, pool
      ensures pool.Valid() && r == Projection(outcome)
      ensures obj.query == Converted(old(obj.query), substVals, subst) && obj.values == old(obj.values)
      ensures pool.outstanding == old(pool.outstanding)
      ensures inTransaction ==>
        pool.nextLease == old(pool.nextLease) &&
        pool.log == old(pool.log) + [Executed(conn, obj.query, obj.values)]
      ensures !inTransaction ==>
        pool.nextLease == old(pool.nextLease) + 1 &&
        pool.log == old(pool.log) + PooledEvents(old(pool.nextLease), obj.query, obj.values)
    {
      ConvertTemplate(obj, substVals, subst);
      var res := QueryAsync(pool, obj.query, Some(obj.values), outcome);
      r := Projection(res);
    }

    /** `cursorTmpl(obj, substVals?)`: the template rewrite (with `[]` as the
        context when `substVals` is left out), then `cursorQuery` on the
        rewritten query. The cursor always takes a fresh lease, even on a
        client inside a transaction. */
    method CursorTmpl(pool: Pool, obj: Descriptor, substVals: Option<SubstArg>, subst: Subst) returns (c: Cursor)
      requires pool.Valid()
      modifies obj, pool
      ensures pool.Valid() && fresh(c) && !c.released
      ensures obj.query == Converted(old(obj.query), CursorSubstArg(substVals), subst) && obj.values == old(obj.values)
      ensures c.lease == old(pool.nextLease) && c.query == obj.query && c.values == obj.values
      ensures pool.nextLease == old(pool.nextLease) + 1
      ensures pool.outstanding == old(pool.outstanding) + {c.lease}
      ensures pool.log == old(pool.log) + [Leased(c.lease), Opened(c.lease, obj.query, obj.values)]
    {
      ConvertTemplate(obj, CursorSubstArg(substVals), subst);
      c := CursorQuery(pool, obj.query, obj.values);
    }
  }

  /** A transaction from start to commit: BEGIN, a statement and COMMIT all
      run on the one connection leased at the start, no other lease is taken
      meanwhile, and the pool ends with the leases it started with. */
  method TransactionOnOneConnection(app: Client, pool: Pool, query: string, values: seq<Value>,
                                    begin: Result<QueryResult, DbError>, result: Result<QueryResult, DbError>,
                                    commit: Result<QueryResult, DbError>)
    requires pool.Valid()
    modifies pool
    ensures pool.Valid()
    ensures pool.outstanding == old(pool.outstanding)
    ensures pool.nextLease == old(pool.nextLease) + 1
    ensures var id := old(pool.nextLease);
      pool.log == old(pool.log) + [Leased(id), Executed(id, "BEGIN", []), Executed(id, query, values),
                                   Executed(id, "COMMIT", []), Released(id, false)]
  {
    var tx := app.TransactionStart(pool, begin);
    var r := tx.QueryAsync(pool, query, Some(values), result);
    r := tx.Commit(pool, commit);
  }

  /** Starting a second transaction from a client that is already in one
      leaves the first transaction's lease outstanding and pinned: two
      leases are held, and nothing releases the first by itself. */
  method RestartKeepsFirstLease(app: Client, pool: Pool, begin1: Result<QueryResult, DbError>,
                                begin2: Result<QueryResult, DbError>)
    requires pool.Valid()
    modifies pool
    ensures pool.Valid()
    ensures pool.outstanding == old(pool.outstanding) + {old(pool.nextLease), old(pool.nextLease) + 1}
    ensures pool.LeaseCount() == old(pool.LeaseCount()) + 2
  {
    var tx := app.TransactionStart(pool, begin1);
    var tx2 := tx.TransactionStart(pool, begin2);
    assert tx.Pinned(pool) && tx2.Pinned(pool);
  }
}
