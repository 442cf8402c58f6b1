/** The cursor read protocol `cursorQuery` / `readAsync`: a cursor holds one
    leased connection and gives it back when a read fails or comes back
    empty; a non-empty batch keeps the lease for the next read. */
module Cursors {
  import opened Base
  import opened Leases

  /** What the driver reports for one `cursor.read(numRows)`. */
  datatype ReadOutcome = Batch(rows: seq<Row>) | ReadFailed(err: DbError)

  /** A read that ends the cursor: an error, or an empty batch. */
  predicate Ends(o: ReadOutcome)
  {
    o.ReadFailed? || |o.rows| == 0
  }

  /** The requests one read makes: the fetch, then, if the read ends the
      cursor, the release (with the error, so that the pool discards the
      connection, when the read failed). */
  function ReadEvents(lease: nat, numRows: int, o: ReadOutcome): seq<Event>
  {
    [Fetched(lease, numRows)] +
    (if o.ReadFailed? then [Released(lease, true)]
     else if |o.rows| == 0 then [Released(lease, false)]
     else [])
  }

  /** A cursor together with the connection lease it owns. `released` is
      the model's record of whether `readAsync` has called the release
      function yet. */
  class Cursor {
    const lease: nat
    const query: string
    const values: seq<Value>
    var released: bool

    constructor (lease: nat, query: string, values: seq<Value>)
      ensures this.lease == lease && this.query == query && this.values == values
      ensures !released
    {
      this.lease := lease;
      this.query := query;
      this.values := values;
      released := false;
    }

    /** `cursor.readAsync(numRows)` given the driver's outcome `o`. The
        release function may be called only while the lease is outstanding,
        so a read after the cursor ended is outside the protocol. */
    method Read(pool: Pool, numRows: int, o: ReadOutcome) returns (r: Result<seq<Row>, DbError>)
      requires pool.Valid() && !released && lease in pool.outstanding
      modifies this, pool
      ensures pool.Valid()
      ensures released == Ends(o)
      ensures pool.nextLease == old(pool.nextLease)
      ensures pool.outstanding == if Ends(o) then old(pool.outstanding) - {lease} else old(pool.outstanding)
      ensures pool.log == old(pool.log) + ReadEvents(lease, numRows, o)
      ensures r == if o.ReadFailed? then Failure(o.err) else Success(o.rows)
    {
      pool.Fetch(lease, numRows);
      if o.ReadFailed? {
        pool.Release(lease, true);
        released := true;
        return Failure(o.err);
      }
      if |o.rows| == 0 {
        pool.Release(lease, false);
        released := true;
        return Success(o.rows);
      }
      r := Success(o.rows);
    }

    /** `cursor.endConnection(err?)`: the release function the cursor hands
        to its caller, to end the cursor before it is drained. Calling it, or
        reading to the end afterwards, once the lease is back in the pool is
        a second release, which the pool refuses. */
    method EndConnection(pool: Pool, discard: bool)
      requires pool.Valid() && !released && lease in pool.outstanding
      modifies this, pool
      ensures pool.Valid() && released
      ensures pool.nextLease == old(pool.nextLease)
      ensures pool.outstanding == old(pool.outstanding) - {lease}
      ensures pool.log == old(pool.log) + [Released(lease, discard)]
    {
      pool.Release(lease, discard);
      released := true;
    }
  }

  /** `cursorQuery(query, bindVars)`: leases a connection and opens a cursor
      on it; the lease stays with the cursor. */
  method CursorQuery(pool: Pool, query: string, bindVars: seq<Value>) returns (c: Cursor)
    requires pool.Valid()
    modifies pool
    ensures pool.Valid() && fresh(c) && !c.released
    ensures c.lease == old(pool.nextLease) && c.query == query && c.values == bindVars
    ensures pool.nextLease == old(pool.nextLease) + 1
    ensures c.lease !in old(pool.outstanding) && pool.outstanding == old(pool.outstanding) + {c.lease}
    ensures pool.log == old(pool.log) + [Leased(c.lease), Opened(c.lease, query, bindVars)]
  {
    var lease := pool.Connect();
    pool.Open(lease, query, bindVars);
    c := new Cursor(lease, query, bindVars);
  }

  /** The requests of successive reads with the given outcomes. */
  function DrainEvents(lease: nat, numRows: int, outcomes: seq<ReadOutcome>): seq<Event>
  {
    if outcomes == [] then [] else ReadEvents(lease, numRows, outcomes[0]) + DrainEvents(lease, numRows, outcomes[1..])
  }

  /** Reading a cursor until it ends: non-empty batches, then one read that
      fails or comes back empty. */
  predicate IsDrain(outcomes: seq<ReadOutcome>)
  {
    |outcomes| > 0 && Ends(outcomes[|outcomes| - 1]) &&
    forall i :: 0 <= i < |outcomes| - 1 ==> !Ends(outcomes[i])
  }

  lemma ReadKeepsLease(t: seq<Event>, lease: nat, numRows: int, o: ReadOutcome)
    requires Replay(t).Some? && lease in Replay(t).value.outstanding
    ensures Replay(t + ReadEvents(lease, numRows, o)).Some?
    ensures Replay(t + ReadEvents(lease, numRows, o)).value.used == Replay(t).value.used
    ensures Replay(t + ReadEvents(lease, numRows, o)).value.outstanding
         == if Ends(o) then Replay(t).value.outstanding - {lease} else Replay(t).value.outstanding
  {
    var t1 := t + [Fetched(lease, numRows)];
    ReplaySnoc(t, Fetched(lease, numRows));
    if Ends(o) {
      var d := o.ReadFailed?;
      ReplaySnoc(t1, Released(lease, d));
      assert t + ReadEvents(lease, numRows, o) == t1 + [Released(lease, d)];
    } else {
      assert t + ReadEvents(lease, numRows, o) == t1;
    }
  }

  /** Draining a cursor gives its lease back exactly once: afterwards the
      lease is no longer outstanding, every other lease is as it was, and
      the whole log releases it exactly once. This is about reads alone:
      a caller that also calls `endConnection` is outside the protocol. */
  lemma {:induction false} DrainReleasesOnce(t: seq<Event>, lease: nat, numRows: int, outcomes: seq<ReadOutcome>)
    requires Replay(t).Some? && lease in Replay(t).value.outstanding
    requires IsDrain(outcomes)
    ensures Replay(t + DrainEvents(lease, numRows, outcomes)).Some?
    ensures Replay(t + DrainEvents(lease, numRows, outcomes)).value.outstanding
         == Replay(t).value.outstanding - {lease}
    ensures CountReleased(t, lease) == 0
    ensures CountReleased(t + DrainEvents(lease, numRows, outcomes), lease) == 1
    decreases |outcomes|
  {
    var first := ReadEvents(lease, numRows, outcomes[0]);
    var rest := DrainEvents(lease, numRows, outcomes[1..]);
    var t1 := t + first;
    ReadKeepsLease(t, lease, numRows, outcomes[0]);
    assert t + DrainEvents(lease, numRows, outcomes) == t1 + rest;
    if |outcomes| == 1 {
      assert rest == [];
      assert t1 + rest == t1;
    } else {
      assert IsDrain(outcomes[1..]) by {
        assert forall i :: 0 <= i < |outcomes[1..]| - 1 ==> outcomes[1..][i] == outcomes[i + 1];
      }
      assert !Ends(outcomes[0]);
      DrainReleasesOnce(t1, lease, numRows, outcomes[1..]);
    }
    var u := t + DrainEvents(lease, numRows, outcomes);
    LeaseAccounting(t, lease);
    LeaseAccounting(u, lease);
  }

  /** The batches `[r1, r2]`, `[r3]`, `[]`: three fetches, and the release
      comes once, after the third. */
  lemma DrainExample(lease: nat, numRows: int, r1: Row, r2: Row, r3: Row)
    ensures IsDrain([Batch([r1, r2]), Batch([r3]), Batch([])])
    ensures DrainEvents(lease, numRows, [Batch([r1, r2]), Batch([r3]), Batch([])])
         == [Fetched(lease, numRows), Fetched(lease, numRows), Fetched(lease, numRows), Released(lease, false)]
  {
    var os := [Batch([r1, r2]), Batch([r3]), Batch([])];
    assert os[1..] == [Batch([r3]), Batch([])];
    assert os[1..][1..] == [Batch([])];
    assert os[1..][1..][1..] == [];
    var f := Fetched(lease, numRows);
    assert ReadEvents(lease, numRows, Batch([r1, r2])) == [f];
    assert ReadEvents(lease, numRows, Batch([r3])) == [f];
    assert ReadEvents(lease, numRows, Batch([])) == [f, Released(lease, false)];
    assert DrainEvents(lease, numRows, [Batch([])]) == [f, Released(lease, false)];
  }
}
