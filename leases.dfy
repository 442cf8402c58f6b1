/** The connection pool as this layer sees it: a lease hands out a
    connection together with its release function, and every lease must be
    released exactly once. The pool also keeps, as a ghost record, the log
    of everything this layer asked of it and of the driver on the leased
    connections, so that the order of statements and releases can be stated. */
module Leases {
  import opened Base

  /** One request made by this layer. A release may carry an error, which
      tells the pool to discard the connection instead of recycling it. */
  datatype Event =
    | Leased(lease: nat)
    | Released(lease: nat, discard: bool)
    | Executed(conn: nat, sql: string, values: seq<Value>)
    | Opened(conn: nat, sql: string, values: seq<Value>)
    | Fetched(conn: nat, count: int)

  /** Leases not yet released, and every lease ever handed out. */
  datatype LeaseState = LeaseState(outstanding: set<nat>, used: set<nat>)

  /** The pool's bookkeeping for one event; `None` is a protocol violation:
      a lease handed out twice, or a release of a lease that is not
      outstanding. Statements and cursor traffic do not touch the leases. */
  function Step(s: LeaseState, e: Event): Option<LeaseState>
  {
    match e
    case Leased(id) =>
      if id in s.used then None else Some(LeaseState(s.outstanding + {id}, s.used + {id}))
    case Released(id, _) =>
      if id in s.outstanding then Some(LeaseState(s.outstanding - {id}, s.used)) else None
    case _ => Some(s)
  }

  /** The lease state after a whole log, or `None` if the log violates the
      protocol somewhere. */
  function Replay(t: seq<Event>): Option<LeaseState>
  {
    if t == [] then Some(LeaseState({}, {}))
    else
      match Replay(t[..|t| - 1])
      case None => None
      case Some(s) => Step(s, t[|t| - 1])
  }

  function CountLeased(t: seq<Event>, id: nat): nat
  {
    if t == [] then 0
    else CountLeased(t[..|t| - 1], id) + (if t[|t| - 1] == Leased(id) then 1 else 0)
  }

  function CountReleased(t: seq<Event>, id: nat): nat
  {
    if t == [] then 0
    else CountReleased(t[..|t| - 1], id) + (if t[|t| - 1].Released? && t[|t| - 1].lease == id then 1 else 0)
  }

  lemma ReplaySnoc(t: seq<Event>, e: Event)
    ensures Replay(t + [e]) == if Replay(t).None? then None else Step(Replay(t).value, e)
  {
    assert (t + [e])[..|t + [e]| - 1] == t;
  }

  /** Lease accounting of any log that keeps the protocol: every lease is
      handed out at most once and released at most once, never before it
      was handed out, and it is outstanding exactly when it was handed out
      and not yet released. */
  lemma {:induction false} LeaseAccounting(t: seq<Event>, id: nat)
    requires Replay(t).Some?
    ensures CountLeased(t, id) <= 1
    ensures CountReleased(t, id) <= CountLeased(t, id)
    ensures id in Replay(t).value.used <==> CountLeased(t, id) == 1
    ensures id in Replay(t).value.outstanding <==> CountLeased(t, id) == 1 && CountReleased(t, id) == 0
    decreases |t|
  {
    if t != [] {
      LeaseAccounting(t[..|t| - 1], id);
    }
  }

  /** A pooled call leaves the set of outstanding leases as it found it: it
      takes a fresh lease, runs one statement, and releases that lease. */
  lemma PooledCallBalanced(t: seq<Event>, id: nat, sql: string, values: seq<Value>, discard: bool)
    requires Replay(t).Some? && id !in Replay(t).value.used
    ensures Replay(t + [Leased(id), Executed(id, sql, values), Released(id, discard)]).Some?
    ensures Replay(t + [Leased(id), Executed(id, sql, values), Released(id, discard)]).value.outstanding
         == Replay(t).value.outstanding
  {
    var s := Replay(t).value;
    var t1 := t + [Leased(id)];
    var t2 := t1 + [Executed(id, sql, values)];
    ReplaySnoc(t, Leased(id));
    ReplaySnoc(t1, Executed(id, sql, values));
    ReplaySnoc(t2, Released(id, discard));
    assert t2 + [Released(id, discard)] == t + [Leased(id), Executed(id, sql, values), Released(id, discard)];
    assert id !in s.outstanding by {
      LeaseAccounting(t, id);
    }
  }

  /** The pool, with a ghost record of its outstanding leases. */
  class Pool {
    var nextLease: nat
    ghost var outstanding: set<nat>
    ghost var log: seq<Event>

    ghost predicate Valid()
      reads this
    {
      Replay(log).Some? && Replay(log).value.outstanding == outstanding &&
      forall id :: id in Replay(log).value.used ==> id < nextLease
    }

    /** The number of connections currently leased out. */
    ghost function LeaseCount(): nat
      reads this
    {
      |outstanding|
    }

    constructor ()
      ensures Valid() && outstanding == {} && log == []
    {
      nextLease := 0;
      outstanding := {};
      log := [];
    }

    /** `pool.connect`: a fresh connection and the lease that releases it. */
    method Connect() returns (lease: nat)
      requires Valid()
      modifies this
      ensures Valid()
      ensures lease == old(nextLease) && nextLease == old(nextLease) + 1
      ensures lease !in old(outstanding) && outstanding == old(outstanding) + {lease}
      ensures LeaseCount() == old(LeaseCount()) + 1
      ensures log == old(log) + [Leased(lease)]
    {
      lease := nextLease;
      ReplaySnoc(log, Leased(lease));
      LeaseAccounting(log, lease);
      log := log + [Leased(lease)];
      outstanding := outstanding + {lease};
      nextLease := nextLease + 1;
    }

    /** Calls the release function of an outstanding lease. */
    method Release(lease: nat, discard: bool)
      requires Valid() && lease in outstanding
      modifies this
      ensures Valid()
      ensures nextLease == old(nextLease)
      ensures outstanding == old(outstanding) - {lease}
      ensures LeaseCount() == old(LeaseCount()) - 1
      ensures log == old(log) + [Released(lease, discard)]
    {
      ReplaySnoc(log, Released(lease, discard));
      log := log + [Released(lease, discard)];
      outstanding := outstanding - {lease};
    }

    /** The driver runs one statement on a connection; its outcome is an
        input of the caller, so only the request is recorded. */
    method Execute(conn: nat, sql: string, values: seq<Value>)
      requires Valid()
      modifies this
      ensures Valid()
      ensures nextLease == old(nextLease) && outstanding == old(outstanding)
      ensures log == old(log) + [Executed(conn, sql, values)]
    {
      ReplaySnoc(log, Executed(conn, sql, values));
      log := log + [Executed(conn, sql, values)];
    }

    /** The driver opens a server-side cursor on a connection. */
    method Open(conn: nat, sql: string, values: seq<Value>)
      requires Valid()
      modifies this
      ensures Valid()
      ensures nextLease == old(nextLease) && outstanding == old(outstanding)
      ensures log == old(log) + [Opened(conn, sql, values)]
    {
      ReplaySnoc(log, Opened(conn, sql, values));
      log := log + [Opened(conn, sql, values)];
    }

    /** The driver fetches the next batch of an open cursor. */
    method Fetch(conn: nat, count: int)
      requires Valid()
      modifies this
      ensures Valid()
      ensures nextLease == old(nextLease) && outstanding == old(outstanding)
      ensures log == old(log) + [Fetched(conn, count)]
    {
      ReplaySnoc(log, Fetched(conn, count));
      log := log + [Fetched(conn, count)];
    }
  }
}
