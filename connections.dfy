/**
 * The connection counter of `DatabaseManager`, for one thread: the
 * thread-local connection is a flag, the counter is shared state guarded by
 * a lock. Whether `sqlite3.connect`, the body of the `with` block, or
 * `close()` raises is given to each operation as a flag.
 */
module Connections {

  datatype Acquired = Opened | Reused | LimitReached | ConnectFailed

  datatype Session = Completed | BodyFailed | NotStarted(reason: Acquired)

  class DatabaseManager {
    const maxConnections: int
    var connectionCount: int
    var hasConnection: bool
    /** Increments that no open connection accounts for. */
    ghost var leaked: nat

    /** The highest value the counter can reach. */
    function Cap(): int reads this { if maxConnections < 0 then 0 else maxConnections }

    ghost predicate Valid()
      reads this
    {
      && 0 <= connectionCount <= Cap()
      && connectionCount == (if hasConnection then 1 else 0) + leaked
    }

    constructor(maxConnections: int)
      ensures this.maxConnections == maxConnections
      ensures connectionCount == 0 && !hasConnection && leaked == 0
      ensures Valid()
    {
      this.maxConnections := maxConnections;
      connectionCount := 0;
      hasConnection := false;
      leaked := 0;
    }

    /**
     * The opening half of `get_connection`. An existing connection is reused.
     * Otherwise the limit is checked and the counter raised under the lock,
     * and only then is the connection opened: when that raises, the counter
     * stays raised although no connection exists.
     */
    method Acquire(connectFails: bool) returns (r: Acquired)
      requires Valid()
      modifies this
      ensures Valid()
      ensures old(hasConnection) ==> r == Reused && unchanged(this)
      ensures !old(hasConnection) && old(connectionCount) >= maxConnections ==>
                r == LimitReached && unchanged(this)
      ensures !old(hasConnection) && old(connectionCount) < maxConnections ==>
                && connectionCount == old(connectionCount) + 1
                && (connectFails ==> r == ConnectFailed && !hasConnection && leaked == old(leaked) + 1)
                && (!connectFails ==> r == Opened && hasConnection && leaked == old(leaked))
    {
      if hasConnection {
        return Reused;
      }
      if connectionCount >= maxConnections {
        return LimitReached;
      }
      connectionCount := connectionCount + 1;
      if connectFails {
        leaked := leaked + 1;
        return ConnectFailed;
      }
      hasConnection := true;
      r := Opened;
    }

    /**
     * `_close_connection`: closing the connection, then lowering the counter
     * (never below 0). When `close()` raises, the bare `except` skips the
     * decrement; the `finally` forgets the connection either way.
     */
    method Close(closeFails: bool)
      requires Valid()
      modifies this
      ensures Valid()
      ensures !old(hasConnection) ==> unchanged(this)
      ensures old(hasConnection) ==>
                && !hasConnection
                && (closeFails ==> connectionCount == old(connectionCount) && leaked == old(leaked) + 1)
                && (!closeFails ==> connectionCount == old(connectionCount) - 1 && leaked == old(leaked))
    {
      if hasConnection {
        if !closeFails {
          connectionCount := if connectionCount - 1 < 0 then 0 else connectionCount - 1;
        } else {
          leaked := leaked + 1;
        }
        hasConnection := false;
      }
    }

    /**
     * One `with db_manager.get_connection() as conn:` block. A body that
     * raises closes the connection; a body that completes leaves it open
     * for the thread's next block.
     */
    method GetConnection(connectFails: bool, bodyRaises: bool, closeFails: bool) returns (s: Session)
      requires Valid()
      modifies this
      ensures Valid()
      ensures s.NotStarted? ==> s.reason == LimitReached || s.reason == ConnectFailed
      ensures s == NotStarted(LimitReached) <==> !old(hasConnection) && old(connectionCount) >= maxConnections
      ensures s == NotStarted(ConnectFailed) <==>
                !old(hasConnection) && old(connectionCount) < maxConnections && connectFails
      ensures s == NotStarted(LimitReached) ==> unchanged(this)
      ensures s == NotStarted(ConnectFailed) ==>
                && !hasConnection
                && connectionCount == old(connectionCount) + 1 && leaked == old(leaked) + 1
      ensures !s.NotStarted? ==> (s == BodyFailed <==> bodyRaises)
      ensures s == Completed ==>
                && hasConnection && leaked == old(leaked)
                && connectionCount == old(connectionCount) + (if old(hasConnection) then 0 else 1)
      ensures s == BodyFailed ==>
                && !hasConnection
                && (closeFails ==>
                      && connectionCount == old(connectionCount) + (if old(hasConnection) then 0 else 1)
                      && leaked == old(leaked) + 1)
                && (!closeFails ==>
                      && connectionCount == old(connectionCount) - (if old(hasConnection) then 1 else 0)
                      && leaked == old(leaked))
    {
      var a := Acquire(connectFails);
      if a == LimitReached || a == ConnectFailed {
        return NotStarted(a);
      }
      if bodyRaises {
        Close(closeFails);
        return BodyFailed;
      }
      s := Completed;
    }

    /** `close_all`: the shutdown hook closes the calling thread's connection. */
    method CloseAll(closeFails: bool)
      requires Valid()
      modifies this
      ensures Valid() && !hasConnection
      ensures !old(hasConnection) ==> unchanged(this)
      ensures old(hasConnection) ==>
                && (closeFails ==> connectionCount == old(connectionCount) && leaked == old(leaked) + 1)
                && (!closeFails ==> connectionCount == old(connectionCount) - 1 && leaked == old(leaked))
    {
      Close(closeFails);
    }

    // ---------------------------------------------------------------------
    // as evidently intended

    /** Nothing leaks: the counter is exactly the number of open connections. */
    ghost predicate Tight()
      reads this
    {
      Valid() && leaked == 0
    }

    /** The opening half with the counter lowered again when opening raises. */
    method AcquireFixed(connectFails: bool) returns (r: Acquired)
      requires Tight()
      modifies this
      ensures Tight()
      ensures old(hasConnection) ==> r == Reused && unchanged(this)
      ensures !old(hasConnection) && old(connectionCount) >= maxConnections ==>
                r == LimitReached && unchanged(this)
      ensures !old(hasConnection) && old(connectionCount) < maxConnections ==>
                && (connectFails ==> r == ConnectFailed && connectionCount == old(connectionCount) && !hasConnection)
                && (!connectFails ==> r == Opened && connectionCount == old(connectionCount) + 1 && hasConnection)
    {
      if hasConnection {
        return Reused;
      }
      if connectionCount >= maxConnections {
        return LimitReached;
      }
      connectionCount := connectionCount + 1;
      if connectFails {
        connectionCount := connectionCount - 1;
        return ConnectFailed;
      }
      hasConnection := true;
      r := Opened;
    }

    /** Closing with the decrement in the `finally`, so a failing `close()` still releases its slot. */
    method CloseFixed(closeFails: bool)
      requires Tight()
      modifies this
      ensures Tight() && !hasConnection
      ensures !old(hasConnection) ==> unchanged(this)
      ensures old(hasConnection) ==> connectionCount == old(connectionCount) - 1
    {
      if hasConnection {
        connectionCount := if connectionCount - 1 < 0 then 0 else connectionCount - 1;
        hasConnection := false;
      }
    }
  }

  /**
   * As written: with a limit of `max` connections, `max` failed attempts to
   * open one leave the counter at the limit, and from then on the thread can
   * never open a connection, although none is open.
   */
  method ConnectFailuresExhaustPool(max: nat) returns (m: DatabaseManager, r: Acquired)
    requires max >= 1
    ensures m.connectionCount == max && !m.hasConnection && r == LimitReached
  {
    m := new DatabaseManager(max);
    var i := 0;
    while i < max
      invariant 0 <= i <= max
      invariant m.maxConnections == max && m.Valid()
      invariant m.connectionCount == i && !m.hasConnection
      modifies m
    {
      var failed := m.Acquire(true);
      i := i + 1;
    }
    r := m.Acquire(false);
  }

  /** With the correction, the same failures leave the counter at 0 and the next attempt opens. */
  method FixedManagerRecovers(max: nat) returns (m: DatabaseManager, r: Acquired)
    requires max >= 1
    ensures m.connectionCount == 1 && m.hasConnection && r == Opened
  {
    m := new DatabaseManager(max);
    var i := 0;
    while i < max
      invariant 0 <= i <= max
      invariant m.maxConnections == max && m.Tight()
      invariant m.connectionCount == 0 && !m.hasConnection
      modifies m
    {
      var failed := m.AcquireFixed(true);
      i := i + 1;
    }
    r := m.AcquireFixed(false);
  }

  /** As written, a failing `close()` leaks too: the slot stays taken after the connection is gone. */
  method CloseFailureLeaks() returns (m: DatabaseManager, r: Acquired)
    ensures m.connectionCount == 1 && !m.hasConnection && r == LimitReached
  {
    m := new DatabaseManager(1);
    var first := m.Acquire(false);
    m.Close(true);
    r := m.Acquire(false);
  }

  /** With the decrement in the `finally`, the slot is free again. */
  method CloseFixedReleases() returns (m: DatabaseManager, r: Acquired)
    ensures m.connectionCount == 1 && m.hasConnection && r == Opened
  {
    m := new DatabaseManager(1);
    var first := m.AcquireFixed(false);
    m.CloseFixed(true);
    r := m.AcquireFixed(false);
  }
}
