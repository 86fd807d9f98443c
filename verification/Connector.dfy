/** The zipper's table of live connections (core/connector.go), specified by the log of the calls made on it. */
module Connector {
  import opened Common
  import Router

  type ConnId = Router.ConnId

  /** The table maps an ID to the connection object, named by the connection's serial number. */
  datatype Book = Book(conns: map<ConnId, nat>, closed: bool)

  datatype Op =
    | Store(id: ConnId, conn: nat)
    | Remove(id: ConnId)
    | Close

  type Calls = seq<Op>

  /** The table after a sequence of calls; once closed it takes no part in them. */
  ghost function Kept(log: Calls): (b: Book) {
    if log == [] then Book(map[], false) else After(Kept(log[..|log| - 1]), log[|log| - 1])
  }

  ghost function After(b: Book, op: Op): (b': Book) {
    if b.closed then b
    else
      match op
      case Store(id, conn) => b.(conns := b.conns[id := conn])
      case Remove(id) => b.(conns := b.conns - {id})
      case Close => Book(map[], true)
  }

  ghost predicate Closed(log: Calls) {
    Close in log
  }

  predicate Touches(op: Op, id: ConnId) {
    !op.Close? && op.id == id
  }

  /** Call `i` stored `conn` under `id`, and no later call stored or removed under it. */
  ghost predicate LastStored(log: Calls, i: int, id: ConnId, conn: nat) {
    0 <= i < |log| && log[i] == Store(id, conn) && forall j :: i < j < |log| ==> !Touches(log[j], id)
  }

  /** Never closed, and `conn` is what `id` was last stored with. */
  ghost predicate Holds(log: Calls, id: ConnId, conn: nat) {
    !Closed(log) && exists i :: LastStored(log, i, id, conn)
  }

  lemma {:induction false} TableIsLog(log: Calls, id: ConnId, conn: nat)
    ensures Kept(log).closed <==> Closed(log)
    ensures id in Kept(log).conns && Kept(log).conns[id] == conn <==> Holds(log, id, conn)
  {
    if log != [] {
      var n := |log| - 1;
      var rest, op := log[..n], log[n];
      TableIsLog(rest, id, conn);
      assert log == rest + [op];
      if Closed(rest) {
        ClosedIsEmpty(rest);
      } else if Touches(op, id) {
        assert LastStored(log, n, id, conn) <==> op == Store(id, conn);
        assert forall i :: 0 <= i < n ==> !LastStored(log, i, id, conn);
      } else {
        SameStore(rest, op, id, conn);
      }
    }
  }

  lemma {:induction false} ClosedIsEmpty(log: Calls)
    requires Closed(log)
    ensures Kept(log) == Book(map[], true)
  {
    var n := |log| - 1;
    var rest := log[..n];
    assert log == rest + [log[n]];
    if Closed(rest) {
      ClosedIsEmpty(rest);
    } else {
      NotClosed(rest);
    }
  }

  lemma {:induction false} NotClosed(log: Calls)
    requires !Closed(log)
    ensures !Kept(log).closed
  {
    if log != [] {
      NotClosed(log[..|log| - 1]);
      assert log[|log| - 1] in log;
    }
  }

  lemma SameStore(rest: Calls, op: Op, id: ConnId, conn: nat)
    requires !Touches(op, id)
    ensures (exists i :: LastStored(rest + [op], i, id, conn)) <==> (exists i :: LastStored(rest, i, id, conn))
  {
    var log := rest + [op];
    if i :| LastStored(rest, i, id, conn) {
      assert LastStored(log, i, id, conn);
    }
    if i :| LastStored(log, i, id, conn) {
      assert forall j :: 0 <= j < |rest| ==> log[j] == rest[j];
      assert LastStored(rest, i, id, conn);
    }
  }

  datatype Found = ConnectorClosed | Missing | Found(conn: nat)

  class Connector {
    var connections: map<ConnId, nat>
    var closed: bool
    ghost var log: Calls

    ghost predicate Valid()
      reads this
    {
      Book(connections, closed) == Kept(log)
    }

    constructor ()
      ensures Valid() && log == []
    {
      connections, closed, log := map[], false, [];
    }

    method Put(id: ConnId, conn: nat) returns (ok: bool)
      requires Valid()
      modifies this
      ensures Valid() && log == old(log) + [Store(id, conn)]
      ensures ok <==> !Closed(old(log))
    {
      TableIsLog(log, id, conn);
      ok := !closed;
      if !closed {
        connections := connections[id := conn];
      }
      log := log + [Store(id, conn)];
      assert log[..|log| - 1] == old(log);
    }

    method Delete(id: ConnId) returns (ok: bool)
      requires Valid()
      modifies this
      ensures Valid() && log == old(log) + [Remove(id)]
      ensures ok <==> !Closed(old(log))
    {
      TableIsLog(log, id, 0);
      ok := !closed;
      if !closed {
        connections := connections - {id};
      }
      log := log + [Remove(id)];
      assert log[..|log| - 1] == old(log);
    }

    /** The connection last stored under the ID and not removed since, or nothing if there is none or after a Close. */
    method Get(id: ConnId) returns (f: Found)
      requires Valid()
      ensures f.ConnectorClosed? <==> Closed(log)
      ensures forall conn :: f == Found(conn) <==> Holds(log, id, conn)
    {
      forall conn ensures id in connections && connections[id] == conn <==> Holds(log, id, conn) {
        TableIsLog(log, id, conn);
      }
      TableIsLog(log, id, 0);
      if closed {
        return ConnectorClosed;
      }
      f := if id in connections then Found(connections[id]) else Missing;
    }

    /** Closed first, emptied afterwards, entry by entry; a second close is an error. */
    method Shut() returns (ok: bool)
      requires Valid()
      modifies this
      ensures Valid() && log == old(log) + [Close]
      ensures ok <==> !Closed(old(log))
    {
      TableIsLog(log, 0, 0);
      ok := !closed;
      if !closed {
        closed := true;
        while connections.Keys != {}
          invariant closed && log == old(log)
          decreases connections.Keys
        {
          var id := AnyOf(connections.Keys);
          connections := connections - {id};
        }
      }
      log := log + [Close];
      assert log[..|log| - 1] == old(log);
    }
  }
}
