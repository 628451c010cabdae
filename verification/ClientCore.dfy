/**
 The fields that every goroutine of the TrueNAS client shares, and the atomic
 sections that change them. `Shared` is the value of those fields, each section is
 a function on it, and `Client` is the object whose methods perform the sections
 in place. Each section is one critical region of `connMu`, one compare-and-swap,
 one `sync.Map` operation or one non-blocking channel send.

 A connection and its `connDone` channel are created together, so both are named
 by the same number. A request's reply channel has capacity one and is named by
 the request ID it was created for.
 */
module ClientCore {
  import opened Basics

  datatype Message =
    | Reply(id: nat, via: nat)      // a response frame: its ID and the connection it came over
    | ConnectionLost                // the error handleDisconnect sends

  datatype Shared = Shared(
    conn: Option<nat>,
    connDone: Option<nat>,
    pending: set<nat>,              // request IDs with a registered reply channel
    slots: map<nat, Message>,       // reply channels that hold a message
    closed: bool,
    reconnecting: bool,
    nextId: nat,
    nextConn: nat,
    permits: int,                   // semaphore weight in use
    doneClosed: set<nat>,           // connDone channels that have been closed
    panicked: bool,                 // a channel was closed twice
    hungUp: set<nat>)               // sockets closed by handleDisconnect

  const Initial := Shared(None, None, {}, map[], false, false, 0, 0, 0, {}, false, {})

  // dial, the section that stores an authenticated connection
  function Install(sh: Shared): Shared {
    sh.(conn := Some(sh.nextConn), connDone := Some(sh.nextConn), nextConn := sh.nextConn + 1)
  }

  // close(c.connDone) when it is set; closing a closed channel panics
  function CloseDoneChannel(sh: Shared): Shared {
    if sh.connDone.None? then sh
    else sh.(panicked := sh.panicked || sh.connDone.value in sh.doneClosed,
             doneClosed := sh.doneClosed + {sh.connDone.value})
  }

  // handleDisconnect, the section under connMu
  function Disconnect(sh: Shared, conn: nat): Shared {
    if sh.conn != Some(conn) then sh
    else CloseDoneChannel(sh).(conn := None, connDone := None)
  }

  // Close, the section under connMu: connDone is closed but stays set
  function CloseConnection(sh: Shared): Shared {
    CloseDoneChannel(sh).(conn := None)
  }

  // callOn: a fresh ID and its channel enter pending
  function Register(sh: Shared): Shared {
    sh.(nextId := sh.nextId + 1, pending := sh.pending + {sh.nextId + 1})
  }

  function Forget(sh: Shared, id: nat): Shared {
    sh.(pending := sh.pending - {id})
  }

  // a non-blocking send: dropped when the channel already holds a message
  function TrySend(sh: Shared, id: nat, m: Message): Shared {
    if id in sh.slots then sh else sh.(slots := sh.slots[id := m])
  }

  function Take(sh: Shared, id: nat): Shared {
    sh.(slots := sh.slots - {id})
  }

  class Client {
    var conn: Option<nat>
    var connDone: Option<nat>
    var pending: set<nat>
    var slots: map<nat, Message>
    var closed: bool
    var reconnecting: bool
    var nextId: nat
    var nextConn: nat
    var permits: int
    var doneClosed: set<nat>
    var panicked: bool
    var hungUp: set<nat>

    function Value(): (sh: Shared)
      reads this
    {
      Shared(conn, connDone, pending, slots, closed, reconnecting, nextId, nextConn,
             permits, doneClosed, panicked, hungUp)
    }

    constructor ()
      ensures Value() == Initial
    {
      conn, connDone, pending, slots := None, None, {}, map[];
      closed, reconnecting, nextId, nextConn := false, false, 0, 0;
      permits, doneClosed, panicked, hungUp := 0, {}, false, {};
    }

    method InstallConnection() returns (c: nat)
      modifies this
      ensures Value() == Install(old(Value()))
      ensures conn == Some(c) && c == old(nextConn)
    {
      c := nextConn;
      nextConn := nextConn + 1;
      conn := Some(c);
      connDone := Some(c);
    }

    method TearDown(c: nat) returns (active: bool)
      modifies this
      ensures Value() == Disconnect(old(Value()), c)
      ensures active <==> old(conn) == Some(c)
    {
      if conn != Some(c) {
        return false;
      }
      if connDone.Some? {
        panicked := panicked || connDone.value in doneClosed;
        doneClosed := doneClosed + {connDone.value};
        connDone := None;
      }
      conn := None;
      active := true;
    }

    method CloseCurrent() returns (last: Option<nat>)
      modifies this
      ensures Value() == CloseConnection(old(Value()))
      ensures last == old(conn)
    {
      last := conn;
      if connDone.Some? {
        panicked := panicked || connDone.value in doneClosed;
        doneClosed := doneClosed + {connDone.value};
      }
      conn := None;
    }

    method SwapClosed() returns (already: bool)
      modifies this
      ensures Value() == old(Value()).(closed := true) && already == old(closed)
    {
      already := closed;
      closed := true;
    }

    method ClaimReconnect() returns (won: bool)
      modifies this
      ensures Value() == old(Value()).(reconnecting := true) && won == !old(reconnecting)
    {
      won := !reconnecting;
      if won {
        reconnecting := true;
      }
    }

    method RegisterCall() returns (id: nat)
      modifies this
      ensures Value() == Register(old(Value())) && id == old(nextId) + 1
    {
      nextId := nextId + 1;
      id := nextId;
      pending := pending + {id};
    }

    method LoadAndDelete(id: nat) returns (found: bool)
      modifies this
      ensures Value() == Forget(old(Value()), id) && found == (id in old(pending))
    {
      found := id in pending;
      pending := pending - {id};
    }

    method SendOrDrop(id: nat, m: Message) returns (sent: bool)
      modifies this
      ensures Value() == TrySend(old(Value()), id, m) && sent == (id !in old(slots))
    {
      sent := id !in slots;
      if sent {
        slots := slots[id := m];
      }
    }
  }
}
