/**
 * The WebSocket routes `$connect` (backend/handlers/onConnect.js) and
 * `$disconnect` (backend/handlers/onDisconnect.js): they add the connection
 * to, or remove it from, the connections table.
 */
module Connections {
  import opened Store

  /** The registry after the put of `c`: `c` is in it unless the put threw; nothing else changes. */
  function Registered(conns: set<ConnId>, c: ConnId, w: World): (r: set<ConnId>)
    ensures c in r <==> c in conns || PutConnection(c) !in w.failing
    ensures forall d :: d != c ==> (d in r <==> d in conns)
  {
    if PutConnection(c) in w.failing then conns else conns + {c}
  }

  /** The registry after the delete of `c`: `c` is gone unless the delete threw; nothing else changes. */
  function Unregistered(conns: set<ConnId>, c: ConnId, w: World): (r: set<ConnId>)
    ensures c in r <==> c in conns && DeleteConnection(c) in w.failing
    ensures forall d :: d != c ==> (d in r <==> d in conns)
  {
    if DeleteConnection(c) in w.failing then conns else conns - {c}
  }

  /** Registering a connection that is already there changes nothing, whatever the store does. */
  lemma RegisterPresent(conns: set<ConnId>, c: ConnId, w: World)
    requires c in conns
    ensures Registered(conns, c, w) == conns
  {
  }

  /** Registering twice is registering once. */
  lemma RegisterTwice(conns: set<ConnId>, c: ConnId, w: World)
    ensures Registered(Registered(conns, c, w), c, w) == Registered(conns, c, w)
  {
  }

  /** Removing a connection that is not there changes nothing, whatever the store does. */
  lemma UnregisterAbsent(conns: set<ConnId>, c: ConnId, w: World)
    requires c !in conns
    ensures Unregistered(conns, c, w) == conns
  {
  }

  /** `$connect`: the put of `c` is attempted and the answer is 200 even when it throws. */
  method Connect(db: Tables, c: ConnId, w: World) returns (status: int)
    requires db.Valid()
    modifies db
    ensures db.Valid()
    ensures status == 200
    ensures db.connections == Registered(old(db.connections), c, w)
    ensures db.flags == old(db.flags) && db.counter == old(db.counter) && db.posts == old(db.posts)
  {
    if PutConnection(c) !in w.failing {
      db.connections := db.connections + {c};
    }
    status := 200;
  }

  /**
   * `$disconnect`: the delete of `c` is attempted; the answer is 200 when
   * it goes through, even when `c` was not registered, and 500 when it throws.
   */
  method Disconnect(db: Tables, c: ConnId, w: World) returns (status: int)
    requires db.Valid()
    modifies db
    ensures db.Valid()
    ensures status == (if DeleteConnection(c) in w.failing then 500 else 200)
    ensures db.connections == Unregistered(old(db.connections), c, w)
    ensures db.flags == old(db.flags) && db.counter == old(db.counter) && db.posts == old(db.posts)
  {
    if DeleteConnection(c) in w.failing {
      return 500;
    }
    db.connections := db.connections - {c};
    status := 200;
  }
}
