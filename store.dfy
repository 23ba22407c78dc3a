/**
 * The backend's shared state and the fan-out every flag handler ends with.
 *
 * DynamoDB tables become fields of `Tables`. API Gateway's
 * `PostToConnection` becomes a log of pushes. Whatever the outside world
 * decides (which store calls fail, how each push ends) is handed in as a
 * `World`.
 */
module Store {
  import opened Wrappers

  type ConnId = string

  /**
   * A record of the flags table. DynamoDB's UpdateItem adds the item when
   * its key is missing, so a record written only by an update holds just the
   * attributes that update set. That is why every attribute but `id` is optional.
   */
  datatype Flag = Flag(
    id: int,
    name: Option<string>,
    environment: Option<string>,
    enabled: Option<bool>,
    createdAt: Option<string>,
    description: Option<string>,
    modifiedAt: Option<string>,
    tags: Option<seq<string>>)

  /** The item an update creates when no record has key `id`. */
  function Stub(id: int): (f: Flag)
    ensures f.id == id
  {
    Flag(id, None, None, None, None, None, None, None)
  }

  /** The record under `id`, or the item an update would create there. */
  function Existing(flags: map<int, Flag>, id: int): Flag {
    if id in flags then flags[id] else Stub(id)
  }

  /** `SET enabled = :e`: the record with `enabled` replaced and every other attribute kept. */
  function WithEnabled(f: Flag, enabled: bool): (g: Flag)
    ensures g.id == f.id && g.enabled == Some(enabled)
    ensures g.(enabled := f.enabled) == f
  {
    f.(enabled := Some(enabled))
  }

  /** The message pushed to every registered connection, keyed by its `event` tag. */
  datatype Event =
    | FlagCreated(flag: Flag)
    | FlagUpdated(id: int)
    | FlagDeleted(id: int)
    | FlagsUpdated(ids: seq<int>, enabled: bool)
    | FlagsDeleted(ids: seq<int>)

  /** The `event` property of the pushed JSON. */
  function Tag(e: Event): string {
    match e
    case FlagCreated(_) => "flag-created"
    case FlagUpdated(_) => "flag-updated"
    case FlagDeleted(_) => "flag-deleted"
    case FlagsUpdated(_, _) => "flags-updated"
    case FlagsDeleted(_) => "flags-deleted"
  }

  /** One `PostToConnection` call. */
  datatype Post = Post(to: ConnId, event: Event)

  /** How a push ended: delivered, or rejected with an HTTP status when the error carries one. */
  datatype PushOutcome = Delivered | Failed(status: Option<int>)

  /** A push rejected with 404 (Not Found) or 410 (Gone) marks its connection as stale. */
  predicate Stale(o: PushOutcome) {
    o.Failed? && (o.status == Some(404) || o.status == Some(410))
  }

  /** A store call, named by its table, command and key. */
  datatype StoreOp =
    | AddCounter
    | PutFlag(id: int)
    | UpdateFlag(id: int)
    | DeleteFlag(id: int)
    | ScanFlags
    | ScanConnections
    | PutConnection(conn: ConnId)
    | DeleteConnection(conn: ConnId)
    | GetUser(email: string)
    | PutUser(email: string)

  /** The outside world for one request: the store calls that throw and the outcome of each push. */
  datatype World = World(failing: set<StoreOp>, push: ConnId -> PushOutcome)

  /** A connection whose push is stale and whose delete goes through. */
  predicate Deletes(c: ConnId, w: World) {
    Stale(w.push(c)) && DeleteConnection(c) !in w.failing
  }

  /** A connection whose push is stale and whose delete throws. */
  predicate DeleteThrows(c: ConnId, w: World) {
    Stale(w.push(c)) && DeleteConnection(c) in w.failing
  }

  /** The connections of `snapshot` a fan-out removes. */
  function Pruned(snapshot: set<ConnId>, w: World): (r: set<ConnId>)
    ensures r <= snapshot
  {
    set c | c in snapshot && Deletes(c, w)
  }

  /** Some stale connection of `snapshot` could not be deleted. */
  predicate PruneFails(snapshot: set<ConnId>, w: World) {
    exists c :: c in snapshot && DeleteThrows(c, w)
  }

  /** Every push carries `e`. */
  predicate AllCarry(posts: seq<Post>, e: Event) {
    forall i :: 0 <= i < |posts| ==> posts[i].event == e
  }

  /** The connections the pushes went to. */
  function Targets(posts: seq<Post>): set<ConnId> {
    set i | 0 <= i < |posts| :: posts[i].to
  }

  /**
   * The fan-out as it changes the registry and the push log: the registry is
   * scanned; one push of `e` goes to each scanned connection; and the stale
   * ones are deleted. When the scan throws, nothing happens.
   */
  ghost predicate FannedOut(
    conns: set<ConnId>, posts: seq<Post>, conns': set<ConnId>, posts': seq<Post>, e: Event, w: World)
  {
    if ScanConnections in w.failing then
      conns' == conns && posts' == posts
    else
      && conns' == conns - Pruned(conns, w)
      && |posts'| == |posts| + |conns|
      && posts'[..|posts|] == posts
      && Targets(posts'[|posts|..]) == conns
      && AllCarry(posts'[|posts|..], e)
  }

  /**
   * Whether the fan-out lets the handler answer with success. The scan must
   * succeed. When the handler does not catch errors from deleting a stale
   * connection, no such delete may fail either.
   */
  predicate FanOutOk(conns: set<ConnId>, w: World, swallowPruneErrors: bool) {
    ScanConnections !in w.failing && (swallowPruneErrors || !PruneFails(conns, w))
  }

  /** Every record of the table sits under its own id. */
  predicate KeyedById(flags: map<int, Flag>) {
    forall k :: k in flags ==> flags[k].id == k
  }

  /** The tables the handlers share. */
  class Tables {
    /** The flags table, by id. */
    var flags: map<int, Flag>
    /** `currentValue` of the "flagId" counter item. */
    var counter: int
    /** The connections table. */
    var connections: set<ConnId>
    /** Every push made, in order. */
    var posts: seq<Post>

    /** Each record sits under its own id. */
    ghost predicate Valid()
      reads this
    {
      KeyedById(flags)
    }

    constructor ()
      ensures flags == map[] && counter == 0 && connections == {} && posts == []
      ensures Valid()
    {
      flags := map[];
      counter := 0;
      connections := {};
      posts := [];
    }

    /**
     * Scans the registry and pushes `e` to each scanned connection. It deletes a
     * connection whose push failed with 404 or 410. `Promise.all` waits for
     * every push, so all of them are made even after one delete has thrown;
     * `ok` is false when the scan threw or an uncaught delete did.
     */
    method Broadcast(e: Event, w: World, swallowPruneErrors: bool) returns (ok: bool)
      modifies this
      ensures flags == old(flags) && counter == old(counter)
      ensures FannedOut(old(connections), old(posts), connections, posts, e, w)
      ensures ok == FanOutOk(old(connections), w, swallowPruneErrors)
    {
      if ScanConnections in w.failing {
        return false;
      }
      var items := Scan(connections);
      var pruned, sent, pruneFailed := FanOut(items, e, w);
      PushesReach(items, e);
      assert pruned == Pruned(connections, w);
      assert pruneFailed == PruneFails(connections, w);
      assert (posts + sent)[|posts|..] == sent;
      connections := connections - pruned;
      posts := posts + sent;
      ok := swallowPruneErrors || !pruneFailed;
    }
  }

  /** One push of `e` to each of `items`, in order. */
  function Pushes(items: seq<ConnId>, e: Event): (r: seq<Post>)
    ensures |r| == |items| && AllCarry(r, e)
  {
    seq(|items|, i requires 0 <= i < |items| => Post(items[i], e))
  }

  lemma PushesReach(items: seq<ConnId>, e: Event)
    ensures Targets(Pushes(items, e)) == set c | c in items
  {
    var r := Pushes(items, e);
    forall c | c in items ensures c in Targets(r) {
      var i :| 0 <= i < |items| && items[i] == c;
      assert r[i].to == c;
    }
  }

  /**
   * The scan of the connections table: every registered connection once, in
   * an order the store picks.
   */
  method Scan(table: set<ConnId>) returns (items: seq<ConnId>)
    ensures |items| == |table|
    ensures forall c :: c in items <==> c in table
  {
    items := [];
    var todo := table;
    while todo != {}
      invariant todo <= table
      invariant forall c :: c in items <==> c in table && c !in todo
      invariant |items| + |todo| == |table|
      decreases |todo|
    {
      var c :| c in todo;
      items := items + [c];
      todo := todo - {c};
    }
  }

  /**
   * The `Promise.all` over the scanned connections, taken one at a time:
   * push `e`, and on 404 or 410 delete the connection. Returns the
   * connections deleted, the pushes made and whether some delete threw.
   */
  method FanOut(items: seq<ConnId>, e: Event, w: World)
    returns (pruned: set<ConnId>, sent: seq<Post>, pruneFailed: bool)
    ensures forall c :: c in pruned <==> c in items && Deletes(c, w)
    ensures sent == Pushes(items, e)
    ensures pruneFailed <==> exists c :: c in items && DeleteThrows(c, w)
  {
    pruned, sent, pruneFailed := {}, [], false;
    for i := 0 to |items|
      invariant forall c :: c in pruned <==> c in items[..i] && Deletes(c, w)
      invariant sent == Pushes(items[..i], e)
      invariant pruneFailed <==> exists c :: c in items[..i] && DeleteThrows(c, w)
    {
      var c := items[i];
      assert items[..i + 1] == items[..i] + [c];
      assert c in items[..i + 1];
      sent := sent + [Post(c, e)];
      if Stale(w.push(c)) {
        if DeleteConnection(c) in w.failing {
          pruneFailed := true;
        } else {
          pruned := pruned + {c};
        }
      }
    }
    assert items[..|items|] == items;
  }

}
