/**
 * `deleteFlag` (backend/handlers/deleteFlag.js). It rejects a path id that
 * is not a number, deletes the record under it whether or not it exists
 * and pushes "flag-deleted". It asks for no credentials; an error while
 * deleting a stale connection is caught.
 */
module DeleteFlag {
  import opened Wrappers
  import opened Decimal
  import opened Store

  /** The handler's status code; `pathId` is the `id` path parameter. */
  method Handle(db: Tables, pathId: string, w: World) returns (status: int)
    requires db.Valid()
    modifies db
    ensures db.Valid()
    ensures status == 200 || status == 400 || status == 500
    ensures status == 400 <==> ParseInt(pathId).None?
    ensures ParseInt(pathId).None? || DeleteFlag(ParseInt(pathId).value) in w.failing ==>
      unchanged(db) && status != 200
    ensures ParseInt(pathId).Some? && DeleteFlag(ParseInt(pathId).value) !in w.failing ==>
      var id := ParseInt(pathId).value;
      && db.flags == old(db.flags) - {id}
      && db.counter == old(db.counter)
      && FannedOut(old(db.connections), old(db.posts), db.connections, db.posts, FlagDeleted(id), w)
      && status == (if FanOutOk(old(db.connections), w, true) then 200 else 500)
  {
    var flagId := ParseInt(pathId);
    if flagId.None? {
      return 400;
    }
    var id := flagId.value;
    if DeleteFlag(id) in w.failing {
      return 500;
    }
    db.flags := db.flags - {id};
    var ok := db.Broadcast(FlagDeleted(id), w, true);
    status := if ok then 200 else 500;
  }
}
