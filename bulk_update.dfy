/**
 * `bulkUpdateFlags` (backend/handlers/bulkUpdateFlags.js). It authorises
 * the caller, sets `enabled` on every record named in `ids` and pushes one
 * "flags-updated" carrying the whole request. `Promise.all` lets every
 * per-id update run, so when one of them throws, the others have still been
 * written; the answer is 500 and nothing is pushed.
 *
 * The handler imports `buildResponse` from backend/handlers/auth/util.js,
 * which exports only `authorize`. The model answers with the status code each
 * branch selects, as if that helper existed.
 */
module BulkUpdate {
  import opened Wrappers
  import opened Json
  import opened Auth
  import opened Store

  /** `ids` is an array of numbers (possibly empty) and `enabled` is a boolean. */
  predicate ValidRequest(fields: map<string, Json>) {
    && "ids" in fields && fields["ids"].JArr? && AllNumbers(fields["ids"].items)
    && "enabled" in fields && fields["enabled"].JBool?
  }

  /**
   * The flags table after the per-id updates, in the order of `ids`: each
   * update that goes through sets `enabled` on its record, creating the record
   * when it is missing.
   */
  function EnableAll(flags: map<int, Flag>, ids: seq<int>, enabled: bool, w: World): map<int, Flag> {
    if ids == [] then flags
    else
      var prev := EnableAll(flags, ids[..|ids| - 1], enabled, w);
      var id := ids[|ids| - 1];
      if UpdateFlag(id) in w.failing then prev else prev[id := WithEnabled(Existing(prev, id), enabled)]
  }

  /** The update of `id` was requested and goes through. */
  predicate Updated(k: int, ids: seq<int>, w: World) {
    k in ids && UpdateFlag(k) !in w.failing
  }

  /** Some per-id update throws. */
  predicate AnyFails(ids: seq<int>, w: World) {
    exists i :: 0 <= i < |ids| && UpdateFlag(ids[i]) in w.failing
  }

  lemma WithEnabledTwice(f: Flag, enabled: bool)
    ensures WithEnabled(WithEnabled(f, enabled), enabled) == WithEnabled(f, enabled)
  {
  }

  /**
   * What the updates leave under each key: a record whose update went
   * through has `enabled` set and every other attribute as before; every
   * other record is untouched and no other key appears. Duplicate ids change
   * nothing, and neither does the order of the updates.
   */
  lemma {:induction false} EnableAllAt(flags: map<int, Flag>, ids: seq<int>, enabled: bool, w: World, k: int)
    ensures k in EnableAll(flags, ids, enabled, w) <==> k in flags || Updated(k, ids, w)
    ensures k in EnableAll(flags, ids, enabled, w) ==>
      EnableAll(flags, ids, enabled, w)[k] ==
        if Updated(k, ids, w) then WithEnabled(Existing(flags, k), enabled) else flags[k]
  {
    if ids != [] {
      var front := ids[..|ids| - 1];
      var id := ids[|ids| - 1];
      EnableAllAt(flags, front, enabled, w, k);
      assert ids == front + [id];
      if Updated(k, front, w) {
        WithEnabledTwice(Existing(flags, k), enabled);
      }
    }
  }

  /** The updates keep every record under its own id. */
  lemma EnableAllValid(flags: map<int, Flag>, ids: seq<int>, enabled: bool, w: World)
    requires KeyedById(flags)
    ensures KeyedById(EnableAll(flags, ids, enabled, w))
  {
    forall k | k in EnableAll(flags, ids, enabled, w) ensures EnableAll(flags, ids, enabled, w)[k].id == k {
      EnableAllAt(flags, ids, enabled, w, k);
    }
  }

  /**
   * The `Promise.all` over `ids`, one update at a time. Returns the table
   * after every update has run and whether any of them threw.
   */
  method UpdateEach(start: map<int, Flag>, ids: seq<int>, enabled: bool, w: World)
    returns (table: map<int, Flag>, failed: bool)
    ensures table == EnableAll(start, ids, enabled, w)
    ensures failed == AnyFails(ids, w)
  {
    table, failed := start, false;
    for i := 0 to |ids|
      invariant table == EnableAll(start, ids[..i], enabled, w)
      invariant failed <==> exists j :: 0 <= j < i && UpdateFlag(ids[j]) in w.failing
    {
      var id := ids[i];
      assert ids[..i + 1][..i] == ids[..i];
      if UpdateFlag(id) in w.failing {
        failed := true;
      } else {
        table := table[id := WithEnabled(Existing(table, id), enabled)];
      }
    }
    assert ids[..|ids|] == ids;
  }

  /** The handler's status code. */
  method Handle(db: Tables, h: Headers, verify: Verifier, body: Body, w: World) returns (status: int)
    requires db.Valid()
    modifies db
    ensures db.Valid()
    ensures status == 200 || status == 400 || status == 401 || status == 500
    ensures Authorize(h, verify).Err? ==> status == FailureStatus(Authorize(h, verify).error)
    ensures status == 401 ==> Authorize(h, verify) == Err(NotAuthenticated)
    ensures status == 400 <==> Authorize(h, verify).Ok? && body.Fields? && !ValidRequest(body.fields)
    ensures !(Authorize(h, verify).Ok? && body.Fields? && ValidRequest(body.fields)) ==>
      unchanged(db) && status != 200
    ensures Authorize(h, verify).Ok? && body.Fields? && ValidRequest(body.fields) ==>
      var ids := Numbers(body.fields["ids"].items);
      var enabled := body.fields["enabled"].b;
      && db.flags == EnableAll(old(db.flags), ids, enabled, w)
      && db.counter == old(db.counter)
      && (AnyFails(ids, w) ==>
            status == 500 && db.connections == old(db.connections) && db.posts == old(db.posts))
      && (!AnyFails(ids, w) ==>
            && FannedOut(old(db.connections), old(db.posts), db.connections, db.posts, FlagsUpdated(ids, enabled), w)
            && status == (if FanOutOk(old(db.connections), w, false) then 200 else 500))
  {
    var auth := Authorize(h, verify);
    if auth.Err? {
      return FailureStatus(auth.error);
    }
    if body.Malformed? {
      return 500;
    }
    if !ValidRequest(body.fields) {
      return 400;
    }
    var ids := Numbers(body.fields["ids"].items);
    var enabled := body.fields["enabled"].b;
    var table, failed := UpdateEach(db.flags, ids, enabled, w);
    EnableAllValid(old(db.flags), ids, enabled, w);
    db.flags := table;
    if failed {
      return 500;
    }
    var ok := db.Broadcast(FlagsUpdated(ids, enabled), w, false);
    status := if ok then 200 else 500;
  }
}
