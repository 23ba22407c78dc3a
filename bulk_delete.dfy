/**
 * `bulkDeleteFlags` (backend/handlers/bulkDeleteFlags.js). It authorises
 * the caller, deletes every record named in `ids` and pushes one
 * "flags-deleted" carrying the whole request. `Promise.all` lets every
 * per-id delete run, so when one of them throws, the others have still gone
 * through; the answer is 500 and nothing is pushed.
 *
 * The handler imports `buildResponse` from backend/handlers/auth/util.js,
 * which exports only `authorize`. The model answers with the status code each
 * branch selects, as if that helper existed.
 */
module BulkDelete {
  import opened Wrappers
  import opened Json
  import opened Auth
  import opened Store

  /** `ids` is an array of numbers, possibly empty. */
  predicate ValidRequest(fields: map<string, Json>) {
    "ids" in fields && fields["ids"].JArr? && AllNumbers(fields["ids"].items)
  }

  /** The flags table after the per-id deletes that go through, in the order of `ids`. */
  function RemoveAll(flags: map<int, Flag>, ids: seq<int>, w: World): map<int, Flag> {
    if ids == [] then flags
    else
      var prev := RemoveAll(flags, ids[..|ids| - 1], w);
      var id := ids[|ids| - 1];
      if DeleteFlag(id) in w.failing then prev else prev - {id}
  }

  /** The delete of `k` was requested and goes through. */
  predicate Removed(k: int, ids: seq<int>, w: World) {
    k in ids && DeleteFlag(k) !in w.failing
  }

  /** Some per-id delete throws. */
  predicate AnyFails(ids: seq<int>, w: World) {
    exists i :: 0 <= i < |ids| && DeleteFlag(ids[i]) in w.failing
  }

  /**
   * A key survives exactly when it was there and its delete was not
   * requested or threw, and a surviving record is untouched. Duplicate ids
   * and the order of the deletes make no difference.
   */
  lemma {:induction false} RemoveAllAt(flags: map<int, Flag>, ids: seq<int>, w: World, k: int)
    ensures k in RemoveAll(flags, ids, w) <==> k in flags && !Removed(k, ids, w)
    ensures k in RemoveAll(flags, ids, w) ==> RemoveAll(flags, ids, w)[k] == flags[k]
  {
    if ids != [] {
      var front := ids[..|ids| - 1];
      RemoveAllAt(flags, front, w, k);
      assert ids == front + [ids[|ids| - 1]];
    }
  }

  /** When no delete throws, none of the requested ids is left. */
  lemma NoneLeft(flags: map<int, Flag>, ids: seq<int>, w: World)
    requires !AnyFails(ids, w)
    ensures forall i :: 0 <= i < |ids| ==> ids[i] !in RemoveAll(flags, ids, w)
  {
    forall i | 0 <= i < |ids| ensures ids[i] !in RemoveAll(flags, ids, w) {
      RemoveAllAt(flags, ids, w, ids[i]);
    }
  }

  /** The deletes keep every record under its own id. */
  lemma RemoveAllValid(flags: map<int, Flag>, ids: seq<int>, w: World)
    requires KeyedById(flags)
    ensures KeyedById(RemoveAll(flags, ids, w))
  {
    forall k | k in RemoveAll(flags, ids, w) ensures RemoveAll(flags, ids, w)[k].id == k {
      RemoveAllAt(flags, ids, w, k);
    }
  }

  /**
   * The `Promise.all` over `ids`, one delete at a time. Returns the table
   * after every delete has run and whether any of them threw.
   */
  method DeleteEach(start: map<int, Flag>, ids: seq<int>, w: World)
    returns (table: map<int, Flag>, failed: bool)
    ensures table == RemoveAll(start, ids, w)
    ensures failed == AnyFails(ids, w)
  {
    table, failed := start, false;
    for i := 0 to |ids|
      invariant table == RemoveAll(start, ids[..i], w)
      invariant failed <==> exists j :: 0 <= j < i && DeleteFlag(ids[j]) in w.failing
    {
      var id := ids[i];
      assert ids[..i + 1][..i] == ids[..i];
      if DeleteFlag(id) in w.failing {
        failed := true;
      } else {
        table := table - {id};
      }
    }
    assert ids[..|ids|] == ids;
  }

  /** The handler's status code. */
  method Handle(db: Tables, h: Headers, verify: Verifier, body: Body, w: World) returns (status: int)
    requires db.Valid()
    modifies db
    ensures db.Valid()
    ensures status == 200 || status == 400 || status == 401 || status == 500
    ensures Authorize(h, verify).Err? ==> status == FailureStatus(Authorize(h, verify).error)
    ensures status == 401 ==> Authorize(h, verify) == Err(NotAuthenticated)
    ensures status == 400 <==> Authorize(h, verify).Ok? && body.Fields? && !ValidRequest(body.fields)
    ensures !(Authorize(h, verify).Ok? && body.Fields? && ValidRequest(body.fields)) ==>
      unchanged(db) && status != 200
    ensures Authorize(h, verify).Ok? && body.Fields? && ValidRequest(body.fields) ==>
      var ids := Numbers(body.fields["ids"].items);
      && db.flags == RemoveAll(old(db.flags), ids, w)
      && db.counter == old(db.counter)
      && (AnyFails(ids, w) ==>
            status == 500 && db.connections == old(db.connections) && db.posts == old(db.posts))
      && (!AnyFails(ids, w) ==>
            && FannedOut(old(db.connections), old(db.posts), db.connections, db.posts, FlagsDeleted(ids), w)
            && status == (if FanOutOk(old(db.connections), w, false) then 200 else 500))
  {
    var auth := Authorize(h, verify);
    if auth.Err? {
      return FailureStatus(auth.error);
    }
    if body.Malformed? {
      return 500;
    }
    if !ValidRequest(body.fields) {
      return 400;
    }
    var ids := Numbers(body.fields["ids"].items);
    var table, failed := DeleteEach(db.flags, ids, w);
    RemoveAllValid(old(db.flags), ids, w);
    db.flags := table;
    if failed {
      return 500;
    }
    var ok := db.Broadcast(FlagsDeleted(ids), w, false);
    status := if ok then 200 else 500;
  }
}
