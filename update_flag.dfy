/**
 * `updateFlag` (backend/handlers/updateFlag.js). It authorises the caller,
 * sets `enabled` on the record under the numeric path id and pushes
 * "flag-updated". An error while deleting a stale connection is not caught,
 * so it turns the answer into 500 after the write has happened.
 */
module UpdateFlag {
  import opened Wrappers
  import opened Json
  import opened Decimal
  import opened Auth
  import opened Store

  /** The body carries a boolean `enabled`. */
  predicate ValidRequest(fields: map<string, Json>) {
    "enabled" in fields && fields["enabled"].JBool?
  }

  /**
   * The request gets as far as the write: the caller is authorised, the body
   * is valid, the path id is a number (the store rejects the NaN key) and
   * the update call goes through.
   */
  predicate Writes(h: Headers, verify: Verifier, pathId: string, body: Body, w: World) {
    && Authorize(h, verify).Ok?
    && body.Fields? && ValidRequest(body.fields)
    && ParseInt(pathId).Some?
    && UpdateFlag(ParseInt(pathId).value) !in w.failing
  }

  /** The handler's status code; `pathId` is the `id` path parameter. */
  method Handle(db: Tables, h: Headers, verify: Verifier, pathId: string, body: Body, w: World)
    returns (status: int)
    requires db.Valid()
    modifies db
    ensures db.Valid()
    ensures status == 200 || status == 400 || status == 401 || status == 500
    ensures Authorize(h, verify).Err? ==> status == FailureStatus(Authorize(h, verify).error)
    ensures status == 401 ==> Authorize(h, verify) == Err(NotAuthenticated)
    ensures status == 400 <==> Authorize(h, verify).Ok? && body.Fields? && !ValidRequest(body.fields)
    ensures !Writes(h, verify, pathId, body, w) ==> unchanged(db) && status != 200
    ensures Writes(h, verify, pathId, body, w) ==>
      var id := ParseInt(pathId).value;
      && db.flags == old(db.flags)[id := WithEnabled(Existing(old(db.flags), id), body.fields["enabled"].b)]
      && db.counter == old(db.counter)
      && FannedOut(old(db.connections), old(db.posts), db.connections, db.posts, FlagUpdated(id), w)
      && status == (if FanOutOk(old(db.connections), w, false) then 200 else 500)
  {
    var auth := Authorize(h, verify);
    if auth.Err? {
      return FailureStatus(auth.error);
    }
    var flagId := ParseInt(pathId);
    if body.Malformed? {
      return 500;
    }
    if !ValidRequest(body.fields) {
      return 400;
    }
    if flagId.None? || UpdateFlag(flagId.value) in w.failing {
      return 500;
    }
    var id := flagId.value;
    db.flags := db.flags[id := WithEnabled(Existing(db.flags, id), body.fields["enabled"].b)];
    var ok := db.Broadcast(FlagUpdated(id), w, false);
    status := if ok then 200 else 500;
  }

  /**
   * The update needs no existing record: on a missing id it leaves a record
   * holding only the id and `enabled`.
   */
  lemma UpdateMissing(flags: map<int, Flag>, id: int, enabled: bool)
    requires id !in flags
    ensures var g := WithEnabled(Existing(flags, id), enabled);
      g.id == id && g.enabled == Some(enabled) && g.name.None? && g.environment.None?
  {
  }
}
