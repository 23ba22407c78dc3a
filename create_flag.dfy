/**
 * `createFlag` (backend/handlers/createFlag.js). It checks the body, bumps
 * the id counter, puts the new record and pushes "flag-created" to every
 * connection. It asks for no credentials, and it catches failures to delete
 * a stale connection.
 */
module CreateFlag {
  import opened Wrappers
  import opened Text
  import opened Json
  import opened Store

  /** The environments a flag can be created in. */
  const Environments: seq<string> := ["Production", "Staging", "Development"]

  /**
   * `name` is a string that is not blank (`name.trim() === ""` exactly when
   * it is all white space, see `Text.TrimEmpty`), and `environment` is one
   * of the three environments.
   */
  predicate ValidRequest(fields: map<string, Json>) {
    && StringField(fields, "name") && !IsBlank(fields["name"].s)
    && StringField(fields, "environment") && fields["environment"].s in Environments
  }

  /**
   * The record stored under the new id. Only the trimmed name, the
   * environment and the creation time are taken from the request; the flag
   * starts disabled.
   */
  function NewFlag(id: int, fields: map<string, Json>, now: string): (f: Flag)
    requires ValidRequest(fields)
    ensures f.id == id && f.enabled == Some(false)
    ensures f.name.Some? && IsTrimmed(f.name.value) && f.name.value != []
    ensures f.environment.Some? && f.environment.value in Environments
    ensures f.description.None? && f.tags.None? && f.modifiedAt.None?
  {
    TrimEmpty(fields["name"].s);
    Flag(id, Some(Trim(fields["name"].s)), Some(fields["environment"].s), Some(false), Some(now),
         None, None, None)
  }

  /** Fields other than `name` and `environment` do not reach the record. */
  lemma ExtraFieldsIgnored(id: int, fields: map<string, Json>, extra: string, v: Json, now: string)
    requires ValidRequest(fields) && extra != "name" && extra != "environment"
    ensures ValidRequest(fields[extra := v])
    ensures NewFlag(id, fields[extra := v], now) == NewFlag(id, fields, now)
  {
    assert fields[extra := v]["name"] == fields["name"];
    assert fields[extra := v]["environment"] == fields["environment"];
  }

  /**
   * The handler, with `now` for `new Date().toISOString()`. `created` is the
   * record returned with 201. The counter is bumped before the put, so a failing
   * put leaves it advanced with no new record and no push.
   */
  method Handle(db: Tables, body: Body, now: string, w: World) returns (status: int, created: Option<Flag>)
    requires db.Valid()
    modifies db
    ensures db.Valid()
    ensures status == 201 || status == 400 || status == 500
    ensures status != 401
    ensures status == 400 <==> body.Fields? && !ValidRequest(body.fields)
    ensures created.Some? <==> status == 201
    ensures body.Malformed? || !ValidRequest(body.fields) || AddCounter in w.failing ==>
      unchanged(db) && (status == 400 || status == 500)
    ensures body.Fields? && ValidRequest(body.fields) && AddCounter !in w.failing ==>
      var flag := NewFlag(old(db.counter) + 1, body.fields, now);
      && db.counter == old(db.counter) + 1
      && (PutFlag(db.counter) in w.failing ==>
            status == 500 && db.flags == old(db.flags)
            && db.connections == old(db.connections) && db.posts == old(db.posts))
      && (PutFlag(db.counter) !in w.failing ==>
            && db.flags == old(db.flags)[db.counter := flag]
            && FannedOut(old(db.connections), old(db.posts), db.connections, db.posts, FlagCreated(flag), w)
            && status == (if FanOutOk(old(db.connections), w, true) then 201 else 500)
            && (status == 201 ==> created == Some(flag)))
  {
    created := None;
    if body.Malformed? {
      return 500, None;
    }
    if !ValidRequest(body.fields) {
      return 400, None;
    }
    if AddCounter in w.failing {
      return 500, None;
    }
    db.counter := db.counter + 1;
    var newId := db.counter;
    var flag := NewFlag(newId, body.fields, now);
    if PutFlag(newId) in w.failing {
      return 500, None;
    }
    db.flags := db.flags[newId := flag];
    var ok := db.Broadcast(FlagCreated(flag), w, true);
    if ok {
      status, created := 201, Some(flag);
    } else {
      status := 500;
    }
  }

  /**
   * Two successful creates get different ids, and the second one's id is the
   * larger: the counter only goes up.
   */
  method CreateTwice(db: Tables, body1: Body, body2: Body, now: string, w1: World, w2: World)
    returns (first: Option<Flag>, second: Option<Flag>)
    requires db.Valid()
    modifies db
    ensures db.Valid()
    ensures first.Some? && second.Some? ==> first.value.id < second.value.id
    ensures db.counter >= old(db.counter)
  {
    var s1, s2;
    s1, first := Handle(db, body1, now, w1);
    s2, second := Handle(db, body2, now, w2);
  }
}
