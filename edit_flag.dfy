/**
 * `editFlag` (backend/handlers/editFlag.js). It authorises the caller,
 * checks the body, builds a partial update from the properties present and
 * pushes "flag-updated".
 *
 * The handler imports `buildResponse` from backend/handlers/auth/util.js,
 * which exports only `authorize`. The model answers with the status code each
 * branch selects, as if that helper existed.
 */
module EditFlag {
  import opened Wrappers
  import opened Text
  import opened Json
  import opened Decimal
  import opened Auth
  import opened Store

  /**
   * `name` is a string that is not blank (`!name.trim()` exactly when it is
   * all white space, see `Text.TrimEmpty`); `description` and `modified_at`
   * are absent or strings; `tags` is absent or an array of strings.
   */
  predicate ValidRequest(fields: map<string, Json>) {
    && StringField(fields, "name") && !IsBlank(fields["name"].s)
    && OptionalString(fields, "description")
    && OptionalString(fields, "modified_at")
    && ("tags" in fields ==> fields["tags"].JArr? && AllStrings(fields["tags"].items))
  }

  /** The properties an edit request sets: the trimmed name, and each optional property when present. */
  datatype Edit = Edit(
    name: string,
    description: Option<string>,
    modifiedAt: Option<string>,
    tags: Option<seq<string>>)

  /**
   * The edit a valid body asks for. The name is trimmed; the description is
   * kept as sent, untrimmed; a property absent from the body is None.
   */
  function Requested(fields: map<string, Json>): (e: Edit)
    requires ValidRequest(fields)
    ensures e.name == Trim(fields["name"].s) && e.name != []
    ensures e.description.Some? <==> "description" in fields
    ensures e.description.Some? ==> fields["description"] == JStr(e.description.value)
    ensures e.modifiedAt.Some? <==> "modified_at" in fields
    ensures e.modifiedAt.Some? ==> fields["modified_at"] == JStr(e.modifiedAt.value)
    ensures e.tags.Some? <==> "tags" in fields
    ensures e.tags.Some? ==> |e.tags.value| == |fields["tags"].items|
    ensures e.tags.Some? ==> forall i :: 0 <= i < |e.tags.value| ==> fields["tags"].items[i] == JStr(e.tags.value[i])
  {
    TrimEmpty(fields["name"].s);
    Edit(
      Trim(fields["name"].s),
      if "description" in fields then Some(fields["description"].s) else None,
      if "modified_at" in fields then Some(fields["modified_at"].s) else None,
      if "tags" in fields then Some(Strings(fields["tags"].items)) else None)
  }

  /** The value a property holds after the update: the new one when set, else the current one. */
  function Merge<T>(update: Option<T>, current: Option<T>): Option<T> {
    if update.Some? then update else current
  }

  /** `g` is `f` after the edit `e`. */
  predicate Edited(f: Flag, g: Flag, e: Edit) {
    g == f.(name := Some(e.name),
            description := Merge(e.description, f.description),
            modifiedAt := Merge(e.modifiedAt, f.modifiedAt),
            tags := Merge(e.tags, f.tags))
  }

  /** An edit never touches the id, the environment, `enabled` or the creation time. */
  lemma EditFrame(f: Flag, g: Flag, e: Edit)
    requires Edited(f, g, e)
    ensures g.id == f.id && g.environment == f.environment
    ensures g.enabled == f.enabled && g.createdAt == f.createdAt
    ensures g.name == Some(e.name)
    ensures e.description.None? ==> g.description == f.description
    ensures e.modifiedAt.None? ==> g.modifiedAt == f.modifiedAt
    ensures e.tags.None? ==> g.tags == f.tags
  {
  }

  /** One `#x = :x` clause of the update expression. */
  datatype Assign =
    | SetName(name: string)
    | SetDescription(description: string)
    | SetModifiedAt(modifiedAt: string)
    | SetTags(tags: seq<string>)

  /** The record after one clause. */
  function Set(f: Flag, a: Assign): Flag {
    match a
    case SetName(n) => f.(name := Some(n))
    case SetDescription(d) => f.(description := Some(d))
    case SetModifiedAt(m) => f.(modifiedAt := Some(m))
    case SetTags(t) => f.(tags := Some(t))
  }

  /** The record after the clauses, applied left to right. */
  function Apply(f: Flag, updates: seq<Assign>): Flag {
    if updates == [] then f else Set(Apply(f, updates[..|updates| - 1]), updates[|updates| - 1])
  }

  lemma {:induction false} ApplyConcat(f: Flag, u: seq<Assign>, v: seq<Assign>)
    ensures Apply(f, u + v) == Apply(Apply(f, u), v)
    decreases |v|
  {
    if v != [] {
      var v' := v[..|v| - 1];
      assert (u + v)[..|u + v| - 1] == u + v';
      ApplyConcat(f, u, v');
    } else {
      assert u + v == u;
    }
  }

  lemma ApplyOne(f: Flag, a: Assign)
    ensures Apply(f, [a]) == Set(f, a)
  {
    assert [a][..0] == [];
  }

  function DescriptionClause(e: Edit): seq<Assign> {
    if e.description.Some? then [SetDescription(e.description.value)] else []
  }

  function ModifiedAtClause(e: Edit): seq<Assign> {
    if e.modifiedAt.Some? then [SetModifiedAt(e.modifiedAt.value)] else []
  }

  function TagsClause(e: Edit): seq<Assign> {
    if e.tags.Some? then [SetTags(e.tags.value)] else []
  }

  /** The clauses of the update expression for `e`, in the order the handler adds them. */
  function Clauses(e: Edit): seq<Assign> {
    [SetName(e.name)] + DescriptionClause(e) + ModifiedAtClause(e) + TagsClause(e)
  }

  lemma ApplyDescription(g: Flag, e: Edit)
    ensures Apply(g, DescriptionClause(e)) == g.(description := Merge(e.description, g.description))
  {
    if e.description.Some? {
      ApplyOne(g, SetDescription(e.description.value));
    }
  }

  lemma ApplyModifiedAt(g: Flag, e: Edit)
    ensures Apply(g, ModifiedAtClause(e)) == g.(modifiedAt := Merge(e.modifiedAt, g.modifiedAt))
  {
    if e.modifiedAt.Some? {
      ApplyOne(g, SetModifiedAt(e.modifiedAt.value));
    }
  }

  lemma ApplyTags(g: Flag, e: Edit)
    ensures Apply(g, TagsClause(e)) == g.(tags := Merge(e.tags, g.tags))
  {
    if e.tags.Some? {
      ApplyOne(g, SetTags(e.tags.value));
    }
  }

  /** Applying the clauses to any record gives that record after the edit. */
  lemma ClausesEdit(f: Flag, e: Edit)
    ensures Edited(f, Apply(f, Clauses(e)), e)
  {
    var n := [SetName(e.name)];
    var d, m, t := DescriptionClause(e), ModifiedAtClause(e), TagsClause(e);
    ApplyOne(f, SetName(e.name));
    var g1 := Apply(f, n);
    ApplyConcat(f, n, d);
    ApplyDescription(g1, e);
    var g2 := Apply(f, n + d);
    ApplyConcat(f, n + d, m);
    ApplyModifiedAt(g2, e);
    var g3 := Apply(f, n + d + m);
    ApplyConcat(f, n + d + m, t);
    ApplyTags(g3, e);
  }

  /**
   * The update expression, built clause by clause from the destructured
   * request: the name always, then each optional property that is present.
   * Whatever record it is applied to, the result is that record after the
   * edit.
   */
  method BuildUpdate(e: Edit) returns (updates: seq<Assign>)
    ensures 1 <= |updates| <= 4 && updates[0] == SetName(e.name)
    ensures forall f :: Edited(f, Apply(f, updates), e)
  {
    updates := [SetName(e.name)];
    if e.description.Some? {
      updates := updates + [SetDescription(e.description.value)];
    }
    if e.modifiedAt.Some? {
      updates := updates + [SetModifiedAt(e.modifiedAt.value)];
    }
    if e.tags.Some? {
      updates := updates + [SetTags(e.tags.value)];
    }
    assert updates == Clauses(e);
    forall f ensures Edited(f, Apply(f, updates), e) {
      ClausesEdit(f, e);
    }
  }

  /** The request gets as far as the write (compare UpdateFlag.Writes). */
  predicate Writes(h: Headers, verify: Verifier, pathId: string, body: Body, w: World) {
    && Authorize(h, verify).Ok?
    && body.Fields? && ValidRequest(body.fields)
    && ParseInt(pathId).Some?
    && UpdateFlag(ParseInt(pathId).value) !in w.failing
  }

  /** The update call on record `id` once it goes through, and the push that follows it. */
  method Commit(db: Tables, id: int, updates: seq<Assign>, ghost e: Edit, w: World) returns (status: int)
    requires db.Valid()
    requires forall f :: Edited(f, Apply(f, updates), e)
    modifies db
    ensures db.Valid()
    ensures id in db.flags && Edited(Existing(old(db.flags), id), db.flags[id], e)
    ensures db.flags == old(db.flags)[id := db.flags[id]]
    ensures db.counter == old(db.counter)
    ensures FannedOut(old(db.connections), old(db.posts), db.connections, db.posts, FlagUpdated(id), w)
    ensures status == (if FanOutOk(old(db.connections), w, false) then 200 else 500)
  {
    var edited := Apply(Existing(db.flags, id), updates);
    assert Edited(Existing(db.flags, id), edited, e);
    db.flags := db.flags[id := edited];
    var ok := db.Broadcast(FlagUpdated(id), w, false);
    status := if ok then 200 else 500;
  }

  /** The handler's status code; `pathId` is the `id` path parameter. */
  method Handle(db: Tables, h: Headers, verify: Verifier, pathId: string, body: Body, w: World)
    returns (status: int)
    requires db.Valid()
    modifies db
    ensures db.Valid()
    ensures status == 200 || status == 400 || status == 401 || status == 500
    ensures Authorize(h, verify).Err? ==> status == FailureStatus(Authorize(h, verify).error)
    ensures status == 401 ==> Authorize(h, verify) == Err(NotAuthenticated)
    ensures status == 400 <==> Authorize(h, verify).Ok? && body.Fields? && !ValidRequest(body.fields)
    ensures !Writes(h, verify, pathId, body, w) ==> unchanged(db) && status != 200
    ensures Writes(h, verify, pathId, body, w) ==>
      var id := ParseInt(pathId).value;
      && id in db.flags
      && Edited(Existing(old(db.flags), id), db.flags[id], Requested(body.fields))
      && db.flags == old(db.flags)[id := db.flags[id]]
      && db.counter == old(db.counter)
      && FannedOut(old(db.connections), old(db.posts), db.connections, db.posts, FlagUpdated(id), w)
      && status == (if FanOutOk(old(db.connections), w, false) then 200 else 500)
  {
    var auth := Authorize(h, verify);
    if auth.Err? {
      return FailureStatus(auth.error);
    }
    var flagId := ParseInt(pathId);
    if body.Malformed? {
      return 500;
    }
    if !ValidRequest(body.fields) {
      return 400;
    }
    var edit := Requested(body.fields);
    var updates := BuildUpdate(edit);
    if flagId.None? || UpdateFlag(flagId.value) in w.failing {
      return 500;
    }
    status := Commit(db, flagId.value, updates, edit, w);
  }
}
