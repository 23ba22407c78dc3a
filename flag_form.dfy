/**
 * The create form of the first layout (frontend/src/components/FlagForm.jsx):
 * a blank name is refused on the spot; otherwise the form POSTs the trimmed
 * name with the chosen environment, waits for the caller's reload, and shows
 * the error the request or the reload threw.
 */
module FlagForm {
  import opened Wrappers
  import opened Text
  import opened Json
  import opened Fetcher
  import CreateFlag

  const BlankNameError := "Name cannot be empty"
  const DefaultError := "Failed to create flag"

  /** The request the form sends: `{ name: name.trim(), environment }`. */
  datatype NewFlag = NewFlag(name: string, environment: string)

  function Submitted(name: string, environment: string): (r: NewFlag)
    ensures r.name == Trim(name) && IsTrimmed(r.name) && r.environment == environment
  {
    NewFlag(Trim(name), environment)
  }

  /** The request as the JSON object `createFlag` destructures. */
  function Body(r: NewFlag): (body: map<string, Json>)
    ensures body.Keys == {"name", "environment"}
    ensures body["name"] == JStr(r.name) && body["environment"] == JStr(r.environment)
  {
    map["name" := JStr(r.name), "environment" := JStr(r.environment)]
  }

  /**
   * The form's own check (a non-blank name) lets through exactly what
   * `createFlag` accepts once the environment is one of its three.
   */
  lemma BodyAccepted(name: string, environment: string)
    requires !Blank(name)
    ensures CreateFlag.ValidRequest(Body(Submitted(name, environment))) <==> environment in CreateFlag.Environments
  {
    var t := Trim(name);
    TrimNotBlank(name);
    var body := Body(Submitted(name, environment));
    assert body["name"] == JStr(t) && body["environment"] == JStr(environment);
    assert StringField(body, "name") && StringField(body, "environment");
    assert !IsBlank(body["name"].s);
    assert CreateFlag.ValidRequest(body) == (environment in CreateFlag.Environments);
  }

  /** `!name.trim()`: the name is all white space (see `Text.TrimEmpty`). */
  predicate Blank(name: string) {
    IsBlank(name)
  }

  /** `err.info?.error`, when truthy. */
  function InfoError(err: Failure): (e: Option<Json>)
    ensures e.Some? ==> Truthy(e.value)
  {
    if err.info.Some? && err.info.value.JObj? && "error" in err.info.value.fields
       && Truthy(err.info.value.fields["error"])
    then Some(err.info.value.fields["error"])
    else None
  }

  /** `err.info?.error || err.message || "Failed to create flag"`: never empty. */
  function ErrorText(err: Failure): (t: Json)
    ensures Truthy(t)
    ensures InfoError(err).Some? ==> t == InfoError(err).value
    ensures InfoError(err).None? ==> t == JStr(if err.message != "" then err.message else DefaultError)
  {
    if InfoError(err).Some? then InfoError(err).value
    else if err.message != "" then JStr(err.message)
    else JStr(DefaultError)
  }

  /** A server error naming its cause shows that cause; one that does not shows the fetcher's message. */
  lemma FetchErrorShown(status: int, info: Option<Json>)
    requires !IsOk(status)
    ensures var err := Classify(Response(status, if info.Some? then Ok(info.value) else Err("")));
      err.Err? &&
      ErrorText(err.error) ==
        if info.Some? && info.value.JObj? && "error" in info.value.fields && Truthy(info.value.fields["error"])
        then info.value.fields["error"] else JStr(FetchErrorMessage)
  {
  }

  /** An expired session shows "Session expired". */
  lemma SessionExpiredShown()
    ensures ErrorText(SessionExpired) == JStr("Session expired")
  {
  }

  class Form {
    var name: string
    var environment: string
    var loading: bool
    /** The error on display, `null` as None. */
    var error: Option<Json>
    /** The requests POSTed to /flags. */
    var requests: seq<NewFlag>
    /** Calls of `onCreated`. */
    var createdCalls: nat

    /** An empty name, the given environment, nothing pending. */
    constructor(initialEnv: string)
      ensures name == "" && environment == initialEnv && !loading && error == None
      ensures requests == [] && createdCalls == 0
    {
      name := "";
      environment := initialEnv;
      loading := false;
      error := None;
      requests := [];
      createdCalls := 0;
    }

    method SetName(text: string)
      modifies this
      ensures name == text && environment == old(environment) && loading == old(loading)
      ensures error == old(error) && requests == old(requests) && createdCalls == old(createdCalls)
    {
      name := text;
    }

    /** The environment select. */
    method SetEnvironment(env: string)
      modifies this
      ensures environment == env && name == old(name) && loading == old(loading)
      ensures error == old(error) && requests == old(requests) && createdCalls == old(createdCalls)
    {
      environment := env;
    }

    /**
     * The synchronous part of `handleSubmit`, while the button is enabled: a
     * blank name sets the error and sends nothing; otherwise the error is
     * cleared, `loading` is set and the request goes out.
     */
    method Submit() returns (sent: bool)
      requires !loading
      modifies this
      ensures sent <==> !Blank(name)
      ensures !sent ==> error == Some(JStr(BlankNameError)) && !loading && requests == old(requests)
      ensures sent ==> error == None && loading && requests == old(requests) + [Submitted(name, environment)]
      ensures name == old(name) && environment == old(environment) && createdCalls == old(createdCalls)
    {
      sent := !Blank(name);
      if sent {
        error := None;
        loading := true;
        requests := requests + [Submitted(name, environment)];
      } else {
        error := Some(JStr(BlankNameError));
      }
    }

    /**
     * The rest of `handleSubmit`, once the request settled: `onCreated` runs
     * only after a success, an error from either shows its text, and
     * `loading` ends whatever happened.
     */
    method Settle(fetched: Result<Json, Failure>, createdThrew: Option<Failure>)
      requires loading
      modifies this
      ensures !loading
      ensures createdCalls == old(createdCalls) + (if fetched.Ok? then 1 else 0)
      ensures fetched.Err? ==> error == Some(ErrorText(fetched.error))
      ensures fetched.Ok? && createdThrew.Some? ==> error == Some(ErrorText(createdThrew.value))
      ensures fetched.Ok? && createdThrew.None? ==> error == old(error)
      ensures name == old(name) && environment == old(environment) && requests == old(requests)
    {
      if fetched.Ok? {
        createdCalls := createdCalls + 1;
        if createdThrew.Some? {
          error := Some(ErrorText(createdThrew.value));
        }
      } else {
        error := Some(ErrorText(fetched.error));
      }
      loading := false;
    }
  }

  /** A failed create leaves `onCreated` uncalled and the form usable again, with an error shown. */
  method FailedCreate(initialEnv: string, name: string, err: Failure) returns (createdCalls: nat, loading: bool, error: Option<Json>)
    requires !Blank(name)
    ensures createdCalls == 0 && !loading
    ensures error.Some? && Truthy(error.value)
  {
    var form := new Form(initialEnv);
    form.SetName(name);
    var sent := form.Submit();
    form.Settle(Err(err), None);
    createdCalls, loading, error := form.createdCalls, form.loading, form.error;
  }
}
