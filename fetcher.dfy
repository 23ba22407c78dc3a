/**
 * `fetcher` (frontend/src/api.js): every API call of the frontend. It
 * attaches the stored token, never sends cookies, turns a 401 into a
 * session-expired event, and turns any other failure status into an error
 * carrying the status and the parsed body.
 */
module Fetcher {
  import opened Wrappers
  import opened Text
  import opened Json
  import Auth

  type Headers = map<string, string>

  /** The caller's options (`verb` is `method`); absent headers are an empty map. */
  datatype Options = Options(verb: Option<string>, headers: Headers, body: Option<string>, credentials: Option<string>)

  /** What `fetch` is called with. */
  datatype Request = Request(url: string, verb: Option<string>, headers: Headers, body: Option<string>, credentials: string)

  /** A response: its status and its body read as JSON, or the parser's error message. */
  datatype Response = Response(status: int, body: Result<Json, string>)

  /** A thrown error: its `name`, `message`, and the `status` and `info` the fetcher assigns. */
  datatype Failure = Failure(name: string, message: string, status: Option<int>, info: Option<Json>)

  const FetchErrorMessage := "An error occurred while fetching the data."

  /** `new SessionExpiredError()`. */
  const SessionExpired := Failure("SessionExpiredError", "Session expired", None, None)

  /** `localStorage.getItem("token")` is truthy. */
  predicate HasToken(token: Option<string>) {
    token.Some? && token.value != ""
  }

  /** `{"Content-Type": "application/json", ...options.headers, ...(token ? {Authorization} : {})}`. */
  function RequestHeaders(caller: Headers, token: Option<string>): (h: Headers)
    ensures h.Keys == caller.Keys + {"Content-Type"} + (if HasToken(token) then {"Authorization"} else {})
    ensures h["Content-Type"] == if "Content-Type" in caller then caller["Content-Type"] else "application/json"
    ensures HasToken(token) ==> h["Authorization"] == "Bearer " + token.value
    ensures forall k :: k in caller && (k != "Authorization" || !HasToken(token)) ==> h[k] == caller[k]
  {
    var base := map["Content-Type" := "application/json"] + caller;
    if HasToken(token) then base["Authorization" := "Bearer " + token.value] else base
  }

  /** The request `fetch` receives: the caller's options with the merged headers and no credentials. */
  function Sent(url: string, options: Options, token: Option<string>): (r: Request)
    ensures r.credentials == "omit"
    ensures r.url == url && r.verb == options.verb && r.body == options.body
    ensures r.headers == RequestHeaders(options.headers, token)
  {
    Request(url, options.verb, RequestHeaders(options.headers, token), options.body, "omit")
  }

  /** `res.ok`. */
  predicate IsOk(status: int) {
    200 <= status <= 299
  }

  /**
   * The outcome of a response other than 401: the parsed body when the
   * status is ok; otherwise an error with the fixed message, the status and,
   * when the body parses, the body as `info`.
   */
  function Classify(res: Response): (r: Result<Json, Failure>)
    ensures r.Ok? <==> IsOk(res.status) && res.body.Ok?
    ensures r.Ok? ==> r.value == res.body.value
    ensures !IsOk(res.status) ==>
      r == Err(Failure("Error", FetchErrorMessage, Some(res.status), if res.body.Ok? then Some(res.body.value) else None))
    ensures IsOk(res.status) && res.body.Err? ==> r == Err(Failure("SyntaxError", res.body.error, None, None))
  {
    if !IsOk(res.status) then
      Err(Failure("Error", FetchErrorMessage, Some(res.status), if res.body.Ok? then Some(res.body.value) else None))
    else if res.body.Err? then Err(Failure("SyntaxError", res.body.error, None, None))
    else Ok(res.body.value)
  }

  /** The browser session the fetcher works in. */
  class Session {
    /** The "token" entry of local storage. */
    var token: Option<string>
    /** The names of the window events dispatched. */
    var dispatched: seq<string>
    /** Every request handed to `fetch`. */
    var requests: seq<Request>

    constructor(token: Option<string>)
      ensures this.token == token && dispatched == [] && requests == []
    {
      this.token := token;
      dispatched := [];
      requests := [];
    }

    /** `fetcher(url, options)` against a server that answers each request with `server(request)`. */
    method Fetch(url: string, options: Options, server: Request -> Response) returns (r: Result<Json, Failure>)
      modifies this
      ensures requests == old(requests) + [Sent(url, options, old(token))]
      ensures var res := server(Sent(url, options, old(token)));
        if res.status == 401 then
          token == None && dispatched == old(dispatched) + ["session-expired"] && r == Err(SessionExpired)
        else
          token == old(token) && dispatched == old(dispatched) && r == Classify(res)
    {
      var request := Sent(url, options, token);
      requests := requests + [request];
      var res := server(request);
      if res.status == 401 {
        token := None;
        dispatched := dispatched + ["session-expired"];
        return Err(SessionExpired);
      }
      r := Classify(res);
    }
  }

  /** After a 401 the next request goes out without a token. */
  method ExpiredThenRetry(token: Option<string>, url: string, options: Options, server: Request -> Response)
    returns (first: Result<Json, Failure>, retried: Request)
    requires server(Sent(url, options, token)).status == 401
    ensures first == Err(SessionExpired)
    ensures "Authorization" in retried.headers <==> "Authorization" in options.headers
  {
    var session := new Session(token);
    first := session.Fetch(url, options, server);
    var _ := session.Fetch(url, options, server);
    retried := session.requests[1];
  }

  /**
   * The header the fetcher attaches is the one `authorize` reads, and it
   * yields the stored token, when the token does not start with white space
   * or hold a line terminator and the caller set no lower-case
   * "authorization" header.
   */
  lemma TokenReachesBackend(caller: Headers, token: string)
    requires token != "" && !IsSpace(token[0]) && Auth.NoLineTerminator(token)
    requires "authorization" !in caller
    ensures Auth.BearerToken(Auth.AuthorizationHeader(RequestHeaders(caller, Some(token)))) == Some(token)
  {
    var header := "Bearer " + token;
    assert Auth.AuthorizationHeader(RequestHeaders(caller, Some(token))) == header;
    assert header[..6] == "Bearer";
    assert Auth.HasScheme(header);
    var rest := header[6..];
    assert rest == " " + token;
    assert rest[1..] == token;
    assert TrimStart(rest) == token by {
      TrimStartUnchanged(token);
    }
    assert Auth.Run(header) == 1;
    assert rest[1..] == token;
  }
}
