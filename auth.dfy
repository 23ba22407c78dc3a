/**
 * `authorize` (backend/handlers/auth/util.js): picks the authorization
 * header and matches it against `/^Bearer\s+(.+)$/i`. The captured token then
 * goes to `jwt.verify`. A failed match throws "Not authenticated"; whatever
 * `jwt.verify` throws propagates unchanged.
 */
module Auth {
  import opened Wrappers
  import opened Text
  import opened Json

  /** Request headers; a missing header is a missing key. */
  type Headers = map<string, string>

  /** A decoded token payload. */
  type Claims = map<string, Json>

  /** `jwt.verify(token, secret)`: the payload, or None when it throws. */
  type Verifier = string -> Option<Claims>

  /** What `authorize` throws: its own "Not authenticated", or an error from `jwt.verify`. */
  datatype AuthError = NotAuthenticated | VerifyFailed

  /** `headers[first] || headers[second] || ""`: an empty value counts as absent. */
  function Either(h: Headers, first: string, second: string): (v: string)
    ensures v != "" <==> (first in h && h[first] != "") || (second in h && h[second] != "")
    ensures first in h && h[first] != "" ==> v == h[first]
  {
    if first in h && h[first] != "" then h[first]
    else if second in h && h[second] != "" then h[second]
    else ""
  }

  /** `headers.authorization || headers.Authorization || ""`. */
  function AuthorizationHeader(h: Headers): string {
    Either(h, "authorization", "Authorization")
  }

  /** The header starts with "Bearer" in any letter case (the regex's i flag). */
  predicate HasScheme(header: string) {
    |header| >= 6 && Lower(header[..6]) == "bearer"
  }

  /** No character of `s` is a line terminator, so `.+` can match all of it. */
  predicate NoLineTerminator(s: string) {
    forall i :: 0 <= i < |s| ==> !IsLineTerminator(s[i])
  }

  /**
   * The regex matches `header` with `\s+` covering `header[6..k]` and `(.+)`
   * covering `header[k..]`.
   */
  predicate MatchesAt(header: string, k: int) {
    HasScheme(header) && 6 < k < |header| && IsBlank(header[6..k]) && NoLineTerminator(header[k..])
  }

  /**
   * The token the regex captures. The greedy `\s+` first takes the whole
   * white-space run after the scheme. When that run is the rest of the header,
   * it gives back one character for `(.+)`, so "Bearer  " (two spaces)
   * captures " ".
   */
  function BearerToken(header: string): Option<string> {
    if !HasScheme(header) then None
    else
      var rest := header[6..];
      var run := Run(header);
      if run == 0 then None
      else if run < |rest| then
        if NoLineTerminator(rest[run..]) then Some(rest[run..]) else None
      else if |rest| >= 2 && !IsLineTerminator(rest[|rest| - 1]) then Some([rest[|rest| - 1]])
      else None
  }

  /** `authorize(event)`: the verified payload, or the error it throws. */
  function Authorize(h: Headers, verify: Verifier): Result<Claims, AuthError> {
    match BearerToken(AuthorizationHeader(h))
    case None => Err(NotAuthenticated)
    case Some(token) =>
      match verify(token)
      case None => Err(VerifyFailed)
      case Some(claims) => Ok(claims)
  }

  /**
   * The status a handler's catch block picks for an error from `authorize`:
   * 401 when the message is exactly "Not authenticated", 500 otherwise.
   */
  function FailureStatus(e: AuthError): (status: int)
    ensures status == 401 <==> e == NotAuthenticated
    ensures status == 401 || status == 500
  {
    if e == NotAuthenticated then 401 else 500
  }

  lemma NoLineTerminatorSuffix(s: string, i: int)
    requires 0 <= i <= |s| && NoLineTerminator(s)
    ensures NoLineTerminator(s[i..])
  {
    assert forall j :: 0 <= j < |s| - i ==> s[i..][j] == s[i + j];
  }

  /** The length of the white-space run that follows the scheme. */
  function Run(header: string): (run: nat)
    requires |header| >= 6
    ensures run <= |header| - 6
  {
    |header[6..]| - |TrimStart(header[6..])|
  }

  /** Every split point lies inside the white-space run or right after its end. */
  lemma SplitWithinRun(header: string, k: int)
    requires MatchesAt(header, k)
    ensures k <= 6 + Run(header)
  {
    var rest := header[6..];
    var t := TrimStart(rest);
    var run := Run(header);
    assert run < |rest| ==> rest[run] == t[0];
    assert forall j :: 0 <= j < |rest| ==> rest[j] == header[6 + j];
    assert forall j :: 6 <= j < k ==> header[6..k][j - 6] == header[j];
  }

  /** The white-space run itself is blank. */
  lemma RunBlank(header: string)
    requires |header| >= 6
    ensures IsBlank(header[6..6 + Run(header)])
  {
    var rest := header[6..];
    TrimStartRemovesBlank(rest);
    assert rest[..Run(header)] == header[6..6 + Run(header)];
  }

  /** When text follows the run, the only split that can match is at the end of the run. */
  lemma MatchesAfterRun(header: string)
    requires HasScheme(header) && 0 < Run(header) < |header| - 6
    ensures var k := 6 + Run(header);
      BearerToken(header) == (if MatchesAt(header, k) then Some(header[k..]) else None)
    ensures forall k' :: MatchesAt(header, k') ==> MatchesAt(header, 6 + Run(header))
  {
    var k := 6 + Run(header);
    RunBlank(header);
    assert header[6..][Run(header)..] == header[k..];
    forall k' | MatchesAt(header, k') ensures MatchesAt(header, k) {
      SplitWithinRun(header, k');
      NoLineTerminatorSuffix(header[k'..], k - k');
      assert header[k'..][k - k'..] == header[k..];
    }
  }

  /** When the run reaches the end, `(.+)` can only take the last character. */
  lemma MatchesInRun(header: string)
    requires HasScheme(header) && Run(header) == |header| - 6
    ensures var k := |header| - 1;
      BearerToken(header) == (if MatchesAt(header, k) then Some(header[k..]) else None)
  {
    var k := |header| - 1;
    var rest := header[6..];
    if 6 < k {
      RunBlank(header);
      assert header[6..6 + Run(header)] == rest;
      assert header[k..] == [rest[|rest| - 1]];
      assert header[6..k] == rest[..|rest| - 1];
    }
  }

  /** When the run reaches the end, a split that matches leaves the last character a non-terminator. */
  lemma BestInRun(header: string, k': int)
    requires MatchesAt(header, k') && Run(header) == |header| - 6
    ensures MatchesAt(header, |header| - 1)
  {
    var k := |header| - 1;
    RunBlank(header);
    assert header[6..6 + Run(header)] == header[6..];
    assert header[6..k] == header[6..][..k - 6];
    assert header[k'..][k - k'] == header[k];
    assert header[k..] == [header[k]];
  }

  /**
   * `BearerToken` is the capture of the regex. It is defined exactly when some
   * split matches, and it is then the text after the last such split: the
   * first one the greedy `\s+` reaches when it backtracks.
   */
  lemma BearerTokenMatches(header: string)
    ensures BearerToken(header).Some? <==> exists k :: MatchesAt(header, k)
    ensures BearerToken(header).Some? ==>
      exists k :: MatchesAt(header, k) && BearerToken(header).value == header[k..]
        && forall k' :: MatchesAt(header, k') ==> k' <= k
  {
    if HasScheme(header) {
      forall k | MatchesAt(header, k) ensures k <= 6 + Run(header) {
        SplitWithinRun(header, k);
      }
      if Run(header) == 0 {
      } else if Run(header) < |header| - 6 {
        MatchesAfterRun(header);
      } else {
        MatchesInRun(header);
        forall k' | MatchesAt(header, k') ensures MatchesAt(header, |header| - 1) {
          BestInRun(header, k');
        }
      }
    }
  }

  /** Only a header without a matching "Bearer" value is refused with "Not authenticated". */
  lemma AuthorizeRefuses(h: Headers, verify: Verifier)
    ensures Authorize(h, verify) == Err(NotAuthenticated)
      <==> forall k :: !MatchesAt(AuthorizationHeader(h), k)
  {
    BearerTokenMatches(AuthorizationHeader(h));
  }

  /**
   * A token the verifier rejects does not give "Not authenticated": the
   * handlers that map only that message to 401 answer 500 for it.
   */
  lemma VerifyFailureIs500(h: Headers, verify: Verifier)
    requires BearerToken(AuthorizationHeader(h)).Some?
    requires verify(BearerToken(AuthorizationHeader(h)).value).None?
    ensures Authorize(h, verify).Err? && FailureStatus(Authorize(h, verify).error) == 500
  {
  }

  /** The lower-case header wins over `Authorization` when both are set. */
  lemma LowercaseHeaderWins(h: Headers, verify: Verifier)
    requires "authorization" in h && h["authorization"] != ""
    ensures Authorize(h, verify) == Authorize(map["authorization" := h["authorization"]], verify)
  {
  }

  /** A missing header, or an empty one, is refused. */
  lemma NoHeaderRefused(h: Headers, verify: Verifier)
    requires "authorization" !in h || h["authorization"] == ""
    requires "Authorization" !in h || h["Authorization"] == ""
    ensures Authorize(h, verify) == Err(NotAuthenticated)
  {
  }
}
