/**
 * `me` (backend/handlers/auth/me.js): finds a token in the Authorization
 * header or in the `token` cookie, verifies it and answers with the
 * caller's profile. Every failure, including one from `jwt.verify`, is
 * answered with 401.
 */
module Me {
  import opened Wrappers
  import opened Json
  import opened Auth

  /** The token the header carries: what follows "Bearer " (exact case, one space) in `Authorization || authorization`. */
  function HeaderToken(h: Headers): (t: Option<string>)
    ensures t.Some? <==> |Either(h, "Authorization", "authorization")| >= 7 && Either(h, "Authorization", "authorization")[..7] == "Bearer "
    ensures t.Some? ==> Either(h, "Authorization", "authorization") == "Bearer " + t.value
  {
    var auth := Either(h, "Authorization", "authorization");
    if |auth| >= 7 && auth[..7] == "Bearer " then Some(auth[7..]) else None
  }

  /** The longest prefix of `s` without a ";": what the greedy `[^;]+` takes. */
  function UpToSemicolon(s: string): (r: string)
    ensures r <= s && ';' !in r
    ensures |r| < |s| ==> s[|r|] == ';'
    ensures s != [] && s[0] != ';' ==> r != []
  {
    if s == [] || s[0] == ';' then [] else [s[0]] + UpToSemicolon(s[1..])
  }

  /** `/token=([^;]+)/` can match starting at position `p` of the cookie. */
  predicate CookieMatchAt(cookie: string, p: int) {
    0 <= p && p + 6 < |cookie| && cookie[p..p + 6] == "token=" && cookie[p + 6] != ';'
  }

  /** The regex search from position `p` on. */
  function SearchFrom(cookie: string, p: nat): Option<string>
    decreases |cookie| - p
  {
    if p + 6 >= |cookie| then None
    else if CookieMatchAt(cookie, p) then Some(UpToSemicolon(cookie[p + 6..]))
    else SearchFrom(cookie, p + 1)
  }

  /** `cookie.match(/token=([^;]+)/)?.[1]`. */
  function CookieToken(cookie: string): Option<string> {
    SearchFrom(cookie, 0)
  }

  lemma {:induction false} SearchFromMatches(cookie: string, p: nat)
    ensures SearchFrom(cookie, p).Some? <==> exists q :: p <= q && CookieMatchAt(cookie, q)
    ensures SearchFrom(cookie, p).Some? ==> exists q ::
      && p <= q && CookieMatchAt(cookie, q)
      && (forall q' :: p <= q' < q ==> !CookieMatchAt(cookie, q'))
      && SearchFrom(cookie, p).value == UpToSemicolon(cookie[q + 6..])
      && SearchFrom(cookie, p).value != [] && ';' !in SearchFrom(cookie, p).value
    decreases |cookie| - p
  {
    if p + 6 >= |cookie| {
      assert forall q :: p <= q ==> !CookieMatchAt(cookie, q);
    } else if !CookieMatchAt(cookie, p) {
      SearchFromMatches(cookie, p + 1);
      if SearchFrom(cookie, p + 1).Some? {
        var q :| && p + 1 <= q && CookieMatchAt(cookie, q)
                 && (forall q' :: p + 1 <= q' < q ==> !CookieMatchAt(cookie, q'))
                 && SearchFrom(cookie, p + 1).value == UpToSemicolon(cookie[q + 6..]);
        assert forall q' :: p <= q' < q ==> !CookieMatchAt(cookie, q');
      }
    } else {
      assert cookie[p + 6..][0] == cookie[p + 6];
    }
  }

  /**
   * The cookie yields a token exactly when the regex matches somewhere; the
   * token is the non-empty run of non-";" characters after the leftmost
   * "token=" the regex can match at.
   */
  lemma CookieTokenMatches(cookie: string)
    ensures CookieToken(cookie).Some? <==> exists q :: CookieMatchAt(cookie, q)
    ensures CookieToken(cookie).Some? ==> exists q ::
      && CookieMatchAt(cookie, q)
      && (forall q' :: 0 <= q' < q ==> !CookieMatchAt(cookie, q'))
      && CookieToken(cookie).value == UpToSemicolon(cookie[q + 6..])
      && CookieToken(cookie).value != [] && ';' !in CookieToken(cookie).value
  {
    SearchFromMatches(cookie, 0);
  }

  /**
   * The token `me` verifies: the header token when it is non-empty, else
   * the cookie token from `Cookie || cookie`.
   */
  function Token(h: Headers): Option<string> {
    var fromHeader := HeaderToken(h);
    if fromHeader.Some? && fromHeader.value != [] then fromHeader
    else CookieToken(Either(h, "Cookie", "cookie"))
  }

  /** A non-empty header token wins, whatever the cookie says. */
  lemma HeaderFirst(h: Headers, cookie: string)
    requires HeaderToken(h).Some? && HeaderToken(h).value != []
    ensures Token(h) == HeaderToken(h)
    ensures Token(h["Cookie" := cookie]) == Token(h)
  {
    assert Either(h["Cookie" := cookie], "Authorization", "authorization") == Either(h, "Authorization", "authorization");
  }

  /** An answer: the status code and, with 200, the profile sent. */
  datatype Answer = Answer(status: int, profile: map<string, Json>)

  /** The properties of the payload the profile copies. */
  const ProfileKeys: set<string> := {"email", "firstName", "lastName"}

  /** `{ email, firstName, lastName }` of the payload; a property the payload lacks is left out, as `JSON.stringify` drops undefined. */
  function Profile(claims: Claims): (p: map<string, Json>)
    ensures forall k :: k in p <==> k in claims && k in ProfileKeys
    ensures forall k :: k in p ==> p[k] == claims[k]
  {
    map k | k in claims && k in ProfileKeys :: claims[k]
  }

  /** The handler, with `verify` for `jwt.verify`. */
  function Handle(h: Headers, verify: Verifier): (r: Answer)
    ensures r.status == 200 || r.status == 401
    ensures r.status == 200 <==> Token(h).Some? && verify(Token(h).value).Some?
    ensures r.status == 200 ==> r.profile == Profile(verify(Token(h).value).value)
    ensures r.status == 401 ==> r.profile == map[]
  {
    match Token(h)
    case None => Answer(401, map[])
    case Some(token) =>
      match verify(token)
      case None => Answer(401, map[])
      case Some(claims) => Answer(200, Profile(claims))
  }

  /** With no header token and no cookie the answer is 401. */
  lemma NoCredentials(h: Headers, verify: Verifier)
    requires "Authorization" !in h && "authorization" !in h && "Cookie" !in h && "cookie" !in h
    ensures Handle(h, verify).status == 401
  {
    assert Either(h, "Cookie", "cookie") == "";
  }
}
