/** src/middleware/auth.middleware.ts: `extractToken`, which takes the
    session token from the `Authorization` header or else from the
    better-auth cookie, and `requireAuth`, which resolves it to a session
    and either attaches the user to the request or answers 401. */
module AuthMiddleware {
  import opened Wrappers
  import opened Strings
  import opened Http
  import opened Database

  const BearerPrefix: string := "Bearer "
  const CookieName: string := "better-auth.session_token="

  /** JavaScript truthiness of a header or token: present and not empty. */
  predicate Truthy(s: Option<string>) {
    s.Some? && s.value != ""
  }

  /** The longest prefix of `s` without a `;`, as `[^;]+` takes it. */
  function NonSemicolonRun(s: string): (r: string)
    ensures r <= s && ';' !in r
    ensures |r| < |s| ==> s[|r|] == ';'
  {
    if s == [] || s[0] == ';' then [] else [s[0]] + NonSemicolonRun(s[1..])
  }

  /** `/better-auth\.session_token=([^;]+)/` can match starting at `i`: the
      name occurs there and at least one character other than `;` follows. */
  predicate CookieMatchesAt(cookie: string, i: int) {
    OccursAt(cookie, CookieName, i) && i + |CookieName| < |cookie| && cookie[i + |CookieName|] != ';'
  }

  /** The regex's leftmost match at or after `from`, and its capture group. */
  function CookieToken(cookie: string, from: nat): (r: Option<string>)
    ensures r.None? <==> forall i :: from <= i < |cookie| ==> !CookieMatchesAt(cookie, i)
    ensures r.Some? ==>
              exists i :: from <= i < |cookie| && CookieMatchesAt(cookie, i)
                          && (forall j :: from <= j < i ==> !CookieMatchesAt(cookie, j))
                          && r.value == NonSemicolonRun(cookie[i + |CookieName|..])
    ensures r.Some? ==> r.value != "" && ';' !in r.value
    decreases |cookie| - from
  {
    if from >= |cookie| then None
    else if CookieMatchesAt(cookie, from) then Some(NonSemicolonRun(cookie[from + |CookieName|..]))
    else CookieToken(cookie, from + 1)
  }

  /** `extractToken(req)` */
  function ExtractToken(authorization: Option<string>, cookie: Option<string>): (token: Option<string>)
    // A truthy header always decides; `Bearer ` is removed from its front.
    ensures Truthy(authorization) ==> token.Some?
    ensures Truthy(authorization) && StartsWith(authorization.value, BearerPrefix) ==>
              BearerPrefix + token.value == authorization.value
    ensures Truthy(authorization) && !StartsWith(authorization.value, BearerPrefix) ==>
              token.value == authorization.value
    // Otherwise only a truthy cookie with a matching name gives a token.
    ensures !Truthy(authorization) ==>
              (token.Some? <==> Truthy(cookie) && exists i :: 0 <= i < |cookie.value| && CookieMatchesAt(cookie.value, i))
    ensures !Truthy(authorization) && token.Some? ==> token.value != "" && ';' !in token.value
    // The cookie token is the first match of the cookie pattern.
    ensures !Truthy(authorization) ==>
              token == (if Truthy(cookie) then CookieToken(cookie.value, 0) else None)
  {
    if Truthy(authorization) then
      var a := authorization.value;
      if StartsWith(a, BearerPrefix) then
        assert a == BearerPrefix + a[|BearerPrefix|..];
        Some(a[|BearerPrefix|..])
      else Some(a)
    else if Truthy(cookie) then CookieToken(cookie.value, 0)
    else None
  }

  /** The header shadows the cookie entirely. */
  lemma HeaderWins(authorization: string, cookie1: Option<string>, cookie2: Option<string>)
    requires authorization != ""
    ensures ExtractToken(Some(authorization), cookie1) == ExtractToken(Some(authorization), cookie2)
  {
  }

  /** A header of exactly `Bearer ` yields the empty token, which counts as
      no token at all. */
  lemma BareBearerIsNoToken(cookie: Option<string>)
    ensures ExtractToken(Some(BearerPrefix), cookie) == Some("")
    ensures !Truthy(ExtractToken(Some(BearerPrefix), cookie))
  {
    assert BearerPrefix[|BearerPrefix|..] == "";
  }

  /** Only the first usable occurrence counts: a later cookie of the same
      name is ignored. */
  lemma FirstCookieWins(first: string, second: string)
    requires first != "" && ';' !in first
    ensures ExtractToken(None, Some(CookieName + first + ";" + CookieName + second)) == Some(first)
  {
    var c := CookieName + first + ";" + CookieName + second;
    assert OccursAt(c, CookieName, 0);
    assert c[|CookieName|..] == first + ";" + (CookieName + second);
    NonSemicolonRunStops(first, CookieName + second);
    CookieTokenSkips(c, 0, 0);
  }

  /** An occurrence with nothing before its `;` cannot match, so the search
      goes on to the next one. */
  lemma EmptyCookieSkipped(second: string)
    requires second != "" && ';' !in second
    ensures ExtractToken(None, Some(CookieName + ";" + CookieName + second)) == Some(second)
  {
    SecondOccurrenceFound(second);
  }

  lemma SecondOccurrenceFound(second: string)
    requires second != "" && ';' !in second
    ensures CookieToken(CookieName + ";" + CookieName + second, 0) == Some(second)
  {
    var d := CookieName + ";" + CookieName + second;
    var n := |CookieName| + 1;
    assert d[n..] == CookieName + second;
    assert d[n + |CookieName|..] == second;
    assert OccursAt(d, CookieName, n);
    assert 'b' !in CookieName[1..];
    forall j | 0 <= j < n ensures !CookieMatchesAt(d, j) {
      if 0 < j {
        // The name starts with the only `b` in it, and `;` is no `b`.
        if j < |CookieName| {
          assert d[j] == CookieName[1..][j - 1];
        }
        assert d[j] != CookieName[0];
      }
    }
    NonSemicolonRunAll(second);
    CookieTokenSkips(d, 0, n);
  }

  lemma {:induction false} NonSemicolonRunStops(s: string, rest: string)
    requires ';' !in s
    ensures NonSemicolonRun(s + ";" + rest) == s
    decreases |s|
  {
    if s != [] {
      assert (s + ";" + rest)[1..] == s[1..] + ";" + rest;
      NonSemicolonRunStops(s[1..], rest);
    } else {
      assert (s + ";" + rest)[0] == ';';
    }
  }

  lemma {:induction false} NonSemicolonRunAll(s: string)
    requires ';' !in s
    ensures NonSemicolonRun(s) == s
    decreases |s|
  {
    if s != [] {
      NonSemicolonRunAll(s[1..]);
    }
  }

  /** Scanning from `from` finds the match at `at` when nothing matches in
      between. */
  lemma {:induction false} CookieTokenSkips(cookie: string, from: nat, at: nat)
    requires from <= at < |cookie| && CookieMatchesAt(cookie, at)
    requires forall j :: from <= j < at ==> !CookieMatchesAt(cookie, j)
    ensures CookieToken(cookie, from) == Some(NonSemicolonRun(cookie[at + |CookieName|..]))
    decreases at - from
  {
    if from < at {
      CookieTokenSkips(cookie, from + 1, at);
    }
  }

  // ---------------------------------------------------------------------
  // requireAuth

  /** What `requireAuth` stores in `req.user`. */
  datatype AuthUser = AuthUser(id: string, email: string, sessionId: string, expiresAt: int)

  /** Either the 401 answered by the middleware or the user it lets through. */
  datatype Gate = Deny(response: Response<()>) | Allow(user: AuthUser)

  /** The decision chain of `requireAuth` for a token, against the session
      and user tables at time `now`. `lookupFails` says that the session query
      throws, which the middleware's `catch` turns into a 401 as well. */
  function Authenticate(sessions: map<string, Session>, users: map<string, User>,
                        token: Option<string>, now: int, lookupFails: bool): (g: Gate)
    requires UsersValid(users) && SessionsValid(sessions, users)
    ensures g.Deny? ==> g.response.status == 401 && !g.response.body.success
    ensures !Truthy(token) ==> g == Deny(Failure(401, "Token requis"))
    ensures Truthy(token) && lookupFails ==> g == Deny(Failure(401, "Erreur d'authentification"))
    ensures Truthy(token) && !lookupFails && token.value !in sessions ==>
              g == Deny(Failure(401, "Session invalide"))
    ensures Truthy(token) && !lookupFails && token.value in sessions
            && sessions[token.value].expiresAt < now ==>
              g == Deny(Failure(401, "Session expirée"))
    ensures g.Allow? <==> Truthy(token) && !lookupFails && token.value in sessions
                          && now <= sessions[token.value].expiresAt
    ensures g.Allow? ==>
              var s := sessions[token.value];
              g.user == AuthUser(s.userId, users[s.userId].email, s.id, s.expiresAt)
  {
    if !Truthy(token) then Deny(Failure(401, "Token requis"))
    else if lookupFails then Deny(Failure(401, "Erreur d'authentification"))
    else if token.value !in sessions then Deny(Failure(401, "Session invalide"))
    else
      var s := sessions[token.value];
      if s.expiresAt < now then Deny(Failure(401, "Session expirée"))
      else Allow(AuthUser(users[s.userId].id, users[s.userId].email, s.id, s.expiresAt))
  }

  /** A session is accepted up to and including the instant it expires. */
  lemma ExpiryIsInclusive(sessions: map<string, Session>, users: map<string, User>, token: string)
    requires SessionsValid(sessions, users) && UsersValid(users) && token != "" && token in sessions
    ensures Authenticate(sessions, users, Some(token), sessions[token].expiresAt, false).Allow?
    ensures Authenticate(sessions, users, Some(token), sessions[token].expiresAt + 1, false)
            == Deny(Failure(401, "Session expirée"))
  {
  }

  /** The request object, reduced to the field the middleware assigns. */
  class AuthRequest {
    const authorization: Option<string>
    const cookie: Option<string>
    var user: Option<AuthUser>

    constructor (authorization: Option<string>, cookie: Option<string>)
      ensures this.authorization == authorization && this.cookie == cookie && user.None?
    {
      this.authorization := authorization;
      this.cookie := cookie;
      user := None;
    }
  }

  /** `requireAuth(req, res, next)`: on success `req.user` is set and `next`
      is called once; otherwise the 401 is the response and `req.user` stays
      as it was. The tables are only read. */
  method RequireAuth(db: Db, req: AuthRequest, now: int, lookupFails: bool)
    returns (response: Option<Response<()>>, nextCalled: bool)
    requires db.Valid()
    modifies req
    ensures var g := Authenticate(db.sessions, db.users, ExtractToken(req.authorization, req.cookie),
                                  now, lookupFails);
      && (g.Allow? ==> nextCalled && response.None? && req.user == Some(g.user))
      && (g.Deny? ==> !nextCalled && response == Some(g.response) && req.user == old(req.user))
  {
    var token := ExtractToken(req.authorization, req.cookie);
    var g := Authenticate(db.sessions, db.users, token, now, lookupFails);
    if g.Allow? {
      req.user := Some(g.user);
      response, nextCalled := None, true;
    } else {
      response, nextCalled := Some(g.response), false;
    }
  }
}
