/** src/controllers/auth.controller.ts: `register`, `login`, `logout` and
    `getSession`. `logout` and `getSession` repeat the middleware's token
    extraction inline; better-auth's `signInEmail` is the parameter
    `signIn`. */
module AuthController {
  import opened Wrappers
  import opened Strings
  import opened Http
  import opened Database
  import opened Validation
  import opened AuthSchema
  import opened AuthMiddleware
  import opened AuthService

  /** `cookieHeader.match(/better-auth\.session_token=([^;]+)/)`, scanning
      left to right for the first place the pattern matches. */
  method MatchSessionCookie(cookie: string) returns (m: Option<string>)
    ensures m.None? <==> forall i :: 0 <= i < |cookie| ==> !CookieMatchesAt(cookie, i)
    ensures m.Some? ==> exists i :: 0 <= i < |cookie| && CookieMatchesAt(cookie, i)
                                    && (forall j :: 0 <= j < i ==> !CookieMatchesAt(cookie, j))
                                    && m.value == NonSemicolonRun(cookie[i + |CookieName|..])
    ensures m == CookieToken(cookie, 0)
  {
    var i := 0;
    while i < |cookie|
      invariant 0 <= i <= |cookie|
      invariant CookieToken(cookie, i) == CookieToken(cookie, 0)
    {
      if CookieMatchesAt(cookie, i) {
        return Some(NonSemicolonRun(cookie[i + |CookieName|..]));
      }
      i := i + 1;
    }
    return None;
  }

  /** The `let token` block of `logout` and `getSession`: the same token as
      the middleware's `extractToken`, for every header and cookie. */
  method InlineToken(authorization: Option<string>, cookie: Option<string>)
    returns (token: Option<string>)
    ensures token == ExtractToken(authorization, cookie)
  {
    token := None;
    if Truthy(authorization) {
      var a := authorization.value;
      if StartsWith(a, BearerPrefix) {
        token := Some(a[7..]);
      } else {
        token := Some(a);
      }
    } else {
      if Truthy(cookie) {
        var m := MatchSessionCookie(cookie.value);
        if m.Some? {
          token := m;
        }
      }
    }
  }

  /** `register`: a body that fails `registerSchema`, or a registration the
      service refuses, goes to the error handler; a new account is answered
      with 201 and what the service returned. */
  method Register(db: Db, lib: LibraryChecks, body: Object, now: int, instant: string -> int,
                  userId: string, sessionId: string, token: string, profileId: string)
    returns (out: Outcome<Registration>)
    requires db.Valid()
    requires userId !in db.users && token !in db.sessions && !HasProfile(db.profiles, profileId)
    modifies db
    ensures db.Valid()
    ensures ParseRegister(lib, body).Err? ==>
              out == Forward(ParseRegister(lib, body).error) && unchanged(db)
    ensures ParseRegister(lib, body).Ok? && EmailTaken(old(db.users), ParseRegister(lib, body).value.email) ==>
              out == Forward(PlainError("Email déjà utilisé")) && unchanged(db)
    ensures ParseRegister(lib, body).Ok? && !EmailTaken(old(db.users), ParseRegister(lib, body).value.email)
            && UsernameTaken(old(db.profiles), ParseRegister(lib, body).value.username) ==>
              out == Forward(PlainError("Nom d'utilisateur déjà pris")) && unchanged(db)
    ensures out.Respond? <==> ParseRegister(lib, body).Ok?
                              && !EmailTaken(old(db.users), ParseRegister(lib, body).value.email)
                              && !UsernameTaken(old(db.profiles), ParseRegister(lib, body).value.username)
    ensures out.Respond? ==>
              var d := ParseRegister(lib, body).value;
              var user := User(userId, d.email, d.firstname + " " + d.lastname);
              var profile := NewProfile(d, profileId, userId, now, instant);
              && out.response == Success(201, Some("Compte créé avec succès"),
                                         Some(Registration(user, profile, token)))
              && db.users == old(db.users)[userId := user]
              && db.sessions == old(db.sessions)[token := Session(sessionId, token, userId, now + SessionLifetimeMs)]
              && db.profiles == old(db.profiles) + [profile]
              && db.rides == old(db.rides) && db.participants == old(db.participants)
  {
    var parsed := ParseRegister(lib, body);
    if parsed.Err? {
      return Forward(parsed.error);
    }
    var r := AuthService.Register(db, parsed.value, now, instant, userId, sessionId, token, profileId);
    if r.Err? {
      return Forward(r.error);
    }
    out := Respond(Success(201, Some("Compte créé avec succès"), Some(r.value)));
  }

  /** `login`: a valid body is handed to better-auth, whose session is
      answered with `Connexion réussie`; any failure goes to the error
      handler. */
  function Login<D>(lib: LibraryChecks, body: Object,
                    signIn: (string, string) -> Result<D, AppError>): (out: Outcome<D>)
    ensures ParseLogin(lib, body).Err? ==> out == Forward(ParseLogin(lib, body).error)
    ensures ParseLogin(lib, body).Ok? ==>
              var d := ParseLogin(lib, body).value;
              && (signIn(d.email, d.password).Err? ==> out == Forward(signIn(d.email, d.password).error))
              && (signIn(d.email, d.password).Ok? ==>
                    out == Respond(Success(200, Some("Connexion réussie"), Some(signIn(d.email, d.password).value))))
    ensures out.Respond? ==> out.response.status == 200 && out.response.body.success
  {
    match ParseLogin(lib, body)
    case Err(e) => Forward(e)
    case Ok(d) =>
      match signIn(d.email, d.password)
      case Err(e) => Forward(e)
      case Ok(session) => Respond(Success(200, Some("Connexion réussie"), Some(session)))
  }

  /** `logout`: without a token, 400 and nothing is deleted; with one, its
      session is deleted and the answer is a success; a token with no
      session makes the deletion fail, which goes to the error handler. */
  method Logout(db: Db, authorization: Option<string>, cookie: Option<string>)
    returns (out: Outcome<()>)
    requires db.Valid()
    modifies db
    ensures db.Valid()
    ensures var t := ExtractToken(authorization, cookie);
      && (!Truthy(t) ==> out == Respond(Failure(400, "Token requis pour se déconnecter")) && unchanged(db))
      && (Truthy(t) && t.value in old(db.sessions) ==>
            out == Respond(Success(200, Some("Déconnexion réussie"), None))
            && db.sessions == old(db.sessions) - {t.value})
      && (Truthy(t) && t.value !in old(db.sessions) ==>
            out.Forward? && out.error.KnownRequestError? && out.error.code == RecordNotFound
            && db.sessions == old(db.sessions))
    ensures db.users == old(db.users) && db.profiles == old(db.profiles)
            && db.rides == old(db.rides) && db.participants == old(db.participants)
  {
    var token := InlineToken(authorization, cookie);
    if !Truthy(token) {
      return Respond(Failure(400, "Token requis pour se déconnecter"));
    }
    var r := AuthService.Logout(db, token.value);
    if r.Err? {
      return Forward(r.error);
    }
    out := Respond(Success(200, Some("Déconnexion réussie"), None));
  }

  /** `getSession`: 401 `Token requis` without a token, 401 for an unknown
      or expired session, otherwise the session the service found. */
  function GetSession(sessions: map<string, Session>, users: map<string, User>,
                      authorization: Option<string>, cookie: Option<string>, now: int)
    : (out: Outcome<SessionView>)
    requires UsersValid(users) && SessionsValid(sessions, users)
    ensures out.Respond?
    ensures var t := ExtractToken(authorization, cookie);
      && (!Truthy(t) ==> out.response == Failure(401, "Token requis"))
      && (Truthy(t) ==>
            (out.response.status == 200 <==> t.value in sessions && now <= sessions[t.value].expiresAt))
      && (Truthy(t) && (t.value !in sessions || sessions[t.value].expiresAt < now) ==>
            out.response == Failure(401, "Session invalide ou expirée"))
    ensures out.response.status == 200 ==>
              && out.response.body.success && out.response.body.data.Some?
              && out.response.body.data.value.token in sessions
              && out.response.body.data.value.expiresAt >= now
    // The session answered is the one the service finds for the token.
    ensures Truthy(ExtractToken(authorization, cookie)) && out.response.status == 200 ==>
              out.response.body.data
              == GetSessionByToken(sessions, users, ExtractToken(authorization, cookie).value, now)
  {
    var t := ExtractToken(authorization, cookie);
    if !Truthy(t) then Respond(Failure(401, "Token requis"))
    else
      match GetSessionByToken(sessions, users, t.value, now)
      case None => Respond(Failure(401, "Session invalide ou expirée"))
      case Some(v) => Respond(Success(200, None, Some(v)))
  }

  /** `getSession` and `requireAuth` agree on which requests carry a live
      session, though they word their refusals differently. */
  lemma GetSessionAgreesWithMiddleware(sessions: map<string, Session>, users: map<string, User>,
                                       authorization: Option<string>, cookie: Option<string>, now: int)
    requires UsersValid(users) && SessionsValid(sessions, users)
    ensures var g := Authenticate(sessions, users, ExtractToken(authorization, cookie), now, false);
      (GetSession(sessions, users, authorization, cookie, now).response.status == 200 <==> g.Allow?)
  {
  }

  /** A logged-out token no longer opens a session. */
  lemma LogoutEndsSession(sessions: map<string, Session>, users: map<string, User>,
                          authorization: Option<string>, cookie: Option<string>, now: int)
    requires UsersValid(users) && SessionsValid(sessions, users)
    requires Truthy(ExtractToken(authorization, cookie))
    ensures SessionsValid(sessions - {ExtractToken(authorization, cookie).value}, users)
    ensures GetSession(sessions - {ExtractToken(authorization, cookie).value}, users,
                       authorization, cookie, now).response
            == Failure(401, "Session invalide ou expirée")
  {
  }
}
