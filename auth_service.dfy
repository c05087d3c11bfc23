/** src/services/auth.service.ts: `register`, which checks email and
    username before better-auth creates the user and its first session and
    the profile is inserted; `getSessionByToken`, a read-only validity check;
    and `logout`, which deletes a session by token. New identifiers and the
    session token are parameters, assumed unused; `new Date(text)` is the
    parameter `instant`. */
module AuthService {
  import opened Wrappers
  import opened Http
  import opened Database
  import opened AuthSchema
  import opened AuthMiddleware

  /** What `getSessionByToken` answers for a live session. */
  datatype SessionView = SessionView(user: User, sessionId: string, expiresAt: int, token: string)

  /** `getSessionByToken(token)`: nothing for an unknown token or a session
      past its expiry; a session is still valid at its expiry instant. */
  function GetSessionByToken(sessions: map<string, Session>, users: map<string, User>,
                             token: string, now: int): (r: Option<SessionView>)
    requires UsersValid(users) && SessionsValid(sessions, users)
    ensures r.Some? <==> token in sessions && now <= sessions[token].expiresAt
    ensures r.Some? ==> && r.value.token == token
                        && r.value.sessionId == sessions[token].id
                        && r.value.expiresAt == sessions[token].expiresAt
                        && r.value.user.id == sessions[token].userId
                        && r.value.user in users.Values
  {
    if token !in sessions || sessions[token].expiresAt < now then None
    else
      var s := sessions[token];
      Some(SessionView(users[s.userId], s.id, s.expiresAt, s.token))
  }

  /** `requireAuth` and `getSessionByToken` agree on which tokens are good:
      for a non-empty token the middleware lets the request through exactly
      when the service finds a session, and both name the same user and
      session. */
  lemma MiddlewareAgreesWithService(sessions: map<string, Session>, users: map<string, User>,
                                    token: string, now: int)
    requires UsersValid(users) && SessionsValid(sessions, users) && token != ""
    ensures var g := Authenticate(sessions, users, Some(token), now, false);
      var v := GetSessionByToken(sessions, users, token, now);
      && (g.Allow? <==> v.Some?)
      && (g.Allow? ==> g.user.id == v.value.user.id && g.user.email == v.value.user.email
                       && g.user.sessionId == v.value.sessionId && g.user.expiresAt == v.value.expiresAt)
  {
  }

  /** What `register` returns. */
  datatype Registration = Registration(user: User, profile: Profile, token: string)

  /** The profile row `register` inserts: the registration fields, the
      column defaults for the rest. */
  function NewProfile(data: RegisterInput, id: string, userId: string, now: int,
                      instant: string -> int): (p: Profile)
    ensures p.id == id && p.userId == userId && p.createdAt == now
    // The registration's names, username, phone and birth date ...
    ensures p.firstname == data.firstname && p.lastname == data.lastname
            && p.username == data.username && p.phoneNumber == data.phoneNumber
            && p.birthDate == instant(data.birthDate)
    // ... and nothing else: no optional field, and neither verification.
    ensures p.profileImageUrl.None? && p.experience.None? && p.biography.None?
            && p.favoriteMusic.None?
    ensures !p.isVerified && !p.isDriverVerified
  {
    Profile(id, userId, data.firstname, data.lastname, data.username, data.phoneNumber,
            None, None, None, None, instant(data.birthDate), false, false, now)
  }

  lemma HasProfileExtends(profiles: seq<Profile>, p: Profile, id: string)
    requires HasProfile(profiles, id)
    ensures HasProfile(profiles + [p], id)
  {
    var i :| 0 <= i < |profiles| && profiles[i].id == id;
    assert (profiles + [p])[i].id == id;
  }

  /** `register(data)`: the email check comes first, then the username
      check; both failures are plain errors. Otherwise better-auth creates
      the user (named by first and last name) with a seven-day session, and
      exactly one profile is created for it. */
  method Register(db: Db, data: RegisterInput, now: int, instant: string -> int,
                  userId: string, sessionId: string, token: string, profileId: string)
    returns (r: Result<Registration, AppError>)
    requires db.Valid()
    requires userId !in db.users && token !in db.sessions && !HasProfile(db.profiles, profileId)
    modifies db
    ensures db.Valid()
    ensures EmailTaken(old(db.users), data.email) ==>
              r == Err(PlainError("Email déjà utilisé")) && unchanged(db)
    ensures !EmailTaken(old(db.users), data.email)
            && UsernameTaken(old(db.profiles), data.username) ==>
              r == Err(PlainError("Nom d'utilisateur déjà pris")) && unchanged(db)
    ensures r.Ok? <==> !EmailTaken(old(db.users), data.email)
                       && !UsernameTaken(old(db.profiles), data.username)
    ensures r.Ok? ==>
              var user := User(userId, data.email, data.firstname + " " + data.lastname);
              var profile := NewProfile(data, profileId, userId, now, instant);
              && db.users == old(db.users)[userId := user]
              && db.sessions == old(db.sessions)[token := Session(sessionId, token, userId, now + SessionLifetimeMs)]
              && db.profiles == old(db.profiles) + [profile]
              && db.rides == old(db.rides) && db.participants == old(db.participants)
              && r.value == Registration(user, profile, token)
  {
    if EmailTaken(db.users, data.email) {
      return Err(PlainError("Email déjà utilisé"));
    }
    if UsernameTaken(db.profiles, data.username) {
      return Err(PlainError("Nom d'utilisateur déjà pris"));
    }
    // better-auth: the user, then (auto sign-in) its session; then the profile.
    var user := User(userId, data.email, data.firstname + " " + data.lastname);
    var session := Session(sessionId, token, userId, now + SessionLifetimeMs);
    var profile := NewProfile(data, profileId, userId, now, instant);
    RegisterValid(db.users, db.sessions, db.profiles, db.rides, db.participants, user, session, profile);
    db.users, db.sessions, db.profiles :=
      db.users[userId := user], db.sessions[token := session], db.profiles + [profile];
    r := Ok(Registration(user, profile, token));
  }

  /** A user with a free id and email, its session under a free token and its
      profile with a free id, user id and username keep every constraint. */
  lemma RegisterValid(users: map<string, User>, sessions: map<string, Session>, profiles: seq<Profile>,
                      rides: seq<Ride>, participants: seq<UserRide>,
                      user: User, session: Session, profile: Profile)
    requires UsersValid(users) && SessionsValid(sessions, users) && ProfilesValid(profiles, users)
    requires RidesValid(rides) && ParticipantsValid(participants, rides, profiles)
    requires user.id !in users && !EmailTaken(users, user.email)
    requires session.token !in sessions && session.userId == user.id
    requires profile.userId == user.id && !HasProfile(profiles, profile.id)
    requires !UsernameTaken(profiles, profile.username)
    ensures UsersValid(users[user.id := user])
    ensures SessionsValid(sessions[session.token := session], users[user.id := user])
    ensures ProfilesValid(profiles + [profile], users[user.id := user])
    ensures ParticipantsValid(participants, rides, profiles + [profile])
  {
    var all := profiles + [profile];
    forall i | 0 <= i < |profiles| ensures profiles[i].userId != user.id {
      assert profiles[i].userId in users;
    }
    forall i, j | 0 <= i < j < |all|
      ensures all[i].id != all[j].id && all[i].userId != all[j].userId && all[i].username != all[j].username
    {
      if j == |profiles| {
        assert all[i] == profiles[i] && all[j] == profile;
      }
    }
    forall i | 0 <= i < |participants|
      ensures HasProfile(all, participants[i].profileId)
    {
      HasProfileExtends(profiles, profile, participants[i].profileId);
    }
  }

  /** The token handed out by `register` authenticates the new user until
      the session expires. */
  lemma RegisteredTokenAuthenticates(sessions: map<string, Session>, users: map<string, User>,
                                     user: User, sessionId: string, token: string,
                                     createdAt: int, now: int)
    requires UsersValid(users[user.id := user])
    requires SessionsValid(sessions[token := Session(sessionId, token, user.id, createdAt + SessionLifetimeMs)],
                           users[user.id := user])
    requires token != "" && createdAt <= now <= createdAt + SessionLifetimeMs
    ensures Authenticate(sessions[token := Session(sessionId, token, user.id, createdAt + SessionLifetimeMs)],
                         users[user.id := user], Some(token), now, false)
            == Allow(AuthUser(user.id, user.email, sessionId, createdAt + SessionLifetimeMs))
  {
  }

  /** `logout(token)`: deletes exactly the session with that token; a
      missing one makes Prisma's delete fail with "record not found". */
  method Logout(db: Db, token: string) returns (r: Result<(), AppError>)
    requires db.Valid()
    modifies db
    ensures db.Valid()
    ensures r.Ok? <==> token in old(db.sessions)
    ensures r.Ok? ==> db.sessions == old(db.sessions) - {token}
    ensures r.Err? ==> r.error.KnownRequestError? && r.error.code == RecordNotFound
                       && db.sessions == old(db.sessions)
    ensures db.users == old(db.users) && db.profiles == old(db.profiles)
            && db.rides == old(db.rides) && db.participants == old(db.participants)
  {
    if token !in db.sessions {
      return Err(KnownRequestError(RecordNotFound, "Record to delete does not exist."));
    }
    db.sessions := db.sessions - {token};
    r := Ok(());
  }

  /** After logout the token is refused, by the middleware as unknown and
      by `getSessionByToken`; other tokens are unaffected. */
  lemma LoggedOutTokenRefused(sessions: map<string, Session>, users: map<string, User>,
                              token: string, other: string, now: int)
    requires UsersValid(users) && SessionsValid(sessions, users) && token != "" && other != token
    ensures SessionsValid(sessions - {token}, users)
    ensures Authenticate(sessions - {token}, users, Some(token), now, false)
            == Deny(Failure(401, "Session invalide"))
    ensures GetSessionByToken(sessions - {token}, users, token, now).None?
    ensures GetSessionByToken(sessions - {token}, users, other, now)
            == GetSessionByToken(sessions, users, other, now)
  {
  }
}
