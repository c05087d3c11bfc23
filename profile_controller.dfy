/** src/controllers/profile.controller.ts: the public list and lookup, and
    the protected own-profile read, update, account deletion and password
    change. `req.user` is an `Option<AuthUser>`; the handlers guard on it
    themselves. */
module ProfileController {
  import opened Wrappers
  import opened Http
  import opened Database
  import opened Validation
  import opened AuthSchema
  import opened ProfileSchema
  import opened AuthMiddleware
  import opened ProfileService

  /** `Math.ceil(totalCount / limit)` for a positive limit. */
  function CeilDiv(n: nat, d: int): (c: nat)
    requires d > 0
    ensures (c - 1) * d < n <= c * d
  {
    var c := (n + d - 1) / d;
    assert c * d <= n + d - 1 < c * d + d;
    c
  }

  /** The `totalPages` field: 1 for `limit = -1`; for `limit = 0` the
      division gives `Infinity` or `NaN`, both written as JSON `null`
      (`None`); otherwise the number of pages of `limit` rows needed to hold
      `totalCount` rows. */
  function TotalPages(limit: int, totalCount: nat): (r: Option<nat>)
    requires limit >= -1
    ensures limit == -1 ==> r == Some(1)
    ensures limit == 0 ==> r.None?
    ensures limit > 0 ==> r.Some? && (r.value - 1) * limit < totalCount <= r.value * limit
  {
    if limit == -1 then Some(1)
    else if limit == 0 then None
    else Some(CeilDiv(totalCount, limit))
  }

  lemma PagesWithinTotal(profiles: seq<Profile>, q: ProfileQuery)
    requires q.page >= 1 && q.limit >= -1
    ensures q.limit > 0 ==>
              var r := FindAll(profiles, q);
              (r.data != [] <==> q.page <= TotalPages(q.limit, r.totalCount).value)
  {
    if q.limit > 0 {
      PageNonEmptyIffWithinTotal(profiles, q);
    }
  }

  lemma MulMonotone(a: int, b: int, d: int)
    requires a <= b && d > 0
    ensures a * d <= b * d
  {
  }

  /** With a positive limit a page holds rows exactly when its number is
      within `totalPages`. */
  lemma PageNonEmptyIffWithinTotal(profiles: seq<Profile>, q: ProfileQuery)
    requires q.page >= 1 && q.limit > 0
    ensures var r := FindAll(profiles, q);
      r.data != [] <==> q.page <= TotalPages(q.limit, r.totalCount).value
  {
    PageNonEmptyIffBeforeEnd(profiles, q);
    OffsetWithinTotal(q.page, q.limit, FindAll(profiles, q).totalCount);
  }

  /** With a positive limit a page holds rows exactly when it starts before
      the last matching row. */
  lemma PageNonEmptyIffBeforeEnd(profiles: seq<Profile>, q: ProfileQuery)
    requires q.page >= 1 && q.limit > 0
    ensures var r := FindAll(profiles, q);
      r.data != [] <==> Offset(q.page, q.limit) < r.totalCount
  {
    var r := FindAll(profiles, q);
    if Offset(q.page, q.limit) < r.totalCount {
      assert |r.data| > 0;
    }
  }

  /** Page `page` starts before row `total` exactly when `page` is at most
      `totalPages`, the ceiling of `total / limit`. */
  lemma OffsetWithinTotal(page: int, limit: int, total: int)
    requires page >= 1 && limit > 0 && total >= 0
    ensures Offset(page, limit) < total <==> page <= TotalPages(limit, total).value
  {
    var v := TotalPages(limit, total).value;
    if page <= v {
      MulMonotone(page - 1, v - 1, limit);
    } else {
      MulMonotone(v, page - 1, limit);
    }
  }

  datatype PaginationInfo = PaginationInfo(page: int, limit: int, totalCount: int,
                                           totalPages: Option<nat>)

  datatype ProfileList = ProfileList(data: seq<Profile>, pagination: PaginationInfo)

  /** `findAll`: the service's page with its pagination block. The query
      schema the handler parses with is not part of this model; the ranges
      `paginationSchema` enforces are its precondition. */
  function FindAllProfiles(profiles: seq<Profile>, q: ProfileQuery): (out: Outcome<ProfileList>)
    requires q.page >= 1 && q.limit >= -1
    ensures out.Respond? && out.response.status == 200 && out.response.body.success
    ensures out.response.body.data.Some?
    ensures var list := out.response.body.data.value;
      var r := FindAll(profiles, q);
      && list.data == r.data
      && list.pagination.page == q.page && list.pagination.limit == q.limit
      && list.pagination.totalCount == r.totalCount
      && (q.limit == -1 ==> list.pagination.totalPages == Some(1))
      && (q.limit == 0 ==> list.pagination.totalPages.None?)
      && (q.limit > 0 ==> list.pagination.totalPages.Some?
                          && (list.data != [] <==> q.page <= list.pagination.totalPages.value))
  {
    var r := FindAll(profiles, q);
    PagesWithinTotal(profiles, q);
    assert r.totalCount >= 0;
    Respond(Success(200, None, Some(ProfileList(r.data,
      PaginationInfo(r.page, r.limit, r.totalCount, TotalPages(r.limit, r.totalCount))))))
  }

  /** `findById`: the profile, or the service's error for the error
      handler. */
  function FindProfileById(profiles: seq<Profile>, id: string): (out: Outcome<Profile>)
    ensures out.Forward? <==> !HasProfile(profiles, id)
    ensures out.Forward? ==> out.error == PlainError("Profile non trouvé")
    ensures out.Respond? ==> out.response.status == 200 && out.response.body.success
                             && out.response.body.data.Some?
                             && out.response.body.data.value in profiles
                             && out.response.body.data.value.id == id
  {
    match FindById(profiles, id)
    case Err(e) => Forward(e)
    case Ok(p) => Respond(Success(200, None, Some(p)))
  }

  const NotAuthenticated: string := "Non authentifié"

  /** `getProfile`: the caller's own profile. */
  function GetProfile(profiles: seq<Profile>, user: Option<AuthUser>): (out: Outcome<Profile>)
    ensures user.None? ==> out == Respond(Failure(401, NotAuthenticated))
    ensures user.Some? ==>
              (out.Forward? <==> forall i :: 0 <= i < |profiles| ==> profiles[i].userId != user.value.id)
    ensures user.Some? && out.Respond? ==>
              && out.response.status == 200 && out.response.body.data.Some?
              && out.response.body.data.value in profiles
              && out.response.body.data.value.userId == user.value.id
  {
    if user.None? then Respond(Failure(401, NotAuthenticated))
    else
      match FindByUserId(profiles, user.value.id)
      case Err(e) => Forward(e)
      case Ok(p) => Respond(Success(200, None, Some(p)))
  }

  /** `update`: the guard runs first, then the body is validated, then the
      caller's profile is looked up by user id and rewritten. No other row
      ever changes. */
  method UpdateOwnProfile(db: Db, user: Option<AuthUser>, lib: LibraryChecks, body: Object,
                          instant: string -> int)
    returns (out: Outcome<Profile>)
    requires db.Valid()
    modifies db
    ensures db.Valid()
    ensures user.None? ==> out == Respond(Failure(401, NotAuthenticated)) && unchanged(db)
    ensures user.Some? && ParseUpdateProfile(lib, body).Err? ==>
              out == Forward(ParseUpdateProfile(lib, body).error) && unchanged(db)
    ensures user.Some? && ParseUpdateProfile(lib, body).Ok?
            && FindByUserId(old(db.profiles), user.value.id).Err? ==>
              out == Forward(PlainError("Profile non trouvé")) && unchanged(db)
    // A username held by another profile is refused by the unique index.
    ensures user.Some? && ParseUpdateProfile(lib, body).Ok?
            && FindByUserId(old(db.profiles), user.value.id).Ok?
            && ParseUpdateProfile(lib, body).value.username.Some?
            && UsernameTakenByOther(old(db.profiles), FindByUserId(old(db.profiles), user.value.id).value.id,
                                    ParseUpdateProfile(lib, body).value.username.value) ==>
              out.Forward? && out.error.KnownRequestError? && out.error.code == UniqueViolation
              && unchanged(db)
    // Otherwise the caller's own row, and only it, is rewritten by `Merge`.
    ensures user.Some? ==>
              (out.Respond? <==>
                 && ParseUpdateProfile(lib, body).Ok?
                 && FindByUserId(old(db.profiles), user.value.id).Ok?
                 && var username := ParseUpdateProfile(lib, body).value.username;
                    (username.None? || !UsernameTakenByOther(old(db.profiles),
                                                             FindByUserId(old(db.profiles), user.value.id).value.id,
                                                             username.value)))
    ensures out.Respond? && user.Some? ==>
              var own := FindByUserId(old(db.profiles), user.value.id).value;
              var merged := Merge(own, ParseUpdateProfile(lib, body).value, instant);
              && out.response == Success(200, Some("Profil mis à jour"), Some(merged))
              && db.profiles == old(db.profiles)[IndexOfProfile(old(db.profiles), own.id) := merged]
    ensures |db.profiles| == |old(db.profiles)|
    ensures forall j :: 0 <= j < |old(db.profiles)| && (user.None? || old(db.profiles)[j].userId != user.value.id)
                        ==> db.profiles[j] == old(db.profiles)[j]
    ensures db.users == old(db.users) && db.sessions == old(db.sessions)
            && db.rides == old(db.rides) && db.participants == old(db.participants)
  {
    if user.None? {
      return Respond(Failure(401, NotAuthenticated));
    }
    var data := ParseUpdateProfile(lib, body);
    if data.Err? {
      return Forward(data.error);
    }
    var current := FindByUserId(db.profiles, user.value.id);
    if current.Err? {
      return Forward(current.error);
    }
    var k := OwnProfileIndex(db.profiles, db.users, user.value.id);
    ghost var before := db.profiles;
    var r := ProfileService.Update(db, current.value.id, data.value, instant);
    if r.Err? {
      return Forward(r.error);
    }
    assert db.profiles == before[k := r.value];
    out := Respond(Success(200, Some("Profil mis à jour"), Some(r.value)));
  }

  /** Under the unique constraints the user's profile sits at one position,
      which the lookup by its id finds again. */
  lemma OwnProfileIndex(profiles: seq<Profile>, users: map<string, User>, userId: string)
    returns (k: int)
    requires ProfilesValid(profiles, users) && FindByUserId(profiles, userId).Ok?
    ensures 0 <= k < |profiles| && profiles[k] == FindByUserId(profiles, userId).value
    ensures IndexOfProfile(profiles, profiles[k].id) == k
    ensures forall j :: 0 <= j < |profiles| && j != k ==> profiles[j].userId != userId
  {
    k :| 0 <= k < |profiles| && profiles[k] == FindByUserId(profiles, userId).value;
    ProfileWithIdUnique(profiles, users, k);
  }

  /** `delete`: removes the caller's own account and nothing belonging to
      another user. */
  method DeleteOwnAccount(db: Db, user: Option<AuthUser>) returns (out: Outcome<()>)
    requires db.Valid()
    modifies db
    ensures db.Valid()
    ensures user.None? ==> out == Respond(Failure(401, NotAuthenticated)) && unchanged(db)
    ensures user.Some? && user.value.id !in old(db.users) ==>
              out.Forward? && out.error.KnownRequestError? && out.error.code == RecordNotFound
              && unchanged(db)
    ensures user.Some? && user.value.id in old(db.users) ==>
              && out == Respond(Success(200, Some("Compte supprimé"), None))
              && db.users == old(db.users) - {user.value.id}
              && db.sessions == SessionsWithout(old(db.sessions), user.value.id)
              && db.profiles == ProfilesWithout(old(db.profiles), old(db.users), user.value.id)
              && db.participants == ParticipantsWithout(old(db.participants), old(db.profiles), user.value.id)
              && db.rides == old(db.rides)
    ensures forall k :: k in old(db.users) && (user.None? || k != user.value.id) ==>
                          k in db.users && db.users[k] == old(db.users)[k]
    ensures forall p :: p in old(db.profiles) && (user.None? || p.userId != user.value.id) ==> p in db.profiles
  {
    if user.None? {
      return Respond(Failure(401, NotAuthenticated));
    }
    var r := ProfileService.Delete(db, user.value.id);
    if r.Err? {
      return Forward(r.error);
    }
    out := Respond(Success(200, Some("Compte supprimé"), None));
  }

  /** `changePassword`: the guard, then `changePasswordSchema`, then
      better-auth's password change, the parameter `change`. */
  function ChangePassword(user: Option<AuthUser>, body: Object,
                          change: ChangePasswordInput -> Result<(), AppError>): (out: Outcome<()>)
    ensures user.None? ==> out == Respond(Failure(401, NotAuthenticated))
    ensures user.Some? && ParseChangePassword(body).Err? ==> out == Forward(ParseChangePassword(body).error)
    ensures user.Some? && ParseChangePassword(body).Ok? ==>
              var d := ParseChangePassword(body).value;
              && (change(d).Ok? ==> out == Respond(Success(200, Some("Mot de passe modifié"), None)))
              && (change(d).Err? ==> out == Forward(change(d).error))
    ensures out.Respond? && user.Some? ==>
              && ParseChangePassword(body).Ok?
              && change(ParseChangePassword(body).value).Ok?
              && out.response == Success(200, Some("Mot de passe modifié"), None)
  {
    if user.None? then Respond(Failure(401, NotAuthenticated))
    else
      match ParseChangePassword(body)
      case Err(e) => Forward(e)
      case Ok(d) =>
        match change(d)
        case Err(e) => Forward(e)
        case Ok(_) => Respond(Success(200, Some("Mot de passe modifié"), None))
  }
}
