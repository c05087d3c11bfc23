/** src/services/profile.service.ts: the paginated, filtered profile list;
    lookups by id and by user id; the update of a profile row; and the
    deletion of a user account. The column projections (`select`) are not
    modelled: whole rows are returned. */
module ProfileService {
  import opened Wrappers
  import opened Strings
  import opened Sorting
  import opened Seqs
  import opened Http
  import opened Database
  import opened ProfileSchema

  /** `GetProfilesQuery`: pagination and the optional filters. */
  datatype ProfileQuery = ProfileQuery(page: int, limit: int, isVerified: Option<bool>,
                                       isDriverVerified: Option<bool>, username: Option<string>)

  /** The `where` object `findAll` builds. */
  datatype Where = Where(isVerified: Option<bool>, isDriverVerified: Option<bool>,
                         usernameContains: Option<string>)

  /** Defined flags are copied; the username filter is added only when the
      query's username is truthy. */
  function WhereOf(q: ProfileQuery): (w: Where)
    ensures w.isVerified == q.isVerified && w.isDriverVerified == q.isDriverVerified
    ensures w.usernameContains.Some? <==> q.username.Some? && q.username.value != ""
    ensures w.usernameContains.Some? ==> w.usernameContains == q.username
  {
    Where(q.isVerified, q.isDriverVerified,
          if q.username.Some? && q.username.value != "" then q.username else None)
  }

  /** A row satisfies a `where`: equal flags, and the username containing
      the filter text without regard to case. */
  predicate Matches(w: Where, p: Profile): (m: bool)
    // The empty filter keeps every row.
    ensures w == Where(None, None, None) ==> m
    // A kept row agrees with every flag the filter sets, and its username
    // is at least as long as the filter text.
    ensures m ==> w.isVerified in {None, Some(p.isVerified)}
                  && w.isDriverVerified in {None, Some(p.isDriverVerified)}
    ensures m && w.usernameContains.Some? ==> |w.usernameContains.value| <= |p.username|
  {
    && (w.isVerified.Some? ==> p.isVerified == w.isVerified.value)
    && (w.isDriverVerified.Some? ==> p.isDriverVerified == w.isDriverVerified.value)
    && (w.usernameContains.Some? ==> ContainsInsensitive(p.username, w.usernameContains.value))
  }

  /** `orderBy: { createdAt: 'desc' }` is a sort by the negated timestamp. */
  function Newest(p: Profile): int {
    -p.createdAt
  }

  function Matching(profiles: seq<Profile>, w: Where): seq<Profile> {
    Filter(profiles, (p: Profile) => Matches(w, p))
  }

  /** Every row matching `w`, newest first: what the query sees before
      `skip` and `take`. */
  function Ordered(profiles: seq<Profile>, w: Where): (r: seq<Profile>)
    ensures multiset(r) == multiset(Matching(profiles, w))
    ensures forall i, j :: 0 <= i < j < |r| ==> r[i].createdAt >= r[j].createdAt
  {
    var r := SortBy(Matching(profiles, w), Newest);
    assert forall i, j :: 0 <= i < j < |r| ==> Newest(r[i]) <= Newest(r[j]);
    r
  }

  /** `skip` then `take`. */
  function Window<T>(s: seq<T>, skip: nat, take: nat): (r: seq<T>)
    ensures |r| == if skip >= |s| then 0 else if skip + take <= |s| then take else |s| - skip
    ensures forall k :: 0 <= k < |r| ==> r[k] == s[skip + k]
  {
    if skip >= |s| then [] else if skip + take <= |s| then s[skip..skip + take] else s[skip..]
  }

  /** What `findAll` returns. */
  datatype ProfilePage = ProfilePage(data: seq<Profile>, totalCount: int, page: int, limit: int)

  /** `findAll(query)`: with `limit = -1` every matching row and a total of
      0; otherwise the rows from position `(page - 1) * limit`, at most
      `limit` of them, and the number of matching rows. Page and limit are
      echoed. */
  function FindAll(profiles: seq<Profile>, q: ProfileQuery): (r: ProfilePage)
    requires q.page >= 1 && q.limit >= -1
    ensures r.page == q.page && r.limit == q.limit
    ensures forall p :: p in r.data ==> p in profiles && Matches(WhereOf(q), p)
    ensures forall i, j :: 0 <= i < j < |r.data| ==> r.data[i].createdAt >= r.data[j].createdAt
    ensures q.limit == -1 ==>
              r.totalCount == 0 && multiset(r.data) == multiset(Matching(profiles, WhereOf(q)))
    ensures q.limit >= 0 ==>
              && r.totalCount == |Matching(profiles, WhereOf(q))|
              && |r.data| <= q.limit
              && var skip := Offset(q.page, q.limit);
                 && |r.data| == (if skip >= r.totalCount then 0
                                 else if skip + q.limit <= r.totalCount then q.limit
                                 else r.totalCount - skip)
                 && forall k :: 0 <= k < |r.data| ==> r.data[k] == Ordered(profiles, WhereOf(q))[skip + k]
  {
    var w := WhereOf(q);
    var all := Ordered(profiles, w);
    OrderedRows(profiles, w);
    if q.limit == -1 then
      ProfilePage(all, 0, q.page, q.limit)
    else
      var skip: nat := Offset(q.page, q.limit);
      var data := Window(all, skip, q.limit);
      WindowRows(all, skip, q.limit);
      ProfilePage(data, |all|, q.page, q.limit)
  }

  lemma WindowRows(all: seq<Profile>, skip: nat, take: nat)
    requires forall i, j :: 0 <= i < j < |all| ==> all[i].createdAt >= all[j].createdAt
    ensures forall p :: p in Window(all, skip, take) ==> p in all
    ensures var r := Window(all, skip, take);
      forall i, j :: 0 <= i < j < |r| ==> r[i].createdAt >= r[j].createdAt
  {
    var r := Window(all, skip, take);
    forall i, j | 0 <= i < j < |r| ensures r[i].createdAt >= r[j].createdAt {
      assert r[i] == all[skip + i] && r[j] == all[skip + j];
    }
  }

  /** `(page - 1) * limit`, never negative for the accepted ranges. */
  function Offset(page: int, limit: int): (skip: nat)
    requires page >= 1 && limit >= 0
    ensures skip == (page - 1) * limit
  {
    MulNonNegative(page - 1, limit);
    (page - 1) * limit
  }

  lemma MulNonNegative(a: nat, b: nat)
    ensures a * b >= 0
  {
  }

  lemma OrderedRows(profiles: seq<Profile>, w: Where)
    ensures |Ordered(profiles, w)| == |Matching(profiles, w)|
    ensures forall p :: p in Ordered(profiles, w) ==> p in profiles && Matches(w, p)
  {
    var all := Ordered(profiles, w);
    assert |multiset(all)| == |multiset(Matching(profiles, w))|;
    forall p | p in all ensures p in profiles && Matches(w, p) {
      assert p in multiset(all);
    }
  }

  /** With a positive limit every matching row is on exactly the page its
      position says. */
  lemma EveryMatchOnItsPage(profiles: seq<Profile>, q: ProfileQuery, k: int)
    requires q.page >= 1 && q.limit > 0
    requires 0 <= k < |Ordered(profiles, WhereOf(q))|
    ensures Ordered(profiles, WhereOf(q))[k] in FindAll(profiles, q.(page := PageOf(k, q.limit))).data
  {
    var page := q.(page := PageOf(k, q.limit));
    assert WhereOf(page) == WhereOf(q);
    RowOnPage(profiles, page, k);
  }

  /** The page, counted from 1, on which row `k` falls with `limit` rows per
      page. */
  function PageOf(k: nat, limit: int): (page: int)
    requires limit > 0
    ensures page >= 1 && Offset(page, limit) <= k < Offset(page, limit) + limit
  {
    DivisionBounds(k, limit);
    k / limit + 1
  }

  /** A row whose position falls in a page's range is on that page. */
  lemma RowOnPage(profiles: seq<Profile>, q: ProfileQuery, k: int)
    requires q.page >= 1 && q.limit > 0
    requires Offset(q.page, q.limit) <= k < Offset(q.page, q.limit) + q.limit
    requires k < |Ordered(profiles, WhereOf(q))|
    ensures Ordered(profiles, WhereOf(q))[k] in FindAll(profiles, q).data
  {
    var skip := Offset(q.page, q.limit);
    var r := FindAll(profiles, q);
    OrderedRows(profiles, WhereOf(q));
    assert r.data[k - skip] == Ordered(profiles, WhereOf(q))[k];
  }

  lemma DivisionBounds(k: nat, n: int)
    requires n > 0
    ensures Offset(k / n + 1, n) <= k < Offset(k / n + 1, n) + n
  {
  }

  /** Without filters the count is the whole table. */
  lemma UnfilteredCountsEveryRow(profiles: seq<Profile>, page: int, limit: int, username: Option<string>)
    requires page >= 1 && limit >= 0
    requires username.None? || username == Some("")
    ensures FindAll(profiles, ProfileQuery(page, limit, None, None, username)).totalCount == |profiles|
  {
    var w := WhereOf(ProfileQuery(page, limit, None, None, username));
    FilterAll(profiles, (p: Profile) => Matches(w, p));
  }

  /** `findById(id)`: the row, or the plain error `Profile non trouvé`. */
  function FindById(profiles: seq<Profile>, id: string): (r: Result<Profile, AppError>)
    ensures r.Err? <==> !HasProfile(profiles, id)
    ensures r.Err? ==> r.error == PlainError("Profile non trouvé")
    ensures r.Ok? ==> r.value in profiles && r.value.id == id
  {
    match ProfileWithId(profiles, id)
    case None => Err(PlainError("Profile non trouvé"))
    case Some(p) => Ok(p)
  }

  /** `findByUserId(userId)`, with the same error. */
  function FindByUserId(profiles: seq<Profile>, userId: string): (r: Result<Profile, AppError>)
    ensures r.Err? <==> forall i :: 0 <= i < |profiles| ==> profiles[i].userId != userId
    ensures r.Err? ==> r.error == PlainError("Profile non trouvé")
    ensures r.Ok? ==> r.value in profiles && r.value.userId == userId
  {
    match ProfileWithUserId(profiles, userId)
    case None => Err(PlainError("Profile non trouvé"))
    case Some(p) => Ok(p)
  }

  /** Under the unique constraints a user's profile, found by user id, is
      also the one found by its id. */
  lemma FindByUserIdThenById(profiles: seq<Profile>, users: map<string, User>, userId: string)
    requires ProfilesValid(profiles, users)
    requires FindByUserId(profiles, userId).Ok?
    ensures FindById(profiles, FindByUserId(profiles, userId).value.id) == FindByUserId(profiles, userId)
  {
    var p := FindByUserId(profiles, userId).value;
    var i :| 0 <= i < |profiles| && profiles[i] == p;
    ProfileWithIdUnique(profiles, users, i);
  }

  /** The row Prisma writes for `data`: each field present in the input
      replaces the stored one, every other column is kept. */
  function Merge(p: Profile, d: UpdateProfile, instant: string -> int): (m: Profile)
    ensures m.id == p.id && m.userId == p.userId && m.createdAt == p.createdAt
    ensures d.firstname.Some? ==> m.firstname == d.firstname.value
    ensures d.firstname.None? ==> m.firstname == p.firstname
    ensures d.lastname.Some? ==> m.lastname == d.lastname.value
    ensures d.lastname.None? ==> m.lastname == p.lastname
    ensures d.username.Some? ==> m.username == d.username.value
    ensures d.username.None? ==> m.username == p.username
    ensures d.phoneNumber.Some? ==> m.phoneNumber == d.phoneNumber.value
    ensures d.phoneNumber.None? ==> m.phoneNumber == p.phoneNumber
    ensures d.profileImageUrl.Some? ==> m.profileImageUrl == d.profileImageUrl
    ensures d.profileImageUrl.None? ==> m.profileImageUrl == p.profileImageUrl
    ensures d.experience.Some? ==> m.experience == d.experience
    ensures d.experience.None? ==> m.experience == p.experience
    ensures d.biography.Some? ==> m.biography == d.biography
    ensures d.biography.None? ==> m.biography == p.biography
    ensures d.favoriteMusic.Some? ==> m.favoriteMusic == d.favoriteMusic
    ensures d.favoriteMusic.None? ==> m.favoriteMusic == p.favoriteMusic
    ensures d.birthDate.Some? ==> m.birthDate == instant(d.birthDate.value)
    ensures d.birthDate.None? ==> m.birthDate == p.birthDate
    ensures d.isVerified.Some? ==> m.isVerified == d.isVerified.value
    ensures d.isVerified.None? ==> m.isVerified == p.isVerified
    ensures d.isDriverVerified.Some? ==> m.isDriverVerified == d.isDriverVerified.value
    ensures d.isDriverVerified.None? ==> m.isDriverVerified == p.isDriverVerified
  {
    Profile(p.id, p.userId, d.firstname.GetOr(p.firstname), d.lastname.GetOr(p.lastname),
            d.username.GetOr(p.username), d.phoneNumber.GetOr(p.phoneNumber),
            Override(d.profileImageUrl, p.profileImageUrl), Override(d.experience, p.experience),
            Override(d.biography, p.biography), Override(d.favoriteMusic, p.favoriteMusic),
            InstantOr(d.birthDate, instant, p.birthDate),
            d.isVerified.GetOr(p.isVerified), d.isDriverVerified.GetOr(p.isDriverVerified),
            p.createdAt)
  }

  /** A nullable column: a value present in the input replaces it. */
  function Override<T>(given: Option<T>, stored: Option<T>): Option<T> {
    if given.Some? then given else stored
  }

  /** The birth date column: a date text present in the input replaces it. */
  function InstantOr(given: Option<string>, instant: string -> int, stored: int): int {
    if given.Some? then instant(given.value) else stored
  }

  /** An empty update writes the row back unchanged, and applying the same
      update twice is applying it once. */
  lemma MergeLaws(p: Profile, d: UpdateProfile, instant: string -> int)
    ensures Merge(p, NoChanges, instant) == p
    ensures Merge(Merge(p, d, instant), d, instant) == Merge(p, d, instant)
  {
  }

  /** Another row than `id` already has the username `u`. */
  predicate UsernameTakenByOther(profiles: seq<Profile>, id: string, u: string) {
    exists j :: 0 <= j < |profiles| && profiles[j].id != id && profiles[j].username == u
  }

  function IndexOfProfile(profiles: seq<Profile>, id: string): (i: int)
    ensures -1 <= i < |profiles|
    ensures i == -1 <==> !HasProfile(profiles, id)
    ensures i >= 0 ==> profiles[i].id == id
  {
    FindIndex(profiles, (p: Profile) => p.id == id)
  }

  /** Replacing a row by one with the same id keeps every participation's
      profile reference resolvable. */
  lemma SameIdsKeepParticipants(profiles: seq<Profile>, i: int, m: Profile,
                                participants: seq<UserRide>, rides: seq<Ride>)
    requires 0 <= i < |profiles| && m.id == profiles[i].id
    requires ParticipantsValid(participants, rides, profiles)
    ensures ParticipantsValid(participants, rides, profiles[i := m])
  {
    forall k | 0 <= k < |participants|
      ensures HasProfile(profiles[i := m], participants[k].profileId)
    {
      var j :| 0 <= j < |profiles| && profiles[j].id == participants[k].profileId;
      assert profiles[i := m][j].id == profiles[j].id;
    }
  }

  /** `update(id, data)`: a missing row is Prisma's "record not found"; a
      username held by another row violates the unique constraint;
      otherwise exactly that row is rewritten by `Merge`. */
  method Update(db: Db, id: string, data: UpdateProfile, instant: string -> int)
    returns (r: Result<Profile, AppError>)
    requires db.Valid()
    modifies db
    ensures db.Valid()
    ensures !HasProfile(old(db.profiles), id) ==>
              r.Err? && r.error.KnownRequestError? && r.error.code == RecordNotFound && unchanged(db)
    ensures HasProfile(old(db.profiles), id) && data.username.Some?
            && UsernameTakenByOther(old(db.profiles), id, data.username.value) ==>
              r.Err? && r.error.KnownRequestError? && r.error.code == UniqueViolation && unchanged(db)
    ensures r.Ok? <==> HasProfile(old(db.profiles), id)
                       && (data.username.None? || !UsernameTakenByOther(old(db.profiles), id, data.username.value))
    ensures r.Ok? ==>
              var i := IndexOfProfile(old(db.profiles), id);
              && r.value == Merge(old(db.profiles)[i], data, instant)
              && db.profiles == old(db.profiles)[i := r.value]
    ensures db.users == old(db.users) && db.sessions == old(db.sessions)
            && db.rides == old(db.rides) && db.participants == old(db.participants)
  {
    var i := IndexOfProfile(db.profiles, id);
    if i == -1 {
      return Err(KnownRequestError(RecordNotFound, "Record to update not found."));
    }
    if data.username.Some? && UsernameTakenByOther(db.profiles, id, data.username.value) {
      return Err(KnownRequestError(UniqueViolation, "Unique constraint failed on the fields: (`username`)"));
    }
    var m := Merge(db.profiles[i], data, instant);
    SameIdsKeepParticipants(db.profiles, i, m, db.participants, db.rides);
    assert forall j :: 0 <= j < |db.profiles| && j != i ==> db.profiles[j].username != m.username;
    db.profiles := db.profiles[i := m];
    r := Ok(m);
  }

  lemma RemoveProfileValid(profiles: seq<Profile>, users: map<string, User>, i: int)
    requires ProfilesValid(profiles, users) && 0 <= i < |profiles|
    ensures ProfilesValid(RemoveAt(profiles, i), users - {profiles[i].userId})
  {
    var r := RemoveAt(profiles, i);
    forall a, b | 0 <= a < b < |r|
      ensures r[a].id != r[b].id && r[a].userId != r[b].userId && r[a].username != r[b].username
    {
      var a' := if a < i then a else a + 1;
      var b' := if b < i then b else b + 1;
      assert r[a] == profiles[a'] && r[b] == profiles[b'] && a' < b';
    }
    forall a | 0 <= a < |r| ensures r[a].userId in users - {profiles[i].userId} {
      var a' := if a < i then a else a + 1;
      assert r[a] == profiles[a'] && a' != i;
    }
  }

  lemma RemoveProfileKeepsOthers(profiles: seq<Profile>, i: int, id: string)
    requires 0 <= i < |profiles| && HasProfile(profiles, id) && id != profiles[i].id
    ensures HasProfile(RemoveAt(profiles, i), id)
  {
    var j :| 0 <= j < |profiles| && profiles[j].id == id;
    assert j != i;
    var j' := if j < i then j else j - 1;
    assert RemoveAt(profiles, i)[j'] == profiles[j];
  }

  /** With the participations of profile `gone` removed, every remaining one
      still refers to a ride and to a profile other than `gone`. */
  lemma DropParticipantsValid(participants: seq<UserRide>, rides: seq<Ride>,
                              profiles: seq<Profile>, i: int)
    requires 0 <= i < |profiles|
    requires ParticipantsValid(participants, rides, profiles)
    ensures ParticipantsValid(Filter(participants, (u: UserRide) => u.profileId != profiles[i].id),
                              rides, RemoveAt(profiles, i))
  {
    var gone := profiles[i].id;
    var kept := Filter(participants, (u: UserRide) => u.profileId != gone);
    forall k | 0 <= k < |kept|
      ensures HasRide(rides, kept[k].rideId) && HasProfile(RemoveAt(profiles, i), kept[k].profileId)
    {
      assert kept[k] in kept;
      var j :| 0 <= j < |participants| && participants[j] == kept[k];
      RemoveProfileKeepsOthers(profiles, i, kept[k].profileId);
    }
  }

  /** The sessions that survive the deletion of user `userId`. */
  function SessionsWithout(sessions: map<string, Session>, userId: string): (r: map<string, Session>)
    ensures forall t :: t in r <==> t in sessions && sessions[t].userId != userId
    ensures forall t :: t in r ==> r[t] == sessions[t]
  {
    map t | t in sessions && sessions[t].userId != userId :: sessions[t]
  }

  /** The profiles that survive: all but the user's own. */
  function ProfilesWithout(profiles: seq<Profile>, users: map<string, User>, userId: string)
    : (r: seq<Profile>)
    requires ProfilesValid(profiles, users)
    ensures forall p :: p in r <==> p in profiles && p.userId != userId
    ensures ProfilesValid(r, users - {userId})
  {
    var i := FindIndex(profiles, (p: Profile) => p.userId == userId);
    if i < 0 then
      NoOwnProfile(profiles, users, userId);
      profiles
    else
      RemoveProfileValid(profiles, users, i);
      RemoveOwnProfile(profiles, users, i);
      RemoveAt(profiles, i)
  }

  lemma NoOwnProfile(profiles: seq<Profile>, users: map<string, User>, userId: string)
    requires ProfilesValid(profiles, users)
    requires forall k :: 0 <= k < |profiles| ==> profiles[k].userId != userId
    ensures forall p :: p in profiles ==> p.userId != userId
    ensures ProfilesValid(profiles, users - {userId})
  {
  }

  lemma RemoveOwnProfile(profiles: seq<Profile>, users: map<string, User>, i: int)
    requires ProfilesValid(profiles, users) && 0 <= i < |profiles|
    ensures forall p :: p in RemoveAt(profiles, i) <==> p in profiles && p.userId != profiles[i].userId
  {
    RemovedKeepsOthers(profiles, users, i);
    RemovedDropsOwn(profiles, users, i);
  }

  /** Every profile of another user survives the removal of row `i`. */
  lemma RemovedKeepsOthers(profiles: seq<Profile>, users: map<string, User>, i: int)
    requires 0 <= i < |profiles|
    ensures forall p :: p in profiles && p.userId != profiles[i].userId ==> p in RemoveAt(profiles, i)
  {
    var r := RemoveAt(profiles, i);
    forall p | p in profiles && p.userId != profiles[i].userId ensures p in r {
      var k :| 0 <= k < |profiles| && profiles[k] == p;
      var k' := if k < i then k else k - 1;
      assert r[k'] == p;
    }
  }

  /** What survives the removal of row `i` is a profile of another user. */
  lemma RemovedDropsOwn(profiles: seq<Profile>, users: map<string, User>, i: int)
    requires ProfilesValid(profiles, users) && 0 <= i < |profiles|
    ensures forall p :: p in RemoveAt(profiles, i) ==> p in profiles && p.userId != profiles[i].userId
  {
    var r := RemoveAt(profiles, i);
    forall p | p in r ensures p in profiles && p.userId != profiles[i].userId {
      var k :| 0 <= k < |r| && r[k] == p;
      var k' := if k < i then k else k + 1;
      assert p == profiles[k'] && k' != i;
      UserIdsDistinct(profiles, users, i, k');
    }
  }

  lemma UserIdsDistinct(profiles: seq<Profile>, users: map<string, User>, a: int, b: int)
    requires ProfilesValid(profiles, users) && 0 <= a < |profiles| && 0 <= b < |profiles| && a != b
    ensures profiles[a].userId != profiles[b].userId
  {
    if a > b {
      UserIdsDistinct(profiles, users, b, a);
    }
  }

  /** The participations that survive: all but those of the user's profile. */
  function ParticipantsWithout(participants: seq<UserRide>, profiles: seq<Profile>, userId: string)
    : (r: seq<UserRide>)
    ensures var gone := ProfileWithUserId(profiles, userId);
      forall u :: u in r <==> u in participants && (gone.None? || u.profileId != gone.value.id)
  {
    var gone := ProfileWithUserId(profiles, userId);
    if gone.None? then participants
    else Filter(participants, (u: UserRide) => u.profileId != gone.value.id)
  }

  lemma ParticipantsWithoutValid(participants: seq<UserRide>, rides: seq<Ride>,
                                 profiles: seq<Profile>, users: map<string, User>, userId: string)
    requires ProfilesValid(profiles, users) && ParticipantsValid(participants, rides, profiles)
    ensures ParticipantsValid(ParticipantsWithout(participants, profiles, userId), rides,
                              ProfilesWithout(profiles, users, userId))
  {
    var i := FindIndex(profiles, (p: Profile) => p.userId == userId);
    if i >= 0 {
      ProfileWithIdUnique(profiles, users, i);
      DropParticipantsValid(participants, rides, profiles, i);
    }
  }

  /** The tables left by the cascade keep every constraint. */
  lemma CascadeValid(users: map<string, User>, sessions: map<string, Session>, profiles: seq<Profile>,
                     rides: seq<Ride>, participants: seq<UserRide>, userId: string)
    requires UsersValid(users) && SessionsValid(sessions, users) && ProfilesValid(profiles, users)
    requires ParticipantsValid(participants, rides, profiles)
    ensures UsersValid(users - {userId})
    ensures SessionsValid(SessionsWithout(sessions, userId), users - {userId})
    ensures ProfilesValid(ProfilesWithout(profiles, users, userId), users - {userId})
    ensures ParticipantsValid(ParticipantsWithout(participants, profiles, userId), rides,
                              ProfilesWithout(profiles, users, userId))
  {
    ParticipantsWithoutValid(participants, rides, profiles, users, userId);
  }

  /** `delete(userId)`: deletes the user row; a missing user is Prisma's
      "record not found". The foreign keys cascade: the user's sessions,
      its profile and that profile's participations go with it. Rides
      are kept. */
  method Delete(db: Db, userId: string) returns (r: Result<(), AppError>)
    requires db.Valid()
    modifies db
    ensures db.Valid()
    ensures r.Ok? <==> userId in old(db.users)
    ensures r.Err? ==> r.error.KnownRequestError? && r.error.code == RecordNotFound && unchanged(db)
    ensures r.Ok? ==>
              && db.users == old(db.users) - {userId}
              && db.sessions == SessionsWithout(old(db.sessions), userId)
              && db.profiles == ProfilesWithout(old(db.profiles), old(db.users), userId)
              && db.participants == ParticipantsWithout(old(db.participants), old(db.profiles), userId)
              && db.rides == old(db.rides)
  {
    if userId !in db.users {
      return Err(KnownRequestError(RecordNotFound, "Record to delete does not exist."));
    }
    CascadeValid(db.users, db.sessions, db.profiles, db.rides, db.participants, userId);
    db.users, db.sessions, db.profiles, db.participants :=
      db.users - {userId}, SessionsWithout(db.sessions, userId),
      ProfilesWithout(db.profiles, db.users, userId), ParticipantsWithout(db.participants, db.profiles, userId);
    r := Ok(());
  }
}
