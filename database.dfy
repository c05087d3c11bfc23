/** The PostgreSQL tables the services reach through Prisma: users and
    sessions (written by better-auth), profiles, rides and the `UserRide`
    participation table. Tables the services scan or order are sequences in
    insertion order; tables they only address by key are maps. Instants are
    milliseconds. The unique constraints the queries rely on (`findUnique`
    by email, token, username, user id and id) are the invariant `Valid`. */
module Database {
  import opened Wrappers
  import opened Seqs

  datatype User = User(id: string, email: string, name: string)

  datatype Session = Session(id: string, token: string, userId: string, expiresAt: int)

  datatype Profile = Profile(
    id: string, userId: string, firstname: string, lastname: string, username: string,
    phoneNumber: string, profileImageUrl: Option<string>, experience: Option<string>,
    biography: Option<string>, favoriteMusic: Option<string>, birthDate: int,
    isVerified: bool, isDriverVerified: bool, createdAt: int)

  datatype Ride = Ride(
    id: string, startingAddress: string, arrivalAddress: string, departureCity: string,
    arrivalCity: string, departureDatetime: int, arrivalDatetime: int, price: real,
    availableSeats: int, vehicleId: string, status: string)

  /** A profile taking part in a ride, as its driver or not. */
  datatype UserRide = UserRide(rideId: string, profileId: string, driver: bool)

  // ---------------------------------------------------------------------
  // Unique constraints and references

  predicate UsersValid(users: map<string, User>) {
    && (forall k :: k in users ==> users[k].id == k)
    && (forall a, b :: a in users && b in users && users[a].email == users[b].email ==> a == b)
  }

  predicate SessionsValid(sessions: map<string, Session>, users: map<string, User>) {
    forall t :: t in sessions ==> sessions[t].token == t && sessions[t].userId in users
  }

  predicate ProfilesValid(profiles: seq<Profile>, users: map<string, User>) {
    && (forall i, j :: 0 <= i < j < |profiles| ==>
          && profiles[i].id != profiles[j].id
          && profiles[i].userId != profiles[j].userId
          && profiles[i].username != profiles[j].username)
    && (forall i :: 0 <= i < |profiles| ==> profiles[i].userId in users)
  }

  predicate RidesValid(rides: seq<Ride>) {
    forall i, j :: 0 <= i < j < |rides| ==> rides[i].id != rides[j].id
  }

  predicate HasRide(rides: seq<Ride>, id: string) {
    exists i :: 0 <= i < |rides| && rides[i].id == id
  }

  predicate HasProfile(profiles: seq<Profile>, id: string) {
    exists i :: 0 <= i < |profiles| && profiles[i].id == id
  }

  predicate ParticipantsValid(participants: seq<UserRide>, rides: seq<Ride>, profiles: seq<Profile>) {
    forall i :: 0 <= i < |participants| ==>
      HasRide(rides, participants[i].rideId) && HasProfile(profiles, participants[i].profileId)
  }

  // ---------------------------------------------------------------------
  // Lookups

  predicate EmailTaken(users: map<string, User>, email: string) {
    exists k :: k in users && users[k].email == email
  }

  predicate UsernameTaken(profiles: seq<Profile>, username: string) {
    exists i :: 0 <= i < |profiles| && profiles[i].username == username
  }

  function ProfileWithId(profiles: seq<Profile>, id: string): (r: Option<Profile>)
    ensures r.None? <==> !HasProfile(profiles, id)
    ensures r.Some? ==> r.value in profiles && r.value.id == id
  {
    Find(profiles, (p: Profile) => p.id == id)
  }

  function ProfileWithUserId(profiles: seq<Profile>, userId: string): (r: Option<Profile>)
    ensures r.None? <==> forall i :: 0 <= i < |profiles| ==> profiles[i].userId != userId
    ensures r.Some? ==> r.value in profiles && r.value.userId == userId
  {
    Find(profiles, (p: Profile) => p.userId == userId)
  }


  function RideWithId(rides: seq<Ride>, id: string): (r: Option<Ride>)
    ensures r.None? <==> !HasRide(rides, id)
    ensures r.Some? ==> r.value in rides && r.value.id == id
  {
    Find(rides, (r: Ride) => r.id == id)
  }

  /** Under the unique constraint, the profile found by id is the only one
      with that id. */
  lemma ProfileWithIdUnique(profiles: seq<Profile>, users: map<string, User>, i: int)
    requires ProfilesValid(profiles, users) && 0 <= i < |profiles|
    ensures ProfileWithId(profiles, profiles[i].id) == Some(profiles[i])
    ensures ProfileWithUserId(profiles, profiles[i].userId) == Some(profiles[i])
  {
    var r := ProfileWithId(profiles, profiles[i].id);
    var k :| 0 <= k < |profiles| && profiles[k] == r.value && profiles[k].id == profiles[i].id;
    assert k == i;
    var u := ProfileWithUserId(profiles, profiles[i].userId);
    var m :| 0 <= m < |profiles| && profiles[m] == u.value && profiles[m].userId == profiles[i].userId;
    assert m == i;
  }

  /** The Prisma errors the services let through. */
  const RecordNotFound: string := "P2025"
  const UniqueViolation: string := "P2002"
  const ForeignKeyViolation: string := "P2003"

  /** A session created by better-auth lives seven days. */
  const SessionLifetimeMs: int := 60 * 60 * 24 * 7 * 1000

  class Db {
    var users: map<string, User>
    var sessions: map<string, Session>
    var profiles: seq<Profile>
    var rides: seq<Ride>
    var participants: seq<UserRide>

    constructor ()
      ensures users == map[] && sessions == map[] && profiles == [] && rides == []
              && participants == []
      ensures Valid()
    {
      users := map[];
      sessions := map[];
      profiles := [];
      rides := [];
      participants := [];
    }

    predicate Valid()
      reads this
    {
      && UsersValid(users)
      && SessionsValid(sessions, users)
      && ProfilesValid(profiles, users)
      && RidesValid(rides)
      && ParticipantsValid(participants, rides, profiles)
    }
  }
}
