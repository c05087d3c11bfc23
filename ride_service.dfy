/** src/services/ride.service.ts: creating a ride with its driver, the
    ride list ordered by departure, the lookup by id, and the driver-only
    update and deletion. The new ride's id is a parameter, assumed unused;
    `new Date(text)` is the parameter `instant`. */
module RideService {
  import opened Wrappers
  import opened Seqs
  import opened Sorting
  import opened Http
  import opened Database
  import opened RideSchema

  const Pending: string := "pending"

  /** The row `create` inserts: the validated fields, the two datetimes
      converted, and the status `pending`. */
  function NewRide(d: CreateRide, id: string, instant: string -> int): (r: Ride)
    ensures r.id == id && r.status == Pending
    ensures r.departureDatetime == instant(d.departureDatetime)
            && r.arrivalDatetime == instant(d.arrivalDatetime)
    ensures r.price == d.price && r.availableSeats == d.availableSeats
  {
    Ride(id, d.startingAddress, d.arrivalAddress, d.departureCity, d.arrivalCity,
         instant(d.departureDatetime), instant(d.arrivalDatetime), d.price, d.availableSeats,
         d.vehicleId, Pending)
  }

  /** The participations of ride `rideId`. */
  function ParticipantsOf(participants: seq<UserRide>, rideId: string): seq<UserRide> {
    Filter(participants, (u: UserRide) => u.rideId == rideId)
  }

  lemma ExtendedProfilesAndRides(participants: seq<UserRide>, rides: seq<Ride>, profiles: seq<Profile>,
                                 ride: Ride, u: UserRide)
    requires ParticipantsValid(participants, rides, profiles)
    requires u.rideId == ride.id && HasProfile(profiles, u.profileId)
    ensures ParticipantsValid(participants + [u], rides + [ride], profiles)
  {
    var ps := participants + [u];
    var rs := rides + [ride];
    forall k | 0 <= k < |ps| ensures HasRide(rs, ps[k].rideId) && HasProfile(profiles, ps[k].profileId) {
      if k < |participants| {
        var j :| 0 <= j < |rides| && rides[j].id == participants[k].rideId;
        assert rs[j] == rides[j];
      } else {
        assert rs[|rides|] == ride;
      }
    }
  }

  /** `create(data, profileId)`: the ride and its single participation, the
      creator as driver, in one nested write. A profile id with no row
      violates the participation's foreign key. */
  method Create(db: Db, d: CreateRide, profileId: string, rideId: string, instant: string -> int)
    returns (r: Result<Ride, AppError>)
    requires db.Valid() && !HasRide(db.rides, rideId)
    modifies db
    ensures db.Valid()
    ensures r.Ok? <==> HasProfile(old(db.profiles), profileId)
    ensures r.Err? ==> r.error.KnownRequestError? && r.error.code == ForeignKeyViolation && unchanged(db)
    ensures r.Ok? ==>
              && r.value == NewRide(d, rideId, instant) && r.value.status == Pending
              && db.rides == old(db.rides) + [r.value]
              && db.participants == old(db.participants) + [UserRide(rideId, profileId, true)]
              && db.users == old(db.users) && db.sessions == old(db.sessions)
              && db.profiles == old(db.profiles)
  {
    if !HasProfile(db.profiles, profileId) {
      return Err(KnownRequestError(ForeignKeyViolation, "Foreign key constraint violated on the constraint: `UserRide_profileId_fkey`"));
    }
    var ride := NewRide(d, rideId, instant);
    ExtendedProfilesAndRides(db.participants, db.rides, db.profiles, ride, UserRide(rideId, profileId, true));
    db.rides := db.rides + [ride];
    db.participants := db.participants + [UserRide(rideId, profileId, true)];
    r := Ok(ride);
  }

  /** A new ride has exactly one participant: its creator, as driver. */
  lemma {:induction false} CreatorIsSoleDriver(participants: seq<UserRide>, rides: seq<Ride>,
                                                profiles: seq<Profile>, rideId: string, profileId: string)
    requires ParticipantsValid(participants, rides, profiles) && !HasRide(rides, rideId)
    ensures ParticipantsOf(participants + [UserRide(rideId, profileId, true)], rideId)
            == [UserRide(rideId, profileId, true)]
  {
    forall k | 0 <= k < |participants| ensures participants[k].rideId != rideId {
      assert HasRide(rides, participants[k].rideId);
    }
    FilterNone(participants, (u: UserRide) => u.rideId == rideId);
    FilterAppend(participants, [UserRide(rideId, profileId, true)], (u: UserRide) => u.rideId == rideId);
  }

  /** `orderBy: { departureDatetime: 'asc' }` */
  function Departure(r: Ride): int {
    r.departureDatetime
  }

  /** `findAll()`: every ride, earliest departure first. */
  function FindAll(rides: seq<Ride>): (r: seq<Ride>)
    ensures multiset(r) == multiset(rides)
    ensures forall i, j :: 0 <= i < j < |r| ==> r[i].departureDatetime <= r[j].departureDatetime
  {
    var r := SortBy(rides, Departure);
    assert forall i, j :: 0 <= i < j < |r| ==> Departure(r[i]) <= Departure(r[j]);
    r
  }

  /** `findById(id)`: the ride, or the plain error `Ride not found`. */
  function FindById(rides: seq<Ride>, id: string): (r: Result<Ride, AppError>)
    ensures r.Err? <==> !HasRide(rides, id)
    ensures r.Err? ==> r.error == PlainError("Ride not found")
    ensures r.Ok? ==> r.value in rides && r.value.id == id
  {
    match RideWithId(rides, id)
    case None => Err(PlainError("Ride not found"))
    case Some(ride) => Ok(ride)
  }

  /** The `findFirst` both `update` and `delete` start with: a participation
      of this profile in this ride as its driver. */
  predicate IsDriver(participants: seq<UserRide>, rideId: string, profileId: string) {
    exists i :: 0 <= i < |participants| && participants[i] == UserRide(rideId, profileId, true)
  }

  function IndexOfRide(rides: seq<Ride>, id: string): (i: int)
    ensures -1 <= i < |rides|
    ensures i == -1 <==> !HasRide(rides, id)
    ensures i >= 0 ==> rides[i].id == id
  {
    FindIndex(rides, (r: Ride) => r.id == id)
  }

  /** Only a ride's driver gets past the check, and the ride then exists. */
  lemma DriverRideExists(participants: seq<UserRide>, rides: seq<Ride>, profiles: seq<Profile>,
                         rideId: string, profileId: string)
    requires ParticipantsValid(participants, rides, profiles) && IsDriver(participants, rideId, profileId)
    ensures HasRide(rides, rideId)
  {
    var i :| 0 <= i < |participants| && participants[i] == UserRide(rideId, profileId, true);
  }

  /** Updating a new ride with every field of another creation body gives
      the ride that body would have created. */
  lemma FullUpdateRecreates(d: CreateRide, e: CreateRide, id: string, instant: string -> int)
    ensures Apply(NewRide(d, id, instant), AsUpdate(e), instant) == NewRide(e, id, instant)
  {
  }

  /** The data Prisma writes for `update`: each field present in the input
      replaces the stored one; the datetimes are converted. */
  function Apply(ride: Ride, d: UpdateRide, instant: string -> int): (m: Ride)
    ensures m.id == ride.id && m.status == ride.status
    ensures d.startingAddress.Some? ==> m.startingAddress == d.startingAddress.value
    ensures d.startingAddress.None? ==> m.startingAddress == ride.startingAddress
    ensures d.arrivalAddress.Some? ==> m.arrivalAddress == d.arrivalAddress.value
    ensures d.arrivalAddress.None? ==> m.arrivalAddress == ride.arrivalAddress
    ensures d.departureCity.Some? ==> m.departureCity == d.departureCity.value
    ensures d.departureCity.None? ==> m.departureCity == ride.departureCity
    ensures d.arrivalCity.Some? ==> m.arrivalCity == d.arrivalCity.value
    ensures d.arrivalCity.None? ==> m.arrivalCity == ride.arrivalCity
    ensures d.departureDatetime.Some? ==> m.departureDatetime == instant(d.departureDatetime.value)
    ensures d.departureDatetime.None? ==> m.departureDatetime == ride.departureDatetime
    ensures d.arrivalDatetime.Some? ==> m.arrivalDatetime == instant(d.arrivalDatetime.value)
    ensures d.arrivalDatetime.None? ==> m.arrivalDatetime == ride.arrivalDatetime
    ensures d.price.Some? ==> m.price == d.price.value
    ensures d.price.None? ==> m.price == ride.price
    ensures d.availableSeats.Some? ==> m.availableSeats == d.availableSeats.value
    ensures d.availableSeats.None? ==> m.availableSeats == ride.availableSeats
    ensures d.vehicleId.Some? ==> m.vehicleId == d.vehicleId.value
    ensures d.vehicleId.None? ==> m.vehicleId == ride.vehicleId
  {
    Ride(ride.id, d.startingAddress.GetOr(ride.startingAddress), d.arrivalAddress.GetOr(ride.arrivalAddress),
         d.departureCity.GetOr(ride.departureCity), d.arrivalCity.GetOr(ride.arrivalCity),
         DateOr(d.departureDatetime, instant, ride.departureDatetime),
         DateOr(d.arrivalDatetime, instant, ride.arrivalDatetime),
         d.price.GetOr(ride.price), d.availableSeats.GetOr(ride.availableSeats),
         d.vehicleId.GetOr(ride.vehicleId), ride.status)
  }

  /** `...(data.departureDatetime && { departureDatetime: new Date(...) })` */
  function DateOr(given: Option<string>, instant: string -> int, stored: int): int {
    if given.Some? then instant(given.value) else stored
  }

  /** An update with no fields writes the row back; the same update twice
      is the update once. */
  lemma ApplyLaws(ride: Ride, d: UpdateRide, instant: string -> int)
    ensures Apply(ride, UpdateRide(None, None, None, None, None, None, None, None, None), instant) == ride
    ensures Apply(Apply(ride, d, instant), d, instant) == Apply(ride, d, instant)
  {
  }

  lemma SameIdsKeepParticipants(rides: seq<Ride>, i: int, m: Ride,
                                participants: seq<UserRide>, profiles: seq<Profile>)
    requires 0 <= i < |rides| && m.id == rides[i].id
    requires RidesValid(rides) && ParticipantsValid(participants, rides, profiles)
    ensures RidesValid(rides[i := m])
    ensures ParticipantsValid(participants, rides[i := m], profiles)
  {
    forall k | 0 <= k < |participants| ensures HasRide(rides[i := m], participants[k].rideId) {
      var j :| 0 <= j < |rides| && rides[j].id == participants[k].rideId;
      assert rides[i := m][j].id == rides[j].id;
    }
  }

  /** `update(id, data, profileId)`: anyone but the ride's driver is
      refused and nothing changes; for the driver exactly that ride is
      rewritten by `Apply`. */
  method Update(db: Db, id: string, d: UpdateRide, profileId: string, instant: string -> int)
    returns (r: Result<Ride, AppError>)
    requires db.Valid()
    modifies db
    ensures db.Valid()
    ensures r.Ok? <==> IsDriver(old(db.participants), id, profileId)
    ensures r.Err? ==> r.error == PlainError("Seul le conducteur peut modifier cette ride") && unchanged(db)
    ensures r.Ok? ==>
              var i := IndexOfRide(old(db.rides), id);
              && 0 <= i
              && r.value == Apply(old(db.rides)[i], d, instant)
              && db.rides == old(db.rides)[i := r.value]
    ensures db.users == old(db.users) && db.sessions == old(db.sessions)
            && db.profiles == old(db.profiles) && db.participants == old(db.participants)
  {
    if !IsDriver(db.participants, id, profileId) {
      return Err(PlainError("Seul le conducteur peut modifier cette ride"));
    }
    DriverRideExists(db.participants, db.rides, db.profiles, id, profileId);
    var i := IndexOfRide(db.rides, id);
    var m := Apply(db.rides[i], d, instant);
    SameIdsKeepParticipants(db.rides, i, m, db.participants, db.profiles);
    db.rides := db.rides[i := m];
    r := Ok(m);
  }

  lemma RemoveRideValid(rides: seq<Ride>, i: int)
    requires RidesValid(rides) && 0 <= i < |rides|
    ensures RidesValid(RemoveAt(rides, i))
    ensures forall x :: x in RemoveAt(rides, i) <==> x in rides && x.id != rides[i].id
  {
    RemovedRidesDistinct(rides, i);
    RemovedRidesKeepOthers(rides, i);
    RemovedRidesDropOwn(rides, i);
  }

  lemma RemovedRidesDistinct(rides: seq<Ride>, i: int)
    requires RidesValid(rides) && 0 <= i < |rides|
    ensures RidesValid(RemoveAt(rides, i))
  {
    var r := RemoveAt(rides, i);
    forall a, b | 0 <= a < b < |r| ensures r[a].id != r[b].id {
      var a' := if a < i then a else a + 1;
      var b' := if b < i then b else b + 1;
      assert r[a] == rides[a'] && r[b] == rides[b'] && a' < b';
    }
  }

  /** Every ride with another id survives the removal of row `i`. */
  lemma RemovedRidesKeepOthers(rides: seq<Ride>, i: int)
    requires 0 <= i < |rides|
    ensures forall x :: x in rides && x.id != rides[i].id ==> x in RemoveAt(rides, i)
  {
    var r := RemoveAt(rides, i);
    forall x | x in rides && x.id != rides[i].id ensures x in r {
      var k :| 0 <= k < |rides| && rides[k] == x;
      var k' := if k < i then k else k - 1;
      assert r[k'] == x;
    }
  }

  /** What survives the removal of row `i` has another id. */
  lemma RemovedRidesDropOwn(rides: seq<Ride>, i: int)
    requires RidesValid(rides) && 0 <= i < |rides|
    ensures forall x :: x in RemoveAt(rides, i) ==> x in rides && x.id != rides[i].id
  {
    var r := RemoveAt(rides, i);
    forall x | x in r ensures x in rides && x.id != rides[i].id {
      var k :| 0 <= k < |r| && r[k] == x;
      var k' := if k < i then k else k + 1;
      assert x == rides[k'] && k' != i;
      if k' < i {
        assert rides[k'].id != rides[i].id;
      } else {
        assert rides[i].id != rides[k'].id;
      }
    }
  }

  lemma DropRideParticipantsValid(participants: seq<UserRide>, rides: seq<Ride>,
                                  profiles: seq<Profile>, i: int, gone: string)
    requires RidesValid(rides) && 0 <= i < |rides| && rides[i].id == gone
    requires ParticipantsValid(participants, rides, profiles)
    ensures ParticipantsValid(Filter(participants, (u: UserRide) => u.rideId != gone),
                              RemoveAt(rides, i), profiles)
  {
    var kept := Filter(participants, (u: UserRide) => u.rideId != gone);
    RemovedRidesKeepOthers(rides, i);
    forall k | 0 <= k < |kept|
      ensures HasRide(RemoveAt(rides, i), kept[k].rideId) && HasProfile(profiles, kept[k].profileId)
    {
      assert kept[k] in kept;
      var j :| 0 <= j < |participants| && participants[j] == kept[k];
      var m :| 0 <= m < |rides| && rides[m].id == kept[k].rideId;
      assert rides[m] in RemoveAt(rides, i);
      var n :| 0 <= n < |RemoveAt(rides, i)| && RemoveAt(rides, i)[n] == rides[m];
    }
  }

  /** `delete(id, profileId)`: anyone but the ride's driver is refused and
      the ride remains; for the driver the ride goes, and its participations
      with it. */
  method Delete(db: Db, id: string, profileId: string) returns (r: Result<(), AppError>)
    requires db.Valid()
    modifies db
    ensures db.Valid()
    ensures r.Ok? <==> IsDriver(old(db.participants), id, profileId)
    ensures r.Err? ==> r.error == PlainError("Seul le conducteur peut supprimer cette ride") && unchanged(db)
    ensures r.Ok? ==>
              && !HasRide(db.rides, id)
              && (forall x :: x in db.rides <==> x in old(db.rides) && x.id != id)
              && (forall u :: u in db.participants <==> u in old(db.participants) && u.rideId != id)
    ensures db.users == old(db.users) && db.sessions == old(db.sessions) && db.profiles == old(db.profiles)
  {
    if !IsDriver(db.participants, id, profileId) {
      return Err(PlainError("Seul le conducteur peut supprimer cette ride"));
    }
    DriverRideExists(db.participants, db.rides, db.profiles, id, profileId);
    var i := IndexOfRide(db.rides, id);
    RemoveRideValid(db.rides, i);
    DropRideParticipantsValid(db.participants, db.rides, db.profiles, i, id);
    db.rides, db.participants := RemoveAt(db.rides, i), Filter(db.participants, (u: UserRide) => u.rideId != id);
    r := Ok(());
  }
}
