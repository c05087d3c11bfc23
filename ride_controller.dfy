/** src/controllers/ride.controller.ts: creating, reading, updating and
    deleting rides. The mutating handlers guard on `req.user` first, then
    validate the body, then resolve the caller's profile by user id and
    hand its id to the service. The ride routes mount no `requireAuth`, so
    as wired `req.user` is always absent there and the guard always
    answers. */
module RideController {
  import opened Wrappers
  import opened Http
  import opened Database
  import opened Validation
  import opened RideSchema
  import opened AuthMiddleware
  import ProfileService
  import opened RideService

  const NotAuthenticated: string := "Non authentifié"

  /** `create`: 201 with the new ride, whose only participant is the
      caller's profile as driver. */
  method CreateRide(db: Db, user: Option<AuthUser>, lib: LibraryChecks, body: Object,
                    rideId: string, instant: string -> int)
    returns (out: Outcome<Ride>)
    requires db.Valid() && !HasRide(db.rides, rideId)
    modifies db
    ensures db.Valid()
    ensures user.None? ==> out == Respond(Failure(401, NotAuthenticated)) && unchanged(db)
    ensures user.Some? && ParseCreateRide(lib, body).Err? ==>
              out == Forward(ParseCreateRide(lib, body).error) && unchanged(db)
    ensures user.Some? && ParseCreateRide(lib, body).Ok?
            && ProfileService.FindByUserId(old(db.profiles), user.value.id).Err? ==>
              out == Forward(PlainError("Profile non trouvé")) && unchanged(db)
    ensures user.Some? ==>
              (out.Respond? <==> ParseCreateRide(lib, body).Ok?
                                 && ProfileService.FindByUserId(old(db.profiles), user.value.id).Ok?)
    ensures out.Respond? && user.Some? ==>
              && ParseCreateRide(lib, body).Ok?
              && ProfileService.FindByUserId(old(db.profiles), user.value.id).Ok?
              && var own := ProfileService.FindByUserId(old(db.profiles), user.value.id).value;
                 var ride := NewRide(ParseCreateRide(lib, body).value, rideId, instant);
                 && out.response == Success(201, Some("Ride créée avec succès"), Some(ride))
                 && db.rides == old(db.rides) + [ride]
                 && db.participants == old(db.participants) + [UserRide(rideId, own.id, true)]
    ensures db.users == old(db.users) && db.sessions == old(db.sessions) && db.profiles == old(db.profiles)
  {
    if user.None? {
      return Respond(Failure(401, NotAuthenticated));
    }
    var data := ParseCreateRide(lib, body);
    if data.Err? {
      return Forward(data.error);
    }
    var profile := ProfileService.FindByUserId(db.profiles, user.value.id);
    if profile.Err? {
      return Forward(profile.error);
    }
    assert HasProfile(db.profiles, profile.value.id);
    var r := RideService.Create(db, data.value, profile.value.id, rideId, instant);
    // The profile was just found, so the foreign key holds.
    assert r.Ok?;
    out := Respond(Success(201, Some("Ride créée avec succès"), Some(r.value)));
  }

  /** `findById`: the ride, or `Ride not found` for the error handler. */
  function FindRideById(rides: seq<Ride>, id: string): (out: Outcome<Ride>)
    ensures out.Forward? <==> !HasRide(rides, id)
    ensures out.Forward? ==> out.error == PlainError("Ride not found")
    ensures out.Respond? ==> && out.response.status == 200 && out.response.body.success
                             && out.response.body.data.Some?
                             && out.response.body.data.value in rides
                             && out.response.body.data.value.id == id
  {
    match RideService.FindById(rides, id)
    case Err(e) => Forward(e)
    case Ok(ride) => Respond(Success(200, None, Some(ride)))
  }

  /** `update`: only the driver's profile, resolved from the caller, gets
      the ride rewritten; anyone else's request goes to the error handler
      with nothing changed. */
  method UpdateRide(db: Db, user: Option<AuthUser>, lib: LibraryChecks, body: Object,
                    id: string, instant: string -> int)
    returns (out: Outcome<Ride>)
    requires db.Valid()
    modifies db
    ensures db.Valid()
    ensures user.None? ==> out == Respond(Failure(401, NotAuthenticated)) && unchanged(db)
    ensures user.Some? && ParseUpdateRide(lib, body).Err? ==>
              out == Forward(ParseUpdateRide(lib, body).error) && unchanged(db)
    ensures user.Some? && ParseUpdateRide(lib, body).Ok?
            && ProfileService.FindByUserId(old(db.profiles), user.value.id).Ok?
            && !IsDriver(old(db.participants), id,
                         ProfileService.FindByUserId(old(db.profiles), user.value.id).value.id) ==>
              out == Forward(PlainError("Seul le conducteur peut modifier cette ride")) && unchanged(db)
    ensures user.Some? ==>
              (out.Respond? <==>
                 && ParseUpdateRide(lib, body).Ok?
                 && ProfileService.FindByUserId(old(db.profiles), user.value.id).Ok?
                 && IsDriver(old(db.participants), id,
                             ProfileService.FindByUserId(old(db.profiles), user.value.id).value.id))
    ensures out.Respond? && user.Some? ==>
              && ParseUpdateRide(lib, body).Ok?
              && ProfileService.FindByUserId(old(db.profiles), user.value.id).Ok?
              && var own := ProfileService.FindByUserId(old(db.profiles), user.value.id).value;
                 var i := IndexOfRide(old(db.rides), id);
                 && IsDriver(old(db.participants), id, own.id)
                 && 0 <= i
                 && out.response == Success(200, Some("Ride mise à jour"),
                                            Some(Apply(old(db.rides)[i], ParseUpdateRide(lib, body).value, instant)))
                 && db.rides == old(db.rides)[i := out.response.body.data.value]
    ensures db.participants == old(db.participants) && db.profiles == old(db.profiles)
            && db.users == old(db.users) && db.sessions == old(db.sessions)
  {
    if user.None? {
      return Respond(Failure(401, NotAuthenticated));
    }
    var data := ParseUpdateRide(lib, body);
    if data.Err? {
      return Forward(data.error);
    }
    var profile := ProfileService.FindByUserId(db.profiles, user.value.id);
    if profile.Err? {
      return Forward(profile.error);
    }
    var r := RideService.Update(db, id, data.value, profile.value.id, instant);
    if r.Err? {
      return Forward(r.error);
    }
    out := Respond(Success(200, Some("Ride mise à jour"), Some(r.value)));
  }

  /** `delete`: the driver's request removes the ride and its
      participations; anyone else's changes nothing. */
  method DeleteRide(db: Db, user: Option<AuthUser>, id: string) returns (out: Outcome<()>)
    requires db.Valid()
    modifies db
    ensures db.Valid()
    ensures user.None? ==> out == Respond(Failure(401, NotAuthenticated)) && unchanged(db)
    ensures user.Some? && ProfileService.FindByUserId(old(db.profiles), user.value.id).Err? ==>
              out == Forward(PlainError("Profile non trouvé")) && unchanged(db)
    ensures user.Some? && ProfileService.FindByUserId(old(db.profiles), user.value.id).Ok? ==>
              var own := ProfileService.FindByUserId(old(db.profiles), user.value.id).value;
              && (!IsDriver(old(db.participants), id, own.id) ==>
                    out == Forward(PlainError("Seul le conducteur peut supprimer cette ride")) && unchanged(db))
              && (IsDriver(old(db.participants), id, own.id) ==>
                    && out == Respond(Success(200, Some("Ride supprimée"), None))
                    && (forall x :: x in db.rides <==> x in old(db.rides) && x.id != id)
                    && (forall u :: u in db.participants <==> u in old(db.participants) && u.rideId != id))
    ensures db.users == old(db.users) && db.sessions == old(db.sessions) && db.profiles == old(db.profiles)
  {
    if user.None? {
      return Respond(Failure(401, NotAuthenticated));
    }
    var profile := ProfileService.FindByUserId(db.profiles, user.value.id);
    if profile.Err? {
      return Forward(profile.error);
    }
    var r := RideService.Delete(db, id, profile.value.id);
    if r.Err? {
      return Forward(r.error);
    }
    out := Respond(Success(200, Some("Ride supprimée"), None));
  }
}
