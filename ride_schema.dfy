/** src/schemas/ride.schema.ts: `createRideSchema`, nine required fields,
    and `updateRideSchema`, its `.partial()`. */
module RideSchema {
  import opened Wrappers
  import opened Validation
  import opened Http

  function CreateRideRules(lib: LibraryChecks): (rules: seq<Rule>)
    ensures |rules| == 9
  {
    [ Rule("startingAddress", false, (j: Json) => StringAtLeast(j, 1)),
      Rule("arrivalAddress", false, (j: Json) => StringAtLeast(j, 1)),
      Rule("departureCity", false, (j: Json) => StringAtLeast(j, 1)),
      Rule("arrivalCity", false, (j: Json) => StringAtLeast(j, 1)),
      Rule("departureDatetime", false, (j: Json) => j.JString? && lib.datetime(j.str)),
      Rule("arrivalDatetime", false, (j: Json) => j.JString? && lib.datetime(j.str)),
      Rule("price", false, (j: Json) => j.JNumber? && j.num > 0.0),
      Rule("availableSeats", false, (j: Json) => j.JNumber? && SafeInteger(j.num) && j.num >= 1.0),
      Rule("vehicleId", false, (j: Json) => StringAtLeast(j, 1)) ]
  }

  /** The creation rules, each made optional. */
  function UpdateRideRules(lib: LibraryChecks): (rules: seq<Rule>)
    ensures |rules| == |CreateRideRules(lib)|
    ensures forall i :: 0 <= i < |rules| ==>
              && rules[i].optional
              && rules[i].field == CreateRideRules(lib)[i].field
              && rules[i].check == CreateRideRules(lib)[i].check
  {
    Partial(CreateRideRules(lib))
  }

  /** `CreateRideDto` */
  datatype CreateRide = CreateRide(startingAddress: string, arrivalAddress: string,
                                   departureCity: string, arrivalCity: string,
                                   departureDatetime: string, arrivalDatetime: string,
                                   price: real, availableSeats: int, vehicleId: string)

  /** `UpdateRideDto`: every field optional. */
  datatype UpdateRide = UpdateRide(startingAddress: Option<string>, arrivalAddress: Option<string>,
                                   departureCity: Option<string>, arrivalCity: Option<string>,
                                   departureDatetime: Option<string>, arrivalDatetime: Option<string>,
                                   price: Option<real>, availableSeats: Option<int>,
                                   vehicleId: Option<string>)

  /** The constraints of `createRideSchema`, stated on the typed value. */
  predicate ValidCreateRide(lib: LibraryChecks, d: CreateRide) {
    && |d.startingAddress| >= 1 && |d.arrivalAddress| >= 1
    && |d.departureCity| >= 1 && |d.arrivalCity| >= 1
    && lib.datetime(d.departureDatetime) && lib.datetime(d.arrivalDatetime)
    && d.price > 0.0 && 1 <= d.availableSeats <= MaxSafeInteger && |d.vehicleId| >= 1
  }

  /** The constraints of `updateRideSchema` on the fields that are present. */
  predicate ValidUpdateRide(lib: LibraryChecks, d: UpdateRide) {
    && (d.startingAddress.Some? ==> |d.startingAddress.value| >= 1)
    && (d.arrivalAddress.Some? ==> |d.arrivalAddress.value| >= 1)
    && (d.departureCity.Some? ==> |d.departureCity.value| >= 1)
    && (d.arrivalCity.Some? ==> |d.arrivalCity.value| >= 1)
    && (d.departureDatetime.Some? ==> lib.datetime(d.departureDatetime.value))
    && (d.arrivalDatetime.Some? ==> lib.datetime(d.arrivalDatetime.value))
    && (d.price.Some? ==> d.price.value > 0.0)
    && (d.availableSeats.Some? ==> 1 <= d.availableSeats.value <= MaxSafeInteger)
    && (d.vehicleId.Some? ==> |d.vehicleId.value| >= 1)
  }

  function SeatsJson(o: Option<int>): Option<Json> {
    if o.Some? then Some(JNumber(o.value as real)) else None
  }

  /** `body` holds each field of `d` that is present, with its value, and
      none of the schema's fields that `d` leaves out. */
  predicate HeldBy(body: Object, d: UpdateRide) {
    && Carries(body, "startingAddress", StringJson(d.startingAddress))
    && Carries(body, "arrivalAddress", StringJson(d.arrivalAddress))
    && Carries(body, "departureCity", StringJson(d.departureCity))
    && Carries(body, "arrivalCity", StringJson(d.arrivalCity))
    && Carries(body, "departureDatetime", StringJson(d.departureDatetime))
    && Carries(body, "arrivalDatetime", StringJson(d.arrivalDatetime))
    && Carries(body, "price", NumberJson(d.price))
    && Carries(body, "availableSeats", SeatsJson(d.availableSeats))
    && Carries(body, "vehicleId", StringJson(d.vehicleId))
  }

  const RideFieldNames: set<string> :=
    {"startingAddress", "arrivalAddress", "departureCity", "arrivalCity", "departureDatetime",
     "arrivalDatetime", "price", "availableSeats", "vehicleId"}

  /** The JSON value a client sends for field `f` of `d`, if any. */
  function FieldJson(d: UpdateRide, f: string): Option<Json> {
    if f == "startingAddress" then StringJson(d.startingAddress)
    else if f == "arrivalAddress" then StringJson(d.arrivalAddress)
    else if f == "departureCity" then StringJson(d.departureCity)
    else if f == "arrivalCity" then StringJson(d.arrivalCity)
    else if f == "departureDatetime" then StringJson(d.departureDatetime)
    else if f == "arrivalDatetime" then StringJson(d.arrivalDatetime)
    else if f == "price" then NumberJson(d.price)
    else if f == "availableSeats" then SeatsJson(d.availableSeats)
    else if f == "vehicleId" then StringJson(d.vehicleId)
    else None
  }

  /** The request body a client sends for `d`: the present fields only. */
  function UpdateRideJson(d: UpdateRide): Object {
    map f | f in RideFieldNames && FieldJson(d, f).Some? :: FieldJson(d, f).value
  }

  /** The JSON body a client sends for `d`. */
  function CreateRideJson(d: CreateRide): Object {
    map[ "startingAddress" := JString(d.startingAddress),
         "arrivalAddress" := JString(d.arrivalAddress),
         "departureCity" := JString(d.departureCity),
         "arrivalCity" := JString(d.arrivalCity),
         "departureDatetime" := JString(d.departureDatetime),
         "arrivalDatetime" := JString(d.arrivalDatetime),
         "price" := JNumber(d.price),
         "availableSeats" := JNumber(d.availableSeats as real),
         "vehicleId" := JString(d.vehicleId) ]
  }

  /** `createRideSchema.parse(body)` */
  function ParseCreateRide(lib: LibraryChecks, body: Object): (r: Result<CreateRide, AppError>)
    ensures r.Err? <==> Issues(CreateRideRules(lib), body) != []
    ensures r.Err? ==> r.error == ValidationError(Issues(CreateRideRules(lib), body))
    ensures r.Ok? ==> ValidCreateRide(lib, r.value)
    // The parsed value is the one the body holds.
    ensures r.Ok? ==> forall f :: f in CreateRideJson(r.value) ==>
                        Carries(body, f, Some(CreateRideJson(r.value)[f]))
  {
    var rules := CreateRideRules(lib);
    var issues := Issues(rules, body);
    if issues != [] then Err(ValidationError(issues))
    else
      assert Passes(rules[0], body) && Passes(rules[1], body) && Passes(rules[2], body);
      assert Passes(rules[3], body) && Passes(rules[4], body) && Passes(rules[5], body);
      assert Passes(rules[6], body) && Passes(rules[7], body) && Passes(rules[8], body);
      Ok(CreateRide(body["startingAddress"].str, body["arrivalAddress"].str,
                    body["departureCity"].str, body["arrivalCity"].str,
                    body["departureDatetime"].str, body["arrivalDatetime"].str,
                    body["price"].num, body["availableSeats"].num.Floor, body["vehicleId"].str))
  }

  /** A ride's own body parses back to it exactly when it meets the
      constraints. */
  lemma CreateRideRoundTrip(lib: LibraryChecks, d: CreateRide)
    ensures ValidCreateRide(lib, d) <==> ParseCreateRide(lib, CreateRideJson(d)) == Ok(d)
  {
    var body := CreateRideJson(d);
    var rules := CreateRideRules(lib);
    if ValidCreateRide(lib, d) {
      assert SafeInteger(d.availableSeats as real);
      forall i | 0 <= i < |rules| ensures Passes(rules[i], body) {
      }
    }
  }

  /** The update that sets every field of `d`. */
  function AsUpdate(d: CreateRide): UpdateRide {
    UpdateRide(Some(d.startingAddress), Some(d.arrivalAddress), Some(d.departureCity),
               Some(d.arrivalCity), Some(d.departureDatetime), Some(d.arrivalDatetime),
               Some(d.price), Some(d.availableSeats), Some(d.vehicleId))
  }

  /** `updateRideSchema.parse(body)` */
  function ParseUpdateRide(lib: LibraryChecks, body: Object): (r: Result<UpdateRide, AppError>)
    ensures r.Err? <==> Issues(UpdateRideRules(lib), body) != []
    ensures r.Err? ==> r.error == ValidationError(Issues(UpdateRideRules(lib), body))
    ensures r.Ok? ==> ValidUpdateRide(lib, r.value)
    // Each field is present in the result exactly when the body holds it,
    // with the body's value.
    ensures r.Ok? ==> HeldBy(body, r.value)
  {
    var issues := Issues(UpdateRideRules(lib), body);
    if issues != [] then Err(ValidationError(issues))
    else
      UpdateRideFields(lib, body);
      var d := FieldsOf(lib, body);
      HeldPassesValid(lib, body, d);
      Ok(d)
  }

  /** Each field that is present passes its rule. */
  predicate FieldsPass(lib: LibraryChecks, body: Object) {
    && ("startingAddress" in body ==> StringAtLeast(body["startingAddress"], 1))
    && ("arrivalAddress" in body ==> StringAtLeast(body["arrivalAddress"], 1))
    && ("departureCity" in body ==> StringAtLeast(body["departureCity"], 1))
    && ("arrivalCity" in body ==> StringAtLeast(body["arrivalCity"], 1))
    && ("departureDatetime" in body ==>
          body["departureDatetime"].JString? && lib.datetime(body["departureDatetime"].str))
    && ("arrivalDatetime" in body ==>
          body["arrivalDatetime"].JString? && lib.datetime(body["arrivalDatetime"].str))
    && ("price" in body ==> body["price"].JNumber? && body["price"].num > 0.0)
    && ("availableSeats" in body ==>
          body["availableSeats"].JNumber? && SafeInteger(body["availableSeats"].num)
          && body["availableSeats"].num >= 1.0)
    && ("vehicleId" in body ==> StringAtLeast(body["vehicleId"], 1))
  }

  /** A body has no issues exactly when each field present passes. */
  lemma {:induction false} UpdateRideFields(lib: LibraryChecks, body: Object)
    ensures Issues(UpdateRideRules(lib), body) == [] <==> FieldsPass(lib, body)
  {
    var rules := UpdateRideRules(lib);
    var full := CreateRideRules(lib);
    if Issues(rules, body) == [] {
      assert Passes(rules[0], body) && Passes(rules[1], body) && Passes(rules[2], body);
      assert Passes(rules[3], body) && Passes(rules[4], body) && Passes(rules[5], body);
      assert Passes(rules[6], body) && Passes(rules[7], body) && Passes(rules[8], body);
      assert rules[6].check == full[6].check && rules[7].check == full[7].check;
    }
    if FieldsPass(lib, body) {
      forall i | 0 <= i < |rules| ensures Passes(rules[i], body) {
        assert rules[i].check == full[i].check;
      }
    }
  }

  /** The declared fields of a body whose fields pass. */
  function FieldsOf(lib: LibraryChecks, body: Object): (d: UpdateRide)
    requires FieldsPass(lib, body)
    ensures HeldBy(body, d)
  {
    UpdateRide(StringOf(body, "startingAddress"), StringOf(body, "arrivalAddress"),
               StringOf(body, "departureCity"), StringOf(body, "arrivalCity"),
               StringOf(body, "departureDatetime"), StringOf(body, "arrivalDatetime"),
               NumberOf(body, "price"), SeatsOf(body),
               StringOf(body, "vehicleId"))
  }

  /** `availableSeats` as the whole number the body holds, if present. */
  function SeatsOf(body: Object): (o: Option<int>)
    requires "availableSeats" in body ==>
               body["availableSeats"].JNumber? && Integral(body["availableSeats"].num)
    ensures Carries(body, "availableSeats", SeatsJson(o))
  {
    if "availableSeats" in body then Some(body["availableSeats"].num.Floor) else None
  }

  /** An update held by a body whose fields pass is valid. */
  lemma HeldPassesValid(lib: LibraryChecks, body: Object, d: UpdateRide)
    requires HeldBy(body, d) && FieldsPass(lib, body)
    ensures ValidUpdateRide(lib, d)
  {
  }

  /** A body holding a valid update passes every rule. */
  lemma HeldValidPasses(lib: LibraryChecks, body: Object, d: UpdateRide)
    requires HeldBy(body, d) && ValidUpdateRide(lib, d)
    ensures FieldsPass(lib, body)
  {
    if d.availableSeats.Some? {
      assert SafeInteger(d.availableSeats.value as real);
    }
  }

  /** An update body parses back to itself exactly when it meets the
      constraints. */
  lemma UpdateRideRoundTrip(lib: LibraryChecks, d: UpdateRide)
    ensures ValidUpdateRide(lib, d) <==> ParseUpdateRide(lib, UpdateRideJson(d)) == Ok(d)
  {
    var body := UpdateRideJson(d);
    if ValidUpdateRide(lib, d) {
      UpdateRideJsonHolds(d);
      HeldValidPasses(lib, body, d);
      UpdateRideFields(lib, body);
      var r := ParseUpdateRide(lib, body);
      HeldByDetermines(body, r.value, d);
    }
  }

  lemma UpdateRideJsonHolds(d: UpdateRide)
    ensures HeldBy(UpdateRideJson(d), d)
  {
  }

  /** A body holds at most one update. */
  lemma HeldByDetermines(body: Object, d1: UpdateRide, d2: UpdateRide)
    requires HeldBy(body, d1) && HeldBy(body, d2)
    ensures d1 == d2
  {
  }

  /** Every valid creation body is a valid update that sets every field,
      and the empty body is a valid update that sets none. */
  lemma UpdateIsPartialCreate(lib: LibraryChecks, d: CreateRide)
    requires ValidCreateRide(lib, d)
    ensures ParseUpdateRide(lib, CreateRideJson(d))
            == Ok(AsUpdate(d))
    ensures ParseUpdateRide(lib, map[])
            == Ok(UpdateRide(None, None, None, None, None, None, None, None, None))
  {
    CreateRideRoundTrip(lib, d);
    PartialAcceptsMore(CreateRideRules(lib), CreateRideJson(d));
  }
}
