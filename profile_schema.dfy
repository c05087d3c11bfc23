/** src/schemas/profile.schema.ts: `updateProfileSchema`, eleven optional
    fields with length bounds, the registration phone pattern, and two
    client-supplied booleans. */
module ProfileSchema {
  import opened Wrappers
  import opened Validation
  import opened Http
  import AuthSchema

  function UpdateProfileRules(lib: LibraryChecks): (rules: seq<Rule>)
    ensures |rules| == 11
    ensures forall i :: 0 <= i < |rules| ==> rules[i].optional
  {
    [ Rule("firstname", true, (j: Json) => StringIn(j, 1, 100)),
      Rule("lastname", true, (j: Json) => StringIn(j, 1, 100)),
      Rule("username", true, (j: Json) => StringIn(j, 3, 50)),
      Rule("phoneNumber", true, (j: Json) => j.JString? && AuthSchema.PhoneNumber(j.str)),
      Rule("profileImageUrl", true, (j: Json) => j.JString? && lib.url(j.str)),
      Rule("experience", true, (j: Json) => StringAtMost(j, 500)),
      Rule("biography", true, (j: Json) => StringAtMost(j, 1000)),
      Rule("favoriteMusic", true, (j: Json) => StringAtMost(j, 200)),
      Rule("birthDate", true, (j: Json) => j.JString? && lib.datetime(j.str)),
      Rule("isVerified", true, (j: Json) => j.JBool?),
      Rule("isDriverVerified", true, (j: Json) => j.JBool?) ]
  }

  /** `UpdateProfileInput`: absent fields are `None`. */
  datatype UpdateProfile = UpdateProfile(
    firstname: Option<string>, lastname: Option<string>, username: Option<string>,
    phoneNumber: Option<string>, profileImageUrl: Option<string>, experience: Option<string>,
    biography: Option<string>, favoriteMusic: Option<string>, birthDate: Option<string>,
    isVerified: Option<bool>, isDriverVerified: Option<bool>)

  const NoChanges: UpdateProfile :=
    UpdateProfile(None, None, None, None, None, None, None, None, None, None, None)

  /** The bounds of `updateProfileSchema` on the fields that are present. */
  predicate ValidUpdateProfile(lib: LibraryChecks, d: UpdateProfile) {
    && (d.firstname.Some? ==> 1 <= |d.firstname.value| <= 100)
    && (d.lastname.Some? ==> 1 <= |d.lastname.value| <= 100)
    && (d.username.Some? ==> 3 <= |d.username.value| <= 50)
    && (d.phoneNumber.Some? ==> AuthSchema.PhoneNumber(d.phoneNumber.value))
    && (d.profileImageUrl.Some? ==> lib.url(d.profileImageUrl.value))
    && (d.experience.Some? ==> |d.experience.value| <= 500)
    && (d.biography.Some? ==> |d.biography.value| <= 1000)
    && (d.favoriteMusic.Some? ==> |d.favoriteMusic.value| <= 200)
    && (d.birthDate.Some? ==> lib.datetime(d.birthDate.value))
  }

  /** `body` holds each field of `d` that is present, with its value, and
      none of the schema's fields that `d` leaves out. */
  predicate HeldBy(body: Object, d: UpdateProfile) {
    && Carries(body, "firstname", StringJson(d.firstname))
    && Carries(body, "lastname", StringJson(d.lastname))
    && Carries(body, "username", StringJson(d.username))
    && Carries(body, "phoneNumber", StringJson(d.phoneNumber))
    && Carries(body, "profileImageUrl", StringJson(d.profileImageUrl))
    && Carries(body, "experience", StringJson(d.experience))
    && Carries(body, "biography", StringJson(d.biography))
    && Carries(body, "favoriteMusic", StringJson(d.favoriteMusic))
    && Carries(body, "birthDate", StringJson(d.birthDate))
    && Carries(body, "isVerified", BoolJson(d.isVerified))
    && Carries(body, "isDriverVerified", BoolJson(d.isDriverVerified))
  }

  const UpdateProfileFieldNames: set<string> :=
    {"firstname", "lastname", "username", "phoneNumber", "profileImageUrl", "experience",
     "biography", "favoriteMusic", "birthDate", "isVerified", "isDriverVerified"}

  /** The JSON value a client sends for field `f` of `d`, if any. */
  function FieldJson(d: UpdateProfile, f: string): Option<Json> {
    if f == "firstname" then StringJson(d.firstname)
    else if f == "lastname" then StringJson(d.lastname)
    else if f == "username" then StringJson(d.username)
    else if f == "phoneNumber" then StringJson(d.phoneNumber)
    else if f == "profileImageUrl" then StringJson(d.profileImageUrl)
    else if f == "experience" then StringJson(d.experience)
    else if f == "biography" then StringJson(d.biography)
    else if f == "favoriteMusic" then StringJson(d.favoriteMusic)
    else if f == "birthDate" then StringJson(d.birthDate)
    else if f == "isVerified" then BoolJson(d.isVerified)
    else if f == "isDriverVerified" then BoolJson(d.isDriverVerified)
    else None
  }

  /** The request body a client sends for `d`: the present fields only. */
  function UpdateProfileJson(d: UpdateProfile): Object {
    map f | f in UpdateProfileFieldNames && FieldJson(d, f).Some? :: FieldJson(d, f).value
  }

  /** Each field that is present passes its rule. */
  predicate FieldsPass(lib: LibraryChecks, body: Object) {
    && ("firstname" in body ==> StringIn(body["firstname"], 1, 100))
    && ("lastname" in body ==> StringIn(body["lastname"], 1, 100))
    && ("username" in body ==> StringIn(body["username"], 3, 50))
    && ("phoneNumber" in body ==>
          body["phoneNumber"].JString? && AuthSchema.PhoneNumber(body["phoneNumber"].str))
    && ("profileImageUrl" in body ==>
          body["profileImageUrl"].JString? && lib.url(body["profileImageUrl"].str))
    && ("experience" in body ==> StringAtMost(body["experience"], 500))
    && ("biography" in body ==> StringAtMost(body["biography"], 1000))
    && ("favoriteMusic" in body ==> StringAtMost(body["favoriteMusic"], 200))
    && ("birthDate" in body ==> body["birthDate"].JString? && lib.datetime(body["birthDate"].str))
    && ("isVerified" in body ==> body["isVerified"].JBool?)
    && ("isDriverVerified" in body ==> body["isDriverVerified"].JBool?)
  }

  /** A body has no issues exactly when each field present passes. */
  lemma {:induction false} UpdateProfileFields(lib: LibraryChecks, body: Object)
    ensures Issues(UpdateProfileRules(lib), body) == [] <==> FieldsPass(lib, body)
  {
    var rules := UpdateProfileRules(lib);
    if Issues(rules, body) == [] {
      assert Passes(rules[0], body) && Passes(rules[1], body) && Passes(rules[2], body);
      assert Passes(rules[3], body) && Passes(rules[4], body) && Passes(rules[5], body);
      assert Passes(rules[6], body) && Passes(rules[7], body) && Passes(rules[8], body);
      assert Passes(rules[9], body) && Passes(rules[10], body);
    }
    if FieldsPass(lib, body) {
      forall i | 0 <= i < |rules| ensures Passes(rules[i], body) {
      }
    }
  }

  /** `updateProfileSchema.parse(body)` */
  function ParseUpdateProfile(lib: LibraryChecks, body: Object): (r: Result<UpdateProfile, AppError>)
    ensures r.Err? <==> Issues(UpdateProfileRules(lib), body) != []
    ensures r.Err? ==> r.error == ValidationError(Issues(UpdateProfileRules(lib), body))
    ensures r.Ok? ==> ValidUpdateProfile(lib, r.value)
    // Each field is present in the result exactly when the body holds it,
    // with the body's value.
    ensures r.Ok? ==> HeldBy(body, r.value)
  {
    var issues := Issues(UpdateProfileRules(lib), body);
    if issues != [] then Err(ValidationError(issues))
    else
      UpdateProfileFields(lib, body);
      var d := FieldsOf(lib, body);
      HeldPassesValid(lib, body, d);
      Ok(d)
  }

  /** The declared fields of a body whose fields pass. */
  function FieldsOf(lib: LibraryChecks, body: Object): (d: UpdateProfile)
    requires FieldsPass(lib, body)
    ensures HeldBy(body, d)
  {
    UpdateProfile(StringOf(body, "firstname"), StringOf(body, "lastname"),
                  StringOf(body, "username"), StringOf(body, "phoneNumber"),
                  StringOf(body, "profileImageUrl"), StringOf(body, "experience"),
                  StringOf(body, "biography"), StringOf(body, "favoriteMusic"),
                  StringOf(body, "birthDate"), BoolOf(body, "isVerified"),
                  BoolOf(body, "isDriverVerified"))
  }

  /** An update body parses back to itself exactly when it meets the
      constraints. */
  lemma UpdateProfileRoundTrip(lib: LibraryChecks, d: UpdateProfile)
    ensures ValidUpdateProfile(lib, d) <==> ParseUpdateProfile(lib, UpdateProfileJson(d)) == Ok(d)
  {
    var body := UpdateProfileJson(d);
    if ValidUpdateProfile(lib, d) {
      UpdateProfileJsonHolds(d);
      HeldValidPasses(lib, body, d);
      UpdateProfileFields(lib, body);
      var r := ParseUpdateProfile(lib, body);
      HeldByDetermines(body, r.value, d);
    }
  }

  /** An update held by a body whose fields pass is valid. */
  lemma HeldPassesValid(lib: LibraryChecks, body: Object, d: UpdateProfile)
    requires HeldBy(body, d) && FieldsPass(lib, body)
    ensures ValidUpdateProfile(lib, d)
  {
  }

  /** A body holding a valid update passes every rule. */
  lemma HeldValidPasses(lib: LibraryChecks, body: Object, d: UpdateProfile)
    requires HeldBy(body, d) && ValidUpdateProfile(lib, d)
    ensures FieldsPass(lib, body)
  {
  }

  lemma UpdateProfileJsonHolds(d: UpdateProfile)
    ensures HeldBy(UpdateProfileJson(d), d)
  {
  }

  /** A body holds at most one update. */
  lemma HeldByDetermines(body: Object, d1: UpdateProfile, d2: UpdateProfile)
    requires HeldBy(body, d1) && HeldBy(body, d2)
    ensures d1 == d2
  {
  }

  /** Every field is optional: the empty body is valid and changes nothing. */
  lemma EmptyUpdateIsValid(lib: LibraryChecks)
    ensures ParseUpdateProfile(lib, map[]) == Ok(NoChanges)
  {
    var rules := UpdateProfileRules(lib);
    forall i | 0 <= i < |rules| ensures Passes(rules[i], map[]) {
    }
  }

  /** The name, username, phone and birth-date rules agree with
      registration: the profile a registration creates can be resubmitted as
      an update. */
  lemma RegisteredFieldsUpdatable(lib: LibraryChecks, d: AuthSchema.RegisterInput)
    requires AuthSchema.ValidRegister(lib, d)
    ensures var body := map["firstname" := JString(d.firstname), "lastname" := JString(d.lastname),
                            "username" := JString(d.username), "phoneNumber" := JString(d.phoneNumber),
                            "birthDate" := JString(d.birthDate)];
      ParseUpdateProfile(lib, body)
      == Ok(UpdateProfile(Some(d.firstname), Some(d.lastname), Some(d.username),
                          Some(d.phoneNumber), None, None, None, None, Some(d.birthDate), None, None))
  {
    var body := map["firstname" := JString(d.firstname), "lastname" := JString(d.lastname),
                    "username" := JString(d.username), "phoneNumber" := JString(d.phoneNumber),
                    "birthDate" := JString(d.birthDate)];
    var rules := UpdateProfileRules(lib);
    assert "profileImageUrl" !in body && "experience" !in body && "biography" !in body;
    assert "favoriteMusic" !in body && "isVerified" !in body && "isDriverVerified" !in body;
    assert Passes(rules[0], body) && Passes(rules[1], body) && Passes(rules[2], body);
    assert Passes(rules[3], body) && Passes(rules[4], body) && Passes(rules[5], body);
    assert Passes(rules[6], body) && Passes(rules[7], body) && Passes(rules[8], body);
    assert Passes(rules[9], body) && Passes(rules[10], body);
  }

  /** The verification flags are taken from the client as given. */
  lemma ClientSetsVerificationFlags(lib: LibraryChecks, verified: bool, driverVerified: bool)
    ensures ParseUpdateProfile(lib, map["isVerified" := JBool(verified),
                                        "isDriverVerified" := JBool(driverVerified)])
            == Ok(NoChanges.(isVerified := Some(verified), isDriverVerified := Some(driverVerified)))
  {
    var body := map["isVerified" := JBool(verified), "isDriverVerified" := JBool(driverVerified)];
    var rules := UpdateProfileRules(lib);
    forall i | 0 <= i < |rules| ensures Passes(rules[i], body) {
    }
  }
}
