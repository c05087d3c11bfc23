/** src/schemas/auth.schema.ts: `loginSchema`, `registerSchema` with its
    password and phone-number patterns, and `changePasswordSchema`. */
module AuthSchema {
  import opened Wrappers
  import opened Validation
  import opened Http

  // ---------------------------------------------------------------------
  // Character classes of the patterns (ASCII; `\d` is `[0-9]`)

  predicate IsLower(c: char) { 'a' <= c <= 'z' }
  predicate IsUpper(c: char) { 'A' <= c <= 'Z' }
  predicate IsDigit(c: char) { '0' <= c <= '9' }
  predicate IsSpecial(c: char) { c in "@$!%*?&" }

  /** `[A-Za-z\d@$!%*?&]` */
  predicate IsPasswordChar(c: char) {
    IsLower(c) || IsUpper(c) || IsDigit(c) || IsSpecial(c)
  }

  /** `/^(?=.*[a-z])(?=.*[A-Z])(?=.*\d)(?=.*[@$!%*?&])[A-Za-z\d@$!%*?&]{8,}$/`:
      each lookahead asks for one character of its class somewhere, and the
      whole string is at least eight allowed characters. */
  predicate PasswordPattern(s: string) {
    && (exists i :: 0 <= i < |s| && IsLower(s[i]))
    && (exists i :: 0 <= i < |s| && IsUpper(s[i]))
    && (exists i :: 0 <= i < |s| && IsDigit(s[i]))
    && (exists i :: 0 <= i < |s| && IsSpecial(s[i]))
    && (forall i :: 0 <= i < |s| ==> IsPasswordChar(s[i]))
    && |s| >= 8
  }

  /** The registration password: 8 to 128 characters and the pattern. */
  predicate RegisterPassword(s: string) {
    8 <= |s| <= 128 && PasswordPattern(s)
  }

  /** `/^\+?[1-9]\d{1,14}$/`: an optional plus, a non-zero digit, then one
      to fourteen digits. */
  predicate PhoneNumber(s: string) {
    var digits := if |s| > 0 && s[0] == '+' then s[1..] else s;
    && 2 <= |digits| <= 15
    && '1' <= digits[0] <= '9'
    && forall i :: 0 <= i < |digits| ==> IsDigit(digits[i])
  }

  /** What a phone number that passes looks like: 2 to 16 characters, a
      plus only in front, and never a zero as its first digit. */
  lemma PhoneNumberShape(s: string)
    requires PhoneNumber(s)
    ensures 2 <= |s| <= 16
    ensures forall i :: 0 < i < |s| ==> IsDigit(s[i])
    ensures s[0] == '+' || '1' <= s[0] <= '9'
    ensures s[0] == '+' ==> '1' <= s[1] <= '9'
  {
    if s[0] == '+' {
      forall i | 0 < i < |s| ensures IsDigit(s[i]) {
        assert s[i] == s[1..][i - 1];
      }
    }
  }

  /** A leading zero, a second plus or a sixteenth digit is refused. */
  lemma PhoneNumberRejects(s: string)
    ensures |s| > 0 && s[0] == '0' ==> !PhoneNumber(s)
    ensures |s| > 1 && s[0] == '+' && s[1] == '+' ==> !PhoneNumber(s)
    ensures |s| > 16 ==> !PhoneNumber(s)
  {
  }

  // ---------------------------------------------------------------------
  // The schemas

  /** `loginSchema`, `registerSchema`, `changePasswordSchema` as rules. */
  function LoginRules(lib: LibraryChecks): (rules: seq<Rule>)
    ensures |rules| == 2
  {
    [ Rule("email", false, (j: Json) => j.JString? && lib.email(j.str)),
      Rule("password", false, (j: Json) => StringAtLeast(j, 8)) ]
  }

  function RegisterRules(lib: LibraryChecks): (rules: seq<Rule>)
    ensures |rules| == 7
  {
    [ Rule("email", false, (j: Json) => j.JString? && lib.email(j.str)),
      Rule("password", false, (j: Json) => j.JString? && RegisterPassword(j.str)),
      Rule("firstname", false, (j: Json) => StringIn(j, 1, 100)),
      Rule("lastname", false, (j: Json) => StringIn(j, 1, 100)),
      Rule("username", false, (j: Json) => StringIn(j, 3, 50)),
      Rule("phoneNumber", false, (j: Json) => j.JString? && PhoneNumber(j.str)),
      Rule("birthDate", false, (j: Json) => j.JString? && lib.datetime(j.str)) ]
  }

  function ChangePasswordRules(): (rules: seq<Rule>)
    ensures |rules| == 2
  {
    [ Rule("currentPassword", false, (j: Json) => StringAtLeast(j, 8)),
      Rule("newPassword", false, (j: Json) => StringIn(j, 8, 128)) ]
  }

  datatype LoginInput = LoginInput(email: string, password: string)

  datatype RegisterInput = RegisterInput(email: string, password: string, firstname: string,
                                         lastname: string, username: string,
                                         phoneNumber: string, birthDate: string)

  datatype ChangePasswordInput = ChangePasswordInput(currentPassword: string, newPassword: string)

  /** The constraints of `registerSchema`, stated on the typed value. */
  predicate ValidRegister(lib: LibraryChecks, d: RegisterInput) {
    && lib.email(d.email) && RegisterPassword(d.password)
    && 1 <= |d.firstname| <= 100 && 1 <= |d.lastname| <= 100 && 3 <= |d.username| <= 50
    && PhoneNumber(d.phoneNumber) && lib.datetime(d.birthDate)
  }

  /** The constraints of `loginSchema` and `changePasswordSchema`. */
  predicate ValidLogin(lib: LibraryChecks, d: LoginInput) {
    lib.email(d.email) && |d.password| >= 8
  }

  predicate ValidChangePassword(d: ChangePasswordInput) {
    |d.currentPassword| >= 8 && 8 <= |d.newPassword| <= 128
  }

  function LoginJson(d: LoginInput): Object {
    map["email" := JString(d.email), "password" := JString(d.password)]
  }

  function ChangePasswordJson(d: ChangePasswordInput): Object {
    map["currentPassword" := JString(d.currentPassword), "newPassword" := JString(d.newPassword)]
  }

  function RegisterJson(d: RegisterInput): Object {
    map[ "email" := JString(d.email), "password" := JString(d.password),
         "firstname" := JString(d.firstname), "lastname" := JString(d.lastname),
         "username" := JString(d.username), "phoneNumber" := JString(d.phoneNumber),
         "birthDate" := JString(d.birthDate) ]
  }

  /** `loginSchema.parse(body)` */
  function ParseLogin(lib: LibraryChecks, body: Object): (r: Result<LoginInput, AppError>)
    ensures r.Err? <==> Issues(LoginRules(lib), body) != []
    ensures r.Err? ==> r.error == ValidationError(Issues(LoginRules(lib), body))
    ensures r.Ok? ==> ValidLogin(lib, r.value)
    // The parsed value is the one the body holds.
    ensures r.Ok? ==> Carries(body, "email", Some(JString(r.value.email)))
                      && Carries(body, "password", Some(JString(r.value.password)))
  {
    var rules := LoginRules(lib);
    var issues := Issues(rules, body);
    if issues != [] then Err(ValidationError(issues))
    else
      assert Passes(rules[0], body) && Passes(rules[1], body);
      Ok(LoginInput(body["email"].str, body["password"].str))
  }

  /** `registerSchema.parse(body)` */
  function ParseRegister(lib: LibraryChecks, body: Object): (r: Result<RegisterInput, AppError>)
    ensures r.Err? <==> Issues(RegisterRules(lib), body) != []
    ensures r.Err? ==> r.error == ValidationError(Issues(RegisterRules(lib), body))
    ensures r.Ok? ==> ValidRegister(lib, r.value)
    // The parsed value is the one the body holds.
    ensures r.Ok? ==> forall f :: f in RegisterJson(r.value) ==> Carries(body, f, Some(RegisterJson(r.value)[f]))
  {
    var rules := RegisterRules(lib);
    var issues := Issues(rules, body);
    if issues != [] then Err(ValidationError(issues))
    else
      assert Passes(rules[0], body) && Passes(rules[1], body) && Passes(rules[2], body);
      assert Passes(rules[3], body) && Passes(rules[4], body) && Passes(rules[5], body);
      assert Passes(rules[6], body);
      Ok(RegisterInput(body["email"].str, body["password"].str, body["firstname"].str,
                       body["lastname"].str, body["username"].str, body["phoneNumber"].str,
                       body["birthDate"].str))
  }

  /** `changePasswordSchema.parse(body)` */
  function ParseChangePassword(body: Object): (r: Result<ChangePasswordInput, AppError>)
    ensures r.Err? <==> Issues(ChangePasswordRules(), body) != []
    ensures r.Err? ==> r.error == ValidationError(Issues(ChangePasswordRules(), body))
    ensures r.Ok? ==> ValidChangePassword(r.value)
    // The parsed value is the one the body holds.
    ensures r.Ok? ==> Carries(body, "currentPassword", Some(JString(r.value.currentPassword)))
                      && Carries(body, "newPassword", Some(JString(r.value.newPassword)))
  {
    var rules := ChangePasswordRules();
    var issues := Issues(rules, body);
    if issues != [] then Err(ValidationError(issues))
    else
      assert Passes(rules[0], body) && Passes(rules[1], body);
      Ok(ChangePasswordInput(body["currentPassword"].str, body["newPassword"].str))
  }

  /** A registration body parses back to itself exactly when it meets the
      constraints. */
  lemma RegisterRoundTrip(lib: LibraryChecks, d: RegisterInput)
    ensures ValidRegister(lib, d) <==> ParseRegister(lib, RegisterJson(d)) == Ok(d)
  {
    var body := RegisterJson(d);
    var rules := RegisterRules(lib);
    if ValidRegister(lib, d) {
      forall i | 0 <= i < |rules| ensures Passes(rules[i], body) {
      }
    }
  }

  /** A login body parses back to itself exactly when it meets the
      constraints. */
  lemma LoginRoundTrip(lib: LibraryChecks, d: LoginInput)
    ensures ValidLogin(lib, d) <==> ParseLogin(lib, LoginJson(d)) == Ok(d)
  {
    var body := LoginJson(d);
    var rules := LoginRules(lib);
    if ValidLogin(lib, d) {
      assert Passes(rules[0], body) && Passes(rules[1], body);
    }
  }

  /** A password-change body parses back to itself exactly when it meets
      the constraints. */
  lemma ChangePasswordRoundTrip(d: ChangePasswordInput)
    ensures ValidChangePassword(d) <==> ParseChangePassword(ChangePasswordJson(d)) == Ok(d)
  {
    var body := ChangePasswordJson(d);
    var rules := ChangePasswordRules();
    if ValidChangePassword(d) {
      assert Passes(rules[0], body) && Passes(rules[1], body);
    }
  }

  /** The pattern's own `{8,}` adds nothing to `.min(8)`, and the pattern
      needs all four classes: no password of a single class passes. */
  lemma PasswordPatternNeedsEveryClass(s: string)
    ensures RegisterPassword(s) <==> |s| <= 128 && PasswordPattern(s)
    ensures (forall i :: 0 <= i < |s| ==> IsLower(s[i])) ==> !PasswordPattern(s)
    ensures (forall i :: 0 <= i < |s| ==> IsDigit(s[i])) ==> !PasswordPattern(s)
  {
  }

  /** Login and password change are laxer than registration: a password
      accepted at registration is accepted as a login password, as a
      current password and as a new password. */
  lemma RegisteredPasswordsAccepted(lib: LibraryChecks, email: string, password: string)
    requires lib.email(email) && RegisterPassword(password)
    ensures ParseLogin(lib, map["email" := JString(email), "password" := JString(password)])
            == Ok(LoginInput(email, password))
    ensures ParseChangePassword(map["currentPassword" := JString(password),
                                    "newPassword" := JString(password)])
            == Ok(ChangePasswordInput(password, password))
  {
    var login := map["email" := JString(email), "password" := JString(password)];
    var rules := LoginRules(lib);
    assert Passes(rules[0], login) && Passes(rules[1], login);
    var change := map["currentPassword" := JString(password), "newPassword" := JString(password)];
    var crules := ChangePasswordRules();
    assert Passes(crules[0], change) && Passes(crules[1], change);
  }

  /** The login and change-password schemas have no pattern: a long
      password of one class, which registration refuses, is accepted. */
  lemma LoginHasNoPattern(lib: LibraryChecks, email: string)
    requires lib.email(email)
    ensures ParseLogin(lib, map["email" := JString(email), "password" := JString("aaaaaaaa")]).Ok?
    ensures !RegisterPassword("aaaaaaaa")
  {
    var login := map["email" := JString(email), "password" := JString("aaaaaaaa")];
    var rules := LoginRules(lib);
    assert Passes(rules[0], login) && Passes(rules[1], login);
    PasswordPatternNeedsEveryClass("aaaaaaaa");
  }
}
