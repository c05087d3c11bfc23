# RutaFem backend core, modelled in Dafny

RutaFem is a car-pooling backend: Express handlers over a PostgreSQL
database reached through Prisma, better-auth sessions, and a Redis cache.
This project models its request-handling core and proves properties of it:

- **Cache-aside layer** (`redis_keys.dfy`, `redis_store.dfy`,
  `cache_middleware.dfy`). It covers these parts:
  - the reconnect back-off;
  - the helper key families (`rides:`, `ride:`, `profiles:`, `profile:`);
  - `generateCacheKey`, which sorts query names before joining them;
  - glob matching as `KEYS` applies it;
  - a Redis store with expiring entries;
  - `invalidateCache`;
  - `cacheMiddleware`, with its GET-only filter, its hit, its miss, its write-back of 2xx bodies only, and its fail-open on store errors.
- **Session authentication** (`auth_middleware.dfy`). It covers these parts:
  - token extraction from the `Authorization` header, or else from the `better-auth.session_token` cookie;
  - the `requireAuth` decision chain with its four distinct 401 answers;
  - a session is still valid at its expiry instant.
- **Rate limiting** (`rate_limit.dfy`). It covers these parts:
  - per-client 15-minute windows;
  - the API policy, which allows 100 requests;
  - the auth policy, which allows 5 failed requests, because successful ones are refunded;
  - the 429 answer, which bumps a labelled counter;
  - the `DISABLE_RATE_LIMIT` switch.
- **Metrics and request logging** (`metrics.dfy`, `logging.dfy`). It covers these parts:
  - the latency histogram, with its route and status labels;
  - the logger's `LOG_LEVEL` threshold, which drops records below it;
  - the logger's arrival record, which carries the client address, and its completion record, whose level follows the status.
- **Error handler** (`error_handler.dfy`). Validation errors get 400. Prisma
  `P2025` gets 404 and `P2002` gets 409. Everything else gets 500, with the
  message shown only in development.
- **Validation schemas** (`validation.dfy` and the four `*_schema.dfy`). They
  are zod objects, modelled as lists of field rules. Parsing succeeds exactly
  when no rule fails, and a failure carries the failing fields.
- **Services and controllers for auth, profiles and rides**
  (`database.dfy`, `auth_service.dfy`, `auth_controller.dfy`,
  `profile_service.dfy`, `profile_controller.dfy`, `ride_service.dfy`,
  `ride_controller.dfy`). They cover these parts:
  - the database is a `Db` object holding the users, sessions, profiles, rides and ride participations;
  - `Db.Valid()` holds the unique constraints and the foreign keys that the schema enforces;
  - every mutating operation keeps `Db.Valid()`;
  - every mutating operation states, on each branch, which tables it changes and which it leaves alone;
  - each table it changes is stated as a whole, except that deleting a ride states the remaining rides and participations by membership, not by order.

Controllers return either a response or the error they hand to `next`.
`ErrorHandler.Finish` turns the error into the response the error handler
sends.

Things the code does that a reader might not expect. The model follows the
code in each case:

- The cookie is matched by an unanchored search. A cookie named
  `xbetter-auth.session_token=…` is accepted too. The first match wins, and
  an empty value there is skipped.
- `Bearer ` alone as the header gives an empty token, not "no token": a
  truthy header always decides.
- Profile-not-found, ride-not-found, "only the driver" and duplicate
  registration errors are plain `Error`s. The error handler answers 500 for
  them, not 404, 403 or 409.
- `limit = -1` returns every row with a total count of 0 and one page.
  `limit = 0` passes validation and gives `totalPages` of `Infinity` or
  `NaN`. JSON turns that into `null`, modelled as `None`.
- The ride routes mount no `requireAuth`, so `req.user` is never set there
  and the 401 guard always answers. The controllers are modelled with the
  user as a parameter, so both branches are covered.
- The metrics middleware also times the `/metrics` route.
- A client can set `isVerified` and `isDriverVerified` through the profile
  update schema.

- zod 4 returns a `.default()` value as is when the field is missing, without running `.int()` or `.min()` on it. `PaginationSchema.CoerceInt` follows that.
- zod 4's `.int()` also refuses whole numbers beyond `Number.MAX_SAFE_INTEGER`. The seat count and the page query keep that bound.

Outside inputs are parameters:

- the clock `now`, in milliseconds;
- `process.env.LOG_LEVEL`, read once per logger;
- the client address `req.ip`;
- the library validators for email, ISO datetime and URL (`LibraryChecks`);
- `new Date(…)` as `instant: string -> int`;
- `Number(…)` as `toNumber`;
- fresh ids and tokens, together with requires that they are new;
- whether Redis answers each command;
- better-auth's `signInEmail` and `changePassword`.

## Model

| member | source | states |
|---|---|---|
| RedisKeys.RetryDelay | src/lib/redis.ts:13-16 | the reconnect delay is 50 ms per attempt, capped at 2000 ms |
| RedisKeys.RetryDelayMonotone | src/lib/redis.ts:13-16 | later attempts never wait less |
| RedisKeys.RetryDelaySaturates | src/lib/redis.ts:13-16 | from attempt 40 the delay is the 2000 ms cap |
| RedisKeys.QueryOrAll | src/lib/redis.ts:47 | a missing or empty query becomes `all`; otherwise the query is used unchanged |
| RedisKeys.RidesKey | src/lib/redis.ts:47 | the list key is `rides:` followed by the query or `all` |
| RedisKeys.RideKey | src/lib/redis.ts:48 | the item key is `ride:` followed by the id |
| RedisKeys.ProfilesKey | src/lib/redis.ts:49 | the list key is `profiles:` followed by the query or `all` |
| RedisKeys.ProfileKey | src/lib/redis.ts:50 | the item key is `profile:` followed by the id |
| RedisKeys.ListKeysIgnoreEmptyQuery | src/lib/redis.ts:47-49 | no query and the empty query give the same list key |
| RedisKeys.ItemAndListKeysDisjoint | src/lib/redis.ts:46-51 | an item key never equals a list key of the same family |
| RedisKeys.InsertByName | src/lib/redis.ts:55-56 | inserting one pair keeps the names sorted and adds exactly that pair |
| RedisKeys.SortByName | src/lib/redis.ts:55-56 | the parameters sorted by name are a permutation of the parameters |
| RedisKeys.JoinPairs | src/lib/redis.ts:57-59 | the joined query is empty exactly when there are no pairs, so `all` is used only for no query; unless names or values contain them, there is one `=` per pair and one `&` between pairs |
| RedisKeys.GenerateCacheKey | src/lib/redis.ts:54-60 | the key is `path:all` for no query, else the path, a colon and the sorted pairs joined |
| RedisKeys.SortedByNameUnique | src/lib/redis.ts:55-56 | two name-sorted lists with the same elements are equal |
| RedisKeys.CacheKeyOrderIndependent | src/lib/redis.ts:54-60 | the key does not depend on the order of the query parameters |
| RedisKeys.GlobMatch | src/lib/redis.ts:65 | a pattern without `*` matches only keys of its own length |
| RedisKeys.StarMatchesAll | src/lib/redis.ts:65 | the pattern `*` matches every key |
| RedisKeys.PrefixPatternMatches | src/lib/redis.ts:65 | `prefix*` with a literal prefix matches exactly the keys that start with the prefix |
| RedisKeys.LiteralPatternMatchesItself | src/lib/redis.ts:65 | a pattern without wildcards matches only itself |
| RedisKeys.MiddlewareKeysOutsideHelperNamespaces | src/lib/redis.ts:47-59 | keys the middleware builds from a `/` path are never matched by `rides:*` or `profiles:*` |
| RedisKeys.KeyStartsWithPath | src/lib/redis.ts:59 | a generated key starts with the first character of the path |
| RedisKeys.OtherFirstCharOutside | src/lib/redis.ts:65 | a key whose first character differs from the prefix's is not matched by `prefix*` |
| RedisKeys.ListPatternSparesItemKeys | src/lib/redis.ts:46-51 | `rides:*` matches list keys and not item keys, and the reverse holds for `ride:*` (the same for profiles) |
| RedisStore.Lookup | src/middleware/cache.middleware.ts:18 | GET yields the stored value exactly when the key exists and has not expired |
| RedisStore.LiveMatching | src/lib/redis.ts:65 | KEYS lists exactly the live keys that match the pattern |
| RedisStore.SetExThenGet | src/middleware/cache.middleware.ts:52 | after SETEX the key reads back its value until the TTL passes, then reads nothing |
| RedisStore.SetExOtherKeys | src/middleware/cache.middleware.ts:52 | SETEX leaves every other key's lookup unchanged |
| RedisStore.KeySet | src/lib/redis.ts:67 | the keys passed to DEL, as a set |
| RedisStore.Store.Get | src/middleware/cache.middleware.ts:18 | it logs the command, answers the lookup when the server is up, fails when it is down, and changes no entry |
| RedisStore.Store.SetEx | src/middleware/cache.middleware.ts:52-61 | it succeeds only when the server is up and the TTL is positive; on success the entry gets the value and expiry now plus TTL, and on failure nothing changes |
| RedisStore.Store.Keys | src/lib/redis.ts:65 | it returns the live matching keys without duplicates, or fails when the server is down |
| RedisStore.Store.Del | src/lib/redis.ts:67 | it removes exactly the listed keys and returns how many of them existed |
| RedisStore.InvalidateCache | src/lib/redis.ts:63-73 | the matching keys are removed by one DEL, which is skipped when nothing matched; a failing KEYS or DEL is logged, swallowed and leaves the entries unchanged |
| RedisStore.InvalidatedKeysMiss | src/lib/redis.ts:63-73 | after invalidation every key matching the pattern misses and every other key reads as before |
| CacheMiddleware.MakeCacheConfig | src/middleware/cache.middleware.ts:5-7 | the TTL defaults to 60 seconds |
| CacheMiddleware.Handle | src/middleware/cache.middleware.ts:8-89 | a non-GET request goes straight to the handler; a hit answers 200 with the stored body without the handler; a miss or a store error runs the handler; only a 2xx body is written back, with the TTL |
| CacheMiddleware.MissThenHit | src/middleware/cache.middleware.ts:18-61 | a second GET within the TTL is answered from the cache, with the first body and without the handler |
| CacheMiddleware.MissAfterExpiry | src/middleware/cache.middleware.ts:18-61 | once the TTL has passed the handler runs again |
| CacheMiddleware.MissAfterInvalidation | src/middleware/cache.middleware.ts:18-34 | after the cache is invalidated with a pattern matching the key, the next GET runs the handler |
| AuthMiddleware.NonSemicolonRun | src/middleware/auth.middleware.ts:26 | the capture `[^;]+` stops at the first `;` |
| AuthMiddleware.CookieToken | src/middleware/auth.middleware.ts:25-29 | the first place where the cookie name occurs followed by a non-empty value gives the token; there is none exactly when no place matches |
| AuthMiddleware.ExtractToken | src/middleware/auth.middleware.ts:17-32 | a truthy header always decides, with `Bearer ` stripped; otherwise the token is exactly the first match of the cookie pattern in a truthy cookie, non-empty and free of `;`, and there is one exactly when some place matches |
| AuthMiddleware.HeaderWins | src/middleware/auth.middleware.ts:19-22 | with a non-empty header the cookie does not matter |
| AuthMiddleware.BareBearerIsNoToken | src/middleware/auth.middleware.ts:19-22 | `Bearer ` alone gives the empty token, which counts as no token |
| AuthMiddleware.FirstCookieWins | src/middleware/auth.middleware.ts:25-29 | of two session cookies the first one wins |
| AuthMiddleware.EmptyCookieSkipped | src/middleware/auth.middleware.ts:25-29 | an empty first session cookie is skipped in favour of the next one |
| AuthMiddleware.NonSemicolonRunStops | src/middleware/auth.middleware.ts:26 | the capture is exactly the text before the first `;` |
| AuthMiddleware.NonSemicolonRunAll | src/middleware/auth.middleware.ts:26 | without a `;` the capture is the whole rest |
| AuthMiddleware.CookieTokenSkips | src/middleware/auth.middleware.ts:26 | the search finds the first match after the places that do not match |
| AuthMiddleware.Authenticate | src/middleware/auth.middleware.ts:35-93 | a missing token, a failed lookup, an unknown session and an expired session each get their own 401; otherwise the session's user is let through |
| AuthMiddleware.ExpiryIsInclusive | src/middleware/auth.middleware.ts:69-74 | a session is accepted at its expiry instant and refused one millisecond later |
| AuthMiddleware.RequireAuth | src/middleware/auth.middleware.ts:35-93 | `req.user` is set and `next` is called exactly when authentication allows; otherwise the 401 is sent and `req.user` is untouched |
| RateLimit.Bump | src/middleware/rateLimit.middleware.ts:17-19 | a hit in an open window adds one to it; otherwise a new 15-minute window starts with one hit |
| RateLimit.Settle | src/middleware/rateLimit.middleware.ts:38 | under `skipSuccessfulRequests` a response below 400 gives the hit back, and other clients are untouched |
| RateLimit.Attempt | src/middleware/rateLimit.middleware.ts:17-46 | a request is rejected exactly when its window's count goes over the maximum; only that client's window changes, and it keeps the hit unless the request was admitted and refunded as a success |
| RateLimit.LabelledCounter.Inc | src/middleware/rateLimit.middleware.ts:25 | only the named label's count goes up, by one |
| RateLimit.Limiter.Admit | src/middleware/rateLimit.middleware.ts:17-28 | when enabled, a hit is counted and rejected with 429 exactly when the window count goes over the maximum, which bumps the labelled counter; when disabled, nothing changes |
| RateLimit.Limiter.Finish | src/middleware/rateLimit.middleware.ts:38 | the windows become the settled windows |
| RateLimit.Serve | src/middleware/rateLimit.middleware.ts:17-46 | one request gives the same windows and verdict as the functional `Attempt` |
| RateLimit.Replay | src/middleware/rateLimit.middleware.ts:17-46 | replaying a list of hits gives one verdict per hit |
| RateLimit.CountedHitsAccumulate | src/middleware/rateLimit.middleware.ts:17-46 | counted hits within a window add up, and hit i is rejected exactly when the count passes the maximum |
| RateLimit.CountedHitsFromFreshWindow | src/middleware/rateLimit.middleware.ts:17-46 | from a fresh window, hit i is rejected exactly when i is at least the maximum |
| RateLimit.SuccessesNotCounted | src/middleware/rateLimit.middleware.ts:38 | under the auth policy, successful hits are never rejected and leave the window as it was |
| RateLimit.AuthLimiterLocksOutAfterFiveFailures | src/middleware/rateLimit.middleware.ts:31-46 | failed auth attempts are rejected from the sixth on |
| RateLimit.ApiLimiterAdmitsFirstHundred | src/middleware/rateLimit.middleware.ts:17-28 | API hits are rejected from the 101st on |
| RateLimit.WindowExpires | src/middleware/rateLimit.middleware.ts:18 | after the window ends, the count starts again at one |
| RateLimit.OtherClientsUntouched | src/middleware/rateLimit.middleware.ts:17-46 | one client's hit leaves every other client's window alone |
| Metrics.BucketBoundsIncreasing | src/middleware/metrics.middleware.ts:12 | the eight bucket bounds are strictly increasing |
| Metrics.BeforeQuery | src/middleware/metrics.middleware.ts:21 | `split('?')[0]` is the longest prefix without `?` |
| Metrics.RouteLabel | src/middleware/metrics.middleware.ts:21 | a matched route gives base URL plus route pattern; otherwise the path without its query |
| Metrics.DecimalText | src/middleware/metrics.middleware.ts:22 | the status label is a string of digits without leading zero |
| Metrics.DecimalTextRoundTrip | src/middleware/metrics.middleware.ts:22 | parsing the status label gives the status back |
| Metrics.DecimalTextInjective | src/middleware/metrics.middleware.ts:22 | different statuses get different labels |
| Metrics.BucketCount | src/middleware/metrics.middleware.ts:8-13 | a bucket never holds more samples than its series |
| Metrics.BucketCountMonotone | src/middleware/metrics.middleware.ts:8-13 | a wider bucket holds at least as many samples, so the buckets are cumulative |
| Metrics.Histogram.Observe | src/middleware/metrics.middleware.ts:22 | the sample is appended |
| Metrics.ObserveFinished | src/middleware/metrics.middleware.ts:16-26 | on finish one sample is recorded with the method, route and status labels and the elapsed time |
| Metrics.ObservationCounts | src/middleware/metrics.middleware.ts:22 | one observation adds one to its own series and to every bucket at or above its duration, and nothing elsewhere |
| Logging.Logger.Log | src/middleware/logger.middleware.ts:4-5 | the record is appended exactly when its level reaches the logger's threshold; otherwise nothing changes |
| Logging.LevelFor | src/middleware/logger.middleware.ts:40-46 | error at 500 and above, warn from 400 to 499, info below 400 |
| Logging.ArrivalRecord | src/middleware/logger.middleware.ts:24-28 | the arrival record is at info level, says `Incoming request` and carries the method, the URL and the client address |
| Logging.CompletionRecord | src/middleware/logger.middleware.ts:31-46 | the completion record has the status's level, the status and the elapsed time, and no client address |
| Logging.LogArrival | src/middleware/logger.middleware.ts:24-28 | the arrival record is appended when the threshold lets info through, and nothing otherwise |
| Logging.LogCompletion | src/middleware/logger.middleware.ts:31-47 | the completion record is appended when the threshold lets its level through, and nothing otherwise |
| Logging.ThresholdOf | src/middleware/logger.middleware.ts:4-5 | an unset or empty `LOG_LEVEL` means `info`; `trace`, `debug`, `info`, `warn`, `error` and `fatal` give thresholds 10 to 60, `silent` drops everything, and any other name gives none |
| Logging.Kept | src/middleware/logger.middleware.ts:4-5 | the threshold keeps exactly the records whose level reaches it, never more records than given |
| Logging.LogRequest | src/middleware/logger.middleware.ts:20-50 | one request appends its arrival record and then its completion record, each kept or dropped by the threshold |
| Logging.RequestRecords | src/middleware/logger.middleware.ts:20-50 | one request adds the arrival record when the threshold lets info through, then the completion record when it lets the status's level through |
| Logging.RequestRecordsByLevel | src/middleware/logger.middleware.ts:4-46 | at the default level both records are written, arrival first; at `warn` only the completion of a status of 400 or more; at `silent` none |
| Logging.CompletionIsNotArrival | src/middleware/logger.middleware.ts:40-46 | no completion message is mistaken for an arrival |
| ErrorHandler.ErrorResponse | src/middleware/errorHandler.ts:20-40 | 400 with the issues exactly for validation errors; 404 exactly for P2025; 409 exactly for P2002; otherwise 500 with the message only in development |
| ErrorHandler.PlainErrorsAre500 | src/middleware/errorHandler.ts:37-40 | a plain `Error` always gets 500 |
| ErrorHandler.HandleError | src/middleware/errorHandler.ts:6-41 | it appends the `Request error` record at error level with the method and path, unless the `LOG_LEVEL` threshold drops it, and sends the error response |
| ErrorHandler.Finish | src/middleware/errorHandler.ts:20-40 | a controller's own response passes through unchanged; a forwarded error becomes exactly the error handler's response for it, a failure with status 400, 404, 409 or 500 |
| Validation.Issues | src/schemas/auth.schema.ts:3-6 | there are no issues exactly when every rule passes, and each issue names a failing field |
| Validation.Partial | src/schemas/ride.schema.ts:15 | `.partial()` makes every field optional and keeps its check |
| Validation.PartialAcceptsMore | src/schemas/ride.schema.ts:15 | what the full schema accepts the partial one accepts too, and so is the empty object |
| AuthSchema.PhoneNumberShape | src/schemas/auth.schema.ts:21 | an accepted number has an optional `+`, then a non-zero digit, then 1 to 14 digits |
| AuthSchema.PhoneNumberRejects | src/schemas/auth.schema.ts:21 | a leading zero, a double `+` or more than 16 characters are refused |
| AuthSchema.LoginRules | src/schemas/auth.schema.ts:3-6 | the login schema has two fields |
| AuthSchema.RegisterRules | src/schemas/auth.schema.ts:8-23 | the register schema has seven fields |
| AuthSchema.ChangePasswordRules | src/schemas/auth.schema.ts:25-28 | the change-password schema has two fields |
| AuthSchema.ParseLogin | src/schemas/auth.schema.ts:3-6 | parsing fails exactly when a rule fails, with those issues; on success the email is valid, the password has at least 8 characters, and both are the strings the body holds |
| AuthSchema.ParseRegister | src/schemas/auth.schema.ts:8-23 | parsing fails exactly when a rule fails, with those issues; on success every field meets its constraint and is the string the body holds |
| AuthSchema.ParseChangePassword | src/schemas/auth.schema.ts:25-28 | parsing fails exactly when a rule fails, with those issues; on success the current password has at least 8 characters, the new one 8 to 128, and both are the strings the body holds |
| AuthSchema.RegisterRoundTrip | src/schemas/auth.schema.ts:8-23 | a registration parses back to itself exactly when it is valid |
| AuthSchema.LoginRoundTrip | src/schemas/auth.schema.ts:3-6 | a login body parses back to itself exactly when it is valid |
| AuthSchema.ChangePasswordRoundTrip | src/schemas/auth.schema.ts:25-28 | a password-change body parses back to itself exactly when it is valid |
| AuthSchema.PasswordPatternNeedsEveryClass | src/schemas/auth.schema.ts:10-17 | the password rule is the pattern plus the 128 limit; all-lowercase and all-digit passwords fail it |
| AuthSchema.RegisteredPasswordsAccepted | src/schemas/auth.schema.ts:3-28 | a password accepted at registration is accepted at login and by change-password |
| AuthSchema.LoginHasNoPattern | src/schemas/auth.schema.ts:5 | login accepts `aaaaaaaa`, which registration refuses |
| ProfileSchema.UpdateProfileRules | src/schemas/profile.schema.ts:3-18 | the update schema has eleven fields, all optional |
| ProfileSchema.UpdateProfileFields | src/schemas/profile.schema.ts:3-18 | a body has no issues exactly when every field it holds meets its length, pattern, URL, datetime or boolean constraint |
| ProfileSchema.ParseUpdateProfile | src/schemas/profile.schema.ts:3-18 | parsing fails exactly when a rule fails, with those issues; on success the update meets every constraint, and each of the eleven fields is present exactly when the body holds it, with the body's value |
| ProfileSchema.UpdateProfileRoundTrip | src/schemas/profile.schema.ts:3-18 | an update parses back from its body to itself exactly when it meets the constraints |
| ProfileSchema.EmptyUpdateIsValid | src/schemas/profile.schema.ts:3-18 | the empty body is a valid update that changes nothing |
| ProfileSchema.RegisteredFieldsUpdatable | src/schemas/profile.schema.ts:4-15 | the values accepted at registration are accepted by the update schema |
| ProfileSchema.ClientSetsVerificationFlags | src/schemas/profile.schema.ts:16-17 | a client body may set both verification flags |
| RideSchema.CreateRideRules | src/schemas/ride.schema.ts:3-13 | the create schema has nine fields |
| RideSchema.UpdateRideRules | src/schemas/ride.schema.ts:15 | the update schema has the creation schema's fields, in order, each optional and with the same check |
| RideSchema.ParseCreateRide | src/schemas/ride.schema.ts:3-13 | parsing fails exactly when a rule fails, with those issues; on success every field meets its constraint, seats are a safe integer of at least 1, and each field is the value the body holds |
| RideSchema.CreateRideRoundTrip | src/schemas/ride.schema.ts:3-13 | a ride parses back to itself exactly when it is valid |
| RideSchema.ParseUpdateRide | src/schemas/ride.schema.ts:15 | parsing fails exactly when a rule fails, with those issues; on success each field present meets the creation constraint, and each of the nine fields is present exactly when the body holds it, with the body's value |
| RideSchema.UpdateRideFields | src/schemas/ride.schema.ts:15 | a body has no issues exactly when every field it holds meets its creation constraint |
| RideSchema.UpdateRideRoundTrip | src/schemas/ride.schema.ts:15 | an update parses back from its body to itself exactly when it meets the constraints |
| RideSchema.UpdateIsPartialCreate | src/schemas/ride.schema.ts:15 | a valid create body is a valid update setting every field, and the empty body is a valid update |
| PaginationSchema.CoerceInt | src/schemas/pagination.schema.ts:4-5 | a missing value takes the default without further checks; a given value is accepted exactly when it converts to a safe integer (at most 2^53 - 1 from zero) at or above the minimum, and then is that number |
| PaginationSchema.ParsePagination | src/schemas/pagination.schema.ts:3-6 | it succeeds exactly when both fields coerce; page lies in 1 to 2^53 - 1 and limit in -1 to 2^53 - 1, each the given number or its default 1 or 50; a failure names exactly the bad fields |
| PaginationSchema.DefaultsApply | src/schemas/pagination.schema.ts:4-5 | an empty query gives page 1 and limit 50 |
| PaginationSchema.LimitRange | src/schemas/pagination.schema.ts:4-5 | limit -1 and limit 0 are accepted; page 0 and page 1.5 are refused |
| Database.ProfileWithId | src/services/profile.service.ts:54-66 | the profile with the id, found exactly when one exists |
| Database.ProfileWithUserId | src/services/profile.service.ts:73-102 | the profile of the user, found exactly when one exists |
| Database.RideWithId | src/services/ride.service.ts:78-81 | the ride with the id, found exactly when one exists |
| Database.ProfileWithIdUnique | src/services/profile.service.ts:53-105 | under the unique constraints, lookup by id and by user id find the same row |
| AuthService.GetSessionByToken | src/services/auth.service.ts:48-75 | a session is returned exactly when the token is known and not past expiry, with its user, id, expiry and token |
| AuthService.MiddlewareAgreesWithService | src/services/auth.service.ts:63 | the service and the middleware accept the same tokens and report the same user |
| AuthService.HasProfileExtends | src/services/auth.service.ts:29-38 | appending a profile keeps every existing profile |
| AuthService.NewProfile | src/services/auth.service.ts:29-38 | the new profile has the given ids and creation time, the registration's names, username, phone and birth date, no optional field and neither verification |
| AuthService.Register | src/services/auth.service.ts:7-45 | a taken email and then a taken username fail with nothing changed; otherwise exactly one user, one session and one profile are added, and the database stays valid |
| AuthService.RegisterValid | src/services/auth.service.ts:20-38 | adding the new user, session and profile keeps every constraint |
| AuthService.RegisteredTokenAuthenticates | src/services/auth.service.ts:40-44 | the token returned at registration authenticates during the session's seven days |
| AuthService.Logout | src/services/auth.service.ts:78-82 | exactly the token's session is removed; an unknown token fails with P2025 |
| AuthService.LoggedOutTokenRefused | src/services/auth.service.ts:78-82 | after logout the token is refused and every other token works as before |
| AuthController.MatchSessionCookie | src/controllers/auth.controller.ts:55-59 | the inline cookie match finds the first matching cookie, the same result as the middleware's |
| AuthController.InlineToken | src/controllers/auth.controller.ts:48-60 | the inline token extraction in logout and getSession is the middleware's `extractToken` |
| AuthController.Register | src/controllers/auth.controller.ts:8-23 | an invalid body, a taken email or a taken username goes to the error handler with nothing changed; it answers 201 exactly otherwise, with the new user, profile and token, adding exactly that user, session and profile |
| AuthController.Login | src/controllers/auth.controller.ts:25-42 | an invalid body or a failed sign-in goes to the error handler; otherwise 200 with the sign-in result |
| AuthController.Logout | src/controllers/auth.controller.ts:44-79 | no token gives 400; a known token's session is removed; an unknown token goes to the error handler as P2025 |
| AuthController.GetSession | src/controllers/auth.controller.ts:81-123 | no token gives 401 `Token requis`; otherwise 200 exactly when the session is valid, with the session the service finds for the token, else 401 `Session invalide ou expirée` |
| AuthController.GetSessionAgreesWithMiddleware | src/controllers/auth.controller.ts:99-114 | getSession answers 200 exactly when `requireAuth` would let the request through |
| AuthController.LogoutEndsSession | src/controllers/auth.controller.ts:62-75 | after logout the same request's getSession answers 401 |
| ProfileService.WhereOf | src/services/profile.service.ts:31-35 | defined flags are copied; the username filter is added only for a non-empty username |
| ProfileService.Matches | src/services/profile.service.ts:31-39 | the empty filter keeps every profile; a kept profile agrees with every flag the filter sets and its username is at least as long as the filter text |
| ProfileService.Ordered | src/services/profile.service.ts:38-47 | the matching profiles, newest first |
| ProfileService.Window | src/services/profile.service.ts:27-28 | skip and take select the slice of a list, cut at its end |
| ProfileService.FindAll | src/services/profile.service.ts:25-50 | rows match the filter and are newest first; with limit -1 all matches and total 0; otherwise the page's slice and the match count |
| ProfileService.WindowRows | src/services/profile.service.ts:38-47 | a slice of an ordered list is ordered and drawn from it |
| ProfileService.Offset | src/services/profile.service.ts:27 | the skip is `(page - 1) * limit` |
| ProfileService.OrderedRows | src/services/profile.service.ts:38-47 | ordering keeps exactly the matching profiles |
| ProfileService.EveryMatchOnItsPage | src/services/profile.service.ts:25-50 | every matching profile appears on some page |
| ProfileService.PageOf | src/services/profile.service.ts:27-28 | row k lies on the page whose slice starts at or before k |
| ProfileService.RowOnPage | src/services/profile.service.ts:25-50 | a row inside the page's slice is returned for that page |
| ProfileService.UnfilteredCountsEveryRow | src/services/profile.service.ts:31-46 | with no filter the total counts every profile |
| ProfileService.FindById | src/services/profile.service.ts:53-69 | the profile with the id, or `Profile non trouvé` |
| ProfileService.FindByUserId | src/services/profile.service.ts:72-105 | the user's profile, or `Profile non trouvé` |
| ProfileService.FindByUserIdThenById | src/services/profile.service.ts:53-105 | looking up the found profile's id finds the same profile |
| ProfileService.Merge | src/services/profile.service.ts:108-129 | for each of the eleven fields, a given value replaces the stored one (the birth date through `new Date`) and an absent one keeps it; the id, owner and creation time never change |
| ProfileService.MergeLaws | src/services/profile.service.ts:108-129 | the empty update changes nothing and applying an update twice is the same as once |
| ProfileService.IndexOfProfile | src/services/profile.service.ts:110 | the position of the profile with the id, or -1 |
| ProfileService.SameIdsKeepParticipants | src/services/profile.service.ts:108-129 | rewriting a profile in place keeps the ride participations valid |
| ProfileService.Update | src/services/profile.service.ts:108-129 | an unknown id fails with P2025 and a username taken by another profile with P2002, with nothing changed; otherwise only that profile is rewritten with the merge |
| ProfileService.RemoveProfileValid | src/services/profile.service.ts:132-134 | removing a profile with its user keeps the profile constraints |
| ProfileService.RemoveProfileKeepsOthers | src/services/profile.service.ts:132-134 | removing one profile keeps every other id |
| ProfileService.DropParticipantsValid | src/services/profile.service.ts:132-134 | dropping a profile's participations keeps the foreign keys |
| ProfileService.SessionsWithout | src/services/profile.service.ts:133 | the cascade removes exactly the user's sessions |
| ProfileService.ProfilesWithout | src/services/profile.service.ts:133 | the cascade removes exactly the user's profile and keeps the constraints |
| ProfileService.NoOwnProfile | src/services/profile.service.ts:133 | a user without a profile loses none |
| ProfileService.RemoveOwnProfile | src/services/profile.service.ts:133 | removing the user's row removes exactly the profiles of that user |
| ProfileService.RemovedKeepsOthers | src/services/profile.service.ts:133 | other users' profiles survive |
| ProfileService.RemovedDropsOwn | src/services/profile.service.ts:133 | no profile of the user survives |
| ProfileService.UserIdsDistinct | src/services/profile.service.ts:72-105 | two profile rows never share a user |
| ProfileService.ParticipantsWithout | src/services/profile.service.ts:133 | the cascade removes exactly the participations of the user's profile |
| ProfileService.ParticipantsWithoutValid | src/services/profile.service.ts:133 | the remaining participations keep their foreign keys |
| ProfileService.CascadeValid | src/services/profile.service.ts:132-134 | deleting a user with its cascade keeps every constraint |
| ProfileService.Delete | src/services/profile.service.ts:132-134 | an unknown user fails with P2025 and nothing changes; otherwise the user, their sessions, profile and participations go and the rides stay |
| ProfileController.CeilDiv | src/controllers/profile.controller.ts:20-21 | `Math.ceil(n / d)` |
| ProfileController.TotalPages | src/controllers/profile.controller.ts:20-21 | 1 page for limit -1, none (null) for limit 0, otherwise the least number of pages holding every row |
| ProfileController.PagesWithinTotal | src/controllers/profile.controller.ts:8-26 | for a positive limit a page has rows exactly when it is at most `totalPages` |
| ProfileController.PageNonEmptyIffWithinTotal | src/controllers/profile.controller.ts:8-26 | a page has rows exactly when its number is at most `totalPages` |
| ProfileController.PageNonEmptyIffBeforeEnd | src/services/profile.service.ts:25-50 | a page has rows exactly when its offset is below the total |
| ProfileController.OffsetWithinTotal | src/controllers/profile.controller.ts:20-21 | the offset is below the total exactly when the page is at most `totalPages` |
| ProfileController.FindAllProfiles | src/controllers/profile.controller.ts:8-26 | 200 with the service's rows, the echoed page and limit, the total and the page count |
| ProfileController.FindProfileById | src/controllers/profile.controller.ts:29-36 | 200 with the profile, or `Profile non trouvé` to the error handler |
| ProfileController.GetProfile | src/controllers/profile.controller.ts:39-50 | 401 without a user; otherwise the user's profile or the not-found error |
| ProfileController.UpdateOwnProfile | src/controllers/profile.controller.ts:53-74 | 401 without a user; an invalid body, a missing profile or a username held by another profile (P2002) changes nothing; it answers 200 exactly otherwise, with the merged profile, which replaces the caller's row and no other |
| ProfileController.OwnProfileIndex | src/controllers/profile.controller.ts:62-63 | the caller's profile sits at one position, and the update finds it by id there |
| ProfileController.DeleteOwnAccount | src/controllers/profile.controller.ts:77-88 | 401 without a user; an unknown user goes to the error handler as P2025; otherwise 200, and the user, their sessions, their profile and its participations go by the cascade while rides and every other user and profile stay |
| ProfileController.ChangePassword | src/controllers/profile.controller.ts:91-107 | 401 without a user; an invalid body goes to the error handler; a valid one answers 200 when the change succeeds and forwards the change's error when it fails |
| RideService.ExtendedProfilesAndRides | src/services/ride.service.ts:11-23 | adding the ride and its driver row keeps the foreign keys |
| RideService.NewRide | src/services/ride.service.ts:11-16 | the new ride has the given id, status pending, the datetimes through `new Date`, and the body's price and seats |
| RideService.Create | src/services/ride.service.ts:9-46 | an unknown profile fails with P2003 and nothing changes; otherwise the pending ride and exactly one driver participation are added |
| RideService.CreatorIsSoleDriver | src/services/ride.service.ts:17-22 | a new ride's only participant is its creator, as driver |
| RideService.FindAll | src/services/ride.service.ts:48-74 | the rides, as a permutation ordered by departure time |
| RideService.FindById | src/services/ride.service.ts:76-89 | the ride with the id, or `Ride not found` |
| RideService.IndexOfRide | src/services/ride.service.ts:102 | the position of the ride with the id, or -1 |
| RideService.DriverRideExists | src/services/ride.service.ts:95-99 | a driver participation always refers to an existing ride |
| RideService.Apply | src/services/ride.service.ts:101-111 | for each of the nine fields, a given value replaces the stored one (the datetimes through `new Date`) and an absent one keeps it; the id and status never change |
| RideService.ApplyLaws | src/services/ride.service.ts:101-111 | the empty update changes nothing and applying an update twice is the same as once |
| RideService.FullUpdateRecreates | src/services/ride.service.ts:101-111 | applying a full update to a ride gives the ride that the update's values would have created |
| RideService.SameIdsKeepParticipants | src/services/ride.service.ts:101-111 | rewriting a ride in place keeps the constraints |
| RideService.Update | src/services/ride.service.ts:92-134 | anyone but the driver is refused with nothing changed; the driver's update rewrites only that ride |
| RideService.RemoveRideValid | src/services/ride.service.ts:146 | removing a ride keeps the ids distinct and removes exactly that ride |
| RideService.RemovedRidesDistinct | src/services/ride.service.ts:146 | the remaining ride ids stay distinct |
| RideService.RemovedRidesKeepOthers | src/services/ride.service.ts:146 | every other ride survives |
| RideService.RemovedRidesDropOwn | src/services/ride.service.ts:146 | no ride with the removed id survives |
| RideService.DropRideParticipantsValid | src/services/ride.service.ts:146 | dropping the ride's participations keeps the foreign keys |
| RideService.Delete | src/services/ride.service.ts:137-152 | anyone but the driver is refused with nothing changed; the driver's delete removes the ride and its participations |
| RideController.CreateRide | src/controllers/ride.controller.ts:8-30 | 401 without a user; an invalid body or a missing profile changes nothing; it answers 201 exactly otherwise, with the new ride appended and the caller's profile added as its driver; users, sessions and profiles never change |
| RideController.FindRideById | src/controllers/ride.controller.ts:52-59 | 200 with the ride, or `Ride not found` to the error handler |
| RideController.UpdateRide | src/controllers/ride.controller.ts:61-84 | 401 without a user; an invalid body, a missing profile or a caller who is not the driver changes nothing; it answers 200 exactly otherwise, with the applied update replacing that ride and no other row |
| RideController.DeleteRide | src/controllers/ride.controller.ts:86-103 | 401 without a user; a caller who is not the driver changes nothing; the driver's delete removes the ride and its participations |
| Seqs.Find | src/services/profile.service.ts:54 | the first element satisfying the predicate, if any |
| Seqs.FindIndex | src/services/ride.service.ts:95-96 | the first position satisfying the predicate, or -1 |
| Seqs.RemoveAt | src/services/ride.service.ts:146 | the list without one position, in order |
| Seqs.Filter | src/services/profile.service.ts:133 | exactly the elements satisfying the predicate |
| Seqs.FilterAll | src/services/profile.service.ts:133 | filtering with a predicate every element meets changes nothing |
| Seqs.FilterNone | src/services/profile.service.ts:133 | filtering with a predicate no element meets leaves nothing |
| Seqs.FilterAppend | src/services/profile.service.ts:133 | filtering distributes over concatenation |
| Strings.LessIrreflexive | src/lib/redis.ts:56 | the order that `sort()` uses is irreflexive |
| Strings.LessTransitive | src/lib/redis.ts:56 | it is transitive |
| Strings.LessTotal | src/lib/redis.ts:56 | it is total on distinct strings |
| Strings.LessAsymmetric | src/lib/redis.ts:56 | it is asymmetric |
| Strings.LowerChar | src/services/profile.service.ts:35 | ASCII capitals fold to lower case and nothing else changes |
| Strings.Lower | src/services/profile.service.ts:35 | the string folded character by character |
| Strings.ContainsInsensitiveOfContains | src/services/profile.service.ts:35 | an exact substring is also a case-insensitive one |
| Strings.ContainsEmpty | src/services/profile.service.ts:35 | the empty string is contained in every string |
| Sorting.Insert | src/services/ride.service.ts:66 | inserting keeps the list sorted and adds exactly the element |
| Sorting.ConsSorted | src/services/ride.service.ts:66 | an element no larger than the head of a sorted list can go in front |
| Sorting.SortBy | src/services/ride.service.ts:66 | the result is a sorted permutation of the input |

## Left out

- I/O, the network, Prisma, better-auth and Redis are not modelled as code. Each is a state (`Db`, `Store`) or a parameter.
- better-auth's internals are not modelled: password hashing, accounts, `signInEmail`, `signUpEmail`, cookie caching and session refresh. Sign-in and password change are parameters.
- ProfileController.ChangePassword: the service sends empty headers and ignores the user id, so which account changes is better-auth's business. The model states only the controller's branches.
- Concurrency is not modelled. The source does not await the cache write-back; `Promise.all` runs in register; KEYS then DEL is not atomic. Each is modelled as running in sequence.
- Strings are sequences of characters. JavaScript's UTF-16 units and Unicode case folding are not modelled; case-insensitive search folds ASCII only.
- RedisKeys.GlobMatch: supports `*`, `?` and literal characters only. Redis character classes and escapes are left out.
- Response bodies in the cache are text. `JSON.stringify` and `JSON.parse` are taken as inverse identities.
- Floating point is left out. Durations are whole milliseconds, not seconds; prices are `real`.
- Prisma's own semantics are assumed and not modelled: the cascade from user to sessions, profile and participations; the cascade from a ride to its participations, without which deleting a ride would fail on its driver's row; the unique constraints on email, token, username and user id; the foreign keys.
- The ordering of rows with equal `createdAt` or `departureDatetime` is not modelled.
- zod's issue text is left out; an issue is the failing field's name.
- Prisma `select` and `include` projections are left out; whole rows are returned.
- The pino log calls inside the ride service, the Redis helpers and the cache middleware are left out, and so is the `console.log` of the error in the register controller. The records of the request logger and of the error handler are modelled; each of those two files creates its own pino instance with `LOG_LEVEL || 'info'`, and the model gives each `Logger` its threshold.
- pino's log levels `trace`, `debug` and `fatal` are read by `ThresholdOf` but never written by the modelled code, so `Level` has only info, warn and error. The pretty-printing transport and the record's timestamp, pid and hostname are left out.
- The error handler's record keeps the method and path. Its `request_id`, message and stack fields are left out.
- `getProfilesQuerySchema` and `getRidesQuerySchema` are imported by the controllers but are not defined in the schema files. The profile list takes a page query already parsed by the pagination schema; the ride list controller is left out, and its service `findAll` is modelled.
- `app.ts` wiring is not part of this model, and neither are the routes, swagger, the k6 scripts or the maintenance scripts. As wired, `requestLogger` and `authLimiter` are not mounted; both are modelled as written.
- The Redis client's setup and connection events are left out. Only the retry delay is modelled.
- express-rate-limit's store and headers are not modelled. Its counting is modelled as one fixed window per client.
- `collectDefaultMetrics` and the `/metrics` export are left out.
