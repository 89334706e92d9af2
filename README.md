# unter: a verified model of the ride service's core

The Go package `unter` lets drivers give one of two kinds of rides,
shared or private. It prices a ride, in cents, from its length and its duration, and it sums
a driver's rides into a report. Its HTTP server (`cmd/httpd`) validates its
configuration and serves four endpoints: start a ride, end a ride, get a
ride, health. The Get endpoint reads through a cache.

`cmd/httpd/middleware.go` also defines an authenticating middleware,
`topMiddleware`, which checks credentials against a fixed table. The router
`buildRouter` (`cmd/httpd/main.go:323-333`) does not install it; it wraps the routes
only in `addLogging`. `main.go` and `middleware.go` also each declare a
`keyType` and a `RequestID` in `package main`, so the two files as written do
not build together. The model takes each file's functions as written.

The model is in Dafny, one module per Go file:

| module | file | models |
|---|---|---|
| `Wrappers` | `wrappers.dfy` | `Option` and `Result`, standing for Go's nil-able values and `(value, error)` returns |
| `Decimal` | `decimal.dfy` | decimal text of integers as `%d` writes it, and the value of a digit string |
| `Unter` | `unter.dfy` | `Kind` (a 64-bit `uint`) and `Kind.String`, `Ride`, `time.Duration` (int64 nanoseconds), `time.Time.Sub` (saturating) |
| `Report` | `report.dfy` | `RideFee`, `max`, `Report`, `ByDriver` |
| `Config` | `config.dfy` | `Config`, `Validate`, `validAddr`, with `strings.Index` and `fmt.Sscanf("%d")` written out |
| `MemDb` | `memdb.dfy` | the in-memory `DB` of `cmd/httpd/db.go`: `NewDB`, `Add`, `Get` |
| `Middleware` | `middleware.dfy` | `Role`, `User`, `LoginUser`, `HasRole`, the decision in `topMiddleware` |
| `Handlers` | `handlers.dfy` | `kindFromString`, `GetResponse`, and the decisions of the health, start, end and get handlers, over a store and a cache held as maps |

Go semantics are modelled explicitly where they matter:
- Integer `/` truncates toward zero (`Report.TruncDiv`).
- `int(x)` on a float truncates toward zero (`Report.Truncate`).
- `time.Duration` is a signed 64-bit count of nanoseconds.
- `Time.Sub` saturates to that range, as Go's does.
- `fmt.Sscanf("%d")` is modelled as follows:
  - it skips Unicode white space;
  - a newline before the number is an error;
  - it reads an optional sign and then at least one decimal digit;
  - the value must fit in 64 bits;
  - trailing text is ignored.

`ByDriver` is an imperative method with the source's two loops. The first
loop updates a map from each driver to a report. The Go code updates each
report through a `*Report` pointer; here the map's value is replaced
instead. The second loop takes the map's entries in an unspecified order,
modelled as a nondeterministic choice. The method is proved against the
specification functions `Drivers`, `NumRidesOf`, `PaymentOf` and `ReportOf`.

Four behaviours of the code that a reader might not expect:
- **Every ride counts.** One might expect `ByDriver` to skip rides that have
  not ended. The code counts every ride (`report.go:40-52`). For an open
  ride, `End.Sub(Start)` saturates to the most negative duration, so the
  time charge is negative and `max` picks the distance charge or the
  minimum fee instead. The ride still pays at least the minimum fee of 250
  cents, or 225 cents if it is shared, since the shared discount comes
  after the floor (`report.go:18-20`, `Report.NetPayment`).
- **No per-user checks.** One might expect the handlers to check who owns a
  ride or what role the user has. They check neither. `HasRole` exists, but
  nothing calls it, and the authenticating middleware is not installed.
- **The shared fee is not 90% of the private fee.** One might expect a shared
  fee to be 90% of the private fee. The code takes 90% of the untruncated
  amount and truncates afterwards (`report.go:18-22`), so the shared fee can
  be one cent above 90% of the truncated private fee. At 1.01 miles the
  private fee is 252, the shared fee is 227, and 90% of 252 truncates to 226
  (`Report.SharedIsNotNinetyPercentOfPrivate`). What holds in general is
  `Report.SharedWithinOneCent`. The two agree exactly when the distance
  charge is a whole number of cents (`Report.SharedIsNinetyPercent`).
- **End does not touch the cache.** One might expect ending a ride to
  invalidate its cached copy. It does not (`cmd/httpd/main.go:182`), so a
  later Get can still return the unended ride from the cache.
  `Handlers.Server.End` leaves `cache` alone, and `Handlers.Server.GetTwice`
  shows that a cached response keeps being served.

## Model

| member | source | states |
|---|---|---|
| Decimal.FormatNat | unter.go:26 | the decimal text of n is a non-empty digit string without a leading zero |
| Decimal.FormatNatRoundTrip | unter.go:26 | reading the decimal text of n back gives n |
| Unter.KindString | unter.go:18-27 | the text is "shared" exactly for Shared and "private" exactly for Private, and never empty; KindStringInjective and OtherKindLabel carry the rest |
| Unter.Sub | report.go:50 | the difference of two instants, exact when it fits in 64 bits and otherwise the nearest bound |
| Unter.SharedLabel | unter.go:18-21 | Shared prints as "shared" |
| Unter.PrivateLabel | unter.go:18-23 | Private prints as "private" |
| Unter.OtherKindLabel | unter.go:18-27 | every other kind, the zero kind included, prints as "<Kind n>" with n in decimal, which is neither label |
| Unter.KindStringInjective | unter.go:18-27 | distinct kinds print as distinct strings |
| Report.WholeHours | report.go:14 | `duration/time.Minute/60` is integer division by an hour, truncated toward zero (via NestedDivision) |
| Report.NestedDivision | report.go:14 | dividing by a minute and then by 60 gives the same result as dividing by an hour once |
| Report.Max | report.go:25-30 | the larger of the two operands |
| Report.Truncate | report.go:22 | `int(x)` drops the fraction toward zero: the result is within one of x, on the zero side |
| Report.WholeHoursTruncates | report.go:14 | a duration is charged for the whole hours it holds (rounded toward zero in either direction), and a duration under one hour in either direction for none |
| Report.RideFee | report.go:12-23 | a private fee is the largest of the distance charge truncated, the whole-hours charge and 250; it is never below 250, and a shared fee is never below 225 |
| Report.FeeVectors | report_test.go:21-31 | the four fee cases of the package's tests: 250, 750, 21000 and 675 |
| Report.SubHourIgnoresTime | report.go:14-17 | below one hour the fee is the fee of a zero duration |
| Report.SharedWithinOneCent | report.go:18-22 | a shared fee is at most the private fee, at least 90% of the private fee truncated, and at most one cent above that |
| Report.SharedIsNinetyPercent | report.go:18-22 | when the distance charge is whole cents, a shared fee is exactly 90% of the private fee, truncated |
| Report.SharedIsNotNinetyPercentOfPrivate | report.go:18-22 | at 1.01 miles the private fee is 252 and the shared fee 227, not 226 |
| Report.NetPayment | report.go:50-51 | a ride's fee less the 30-cent cut: at least 195 cents, at least 220 for a ride that is not shared |
| Report.ByDriver | report.go:38-59 | one report per driver that has a ride and for no one else, no driver twice, each with the driver's ride count and the sum of fee less 30 over their rides; the counts add up to the number of rides |
| Report.Flatten | report.go:54-58 | every entry of the map, once each, in some order |
| Report.TallyPreserved | report.go:40-52 | one pass of the first loop keeps the map equal to the per-driver tally of the rides seen so far |
| Report.TallyStep | report.go:40-52 | one more ride adds its driver and adds one ride and its net fee to that driver's tally, and to no other |
| Report.AbsentDriver | report.go:41-47 | a driver without rides has a count and a payment of zero |
| Report.PresentDriver | report.go:41-48 | a driver has a report exactly when they have at least one ride |
| Report.PaymentAtLeastMinimum | report.go:51 | a driver is paid at least 195 cents per ride |
| Report.SumOverPermutation | report.go:40-52 | a sum over rides does not depend on their order |
| Report.ByDriverShuffle | report.go:38-59 | rides that are a permutation of each other give the same drivers and the same report for each |
| Report.ShuffledReportsAgree | report.go:54-58 | any two results of ByDriver over permuted rides hold the same reports |
| Report.TotalOfReports | report.go:48 | in a full set of distinct reports, the ride counts add up to the number of rides |
| Config.SkipSpace | cmd/httpd/config.go:55 | what remains is no longer than the input and does not start with a space (SkipSpaceSkips gives the full characterisation) |
| Config.LeadingDigits | cmd/httpd/config.go:55 | the prefix taken is all digits (LeadingDigitsLongest: it is the longest such prefix) |
| Config.ScanDecimal | cmd/httpd/config.go:55 | a value read by %d lies in the 64-bit range; the newline error occurs exactly when a newline comes before the number; ScanDecimalReads and ScanDecimalParts give exactly which texts are read and as what value |
| Config.ScanSigned | cmd/httpd/config.go:55 | a value read lies in the 64-bit range, and a negative value was written with a minus sign; ScanSignedReads and ScanSignedParts: it reads exactly an optional '+' or '-' followed by digits |
| Config.ScanDigits | cmd/httpd/config.go:55 | a value is read only from text starting with a digit, lies in the 64-bit range and has the sign that was read; text starting with a non-digit is "expected integer"; ScanDigitsReads gives the value of digits followed by any other text |
| Config.ValidAddr | cmd/httpd/config.go:48-65 | rejected for a missing ':' exactly when the address has none; an accepted address has a ':' (OnlyPortMatters, PortChecked: the rest is CheckPort of the text after it) |
| Config.CheckPort | cmd/httpd/config.go:55-64 | accepted exactly when %d reads a value in [0, 65535]; "bad port" exactly when %d fails |
| Config.IndexOf | cmd/httpd/config.go:49 | no position exactly when ':' is absent; otherwise the position of its first occurrence |
| Config.SkipSpaceSkips | cmd/httpd/config.go:55 | %d drops leading spaces and stops at the first other character; it fails exactly when a newline comes before that character |
| Config.LeadingDigitsLongest | cmd/httpd/config.go:55 | the digits read are the longest prefix of decimal digits |
| Config.LeadingDigitsSplit | cmd/httpd/config.go:55 | the digits taken from digits followed by a non-digit (or nothing) are exactly those digits |
| Config.SkipSpacePrefix | cmd/httpd/config.go:55 | spaces other than a newline in front of the text are skipped, whatever the text is |
| Config.SkippedSpace | cmd/httpd/config.go:55 | when skipping succeeds, what it dropped is a run of spaces without a newline |
| Config.ScanDigitsReads | cmd/httpd/config.go:55 | digits followed by nothing or a non-digit are read as their value with the sign taken before, or fail as out of range when that value does not fit in 64 bits |
| Config.ScanSignedReads | cmd/httpd/config.go:55 | no sign, '+' or '-', then digits and any text not starting with a digit, is read as the signed value of the digits ('+' as no sign), or fails as out of range |
| Config.ScanDecimalReads | cmd/httpd/config.go:55 | %d on spaces without a newline, an optional sign, digits and trailing text not starting with a digit reads the signed value when it fits in 64 bits, and fails as out of range otherwise; the trailing text is ignored |
| Config.ScanSignedParts | cmd/httpd/config.go:55 | every text ScanSigned reads splits into an optional sign, non-empty digits and a rest not starting with a digit, and the value is the signed value of those digits |
| Config.ScanDecimalParts | cmd/httpd/config.go:55 | every text %d reads splits into spaces without a newline, an optional sign, non-empty digits and a rest not starting with a digit, and the value is the signed value of the digits; so every other text fails |
| Config.SignedAndTrailingPorts | cmd/httpd/config.go:48-64 | ":+80" and ":80abc" are accepted: '+' is allowed and text after the digits is ignored |
| Config.BadPortTexts | cmd/httpd/config.go:55-57 | ":+", ":-" and ":\n80" are bad ports: a sign needs digits after it, and a newline before the number fails |
| Config.Validate | cmd/httpd/config.go:36-46 | accepted exactly when the address is valid and the DSN is not empty; the address is checked first, and its error is the one reported |
| Config.OnlyPortMatters | cmd/httpd/config.go:48-56 | only the text after the first ':' decides; the host is not looked at |
| Config.NotANumber | cmd/httpd/config.go:55-57 | text after the ':' that %d cannot read is a bad port |
| Config.PortChecked | cmd/httpd/config.go:59-62 | once %d has read a value, the address is rejected with that value exactly when it lies outside [0, 65535] |
| Config.PortInRangeAccepted | cmd/httpd/config.go:48-64 | host, ':' and a port in [0, 65535] written in decimal is accepted |
| Config.PortOutOfRangeRejected | cmd/httpd/config.go:59-62 | a port above 65535 that fits in 64 bits is rejected with its value |
| Config.ScanNegative | cmd/httpd/config.go:55 | %d reads a minus sign and digits as the negated value, down to -2^63 |
| Config.ScanFormatted | cmd/httpd/config.go:55 | %d reads back the decimal text of any value that fits in 64 bits |
| Config.NegativePortRejected | cmd/httpd/config.go:59-62 | ":-1" is rejected as the out-of-range port -1 |
| Config.SpacedNegativePortRejected | cmd/httpd/config.go:53-62 | "localhost: -80" is rejected as the out-of-range port -80: a space before the sign is skipped |
| Config.DefaultAddrIsValid | cmd/httpd/config.go:19 | the default address ":8080" passes |
| MemDb.DB.constructor | cmd/httpd/db.go:15-20 | a new table is empty |
| MemDb.DB.Add | cmd/httpd/db.go:22-27 | the ride is stored under its ID, replacing any earlier ride there, and every other entry is unchanged |
| MemDb.DB.Get | cmd/httpd/db.go:29-39 | the stored ride and no error, or the zero Ride and a not-found error naming the ID |
| MemDb.AddThenGet | cmd/httpd/db.go:22-39 | a Get right after an Add finds that ride, and the later of two Adds under one ID wins |
| Middleware.LoginUser | cmd/httpd/middleware.go:55-69 | a login succeeds exactly for Bond/007 and Q/s3cr3t, keeps the login and gives Writer or Viewer; any other pair gives the zero User and ErrBadLogin |
| Middleware.LoginVectors | cmd/httpd/middleware.go:55-69 | Bond is a Writer and Q a Viewer; each one's password fails for the other |
| Middleware.LoginNeverAdmin | cmd/httpd/middleware.go:55-69 | no credential logs in as Admin or with the zero Role |
| Middleware.HasRole | cmd/httpd/middleware.go:71-78 | true exactly when the user's role is one of those listed |
| Middleware.HasRoleExamples | cmd/httpd/middleware.go:71-78 | an Admin is not a Writer (roles have no hierarchy), and an empty list admits nobody |
| Middleware.TopMiddleware | cmd/httpd/middleware.go:81-105 | no credentials: serve with the zero User; bad credentials: forbidden, with the text "bad login (<request ID>)"; good credentials: serve with the logged-in user, who is never an Admin |
| Handlers.KindFromString | cmd/httpd/main.go:79-88 | a kind is returned only for "shared" or "private", and it prints as that text; anything else fails with "unknown kind: " and the text |
| Handlers.KindRoundTrip | cmd/httpd/main.go:79-88 | the two labels read back as the kinds that wrote them |
| Handlers.OtherKindRejected | cmd/httpd/main.go:79-88 | the text any other kind prints as is rejected |
| Handlers.ResponseOf | cmd/httpd/main.go:253-262 | End is present exactly when the row's end is not the zero time, and the row can be rebuilt from the response |
| Handlers.Server.constructor | cmd/httpd/main.go:52-56 | an empty store and cache, neither one failing |
| Handlers.Server.StoreGet | db/db.go:90-102 | a row only when the store is up and holds the ID, and then that row; not-found exactly when the store is up and lacks the ID; otherwise the store's error |
| Handlers.Server.CacheGet | cache/cache.go:37-46 | a hit only when the cache is up and holds the key, and then that value; a miss exactly when the cache is up and lacks the key; otherwise the cache's error |
| Handlers.Server.Health | cmd/httpd/main.go:58-77 | 500 exactly when the store or the cache check fails, otherwise 200; each failing check's text is in its field, null otherwise |
| Handlers.Server.Start | cmd/httpd/main.go:90-149 | an unknown kind gives 400 "bad kind"; a ride that fails validation, 400 "bad request"; a store failure, 500 "can't insert"; otherwise 200 with the new ID, and a new row with that ID, the driver, the kind's label, now as start and no end; no earlier row is replaced |
| Handlers.Server.Insert | db/db.go:82-86 | the store's error, and the row added only when there is none |
| Handlers.Server.Update | db/db.go:104-108 | the write's error, and the row with the same ID replaced only when there is none |
| Handlers.Server.End | cmd/httpd/main.go:157-193 | a zero distance gives 400 "missing distance"; a row that cannot be read, 404 "not found"; otherwise 200, and only that row's distance and end change, unless the update fails, in which case nothing is stored and the reply is still 200 |
| Handlers.Server.Get | cmd/httpd/main.go:226-273 | a cache hit is returned as is; otherwise the store decides: not-found gives 404, another error 500, a row 200 with its response, which is written to the cache unless the cache is failing |
| Handlers.Server.GetTwice | cmd/httpd/main.go:235-267 | after a read from the store has succeeded, the next read gives the same reply, even with the store failing by then |

## Left out

- Request and response bodies are not encoded or decoded as JSON. The handlers take decoded values, so the 400 "bad json" branches and the 500 "can't marshal to JSON" branches are left out.
- Status 200 is the implicit status of a body that is written. The trailing newline `http.Error` adds is not modelled.
- Distances are exact reals, not IEEE doubles. The rounding of `perMile * distance` and `0.9 * fee` is not modelled.
- `int(fee)` for a fee beyond the 64-bit range is not modelled, because Go leaves that conversion implementation-defined.
- Report.ByDriver: the sums `NumRides` and `Payment` are unbounded integers. The model does not capture their 64-bit overflow, which happens only when the fees sum beyond 2^63 cents.
- Report.ByDriver: the `*Report` pointers are not modelled; each pointer update is a replacement of the map's value. No pointer escapes the function, so no aliasing is lost.
- The mutex in `cmd/httpd/db.go` and all concurrency are not modelled. Each method is one atomic step.
- `NewID` (a UUID) and `time.Now` are parameters of `Handlers.Server.Start` and `End`. The failure of `db.Update` in `End` is the parameter `updateFailure`.
- Handlers.Server.Start: `requires newID !in rides` stands for the uniqueness of a fresh UUID.
- `Ride.Validate` is not part of this model. Its outcome is the parameter `rideValid` of `Handlers.Server.Start`.
- The PostgreSQL store (`db/db.go`) and the Redis cache (`cache/cache.go`) are maps in the model. An outage is a fault text that makes every call to that collaborator fail, and health checks report that fault.
- The cache's TTL is not modelled, since its expiry needs a clock.
- The cached bytes are the `GetResponse` they encode.
- `loadConfig` and the `conf` library's parsing of defaults, environment and flags are not modelled. Only `Config.Validate` and the default address are.
- The error texts of `validAddr` and `Config.Validate` are not modelled. Each constructor of `AddrError` and `ConfigError` stands for one text:
  - `MissingColon` is "missing ':' in address";
  - `BadPort` is "bad port";
  - `PortOutOfRange(p)` is "port p our of range [0,65535]", with the source's misspelling;
  - `BadAddr(e)` is "bad port: " followed by the text of e, so a missing ':' reads "bad port: missing ':' in address";
  - `MissingDSN` is "missing DSN".
- Handlers.Server.Insert: a key clash in `db.Add` is not modelled. The SQL in `db/sql/insert.sql` is not part of this model, so the model overwrites the row with the same ID. `Handlers.Server.Start` never inserts an ID already in the table (`requires newID !in rides`).
- The exact text of the error from `fmt.Sscanf` is not modelled. `ScanError` says which kind of failure it was, and `validAddr` reports every such failure as "bad port".
- Strings are sequences of characters. Invalid UTF-8 and Go's byte indexing are not modelled.
- Routing (`buildRouter`, `mux.Vars`) is not modelled; the path's `id` is a parameter.
- Server start-up and signal handling are not modelled.
- `expvar` counters, logging, `ctxLogger`, `RequestID` and `addLogging` are not modelled, because they do not affect any reply.
- The timing in `topMiddleware` is not modelled. The request ID (a UUID) is a parameter.
- The `client` package is not part of this model.
