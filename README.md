# go-rest-api-template, modelled in Dafny

A model of the core of the go-rest-api-template service: a REST API over in-memory stores
of users and passports, wrapped in a chain of HTTP middleware, and started from a VERSION
file that must hold a semantic version.

The model covers three parts.

- **The in-memory stores.** The repository holds four generations of the same store:
  - `UserService` and `PassportService` of internal/passport;
  - `MockDB` of data/database.go;
  - `Database` of the original single-file main.go.

  Each is a class whose map fields the methods update in place. Every method states the
  whole new state and what it returns, including the zero value and the error on a miss.
  A `Valid()` invariant (each record is stored under its own id, and the counter is at
  least every id) is kept by every method. Listings are a Go map range and then, where
  the source sorts, `sort.Slice`. Both are modelled as loops over the map and an
  insertion sort on an array. The listings are proved to hold each stored value exactly
  once, sorted, with distinct ids.
- **The server and its middleware.**
  - `NewServer`, `NewTestServer` and `addr`.
  - The middleware chain `(*Server).middleware` builds, as a list of layers in execution
    order.
  - A recursive `Handle` that runs a request through the chain: request ID, request
    logger, rate limiter, CORS, security headers, the clacks header, then the route.
  - The `responseWriter` the logger wraps, as a class; the per-IP `rateLimiter`, as a
    class whose `clients` map fills on demand.
  - `generateID` (a UUID-shaped hex rendering of 16 random bytes), `clientIP`, and the
    `net.SplitHostPort`/`net.JoinHostPort` pair that `clientIP` relies on.
- **VERSION validation.**
  - The regular expression, as a datatype of version values and a recogniser proved
    sound and complete against the rendering of those values.
  - `strings.TrimSpace` and `strings.Trim`.
  - The two `ParseVersionFile` variants: pkg/version trims all white space, while the
    root package trims only `\n` and then only `' '`. helpers.go:65-82 is a line-for-line
    copy of util.go:12-29, so MainPackage.ParseVersionFile models both.
  - `CreateMockDatabase`.

Modules, one per file:
- Wrappers, Collections (map range, `sort.Slice`).
- Models, UserStore, PassportStore, MockDb, LegacyDb.
- Http, Net, Middleware, HttpServer.
- Text, SemverRegex, VersionParser, MainPackage.

Parameters stand in for code that cannot be seen or is not deterministic:
- the 16 bytes `crypto/rand` fills;
- the verdict of `rate.Limiter.Allow`;
- the effect of the route handler (the headers it sets and the status codes it writes);
- the outcome of reading the VERSION file.

## Model

| member | source | states |
|---|---|---|
| UserStore.UserService.constructor | internal/passport/db_user.go:22-27 | NewUserService keeps the given map and counter as the store's state |
| UserStore.UserService.ListUsers | internal/passport/db_user.go:30-39 | one entry per stored user: each user appears as often as there are ids holding it; ordered by id, strictly increasing ids when the store is valid |
| UserStore.UserService.GetUser | internal/passport/db_user.go:42-48 | the stored user for a present id; the zero user and "user %d not found" for an absent one |
| UserStore.UserService.AddUser | internal/passport/db_user.go:51-56 | the caller's id is ignored; the counter advances by one and the user is stored and returned under it; the new id is fresh and larger than every stored id; validity is kept |
| UserStore.UserService.UpdateUser | internal/passport/db_user.go:59-65 | a present id has its whole record replaced; an absent id leaves the map as it was and reports not found; the counter never changes |
| UserStore.UserService.DeleteUser | internal/passport/db_user.go:68-74 | a present id is removed and nothing else; an absent id reports not found; the counter is kept |
| UserStore.CreateMockDataSet | internal/passport/db_user.go:77-96 | the seed holds keys 0 and 1, each user under its own id, and the counter is 1 |
| UserStore.NewSeededService | internal/passport/server.go:63 | the test server's user store is John Doe and Jane Doe with counter 1, and is valid |
| UserStore.AddToSeededStore | internal/passport/db_user_test.go:37-51 | adding to the seeded store gives id 2, and the listing is then the three users in id order |
| UserStore.DeleteTwice | internal/passport/db_user.go:68-74 | deleting the same id twice succeeds and then reports not found |
| UserStore.AddDeleteAdd | internal/passport/db_user.go:51-74 | ids handed out strictly increase and are never reused, even after deleting the last one |
| Collections.Values | internal/passport/db_user.go:32-34 | the map-range loop yields every stored value once per key, in an order it picks: each value as often as there are keys holding it |
| Collections.SortSlice | internal/passport/db_user.go:35-37 | sort.Slice with a strict weak ordering: the slice ends sorted and is a permutation of what it held |
| Collections.ReorderedValues | internal/passport/db_user.go:30-39 | a sorted (or any) reordering of the range loop's output has one entry per key, exactly the map's values as members, and each value as often as there are keys holding it |
| Collections.ReorderedKeyedValues | internal/passport/db_user.go:30-39 | when every value carries its own key, no key shows twice in the listing |
| PassportStore.StringLessIrreflexive | internal/passport/db_passport.go:38-40 | string `<` is irreflexive |
| PassportStore.StringLessTransitive | internal/passport/db_passport.go:38-40 | string `<` is transitive |
| PassportStore.StringLessTotal | internal/passport/db_passport.go:38-40 | two different strings are ordered one way or the other |
| PassportStore.IdLessIsStrictWeakOrder | internal/passport/db_passport.go:38-40 | the less function handed to sort.Slice is a strict weak ordering, as sort.Slice demands |
| PassportStore.OwnedBy | internal/passport/db_passport.go:31-37 | the passports the filter keeps are exactly those whose userId matches |
| PassportStore.FilterByOwner | internal/passport/db_passport.go:31-37 | the map-range filter yields each owned passport once, by key |
| PassportStore.OwnedListing | internal/passport/db_passport.go:28-42 | any reordering of the filter's output has exactly the owned passports as members, each as often as there are owned keys holding it |
| PassportStore.SortedKeyedListing | internal/passport/db_passport.go:28-42 | a sorted reordering of a valid store's listing has strictly increasing ids |
| PassportStore.PassportService.constructor | internal/passport/db_passport.go:21-25 | NewPassportService keeps the given map |
| PassportStore.PassportService.ListPassportsByUser | internal/passport/db_passport.go:28-42 | a stored passport is listed iff its userId matches; each one appears as often as there are matching ids holding it; ordered by id, strictly when valid; the store is unchanged |
| PassportStore.PassportService.GetPassport | internal/passport/db_passport.go:45-51 | the stored passport, or the zero passport and "passport %q not found" |
| PassportStore.PassportService.AddPassport | internal/passport/db_passport.go:54-60 | a new id is stored and returned; a taken id gives the zero passport and "already exists", with the map unchanged |
| PassportStore.PassportService.UpdatePassport | internal/passport/db_passport.go:63-69 | a present id has its record replaced; an absent one reports not found and changes nothing |
| PassportStore.PassportService.DeletePassport | internal/passport/db_passport.go:72-78 | a present id is removed and nothing else; an absent one reports not found |
| PassportStore.CreateMockPassportDataSet | internal/passport/db_passport.go:81-102 | the seed has the two passports "012345678" (user 0) and "987654321" (user 1), each under its own id |
| PassportStore.NewSeededService | internal/passport/server.go:64 | the test server's passport store is that seed, and is valid |
| PassportStore.ListSeededOwner | internal/passport/db_passport_test.go:12-18 | listing user 0 of the seed gives exactly its one passport |
| PassportStore.ListSeededStranger | internal/passport/db_passport_test.go:20-25 | listing a user without passports gives the empty list |
| PassportStore.AddDuplicate | internal/passport/db_passport_test.go:58-68 | adding a seeded id again reports "already exists" and keeps the stored passport |
| PassportStore.AddThenGet | internal/passport/db_passport_test.go:41-56 | a passport just added is read back unchanged |
| PassportStore.DeleteThenGet | internal/passport/db_passport_test.go:98-106 | a deleted passport is no longer found |
| MockDb.MockDB.constructor | helpers.go:61 | the composite literal keeps the given map and counter |
| MockDb.MockDB.ListUsers | data/database.go:27-33 | one entry per stored user: each user appears as often as there are ids holding it; distinct ids when valid; no order is promised; never an error |
| MockDb.MockDB.GetUser | data/database.go:36-42 | the stored user, or the zero user and "Failure trying to retrieve user" |
| MockDb.MockDB.AddUser | data/database.go:45-50 | the counter advances and the user is stored and returned under it; never an error; validity is kept |
| MockDb.MockDB.UpdateUser | data/database.go:53-61 | a present id has its record replaced; an absent one gives "Failure trying to update user" and changes nothing |
| MockDb.MockDB.DeleteUser | data/database.go:64-71 | a present id is removed; an absent one gives "Failure trying to delete user" |
| LegacyDb.Database.constructor | main.go:33-36 | the store keeps the given map and counter |
| LegacyDb.Database.List | main.go:39-47 | a map with the single key "users", whose list holds every stored user once per id holding it |
| LegacyDb.Database.Get | main.go:50-57 | the stored user, or the zero user and "User does not exist" |
| LegacyDb.Database.Add | main.go:60-71 | the counter advances; the four fields are copied into a user with the new id, which is stored and returned |
| LegacyDb.Database.Delete | main.go:74-82 | (true, nil) and removal for a present id; (false, "Could not delete this user") otherwise |
| LegacyDb.Database.Update | main.go:85-94 | as written: the map is unchanged and the old record is returned, or the zero user and "User does not exist" |
| LegacyDb.Database.UpdateReplacing | main.go:85-94 | as intended: a present id has its record replaced by the new one, which is returned |
| LegacyDb.Init | main.go:155-160 | the seed holds John Doe and Jane Doe under ids 0 and 1, with counter 1 |
| LegacyDb.AddAfterInit | database_test.go:45-60 | adding to the seed gives id 2 and a list of three |
| LegacyDb.DeleteAfterInit | database_test.go:95-106 | deleting seeded id 1 succeeds; deleting the absent id 10 fails with "Could not delete this user" |
| LegacyDb.UpdateKeepsOldRecord | main.go:85-94 | the as-written Update returns "Doe", not the "2 Doe" it was given |
| LegacyDb.UpdateStoresNewRecord | database_test.go:62-80 | the corrected update returns and stores the renamed record |
| LegacyDb.UpdateAbsent | main.go:85-94 | both versions report "User does not exist" for an unknown id |
| Net.SplitHostPort | internal/passport/middleware.go:98-101 | on success the port has no colon or bracket, the host has no bracket, and the input is host:port or [host]:port; without a colon, "missing port" |
| Net.JoinHostPort | internal/passport/middleware.go:98 | the partner of the SplitHostPort call: Go's net.JoinHostPort, which brackets the host exactly when it contains a colon; the source never calls it |
| Net.SplitJoin | internal/passport/middleware.go:98-101 | splitting a joined pair gives the pair back |
| Net.JoinSplit | internal/passport/middleware.go:98-101 | joining a split address and splitting again gives the same split |
| Middleware.Hex | internal/passport/middleware.go:30 | `%x` of a byte slice: two lowercase hex digits per byte |
| Middleware.UnhexHex | internal/passport/middleware.go:30 | hex rendering loses nothing: decoding it gives the bytes back |
| Middleware.HexAppend | internal/passport/middleware.go:30 | rendering a concatenation is concatenating the renderings |
| Middleware.GenerateID | internal/passport/middleware.go:27-31 | 36 characters, dashes exactly at positions 8, 13, 18 and 23, lowercase hex everywhere else |
| Middleware.GenerateIDDecodes | internal/passport/middleware.go:27-31 | with the dashes removed (Undashed), the id is the hex of the 16 bytes and decodes back to them |
| Middleware.GenerateIDInjective | internal/passport/middleware.go:27-31 | different random bytes give different ids |
| Middleware.RequestIdFor | internal/passport/middleware.go:16-25 | never empty; the inbound X-Request-ID when present, a generated one otherwise |
| Middleware.ClientIP | internal/passport/middleware.go:94-103 | X-Forwarded-For when non-empty; else the host part SplitHostPort gives for RemoteAddr; else RemoteAddr itself when it does not split |
| Middleware.ClientIPOfJoinedAddress | internal/passport/middleware.go:94-103 | for a RemoteAddr built from host and port, the client IP is the host |
| Middleware.ClientIPForwarded | internal/passport/middleware_test.go:105-109 | a forwarded header is returned verbatim, list and all |
| Middleware.ClientIPFromRemoteAddr | internal/passport/middleware_test.go:111-115 | "192.168.1.1:9999" gives "192.168.1.1" |
| Middleware.ClientIPFromIPv6RemoteAddr | internal/passport/middleware.go:98-102 | "[::1]:80" gives "::1" |
| Middleware.ClientIPFallback | internal/passport/middleware_test.go:117-121 | an address without a port is returned whole |
| Middleware.CorsHeaders | internal/passport/middleware.go:37-39 | the three CORS headers are set to the origins, the method list and the header list; other headers are kept |
| Middleware.Limiter.constructor | internal/passport/middleware.go:74 | rate.NewLimiter keeps the rate and burst |
| Middleware.RateLimiter.constructor | internal/passport/middleware.go:61-67 | an empty client map with the given rate and burst |
| Middleware.RateLimiter.GetLimiter | internal/passport/middleware.go:69-78 | a known IP gets its existing limiter with the map unchanged; an unknown one gets a fresh limiter with the shared rate and burst, added under that IP only |
| Middleware.RateLimiter.Admit | internal/passport/middleware.go:80-92 | the verdict is Allow on the limiter of the request's client IP, which is then in the map |
| HttpServer.NewServer | internal/passport/server.go:38-58 | the stores and options are carried over; a limiter exists exactly when RateLimit > 0, with that rate and burst |
| HttpServer.NewTestServer | internal/passport/server.go:61-72 | version "0.0.0", env "LOCAL", port "3001", no CORS, no limiter; the user store holds exactly John Doe under 0 and Jane Doe under 1, the passport store exactly "012345678" and "987654321"; both valid |
| HttpServer.Addr | internal/passport/server.go:109-114 | "localhost" joined with the port in LOCAL, an empty host otherwise |
| HttpServer.AddrSplits | internal/passport/server.go:109-114 | the listen address splits back into that host and the port |
| HttpServer.TestServerAddr | internal/passport/server_test.go:12-15 | the test server listens on "localhost:3001" without a limiter |
| HttpServer.ConfiguredServers | internal/passport/server_test.go:17-29 | a non-LOCAL server with a positive rate listens on ":8080" and is limited |
| HttpServer.Chain | internal/passport/server.go:117-130 | request ID first, logger second, security headers and clacks last; the limiter present iff configured; CORS present iff origins are set, with those origins; the limiter runs before CORS |
| HttpServer.BuildMiddleware | internal/passport/server.go:117-130 | wrapping the route in the source's order yields that chain |
| HttpServer.Handle | internal/passport/server.go:117-171 | codes already written are kept, and the route runs at most once |
| HttpServer.RouteReachedIffAllPass | internal/passport/server.go:117-171 | the route runs iff every layer lets the request through |
| HttpServer.RouteReached | internal/passport/middleware.go:41-44 | through the built chain, the route runs iff the limiter allows and the request is not a preflight |
| HttpServer.LayerHeaders | internal/passport/server.go:158-171 | the headers the passing layers set: X-Request-ID, nosniff, DENY, the clacks header, and the CORS origin when configured |
| HttpServer.RateLimitedRequest | internal/passport/middleware.go:80-92 | a refused request gets 429 "rate limit exceeded" with only the request ID set, is logged with 429, and never reaches the route |
| HttpServer.PreflightRequest | internal/passport/middleware.go:34-49 | an OPTIONS request with CORS on gets 204 with the CORS headers and no security headers, and never reaches the route |
| HttpServer.NormalRequest | internal/passport/server.go:117-171 | any other request reaches the route once, with every layer's headers, and is logged with the route's last status |
| HttpServer.NormalRequestHeaders | internal/passport/server.go:158-171 | headers the route does not touch reach the client as the layers set them |
| HttpServer.ResponseWriter.constructor | internal/passport/server.go:146 | the wrapper starts at 200 over the given writer |
| HttpServer.ResponseWriter.WriteHeader | internal/passport/server.go:138-141 | the code is recorded and passed on; the recorded status is always the last code written |
| Http.StatusCode | internal/passport/middleware.go:42 | the status the client gets is the first code written, or 200 when none is |
| Http.FirstCodeWins | internal/passport/server.go:140 | once a code has been written, later WriteHeader calls do not change the client's status |
| Http.Recorded | internal/passport/server.go:138-141 | the status the logging wrapper holds is the last code written, or 200 when none is |
| Http.LastCodeRecorded | internal/passport/server.go:138-141 | after a WriteHeader call the wrapper holds that call's code |
| Http.Recorder.WriteHeader | internal/passport/server.go:140 | the code is appended to the calls the underlying writer has seen, and nothing else changes |
| HttpServer.WriteHeaderTwice | internal/passport/server.go:138-141 | writing 404 then 500 sends 404 to the client but logs 500 |
| HttpServer.Serve | internal/passport/server.go:117-156 | serving a request through the built chain is Handle over it; the limiter decides only when configured, on the client IP's limiter; a known IP keeps the table as it was, an unknown one adds exactly a fresh limiter under that IP and keeps the others; validity is kept; the route runs iff allowed and not a preflight |
| Text.TrimLeft | pkg/version/parser.go:16 | the remaining suffix starts with a kept character, and everything cut is a cut character |
| Text.TrimRight | pkg/version/parser.go:16 | the remaining prefix ends with a kept character, and everything cut is a cut character |
| Text.Trim | util.go:18 | a middle slice of the input, starting and ending with kept characters, with only cut characters outside it |
| Text.TrimPadded | util.go:18 | padding made of cut characters around a text that does not start or end with one is removed, and nothing else |
| Text.TrimIdempotent | util.go:18 | trimming twice is trimming once |
| Text.IsSpace | pkg/version/parser.go:16 | unicode.IsSpace, the white space TrimSpace cuts: it includes the newline and the space the root package trims |
| Text.TrimSpace | pkg/version/parser.go:16 | strings.TrimSpace: the result neither starts nor ends with white space, and is a middle slice of the input with only white space outside it |
| Text.TrimSpaceFixed | pkg/version/parser.go:16 | a string with no white space at either end is its own TrimSpace |
| SemverRegex.DigitSpan | pkg/version/parser.go:18 | the longest prefix of digits |
| SemverRegex.Split | pkg/version/parser.go:18 | pieces without dots that join back to the input |
| SemverRegex.ParseTail | pkg/version/parser.go:18 | the optional pre-release and build groups, which must make up all of the rest |
| SemverRegex.ParseCore | pkg/version/parser.go:18 | three numbers without leading zeros, dot-separated, and what follows them |
| SemverRegex.Parse | pkg/version/parser.go:18 | a parse result is well-formed and renders to the input |
| SemverRegex.Matches | pkg/version/parser.go:18-19 | true iff the string is the rendering of some well-formed version |
| SemverRegex.ParseRender | pkg/version/parser.go:18 | every rendering is parsed back to the version it came from |
| SemverRegex.RenderInjective | pkg/version/parser.go:18 | the expression is unambiguous: two versions render alike iff they are equal |
| SemverRegex.RenderEnds | pkg/version/parser.go:18 | a rendering starts with "v" or a digit and ends with an identifier character |
| SemverRegex.AcceptsPlainAndPrefixed | pkg/version/parser_test.go:12-30 | "1.0.0" and "v2.3.4" match |
| SemverRegex.AcceptsPrerelease | pkg/version/parser_test.go:32-40 | "1.0.0-beta.1" matches |
| SemverRegex.AcceptsPrereleaseAndBuild | pkg/version/parser.go:18 | "1.0.0-rc.1+sha.5114f85" matches |
| SemverRegex.AcceptsLeadingZeroPrerelease | pkg/version/parser.go:18 | "1.0.0-01" matches, unlike under Semantic Versioning 2.0.0 |
| SemverRegex.RejectsUppercaseIdentifier | pkg/version/parser.go:18 | "1.0.0-Beta" does not match, unlike under Semantic Versioning 2.0.0 |
| SemverRegex.RejectsEmptyIdentifier | pkg/version/parser.go:18 | "1.0.0-" does not match |
| SemverRegex.RejectsTrailingNewline | pkg/version/parser.go:18 | "1.0.0\n" does not match: `$` is the end of the text |
| SemverRegex.RejectsNonDigitStart | pkg/version/parser.go:18 | a string starting with neither "v" nor a digit does not match |
| SemverRegex.RejectsWord | pkg/version/parser_test.go:48-56 | "not-a-version" does not match |
| SemverRegex.RejectsEmpty | pkg/version/parser_test.go:58-65 | the empty string does not match |
| SemverRegex.RejectsLeadingZero | pkg/version/parser.go:18 | "01.0.0" does not match |
| SemverRegex.RejectsMissingPatch | pkg/version/parser.go:18 | "1.0" does not match |
| VersionParser.ParseVersionFile | pkg/version/parser.go:11-27 | a read failure is passed on; otherwise success iff the TrimSpace'd contents match, returning them with white space trimmed from both ends; otherwise "not a valid version number" naming the trimmed text |
| VersionParser.AcceptsPadded | pkg/version/parser.go:16-26 | any version with white space around it is accepted and returned bare |
| VersionParser.Idempotent | pkg/version/parser.go:16-26 | a returned version, fed back in, is accepted as itself |
| VersionParser.AcceptsPlainFile | pkg/version/parser_test.go:12-20 | "1.0.0\n" gives "1.0.0" |
| VersionParser.AcceptsPrefixedFile | pkg/version/parser_test.go:22-30 | "v2.3.4\n" gives "v2.3.4" |
| VersionParser.AcceptsPrereleaseFile | pkg/version/parser_test.go:32-40 | "1.0.0-beta.1\n" gives "1.0.0-beta.1" |
| VersionParser.AcceptsLeadingTab | pkg/version/parser.go:16 | "\t1.0.0" gives "1.0.0" |
| VersionParser.RefusedFiles | pkg/version/parser_test.go:42-65 | "not-a-version\n" and "\n" are refused; a failed read reports the read error |
| MainPackage.ParseVersionFile | util.go:12-29 | a read failure is passed on; otherwise success iff the contents with `\n` and then `' '` trimmed match, returning that text; otherwise the bare "not a valid version number" |
| MainPackage.AcceptsPadded | util.go:18-28 | any version with spaces around it and newlines around those is accepted and returned bare |
| MainPackage.Idempotent | util.go:18-28 | a returned version, fed back in, is accepted as itself |
| MainPackage.AcceptedByBoth | util.go:18 | whatever the root package accepts, pkg/version accepts with the same result |
| MainPackage.AcceptsPlainFile | util.go:18-28 | "1.0.0\n" gives "1.0.0" |
| MainPackage.RefusesUntrimmedStart | util.go:18-27 | a file starting and ending with neither newline nor space, and not starting with "v" or a digit, is refused |
| MainPackage.RefusesLeadingTab | util.go:18 | "\t1.0.0" is refused here but accepted by pkg/version |
| MainPackage.RefusesSpaceBeforeNewline | util.go:18 | " \n1.0.0" is refused: the newline trim runs first, so `\n` behind a space stays |
| MainPackage.CreateMockDatabase | helpers.go:55-62 | a fresh valid store holding John Doe under 0 and Jane Doe under 1 with counter 1: exactly internal/passport's CreateMockDataSet |
| MainPackage.SameSeed | internal/passport/db_user.go:77-96 | internal/passport's CreateMockDataSet is John Doe and Jane Doe under 0 and 1 with counter 1, the data CreateMockDatabase stores |

## Left out

- File reading. `os.ReadFile` and `ioutil.ReadFile` are replaced by a parameter that holds what the read produced.
- The regexp compile and match error branch (pkg/version/parser.go:20-22, util.go:22-24). The expression is a constant that compiles, so that branch cannot happen.
- Error text. Error wrapping (`%w`, `stacktrace.Propagate`) and message formatting are not modelled. Errors are datatype values or the literal message the source builds.
- `Run`/`StartServer`: the listener, timeouts, signal handling and shutdown, which are I/O and concurrency.
- Concurrency. The mutex in `rateLimiter` and every other form of concurrency are left out. The model is sequential.
- The token-bucket arithmetic of `rate.Limiter`. `Allow` is a parameter: the oracle `allow` in `RateLimiter.Admit`, `env.allowed` in `Handle`.
- `crypto/rand`. The 16 bytes are a parameter. The ignored error of `rand.Read` is not modelled.
- The slog log line. The model records the method, path, status and request ID; the duration and the logger itself are left out.
- The route handlers, the routes, and `respond`'s JSON encoding.
  - handlers.go and routes.go are not part of this model.
  - A route is an abstract effect: the headers it sets and the codes it writes.
  - The 429 body is the status and the message; the Content-Type header `respond` sets is not modelled.
- HTTP headers. Header names are used as written: Go's canonicalization of header keys and multi-valued headers are not modelled. `Header.Get` returns "" for a missing key, as Go does.
- `net.SplitHostPort` edge cases beyond what `clientIP` reaches. Bracket errors are reported as one AddrError per kind, and the error text is not modelled.
- Integer width. Ids and counters are unbounded integers; the wrap-around of Go's `int` after 2^63-1 additions is not modelled.
- Aliasing. Go maps are reference values: a store built from a map shares it with the caller. The model copies the map into the store's field.
- The root package's own DataStorer and MockDB (database.go:4-16). Their methods are not part of this model; `MockDb.MockDB` has the same two fields and stands for that type, which helpers.go:55-61 builds.
- `LoadFixturesIntoMockDatabase` (data/util.go). It is file I/O plus JSON decoding.
- Identifier characters. Strings are sequences of Unicode code points. Go's byte order and code-point order agree for valid UTF-8, so string `<` is lexicographic order on code points. Invalid UTF-8 is not modelled.
- The nil-or-empty distinction of Go slices (db_passport.go:35-37 turns nil into an empty slice for JSON). A sequence has no nil, so both are the empty sequence.
- time.Time. Instants are the RFC 3339 text they were parsed from; the stores only copy them.
- MockDb.MockDB.ListUsers: promises no order, as the source does not sort.
- LegacyDb: database_test.go was written against a later revision of the store (time-typed dates, a two-result List). Its update test is used only as the statement of intent in the finding below.

## Findings

| source | as written | input that shows it | evidently intended | confidence | as-written member | corrected member |
|---|---|---|---|---|---|---|
| main.go:85-94 | Update looks up the stored record and writes it back, so the map is unchanged and the old record is returned | Update of User{0, "John", "2 Doe", "31-12-1985", "Southend"} on the seeded store returns last name "Doe" (database_test.go:62-80 expects "2 Doe") | store the given record under its id and return it | not executed | LegacyDb.UpdateKeepsOldRecord | LegacyDb.UpdateStoresNewRecord |
