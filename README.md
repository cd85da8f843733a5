# Greenlight request core in Dafny

A verified model of the request-handling core of the Greenlight JSON API
(a Go service): the field validator, the listing filters, the `"<n> mins"`
runtime codec, permission membership, the query-string readers, the
middleware (per-IP rate limiter, bearer-token authentication, the
authenticated/activated/permitted guard chain, CORS) and the handler that
issues authentication tokens.

Files, one Dafny module each:

- `validator.dfy` (`Validator`): the `Validator` class over its error map,
  the pure maps `Added`/`Checked`/`AddedAll` that specify it, and `Unique`, `In`.
- `filters.dfy` (`Filters`): `ValidateFilters`, `SortColumn`, `SortDirection`,
  `Limit`, `Offset` (with Go's 64-bit wrap-around written out).
- `runtime.dfy` (`RuntimeCodec`): `MarshalJSON`, the decoder `ParseRuntime`, and
  the `Runtime` variable that `UnmarshalJSON` overwrites in place.
- `permissions.dfy` (`Permissions`): `Include`.
- `helpers.dfy` (`Helpers`): `ReadIDParam`, `ReadString`, `ReadCSV`, `ReadInt`.
- `middleware.dfy` (`Middleware`): the `RateLimiter` class, `Authenticate`,
  the guards, `EnableCORS`.
- `tokens.dfy` (`Tokens`): `CreateAuthenticationToken`.
- Support: `text.dfy` (`strings.Split`/`Join`/`HasPrefix`/`TrimPrefix`),
  `decimal.dfy` (`%d` formatting and `strconv.ParseInt`), `data.dfy` (users,
  principals, tokens, store errors), `http.dfy` (headers, the response
  writer, requests), `wrappers.dfy` (`Option`, `Result`).

Methods are used where the Go code changes state or loops: the validator's
`AddError` and `Check`, `ValidateFilters`, `ReadInt`, `UnmarshalJSON`, the
rate limiter's request path and sweep, and the header writes of
`authenticate` and `enableCORS` change objects in place; `Unique`, `In`,
`Include`, `sortColumn` and the CORS origin scan keep their loops. The guard
chain, `authenticate`'s decision and the token handler's decision tree are
functions over their inputs, with every store call and every check defined
elsewhere in the repository passed in as a function parameter that returns a
value or a store error.

The rate limiter keeps token levels in thousandths of a token and time in
milliseconds, so the refill of two tokens per second is exact integer
arithmetic. `rateLimiter` builds every limiter as `rate.NewLimiter(2, 4)`
(cmd/api/middleware.go:79); the configured `limiter.rps` and `limiter.burst`
(cmd/api/main.go:71-72) are never read there, and the model follows the code.
The sweep removes entries idle for strictly more than three minutes, as the
`>` comparison at cmd/api/middleware.go:55 does.

## Model

| member | source | states |
|---|---|---|
| `Validator.Added` | internal/validator/validator.go:27-31 | after `AddError(k, m)` the key is present, a message already there is kept (the first one wins), a new key gets `m`, and no other key changes |
| `Validator.Checked` | internal/validator/validator.go:34-38 | `Check(true, …)` leaves the errors unchanged; `Check(false, k, m)` is exactly `AddError(k, m)` |
| `Validator.AddedAll` | internal/validator/validator.go:27-31 | recording a run of failed checks keeps every earlier message and adds exactly the keys of the failed checks |
| `Validator.AddedAllEmpty` | internal/validator/validator.go:22-24 | a fresh validator is valid after a run of checks exactly when none failed |
| `Validator.AddErrorFirstWins` | internal/validator/validator.go:27-31 | a second `AddError` for a key leaves the map unchanged, and the key keeps its first message |
| `Validator.Validator.constructor` | internal/validator/validator.go:15-19 | `New()` has no errors and is valid |
| `Validator.Validator.Valid` | internal/validator/validator.go:22-24 | `Valid()` is true exactly when the error map is empty |
| `Validator.Validator.AddError` | internal/validator/validator.go:27-31 | the error map becomes `Added(old errors, key, message)` |
| `Validator.Validator.Check` | internal/validator/validator.go:34-38 | the error map becomes `Checked(old errors, ok, key, message)` |
| `Validator.Unique` | internal/validator/validator.go:47-55 | true exactly when no string occurs twice in the list |
| `Validator.In` | internal/validator/validator.go:58-66 | true exactly when some element of the list equals the value |
| `Filters.FilterErrors` | internal/data/filters.go:17-23 | a `page` error exactly when page <= 0 or page > 10,000,000, a `page_size` error exactly when the size is <= 0 or > 100, a `sort` error exactly when the key is not in the safelist, with the messages of the first failing check; only these three keys are added and no earlier message changes |
| `Filters.ValidateFilters` | internal/data/filters.go:17-23 | the validator's errors become `FilterErrors` of the old errors |
| `Filters.NoSortErrorMeansSafe` | internal/data/filters.go:22-34 | when validation recorded no `sort` error, the key is in the safelist, so `sortColumn` cannot panic |
| `Filters.SortColumn` | internal/data/filters.go:26-34 | requires the key in the safelist (Go panics otherwise); returns the key with one leading `-` removed, if it has one |
| `Filters.SortDirection` | internal/data/filters.go:37-43 | `DESC` exactly when the key starts with `-`, otherwise `ASC` |
| `Filters.Limit` | internal/data/filters.go:46-48 | the limit is the page size |
| `Filters.Wrap64` | internal/data/filters.go:51-53 | the wrapped value is congruent to the exact one modulo 2^64 and equals it when it fits in 64 bits |
| `Filters.Offset` | internal/data/filters.go:51-53 | the offset is congruent to (page-1)*size modulo 2^64 and equals it whenever the product fits in 64 bits |
| `Filters.OffsetOfValidFilters` | internal/data/filters.go:51-53 | for 1 <= page <= 10,000,000 and 0 <= size <= 100 the offset is exactly (page-1)*size, with no wrap-around, and non-negative |
| `Filters.ValidatedFiltersAreSafe` | internal/data/filters.go:17-53 | filters that pass validation have a safelisted sort key, a positive limit and a non-negative offset |
| `RuntimeCodec.Quote` | internal/data/runtime.go:19 | quoting plain text gives a string that unquotes to that text |
| `RuntimeCodec.Unquote` | internal/data/runtime.go:24-27 | succeeds only on a double-quoted string, returning the text between the quotes, which holds no quote, backslash or newline |
| `RuntimeCodec.MarshalJSON` | internal/data/runtime.go:16-21 | never fails, and yields a quoted string whose content is the decimal value followed by ` mins` |
| `RuntimeCodec.ParseRuntimeExactly` | internal/data/runtime.go:23-42 | decoding succeeds exactly on a quote, a base-10 int32 numeral, ` mins`, a quote, and yields the numeral's value; anything else is `ErrInvalidRuntimeFormat` |
| `RuntimeCodec.ParseRuntime` | internal/data/runtime.go:23-42 | every accepted input is a quote, a base-10 int32 numeral, ` mins` and a quote, and decodes to the numeral's value |
| `RuntimeCodec.RuntimeFormatDecodes` | internal/data/runtime.go:23-42 | every input of that shape is accepted with the numeral's value |
| `RuntimeCodec.MarshalRoundTrip` | internal/data/runtime.go:16-42 | decoding the output of `MarshalJSON(n)` succeeds with `n`, for every int32 `n` |
| `RuntimeCodec.DoubleSpaceRejected` | internal/data/runtime.go:29-32 | `"90  mins"` (two spaces) splits into three parts and is rejected |
| `RuntimeCodec.Runtime.UnmarshalJSON` | internal/data/runtime.go:23-42 | on success the variable holds the decoded value; on every error it returns `ErrInvalidRuntimeFormat` and the variable keeps its old value |
| `Permissions.Include` | internal/data/permissions.go:15-23 | true exactly when some element of the list equals the code |
| `Permissions.EmptyIncludesNothing` | internal/data/permissions.go:15-23 | an empty list includes no code |
| `Permissions.IncludeIgnoresOrderAndDuplicates` | internal/data/permissions.go:15-23 | two lists with the same codes, in any order and with any repetition, include the same codes |
| `Permissions.IncludeExtended` | internal/data/permissions.go:15-23 | a list extended by `c` includes `code` exactly when the list did or `c == code` |
| `Decimal.ParseInt` | internal/data/runtime.go:34-37 | `strconv.ParseInt(s, 10, bits)` succeeds only on an optional sign followed by at least one digit, with a value in the signed range of the width, and returns the value the sign and digits denote |
| `Decimal.ParseIntOfNumeral` | internal/data/runtime.go:34-37 | conversely, every optional `+` or `-` followed by one or more digits, leading zeros included, parses to the value it denotes when that fits the width and fails when it does not |
| `Decimal.FormatInt` | internal/data/runtime.go:17 | `%d` writes a minus sign exactly for negative values, then digits with no leading zero that denote the magnitude |
| `Decimal.DigitsRoundTrip` | internal/data/runtime.go:17 | the digits `%d` prints for a natural number denote that number |
| `Decimal.ParseFormatRoundTrip` | internal/data/runtime.go:17-37 | parsing the `%d` text of any value of the width gives the value back |
| `Text.Split` | cmd/api/helpers.go:121 | `strings.Split` always returns at least one piece |
| `Text.JoinSplit` | cmd/api/helpers.go:121 | joining the pieces with the separator gives back the input |
| `Text.SplitCount` | cmd/api/helpers.go:121 | there is one more piece than there are separators |
| `Text.SplitPiecesLackSep` | cmd/api/helpers.go:121 | no piece contains the separator |
| `Text.SplitJoin` | cmd/api/helpers.go:121 | splitting the join of separator-free pieces gives the pieces back |
| `Text.SplitInTwo` | cmd/api/middleware.go:115-116 | splitting gives exactly `[a, b]` when the text is `a`, the separator, `b`, with no separator in `a` or `b` |
| `Text.HasPrefixExactly` | internal/data/filters.go:38 | `strings.HasPrefix` holds exactly when the text is the prefix followed by some rest |
| `Text.TrimPrefix` | internal/data/filters.go:29 | removes the prefix once when present, and otherwise returns the text unchanged |
| `Http.FirstValue` | cmd/api/helpers.go:104 | `url.Values.Get`, and `Header.Get` at cmd/api/middleware.go:104, give the first value of the key, or "" when there is none |
| `Http.HeaderAdd` | cmd/api/middleware.go:102 | appends a value to one header and changes no other |
| `Http.HeaderSet` | cmd/api/middleware.go:216 | replaces one header's values by a single value and changes no other |
| `Http.ResponseWriter.constructor` | cmd/api/middleware.go:99-102 | a response starts with no headers and no status written |
| `Http.ResponseWriter.Add` | cmd/api/middleware.go:102 | `w.Header().Add` appends the value to that header, leaves every other header and the status unchanged |
| `Http.ResponseWriter.Set` | cmd/api/middleware.go:216-219 | `w.Header().Set` replaces that header's values by the one value, leaves every other header and the status unchanged |
| `Http.ResponseWriter.WriteHeader` | cmd/api/middleware.go:220 | the first status written is kept and a later call changes nothing; a code outside 100-999, on which net/http panics, is excluded; the headers are unchanged |
| `Helpers.ReadIDParam` | cmd/api/helpers.go:18-26 | succeeds exactly when the parameter is a base-10 int64 of at least 1, returning it; otherwise 0 and `invalid id parameter` |
| `Helpers.ReadIDParamOfFormatted` | cmd/api/helpers.go:18-26 | every positive int64 written in decimal reads back as that id; zero and negatives are refused |
| `Helpers.ReadString` | cmd/api/helpers.go:102-111 | the default exactly when the query value is empty or absent, otherwise the value unchanged |
| `Helpers.ReadCSV` | cmd/api/helpers.go:114-122 | the default for an empty value; otherwise comma-free pieces, one more than the commas, that join back to the value |
| `Helpers.ReadInt` | cmd/api/helpers.go:125-139 | empty: the default, validator unchanged; not an integer: the default and `must be an integer value` added unless the key has an error; an integer: that integer, validator unchanged |
| `Middleware.NewBucket` | cmd/api/middleware.go:79 | a new limiter starts with a full burst of four tokens |
| `Middleware.Refilled` | cmd/api/middleware.go:79-85 | after t ms the level is the stored level plus 2 tokens a second (2 thousandths per ms), capped at the burst of 4; it never drops, and gains nothing when the clock has not advanced |
| `Middleware.RefillGrowth` | cmd/api/middleware.go:79-85 | between two instants a bucket gains at most the rate times the gap |
| `Middleware.Allow` | cmd/api/middleware.go:85-89 | admits exactly when a whole token has accumulated and takes one; a refusal leaves the limiter unchanged; the level stays within 0 and the burst |
| `Middleware.BucketFor` | cmd/api/middleware.go:78-80 | a request draws on its IP's existing limiter, or on a new one when there is no entry |
| `Middleware.Admit` | cmd/api/middleware.go:78-89 | the IP gets an entry if it had none, its `lastSeen` becomes now whether admitted or not, no other entry changes, and admission is the limiter's `Allow` |
| `Middleware.Swept` | cmd/api/middleware.go:54-58 | exactly the entries seen within three minutes survive, unchanged |
| `Middleware.AdmittedAtOnceIsLevel` | cmd/api/middleware.go:78-89 | of n requests at one instant exactly min(n, whole tokens held) are admitted, never more than the burst |
| `Middleware.NewClientBurst` | cmd/api/middleware.go:78-89 | a new client sending n requests at once gets min(n, 4) admitted; the fifth is refused |
| `Middleware.AdmittedOverCovered` | cmd/api/middleware.go:78-89 | over requests from one IP at non-decreasing instants, the tokens spent never exceed those held at the first instant plus the refill up to the last |
| `Middleware.WindowBound` | cmd/api/middleware.go:78-89 | requests from one IP spread over a window of w ms are admitted at most 4 + 2w/1000 times |
| `Middleware.SweepAfterRequest` | cmd/api/middleware.go:46-89 | an IP seen at time t survives a sweep at `now` exactly when now - t <= 3 minutes |
| `Middleware.RateLimiter.constructor` | cmd/api/middleware.go:40-43 | the client map starts empty |
| `Middleware.RateLimiter.Limit` | cmd/api/middleware.go:65-95 | disabled: map untouched and next runs; unparsable address: server error, map untouched; otherwise the map becomes `Admit`'s and next runs only when admitted, else 429 |
| `Middleware.RateLimiter.Sweep` | cmd/api/middleware.go:46-62 | the client map becomes `Swept` of the old map |
| `Middleware.BearerToken` | cmd/api/middleware.go:115-122 | a token is extracted only from `Bearer`, one space, and a space-free token |
| `Middleware.BearerTokenExactly` | cmd/api/middleware.go:115-122 | the header yields token t exactly when it equals `Bearer ` + t and t has no space |
| `Middleware.AuthenticateDecision` | cmd/api/middleware.go:100-146 | no header: the anonymous user, and next runs; a bad header, a token failing the shape check and a token the store does not find all give the same invalid-token answer; any other store error a server error; otherwise `Known` of the user the store returned for the token is attached and nothing else in the request changes |
| `Middleware.Authenticate` | cmd/api/middleware.go:99-147 | adds `Vary: Authorization` on every path and returns `AuthenticateDecision` |
| `Middleware.RequireAuthenticatedUser` | cmd/api/middleware.go:150-161 | requires an attached user (Go panics otherwise); next runs exactly for a non-anonymous user, otherwise authentication required |
| `Middleware.RequireActivatedUser` | cmd/api/middleware.go:164-179 | next runs exactly for an activated user; anonymous gets authentication required before the activation check; a non-activated user gets inactive account |
| `Middleware.RequirePermission` | cmd/api/middleware.go:182-204 | next runs exactly for an activated user whose fetched permissions include the code; anonymous, inactive, fetch failure and missing code give authentication required, inactive account, server error and not permitted |
| `Middleware.PermissionsFetchedOnlyForActivated` | cmd/api/middleware.go:182-204 | for a user who is not activated the outcome does not depend on the permission store |
| `Middleware.NoHeaderMeansAuthenticationRequired` | cmd/api/middleware.go:104-161 | a request without `Authorization` gets the anonymous user and is stopped by `requireAuthenticatedUser` |
| `Middleware.EnableCORS` | cmd/api/middleware.go:207-229 | both `Vary` values are always added; `Access-Control-Allow-Origin` is set only for an origin equal to a trusted one; the preflight answer, with status 200 unless a status was already written, happens exactly for a trusted origin with method OPTIONS and a non-empty `Access-Control-Request-Method`, otherwise next runs |
| `Tokens.CredentialErrors` | cmd/api/tokens.go:27-33 | the credentials are valid exactly when neither the email nor the password check failed |
| `Tokens.CreateAuthenticationToken` | cmd/api/tokens.go:13-72 | a bad body gives bad request before validation; failed validation gives the validator's errors; an unknown email and a wrong password give the same invalid-credentials answer, and only those; a token is returned with 201 under `authentication_token` exactly when the password matches and the token is minted, for the user's id with a 24-hour lifetime and the authentication scope, and encoded; each lookup, comparison, minting or encoding fault gives a server error, and only those do; bad request and failed validation happen exactly for a bad body and failed checks |
| `Tokens.ValidationFailureSkipsLookup` | cmd/api/tokens.go:20-45 | when decoding or validation fails the answer does not depend on the user lookup |
| `Tokens.NoMintWithoutMatch` | cmd/api/tokens.go:48-65 | unless the password matched, the answer does not depend on token creation |

## Left out

- cmd/api/main.go and cmd/api/server.go (flag parsing, the database pool, `expvar`, the HTTP server, signal handling and graceful shutdown) are I/O and process lifecycle.
- The routes file that composes the middleware chain is not part of this model; each middleware is modelled on its own.
- cmd/api/context.go: the user in the request context is the `principal` field of `Http.Request`; the panic when it is missing (cmd/api/context.go:26) is the precondition `r.principal.Some?` of the guards.
- `recoverPanic`, `readJSON`, `writeJSON` and `background` are Go panic recovery, the JSON library, the response writer and a goroutine; the token handler takes the outcome of `readJSON` and of encoding the response as inputs.
- The goroutine, `time.Sleep` loop and mutex around the client map: the model is sequential and `Sweep` is a method the caller invokes; interleavings of requests with each other and with the sweep are not captured.
- `golang.org/x/time/rate`: its floating-point token count and wall-clock time become exact thousandths of a token and integer milliseconds; a new limiter is modelled as a full bucket, which is what its first `Allow` sees.
- `net.SplitHostPort` is library code: `RateLimiter.Limit` takes its result as an input.
- `validator.Matches` and `EmailRX` are regular-expression library behaviour.
- `PermissionModel.GetAllForUser` and `AddForUser` (internal/data/permissions.go:31-78) are SQL queries left outside the model; `GetAllForUser` is a function parameter of the guards.
- `Users.GetForToken`, `Users.GetByEmail`, `Tokens.New`, `Password.Matches`, `ValidateTokenPlaintext`, `ValidateEmail` and `ValidatePasswordPlaintext` are defined elsewhere in the repository and are outside this model: each is a function parameter (a store call returns a value or `RecordNotFound`/`Fault`; a validation returns the checks it fails).
- The response helpers (`invalidAuthenticationTokenResponse` and the others) are defined elsewhere in the repository and are outside this model: their answers are the `Rejection` and `TokenResponse` values, without status codes or message bodies, except the 201 and the preflight 200 that the modelled code writes itself.
- `Http.Request` headers are assumed to be keyed by canonical names; Go's key canonicalisation is not modelled.
- RuntimeCodec.Unquote: decodes no escape sequences and no back-quoted strings, rejecting them, while Go's `strconv.Unquote` accepts them (so a runtime written with a `\u0020` escape for its space decodes in Go and is rejected here); `ParseRuntime` and `Runtime.UnmarshalJSON` inherit this.
- Decimal.ParseInt: Go's syntax and range errors are one failure; every caller treats them alike.
- Go's `int` is taken to be 64 bits, as on the 64-bit platforms the service is built for; this fixes the wrap-around of `offset()` and the range `strconv.Atoi` accepts in `readInt`.
- JSON bytes are modelled as characters, so input that is not valid UTF-8 cannot be expressed.
- Middleware.RequirePermission: uses membership of the code in the fetched list, which `Permissions.Include` is proved to compute, since a function cannot call a method.
