# blog-server core, modelled in Dafny

This project models the request-handling core of the gaesemo blog server:

- **Session tokens.** It covers the JWT claims record and its getters, and
  the parse wrapper with its fixed key function. It also covers what the
  JWT library (golang-jwt v5) does with them: encoding/json fills the
  record from the token's payload, and the default validation checks the
  window at the library's own clock reading.
- **Validators.** These decide whether a request carries a usable session:
  - the bearer-token interceptor, which yields the user id as an `int64`;
  - the cookie middleware, which yields a `*int64` and lets a request
    without a cookie through.
- **Transaction wrapper.** It runs a body between begin and
  commit/rollback, and composes the errors.
- **Page cursor.** An `int64` is written in base 36 and then in base32hex.
- **The two OAuth clients for GitHub:**
  - pkg/oauth: authorization URL, code exchange and profile request;
  - pkg/oauthapp: authorization URL with a checked redirect override, and
    two methods that are not written yet.
- **`TempName`** of a profile.
- **Auth service.** It covers the client registry and its options, the
  authorization URL, the login flow and logout. The login flow runs code
  exchange, profile, find-or-create of the user in a transaction, signed
  claims, response and session cookie.
- **Older auth handler** (service_handler.go).
- **Post service:** `Create`, `List`, and the mappings `pbPost`, `pbUser`
  and `pbIdentityProvider` from database rows to protocol messages.

Everything outside the process is a parameter, so each operation is a pure
function of what it is given:

- **Clock.** A clock is a function from the index of a reading to an
  instant, in nanoseconds.
- **Random strings.** A generator is a function from the index of a call to
  the string returned.
- **Configuration.** The configuration is a function from key to value.
- **JWT library.** Reading a token with a key is a function of the two.
  It gives either a "malformed" error, or the algorithm, the JSON payload
  and the error of the signature checks, if any. The RFC 3339 parser of
  `time.Time` is a parameter too. The rest is modelled:
  - decoding the payload into the claims record, with or without JSON tags
    (the `Layout`);
  - checking the validity window;
  - classifying errors as malformed, bad signature, or other.
- **Two clock readings per validation.** The library reads the clock
  first, then the validator reads it again.
- **HTTP.** The transport maps a request to its reply.
- **Database.** It is a map from key to row, plus the replies that the map
  does not determine: begin, a fault, the id of an inserted row,
  rollback/commit errors.
- **`url.Parse`.** It is a parameter.

Go's library behaviour that the contracts depend on is modelled exactly:

- `url.Values.Encode` and `url.QueryEscape`;
- `strconv.FormatInt`, and `strconv.ParseInt` for bases 2 to 36
  (overflow found while scanning wins over a later bad byte, as in Go);
- `base32.HexEncoding`;
- `net/url`'s host/port split;
- `timestamppb.New`;
- `jwt.NewNumericDate` truncating to whole seconds.

Panics (nil dereferences, a failed type assertion) are outcomes of their
own.

Modules:

| module | source |
|---|---|
| `GoTypes`, `GoStrings`, `Digits` | Go's basic types, `strings`, positional digits |
| `UrlQuery`, `Url`, `Strconv`, `Base32Hex` | `net/url`, `strconv`, `encoding/base32` as the core uses them |
| `Token` | pkg/token/token.go |
| `Connect` | connect's codes, errors and the authenticated principal |
| `Authn` | pkg/authn/interceptor.go |
| `Middleware` | pkg/middleware/auth.go |
| `Transaction` | pkg/transaction/transaction.go |
| `Cursor` | pkg/cursor/cursor.go |
| `Profile` | `UserProfile.TempName` in pkg/oauth/app.go and pkg/oauthapp/oauthapp.go |
| `OAuth2` | the `oauth2.Config` and GitHub endpoint both clients use |
| `OAuth` | pkg/oauth/github.go |
| `OAuthApp` | pkg/oauthapp/github.go |
| `Postgres`, `Proto` | the database rows and the protocol messages |
| `AuthService` | service/auth/v1/svc.go |
| `AuthHandler` | service/auth/v1/service_handler.go |
| `PostService` | service/post/v1/svc.go |

## Model

| member | source | states |
|---|---|---|
| Token.NewUserClaims | pkg/token/token.go:28-37 | fresh claims have empty audience and issuer, user id 0, and Go's zero time for all three instants |
| Token.NewWithUserClaims | pkg/token/token.go:39-41 | a new token carries the given claims, is signed with HS256, and is not yet valid |
| Token.KeyFunc | pkg/token/token.go:44-47 | the key function always answers the process-wide secret, never an error |
| Token.FieldOf | pkg/token/token.go:19-26 | the field a JSON key fills is the one whose name (Go name, or tag) equals the key up to ASCII case; no field when none does |
| Token.KeysNamingNoFieldAreSkipped | pkg/token/token.go:19-26 | a payload none of whose keys names a field leaves the record exactly as it was |
| Token.UnmarshalFirst | pkg/token/token.go:19-26 | a member whose key names a field and whose value the field holds is stored, and decoding goes on with the rest |
| Token.TagsNameTheirFields | pkg/token/token.go:19-26 | with tags, "exp", "iat", "iss", "nbf" and "uid" each fill their own field |
| Token.ShortKeysNameNoField | pkg/token/token.go:19-26 | without tags, no key shorter than six bytes fills any field, so the registered claim names fill nothing |
| Token.Verify | pkg/token/token.go:43-48 | an unreadable token is its error; a payload that does not decode into the record is "malformed", whatever the signature; otherwise the signature's error, or the decoded claims |
| Token.Validate | pkg/token/token.go:43-48 | no error iff the truncated nbf is at or before the library's instant and that instant is before the truncated exp; every error is of the "other" class |
| Token.Parse | pkg/token/token.go:43-48 | parsed iff verified and valid at the library's instant, with the verified claims; a verification error is passed on; a validation error is of the "other" class |
| Token.ParseWithClaims | pkg/token/token.go:43-54 | exactly one of token and error is nil; a library error is passed on unchanged; a parsed token carries the decoded claims and is valid |
| Token.GetAudience | pkg/token/token.go:57-59 | the stored audience, never an error |
| Token.GetExpirationTime | pkg/token/token.go:62-64 | the whole second containing the stored expiry, never an error |
| Token.GetIssuedAt | pkg/token/token.go:67-69 | the whole second containing the stored issue time, never an error |
| Token.GetIssuer | pkg/token/token.go:72-74 | the stored issuer, never an error |
| Token.GetNotBefore | pkg/token/token.go:77-79 | the whole second containing the stored activation time, never an error |
| Token.GetSubject | pkg/token/token.go:82-84 | always the empty subject, never an error |
| Token.NewNumericDate | service/auth/v1/svc.go:145-147 | a numeric date is the whole second at or below the instant |
| Token.NumericDateOfWholeSecond | service/auth/v1/svc.go:145-147 | an instant on a whole second is its own numeric date |
| Authn.Authenticate | pkg/authn/interceptor.go:21-49 | passes with the token's user id iff a bearer token is present, the library parses it at its own instant, and the interceptor's instant lies in [nbf, exp]; malformed tokens are Internal and every other refusal Unauthenticated; a library error of another class dereferences the nil token; "invalid token" never happens |
| Authn.NoBearerIsUnauthenticated | pkg/authn/interceptor.go:22-25 | without a bearer token the request is refused as unauthenticated |
| Authn.CheckOrder | pkg/authn/interceptor.go:27-46 | a bad signature is "invalid signature"; a verified token outside its window at the library's instant panics before the interceptor's own checks; a parsed token is "not yet active" or "expired" by the interceptor's instant |
| Authn.ClockOrderRefusals | pkg/authn/interceptor.go:37-46 | when the library reads the clock no later than the interceptor, "not yet active" never happens, and "expired" happens iff the expiry second ends between the two readings |
| Authn.WindowBoundaries | pkg/authn/interceptor.go:27-46 | with one instant for both readings, a token passes at its nbf second and the nanosecond before its exp second; one nanosecond before nbf, and at exp, the library refuses it and the interceptor panics |
| Authn.OtherParseErrorPanics | pkg/authn/interceptor.go:34 | a verified token the library finds expired makes the interceptor dereference a nil token |
| Authn.UnfilledClaimsPanic | pkg/authn/interceptor.go:26-34 | verified claims the payload filled nothing of keep the zero-time expiry, so at any instant from year 1 on the interceptor panics |
| Authn.AuthenticateChecked | pkg/authn/interceptor.go:21-49 | the corrected interceptor never panics and passes exactly the requests the written one passes |
| Authn.CheckedChainRejectsEveryLibraryError | pkg/authn/interceptor.go:28-36 | the corrected interceptor refuses every library error, reports only malformed tokens as Internal, and agrees with the written one wherever that one does not panic |
| Middleware.Authorize | pkg/middleware/auth.go:16-44 | no cookie lets the request through with no principal; otherwise it passes with a pointer to the user id iff the token is accepted, and the nil dereference happens on the same errors as in the interceptor |
| Middleware.AgreesWithBearerInterceptor | pkg/middleware/auth.go:22-43 | given a cookie, the middleware passes, refuses (with the same error) and panics exactly when the interceptor does for that token as bearer; the pointer targets the same id |
| Middleware.WindowBoundaries | pkg/middleware/auth.go:24-42 | with one instant for both readings, the cookie passes at its nbf second and the nanosecond before its exp second; one nanosecond before nbf, and at exp, the middleware panics |
| Middleware.OtherParseErrorPanics | pkg/middleware/auth.go:31 | a verified token the library finds expired makes the middleware dereference a nil token |
| Middleware.AuthorizeChecked | pkg/middleware/auth.go:16-44 | the corrected middleware never panics, refuses every library error, and otherwise agrees with the written one |
| Transaction.Exec | pkg/transaction/transaction.go:26-43 | a failed begin stops at once with a "beginning transaction" error; otherwise the body runs, then rollback iff it failed or commit iff it succeeded; the body's error comes first and a rollback error is appended; the result is returned only after a clean commit |
| Transaction.ExecFollowsProtocol | pkg/transaction/transaction.go:26-43 | the calls made always form a valid begin/body/end sequence that leaves the transaction closed |
| Cursor.FromInt64 | pkg/cursor/cursor.go:10-15 | the cursor is a whole number of base32hex quanta; its decoding is the base-36 text of the number |
| Cursor.MustParseInt64 | pkg/cursor/cursor.go:17-34 | a nil cursor, an empty one, a base32 error or a ParseInt error each read as 0; otherwise the number ParseInt reads from the decoded text in base 36 |
| Cursor.RoundTrip | pkg/cursor/cursor.go:10-34 | every int64, negatives included, reads back from its cursor |
| Cursor.FromInt64Injective | pkg/cursor/cursor.go:10-15 | distinct numbers give distinct cursors |
| Cursor.LowerCaseReadsAsZero | pkg/cursor/cursor.go:25-28 | a cursor starting with a lower-case letter reads as 0 |
| Base32Hex.Encode | pkg/cursor/cursor.go:12-13 | the encoding has `EncodedLen` characters |
| Base32Hex.EncodeAlphabet | pkg/cursor/cursor.go:12-13 | every encoded character is in the alphabet or is padding |
| Base32Hex.DecodeEncode | pkg/cursor/cursor.go:25 | decoding an encoding gives the bytes back |
| Base32Hex.DecodeEncodeRaw | pkg/cursor/cursor.go:25 | the decoder inverts the encoder on every byte string |
| Base32Hex.MissingPaddingIsCorrupt | pkg/cursor/cursor.go:25-28 | a single character without its padding is a decode error |
| Base32Hex.ForeignByteIsCorrupt | pkg/cursor/cursor.go:25-28 | a byte outside the alphabet is a decode error |
| Strconv.FormatInt | pkg/cursor/cursor.go:11 | a nonempty digit string, with a leading '-' exactly for negative numbers |
| Strconv.ParseInt | pkg/cursor/cursor.go:29-32 | succeeds iff after an optional sign there is at least one digit, every byte is a digit of the base, and the signed value fits an int64, and then gives that value; empty text is a syntax error; all digits but out of range is a range error; every error is syntax or range |
| Strconv.ScanMeaning | pkg/cursor/cursor.go:29 | the unsigned scan succeeds iff every byte is a digit and the value fits 64 bits, with that value; all digits but too large is an overflow |
| Strconv.StoppedScanStays | pkg/cursor/cursor.go:29 | once the scan of a prefix has stopped (a bad byte or an overflow), later bytes do not change the verdict |
| Strconv.OverflowBeforeBadByte | pkg/cursor/cursor.go:29-32 | a digit prefix that already exceeds 64 bits makes ParseInt a range error, whatever follows |
| Strconv.BadByteBeforeOverflow | pkg/cursor/cursor.go:29-32 | a bad byte after a digit prefix that still fits 64 bits makes ParseInt a syntax error, whatever follows |
| Strconv.ParseFormatUint | pkg/cursor/cursor.go:11-29 | the digits FormatUint writes are digits of the base, and their value is the number written |
| Strconv.ParseFormatInt | pkg/cursor/cursor.go:11-29 | ParseInt gives back every int64 that FormatInt wrote, in any base from 2 to 36 |
| Profile.TempName | pkg/oauth/app.go:24-26 | the name is the e-mail's prefix up to its first '@' (or the whole e-mail), and holds no '@' |
| Profile.TempNameOfAddress | pkg/oauthapp/oauthapp.go:24-26 | `local@domain` with an '@'-free local part is named `local` |
| OAuth2.ChooseRandStr | pkg/oauth/github.go:22-26 | the given generator, or the UUID generator when none is given |
| OAuth2.ScopeParamSplits | pkg/oauth/github.go:50 | splitting the joined scope at its spaces gives the configured scopes back |
| OAuth2.WithQuery | pkg/oauth/github.go:52 | the URL is the base, then '?', then a query that decodes to the pairs sorted by key |
| UrlQuery.QueryEscape | pkg/oauth/github.go:52 | escaped text holds neither '&' nor '=', so pairs cannot run into each other |
| UrlQuery.UnescapeEscape | pkg/oauth/github.go:52 | unescaping undoes escaping for every byte string |
| UrlQuery.DecodeEncode | pkg/oauth/github.go:48-52 | an encoded query decodes to its pairs sorted by key, or to the pairs themselves when their keys already ascend |
| OAuth.NewGitHub | pkg/oauth/github.go:21-38 | the credentials and callback come from their configuration keys; the GitHub endpoint, the scope "user", and the given or UUID generator |
| OAuth.GetAuthURL | pkg/oauth/github.go:47-54 | never an error; one draw from the generator; the query decodes to client_id, scope and the drawn state |
| OAuth.GitHubAuthURL | pkg/oauth/github.go:21-54 | a client built by NewGitHub sends users to GitHub's authorize page with its client id, scope "user" and its generator's draw |
| OAuth.ExchangeRequest | pkg/oauth/github.go:58-71 | a POST to the token endpoint with JSON headers and exactly client_id, client_secret and code |
| OAuth.ExchangeCode | pkg/oauth/github.go:56-99 | the access token iff the reply is a 200 that decodes; a transport, read, status or decode failure each gives its own message |
| OAuth.EmptyAccessTokenIsReturned | pkg/oauth/github.go:94-98 | a 200 without an access token yields the empty token and no error |
| OAuth.ProfileRequest | pkg/oauth/github.go:102-108 | a GET of the user resource with the bearer token and GitHub's media type |
| OAuth.GetUserProfile | pkg/oauth/github.go:101-140 | the e-mail, name and avatar of a 200 that decodes; each failure gives its own message |
| OAuth.NonOkStatusYieldsNoProfile | pkg/oauth/github.go:121-123 | a non-200 reply yields no profile, whatever its body says |
| OAuthApp.NewGitHub | pkg/oauthapp/github.go:17-34 | as pkg/oauth's client, but the callback comes from the CALLBACK_URL key |
| OAuthApp.IsValidRedirectURL | pkg/oauthapp/github.go:79-85 | the override matches iff host name and port equal the configured callback's; the mismatch message; an unparsable configured callback is a nil dereference |
| OAuthApp.AuthQuery | pkg/oauthapp/github.go:52-66 | the pairs are added in ascending key order, so encoding does not reorder them |
| OAuthApp.URLFor | pkg/oauthapp/github.go:67 | the URL's query decodes to exactly the pairs added |
| OAuthApp.GetAuthURL | pkg/oauthapp/github.go:51-69 | without an override: client_id, scope, state. An override is accepted iff it parses and matches host and port, and then appears verbatim as redirect_uri. Errors carry the "invalid redirect url" prefix and draw no state |
| OAuthApp.SchemeAndPathNotCompared | pkg/oauthapp/github.go:79-85 | two overrides with the same authority are accepted or refused alike |
| OAuthApp.PortMustMatch | pkg/oauthapp/github.go:81 | a callback with an explicit port refuses an override on the same host without one |
| Url.SplitHostPort | pkg/oauthapp/github.go:81 | the port is decimal digits after the last ':', empty when there is none |
| Url.SplitJoinHostPort | pkg/oauthapp/github.go:81 | host and explicit port split back into the two |
| OAuthApp.ExchangeCode | pkg/oauthapp/github.go:71-73 | the unwritten exchange yields the empty token and no error |
| OAuthApp.GetUserProfile | pkg/oauthapp/github.go:75-77 | the unwritten profile call yields the empty profile and no error |
| OAuthApp.StubProfileHasEmptyTempName | pkg/oauthapp/github.go:75-77 | a user logged in through the unwritten profile call would be named "" |
| AuthService.Apply | service/auth/v1/svc.go:192-199 | the option registers its client under "github" unless one already is; nothing else changes |
| AuthService.ApplyAllKeepsRegistered | service/auth/v1/svc.go:44-46 | once "github" is registered, later options change nothing |
| AuthService.New | service/auth/v1/svc.go:26-49 | no options give an empty registry; otherwise the first option's client is the only entry |
| AuthService.GetOAuthApp | service/auth/v1/svc.go:177-190 | the GitHub client iff GitHub is requested and registered; the three error messages |
| AuthService.FirstRegisteredAppServes | service/auth/v1/svc.go:26-49 | a service built with options serves the first option's client for GitHub and no other provider |
| AuthService.GetAuthURL | service/auth/v1/svc.go:68-84 | a registry error becomes Internal with its message; otherwise the client's URL with one draw |
| AuthService.GitHubAuthURLOfConfiguredService | service/auth/v1/svc.go:68-84 | a service configured with NewGitHub answers with GitHub's authorize page, scope "user" and the drawn state |
| AuthService.GetUserByEmailAndIDP | service/auth/v1/svc.go:116-122 | with no fault, a row is found iff its key is in the table, and it is that row; a fault is returned as the error |
| AuthService.NewUserRow | service/auth/v1/svc.go:124-132 | the inserted row has GitHub as provider, the profile's e-mail, name and avatar, an empty "about me", two clock readings, and no deletion |
| AuthService.Reconcile | service/auth/v1/svc.go:115-136 | the body finds an existing user or creates one. The table only grows. The user is stored under the profile's key. "New user" holds iff the key was absent. It fails exactly on a lookup fault or a failed insert |
| AuthService.IssueClaims | service/auth/v1/svc.go:143-149 | issuer "gsm", the user's id, and iat, exp (an hour on) and nbf from three consecutive clock readings, truncated to whole seconds, so all three are whole seconds |
| AuthService.SessionCookie | service/auth/v1/svc.go:159-168 | cookie "token" with the signed token, expiring an hour on, MaxAge 3600, HttpOnly, path "/", not Secure, SameSite Lax |
| AuthService.FetchProfile | service/auth/v1/svc.go:94-102 | an exchange error stops with an Internal "exchaning code" error; a profile error stops with a plain "denied" error; otherwise the profile |
| AuthService.FetchProfileChain | service/auth/v1/svc.go:94-102 | through pkg/oauth's client, the login goes on iff the token reply is a decodable 200 and the profile reply to the request carrying that access token is one too; the profile is that reply's e-mail, name and avatar |
| AuthService.IssueSession | service/auth/v1/svc.go:141-170 | the claims are read after the body's clock readings; a signing error is Internal; otherwise the response and the cookie carry the signed token |
| AuthService.Login | service/auth/v1/svc.go:86-171 | panics iff the provider has no registered client; a successful login only adds rows and issues cookie "token" with issuer "gsm"; a failed login that changed the table is an Internal error |
| AuthService.ReturningUserIsNotInserted | service/auth/v1/svc.go:116-121 | a returning user logs in with the existing row's id, the table is unchanged, and the insert plays no part |
| AuthService.FirstLoginInsertsOneUser | service/auth/v1/svc.go:123-133 | a first login adds exactly one row, under the profile's key, with the profile's data and the database's id, and reports a new user |
| AuthService.LookupFaultLosesItsError | service/auth/v1/svc.go:137-139 | a failed transaction is reported as the plain error "in login flow: <nil>", without the database's error |
| AuthService.LoginChecked | service/auth/v1/svc.go:86-171 | the corrected flow never panics, reports a registry error as Internal, and keeps the written flow's guarantees on success |
| AuthService.CheckedLoginReportsTxError | service/auth/v1/svc.go:135-139 | the corrected flow reports the database's error |
| AuthService.CheckedLoginAgrees | service/auth/v1/svc.go:86-171 | wherever the written flow neither panics nor fails its transaction, the corrected one answers the same |
| AuthService.ReconcileKeepsInvariants | service/auth/v1/svc.go:115-136 | the transaction body keeps every row under its own key, and keeps ids unique when a new row's id is fresh |
| AuthService.LoginKeepsTableInvariants | service/auth/v1/svc.go:115-136 | logins keep every row under its own key, and keep ids unique when new ids are fresh |
| AuthService.SecondLoginFindsTheUser | service/auth/v1/svc.go:115-136 | after a successful login, logging in again finds the same user with the same id and adds nothing |
| AuthService.SteadySession | service/auth/v1/svc.go:143-162 | with a clock that stands still, the issued claims have nbf equal to iat and exp an hour later; the cookie expires an hour after that instant, within the token's expiry second |
| AuthService.SteadyClockClaims | service/auth/v1/svc.go:143-168 | with a clock that stands still, nbf equals iat, exp is an hour later, and the cookie expires an hour after that instant, within the token's expiry second |
| AuthService.UntaggedClaimsMissTheSession | service/auth/v1/svc.go:143-149 | the signed payload, decoded into the untagged claims record, fills nothing: the result is `NewUserClaims()` |
| AuthService.TaggedClaimsReadTheSession | service/auth/v1/svc.go:143-149 | decoded into a record tagged with the claim names, the signed payload gives back issuer, user id and all three instants |
| AuthService.SignedSessionReadsBack | service/auth/v1/svc.go:143-150 | the token a login returns is read back as the payload of its whole-second claims, with a good signature |
| AuthService.UntaggedSessionPanics | pkg/token/token.go:19-26 | any token read back as a session payload makes both validators as written panic, from year 1 on |
| AuthService.IssuedSessionPanics | service/auth/v1/svc.go:143-150 | even when the library reads the token back as signed, the session a login issues makes the bearer interceptor and the cookie middleware panic |
| AuthService.IssuedSessionAuthenticates | service/auth/v1/svc.go:143-169 | with the record tagged, the session a login issues passes both validators with the user's id whenever both readings lie in its window |
| AuthService.Logout | service/auth/v1/svc.go:173-175 | a nil response and a nil error |
| AuthHandler.GetAuthURL | service/auth/v1/service_handler.go:27-39 | only GitHub is answered, with the bare authorize endpoint; UNSPECIFIED and unknown providers are InvalidArgument with their messages |
| AuthHandler.GitHubURLHasNoQuery | service/auth/v1/service_handler.go:32-35 | the GitHub answer carries no query at all |
| AuthHandler.UnknownProviderHasEmptyName | service/auth/v1/service_handler.go:36-37 | an example of GetAuthURL's last case: an enum value with no name is reported with an empty name |
| AuthHandler.AgreesWithService | service/auth/v1/service_handler.go:27-39 | with a GitHub client registered, handler and service refuse the same providers, as InvalidArgument and Internal respectively |
| AuthHandler.Login | service/auth/v1/service_handler.go:41-43 | a nil response and a nil error |
| AuthHandler.Logout | service/auth/v1/service_handler.go:45-47 | a nil response and a nil error |
| Proto.NewTimestamp | service/post/v1/svc.go:247-248 | whole seconds plus nanoseconds in [0, 1e9) that add up to the instant |
| Proto.TimestampRoundTrip | service/post/v1/svc.go:247-248 | no instant is lost, and a normalised timestamp comes from exactly one instant |
| Proto.ProviderNameValue | service/post/v1/svc.go:253-255 | the generated name and value tables are inverse to each other |
| PostService.PbIdentityProvider | service/post/v1/svc.go:253-255 | GitHub's name maps to GitHub and any unknown name to UNSPECIFIED |
| PostService.CreatedUsersMapToGitHub | service/post/v1/svc.go:253-255 | rows the login flow creates map back to GitHub and to GitHub's name |
| PostService.PbUser | service/post/v1/svc.go:235-251 | copies the row's fields and times; the deletion time is present iff the row is deleted |
| PostService.PbUserKeepsTheRow | service/post/v1/svc.go:235-251 | two rows with known providers that map to the same message agree on every field, except the stored time of an undeleted row |
| PostService.PbPost | service/post/v1/svc.go:222-233 | id and counters are kept; author and content are empty messages; all three timestamps are the epoch |
| PostService.PbPostKeepsOnlyCounters | service/post/v1/svc.go:222-233 | two rows map to the same message iff they agree on id, likes and views |
| PostService.MapRows | service/post/v1/svc.go:197-205 | the loop yields one message per row, in the rows' order, and the last row's id (0 when there are no rows) |
| PostService.List | service/post/v1/svc.go:186-211 | asks for 10 rows from the cursor's id; a query error is Internal "retreiving posts"; otherwise one message per row in order, and a next cursor reading back as the last row's id (0 for none) |
| PostService.NewPostRow | service/post/v1/svc.go:72-80 | the inserted post has zero counters, the author's id, the content's title and body, two clock readings, and no deletion |
| PostService.CreateBody | service/post/v1/svc.go:67-88 | succeeds iff the author exists and the insert succeeds; "user not found" and "insert new post" errors otherwise |
| PostService.AuthorMessage | service/post/v1/svc.go:97-107 | the author in the create response is pbUser of the row without a deletion time |
| PostService.CreateFor | service/post/v1/svc.go:50-112 | a nil content panics. Otherwise it creates iff the body succeeds and commits, and responds with the new post, author and content. A transaction error is Internal "creating post". The calls follow the begin/body/end protocol |
| PostService.Create | service/post/v1/svc.go:45-113 | a principal that is not an `*int64` panics before any call; a nil pointer is Unauthenticated "author not found"; otherwise it creates for the pointed-to id |
| PostService.AnonymousCreatePanics | service/post/v1/svc.go:46 | a request the cookie middleware (as written) let through without a cookie makes Create panic |
| PostService.CreateChecked | service/post/v1/svc.go:45-113 | the corrected Create refuses every principal that is not a non-nil `*int64`, and never panics when content is given |
| PostService.CreateCheckedAgrees | service/post/v1/svc.go:45-49 | for a pointer principal the corrected and the written Create agree |
| PostService.CreatedPostListsAsCounters | service/post/v1/svc.go:222-233 | a created post, when listed, shows its id and zero counters and nothing else |

## Left out

- Post service `Delete`, `Detail` and `Update`, and the logging interceptor and middleware: they are outside the modelled core.
- Reading the token from the request is a parameter: `Authenticate` takes
  the result of `authn.BearerToken` (pkg/authn/interceptor.go:22) and
  `Authorize` that of `req.Cookie("token")` (pkg/middleware/auth.go:17), as
  an `Option`. Their header parsing is not modelled; for one,
  `BearerToken` matches the "Bearer " prefix case-insensitively and gives
  an empty token for a header of exactly "Bearer ".
- The server wiring, the command line, configuration loading, the client
  and the object storage: outside the modelled core. Which validator guards
  which route is in server code that is not part of this model.
  `AnonymousCreatePanics` assumes the cookie middleware, whose principal
  type is the one `Create` asserts.
- HMAC signing and the library's reading of a token (segments, header,
  base64, signature) are parameters. Signing is a function of claims and
  key that may fail. Reading is a function of token and key.
  `IssuedSessionPanics` and `IssuedSessionAuthenticates` assume `ReadsBack`:
  the library, given the validators' key, reads every signed token as the
  payload that was signed, with a good signature. The signer's key comes
  from viper's `JWT_SIGNING_SECRET` when the login runs (svc.go:150). The
  validators' key comes from the environment variable of that name at
  start-up (pkg/token/token.go:14). With different values, every session is
  refused as a bad signature, before the decoding matters.
- JWT claims decoding models only what the session payload and the claims
  record use. Values are strings, integers, string arrays, null or other.
  Keys match field names with ASCII case folding, not Unicode folding.
  Go's exact JSON error texts are not modelled, and neither is which error
  wins when several members fail: the first failing member ends decoding.
  Duplicate keys and unknown-field handling beyond skipping are left out.
- `Token.Validate` checks only what the default validator checks for
  these claims: exp and nbf. iat is not checked, since golang-jwt v5 does
  not check it by default. Leeway and required claims are left out because
  the source sets no parser options.
- JSON encoding and decoding are left out. A reply carries its decoding
  (or the decoder's error) as a value. `json.Marshal` of the token request's
  string map cannot fail (pkg/oauth/github.go:64-67), so that branch is not
  modelled. Nor is the error of `http.NewRequest` on a constant, valid URL
  (pkg/oauth/github.go:58-62, 102-105).
- The logging calls are left out: they have no effect on results.
- The SQL of the queries is not part of this model; its generated code is
  not available. `GetUserByEmailAndIDP` is a keyed lookup in the users
  table. `GetUserById` is a lookup in a users map. `ListRecentPosts` is a
  parameter returning the rows or an error. The inserted row's id is a
  database reply.
- Postgres's microsecond rounding of timestamps, isolation levels and
  concurrent transactions: a transaction is a single sequential run.
- A panic inside a transaction body: no modelled body panics except
  through its inputs, and those are handled before `Exec`.
- `Cookie.String()` serialisation of the Set-Cookie header: the cookie's
  fields are modelled, not their text.
- `url.Parse`'s error texts and the `%q` quoting of a rejected URL are
  parameters, not Go's exact strings.
- The `IdentityProvider` enum beyond UNSPECIFIED (0) and GITHUB (1). Other
  values have no name, as in the generated table the model assumes.
- pkg/oauth/app.go's `App` interface declares a different `GetAuthURL`
  and `ExchangeCode` from those pkg/oauth/github.go implements. Its
  `UserProfile` has no `Name` field, while github.go and svc.go use one.
  The model follows github.go and svc.go: a profile has e-mail, name and
  avatar.
- `Base32Hex.DecodeString` follows Go's decoder. Input after a padded
  quantum is ignored, and so are trailing bits that do not fill a byte.
  It has no strict mode.
- `ParseInt`'s `0x`/`0o`/`0b` prefixes and underscores are left out. They
  apply only with base 0, and the cursor always passes 36.
- Strconv.ParseInt: its error is the bare reason ("invalid syntax" or
  "value out of range"), without Go's `*NumError` wrapper and its function
  name and input. The cursor discards the error, so only its class matters.
- `OAuth.GetAuthURL` and `OAuthApp.GetAuthURL`: URL escaping follows
  `url.QueryEscape` byte by byte. The URL is stated through its decoded
  query rather than as literal text.

## Findings

| source | as written | input that shows it | evidently intended | confidence | as-written member | corrected member |
|---|---|---|---|---|---|---|
| pkg/authn/interceptor.go:34 | after the malformed and bad-signature checks, `tok.Valid` is read even when the parse failed and `tok` is nil | a well-signed but expired token: the library fails with "token is expired", which is neither class, and the wrapper (pkg/token/token.go:49-52) returns a nil token with any error | refuse any parse error as unauthenticated | high (not executed) | Authn.OtherParseErrorPanics | Authn.AuthenticateChecked |
| pkg/middleware/auth.go:31 | the same nil `tok.Valid` read in the cookie middleware | a cookie holding an expired token | refuse any parse error as unauthenticated | high (not executed) | Middleware.OtherParseErrorPanics | Middleware.AuthorizeChecked |
| service/auth/v1/svc.go:91 | the registry error is discarded, and `ExchangeCode` is called on the nil client | a login with provider UNSPECIFIED, or a service built without GitHub options | return the registry error as GetAuthURL does (Internal) | high (not executed) | AuthService.Login | AuthService.LoginChecked |
| service/auth/v1/svc.go:138 | a failed transaction is wrapped with `err`, the profile call's error, which is nil there | a lookup that fails with anything but "no rows": the caller gets "in login flow: <nil>" | wrap `txErr` | high (not executed) | AuthService.LookupFaultLosesItsError | AuthService.CheckedLoginReportsTxError |
| service/post/v1/svc.go:46 | `authn.GetInfo(ctx).(*int64)` without comma-ok panics when the principal is absent or not a pointer | a create request without the session cookie, which the cookie middleware lets through with no principal | the comma-ok form, so that such requests reach the "author not found" refusal | high (not executed) | PostService.AnonymousCreatePanics | PostService.CreateChecked |
| service/auth/v1/svc.go:143-149 | the session is signed as a `jwt.MapClaims` with keys "exp", "iat", "iss", "nbf" and "uid", but the validators decode it into `UserClaims` (pkg/token/token.go:19-26), which has no JSON tags; encoding/json matches keys to the Go field names, so nothing is filled. The record keeps `NewUserClaims()`' zero-time expiry, the library refuses it as expired, and the validators read `Valid` on the nil token | any successful login, then any request carrying its token or cookie | tag the record with the claim names and use numeric dates for its instants, so that the signed claims are read back | high (not executed) | AuthService.IssuedSessionPanics | AuthService.IssuedSessionAuthenticates |
