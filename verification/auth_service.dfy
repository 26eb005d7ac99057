/**
 * The auth service (service/auth/v1/svc.go): the registry of OAuth clients
 * built from options, the authorization-URL call, and the login flow —
 * exchange the temporary code, fetch the profile, get or create the user in
 * one transaction, and issue a session token in a cookie.
 *
 * The database is a table of users keyed by (e-mail, provider name) plus
 * the replies of the database that the table does not determine (a failed
 * begin, a failed lookup, the id of an inserted row or the insert's error,
 * a failed rollback or commit). The clock, the configuration and the token
 * signer are parameters as well.
 */
module AuthService {
  import opened GoTypes
  import Connect
  import Token
  import OAuth
  import OAuth2
  import Profile
  import Postgres
  import Proto
  import Transaction
  import Authn
  import Middleware

  /** The registry key of the GitHub client. */
  const GitHubKey: GoString := "github"

  /** `svc.oauthApps`: the OAuth clients by provider key. */
  type Registry = map<GoString, OAuth.App>

  /** `OAuthAppOption`; `WithGitHubOAuthApp(app)` is the only option there is. */
  datatype OAuthAppOption = WithGitHubOAuthApp(app: OAuth.App)

  /** Applying one option: the client is registered under "github" unless one already is. */
  function Apply(reg: Registry, o: OAuthAppOption): (r: Registry)
    ensures r.Keys == reg.Keys + {GitHubKey}
    ensures forall k :: k in reg ==> r[k] == reg[k]
    ensures GitHubKey !in reg ==> r[GitHubKey] == o.app
  {
    if GitHubKey in reg then reg else reg[GitHubKey := o.app]
  }

  /** The options applied in order. */
  function ApplyAll(reg: Registry, opts: seq<OAuthAppOption>): Registry
    decreases |opts|
  {
    if |opts| == 0 then reg else ApplyAll(Apply(reg, opts[0]), opts[1..])
  }

  /** Once "github" is registered, no later option changes the registry. */
  lemma {:induction false} ApplyAllKeepsRegistered(reg: Registry, opts: seq<OAuthAppOption>)
    requires GitHubKey in reg
    ensures ApplyAll(reg, opts) == reg
    decreases |opts|
  {
    if |opts| > 0 {
      ApplyAllKeepsRegistered(Apply(reg, opts[0]), opts[1..]);
    }
  }

  /** The registry `New(..., opts...)` builds: empty, then the options in order, the first one winning. */
  function New(opts: seq<OAuthAppOption>): (reg: Registry)
    ensures |opts| == 0 ==> reg == map[]
    ensures |opts| > 0 ==> reg == map[GitHubKey := opts[0].app]
  {
    if |opts| == 0 then map[]
    else
      ApplyAllKeepsRegistered(Apply(map[], opts[0]), opts[1..]);
      ApplyAll(map[], opts)
  }

  /** `getOAuthApp(identityProvider)`. */
  function GetOAuthApp(reg: Registry, provider: int): (r: Result<OAuth.App>)
    ensures r.Ok? <==> provider == Proto.IdentityProviderGitHub && GitHubKey in reg
    ensures r.Ok? ==> r.value == reg[GitHubKey]
    ensures provider == Proto.IdentityProviderGitHub && GitHubKey !in reg ==> r == Err("unsupported identity provider: github")
    ensures provider == Proto.IdentityProviderUnspecified ==> r == Err("identity provider unspecified")
    ensures provider != Proto.IdentityProviderGitHub && provider != Proto.IdentityProviderUnspecified ==>
      r == Err("unsupported identity provider")
  {
    if provider == Proto.IdentityProviderGitHub then
      if GitHubKey in reg then Ok(reg[GitHubKey]) else Err("unsupported identity provider: github")
    else if provider == Proto.IdentityProviderUnspecified then Err("identity provider unspecified")
    else Err("unsupported identity provider")
  }

  /** A service built with GitHub options serves the first of them, and no other provider. */
  lemma FirstRegisteredAppServes(opts: seq<OAuthAppOption>, provider: int)
    requires |opts| > 0
    ensures provider == Proto.IdentityProviderGitHub ==> GetOAuthApp(New(opts), provider) == Ok(opts[0].app)
    ensures provider != Proto.IdentityProviderGitHub ==> GetOAuthApp(New(opts), provider).Err?
  {
  }

  /** What the authorization-URL call answers. */
  datatype AuthURLReply = AuthURLResponse(authURL: GoString, draws: nat) | AuthURLError(err: Connect.Error)

  /** `GetAuthURL(req)`: the registered client's URL, or the registry's error as Internal. */
  function GetAuthURL(reg: Registry, provider: int, next: nat): (r: AuthURLReply)
    ensures r.AuthURLError? <==> GetOAuthApp(reg, provider).Err?
    ensures r.AuthURLError? ==> r.err == Connect.ConnectError(Connect.Internal, GetOAuthApp(reg, provider).msg)
    ensures r.AuthURLResponse? ==> (r.draws == 1 &&
      var app := reg[GitHubKey];
      OAuth2.QueryOf(r.authURL, app.config.endpoint.authURL) ==
        Some([("client_id", app.config.clientID), ("scope", OAuth2.ScopeParam(app.config.scopes)), ("state", app.randStr(next))]))
  {
    match GetOAuthApp(reg, provider)
    case Err(e) => AuthURLError(Connect.ConnectError(Connect.Internal, e))
    case Ok(app) =>
      var u := OAuth.GetAuthURL(app, next);
      AuthURLResponse(u.url.value, u.draws)
  }

  /** A service given one `NewGitHub` client sends GitHub users to the authorize page with scope "user". */
  lemma GitHubAuthURLOfConfiguredService(env: OAuth2.Env, randStr: Option<OAuth2.RandStr>, uuid: OAuth2.RandStr, next: nat)
    ensures var r := GetAuthURL(New([WithGitHubOAuthApp(OAuth.NewGitHub(env, randStr, uuid))]), Proto.IdentityProviderGitHub, next);
      && r.AuthURLResponse?
      && OAuth2.QueryOf(r.authURL, OAuth2.GitHubEndpoint.authURL) ==
           Some([("client_id", env(OAuth.ClientIDKey)), ("scope", "user"), ("state", OAuth2.ChooseRandStr(randStr, uuid)(next))])
  {
    OAuth.GitHubAuthURL(env, randStr, uuid, next);
  }

  // ----- the login flow -----

  /** The provider name the lookup and the insert use: GitHub's, whatever was requested. */
  const GitHubProviderName: GoString := "IDENTITY_PROVIDER_GITHUB"

  /** `pgx.ErrNoRows`. */
  const ErrNoRows: string := "no rows in result set"

  /** The users table, by (e-mail, identity provider name). */
  type Table = map<(GoString, GoString), Postgres.User>

  /** The database's reply to the insert: the id of the new row, or the error. */
  datatype InsertReply = Inserted(id: Int64) | InsertFailed(msg: string)

  /** The replies of the database that the table does not determine. */
  datatype DbReplies = DbReplies(
    begin: Result<Transaction.Tx>,
    lookupFault: Option<string>,   // a lookup error other than "no rows"
    insert: InsertReply,
    rollbackErr: Option<string>,
    commitErr: Option<string>)

  /** What `GetUserByEmailAndIDP` returns. */
  datatype Lookup = Found(user: Postgres.User) | NoRows | LookupFailed(msg: string)

  /** `GetUserByEmailAndIDP(email, provider)` on the table. */
  function GetUserByEmailAndIDP(table: Table, email: GoString, provider: GoString, fault: Option<string>): (l: Lookup)
    ensures fault.None? ==> (l.Found? <==> (email, provider) in table)
    ensures l.Found? ==> (email, provider) in table && l.user == table[(email, provider)]
    ensures fault.Some? ==> l == LookupFailed(fault.value)
  {
    if fault.Some? then LookupFailed(fault.value)
    else if (email, provider) in table then Found(table[(email, provider)])
    else NoRows
  }

  /** The row `CreateUser` inserts for a first-time user; the clock is read for both timestamps. */
  function NewUserRow(id: Int64, p: Profile.UserProfile, clock: Clock): (u: Postgres.User)
    ensures u.id == id && u.identityProvider == GitHubProviderName
    ensures u.email == p.email && u.username == p.name && u.avatarURL == p.avatarURL && u.aboutMe == []
    ensures u.createdAt == Postgres.Timestamptz(clock(0), true) && u.updatedAt == Postgres.Timestamptz(clock(1), true)
    ensures !u.deletedAt.valid
  {
    Postgres.User(id, GitHubProviderName, p.email, p.name, p.avatarURL, [],
      Postgres.Timestamptz(clock(0), true), Postgres.Timestamptz(clock(1), true), Postgres.NullTimestamp)
  }

  /** The body's result: the user, whether it was created, and the table as the transaction leaves it. */
  datatype Reconciled = Reconciled(user: Postgres.User, isNewUser: bool, table: Table)

  /** The lookup key of a profile. */
  function KeyOf(p: Profile.UserProfile): (GoString, GoString) {
    (p.email, GitHubProviderName)
  }

  /**
   * The transaction body: the user with the profile's e-mail and GitHub as
   * provider, created when the lookup finds no row.
   */
  function Reconcile(table: Table, p: Profile.UserProfile, db: DbReplies, clock: Clock): (r: Transaction.BodyResult<Reconciled>)
    // success: a result whose user is the row under the profile's key, in a table that only grew
    ensures r.err.None? ==> r.result.Some?
    ensures r.err.None? ==> var rec := r.result.value;
      && KeyOf(p) in rec.table && rec.table[KeyOf(p)] == rec.user
      && (rec.isNewUser <==> KeyOf(p) !in table)
      && rec.table.Keys == table.Keys + {KeyOf(p)}
      && (forall k :: k in table ==> rec.table[k] == table[k])
    // an existing user: no insert is attempted, whatever the insert would reply
    ensures db.lookupFault.None? && KeyOf(p) in table ==> r.err.None?
    // the body fails exactly on a lookup fault or a failed insert of a new user
    ensures r.err.Some? <==> db.lookupFault.Some? || (KeyOf(p) !in table && db.insert.InsertFailed?)
    ensures db.lookupFault.Some? ==> r.err == db.lookupFault
    ensures db.lookupFault.None? && KeyOf(p) !in table && db.insert.InsertFailed? ==> r.err == Some(db.insert.msg)
    // a new user's row
    ensures r.err.None? && r.result.value.isNewUser ==> r.result.value.user == NewUserRow(db.insert.id, p, clock)
  {
    match GetUserByEmailAndIDP(table, p.email, GitHubProviderName, db.lookupFault)
    case Found(u) => Transaction.BodyResult(Some(Reconciled(u, false, table)), None)
    case LookupFailed(e) => Transaction.BodyResult(None, Some(e))
    case NoRows =>
      match db.insert
      case Inserted(id) =>
        var u := NewUserRow(id, p, clock);
        Transaction.BodyResult(Some(Reconciled(u, true, table[KeyOf(p) := u])), None)
      case InsertFailed(e) =>
        // `CreateUser` hands back a zero row together with its error
        var zero := Postgres.User(0, [], [], [], [], [], Postgres.NullTimestamp, Postgres.NullTimestamp, Postgres.NullTimestamp);
        Transaction.BodyResult(Some(Reconciled(zero, true, table)), Some(e))
  }

  /** The body run in a transaction by `Exec`. */
  function RunReconcile(table: Table, p: Profile.UserProfile, db: DbReplies, clock: Clock): Transaction.ExecResult<Reconciled> {
    Transaction.Exec(db.begin, (tx: Transaction.Tx) => Reconcile(table, p, db, clock), db.rollbackErr, db.commitErr)
  }

  /** The claims of the session token (a `jwt.MapClaims`). */
  datatype LoginClaims = LoginClaims(iss: GoString, iat: Token.NumericDate, exp: Token.NumericDate, nbf: Token.NumericDate, uid: Int64)

  /** The three instants of the claims are whole seconds. */
  predicate WholeSeconds(c: LoginClaims) {
    c.iat.time % Second == 0 && c.exp.time % Second == 0 && c.nbf.time % Second == 0
  }

  /**
   * The claims for user `uid`, the clock read for iat, exp (an hour on) and
   * nbf in that order starting with reading `k`.
   */
  function IssueClaims(uid: Int64, clock: Clock, k: nat): (c: LoginClaims)
    ensures c.iss == "gsm" && c.uid == uid && WholeSeconds(c)
    ensures c.iat.time <= clock(k) < c.iat.time + Second
    ensures c.exp.time <= clock(k + 1) + Hour < c.exp.time + Second
    ensures c.nbf.time <= clock(k + 2) < c.nbf.time + Second
  {
    LoginClaims("gsm", Token.NewNumericDate(clock(k)), Token.NewNumericDate(clock(k + 1) + Hour), Token.NewNumericDate(clock(k + 2)), uid)
  }

  /** `http.SameSite`. */
  datatype SameSite = SameSiteDefaultMode | SameSiteLaxMode | SameSiteStrictMode | SameSiteNoneMode

  /** The `http.Cookie` fields the service sets. */
  datatype Cookie = Cookie(name: GoString, value: GoString, expires: Time, maxAge: int, httpOnly: bool, path: GoString, secure: bool, sameSite: SameSite)

  /** The session cookie carrying `token`, expiring an hour after `now`. */
  function SessionCookie(token: GoString, now: Time): (c: Cookie)
    ensures c.name == "token" && c.value == token && c.expires == now + Hour
    ensures c.maxAge == 3600 && c.httpOnly && c.path == "/" && !c.secure && c.sameSite == SameSiteLaxMode
  {
    Cookie("token", token, now + Hour, 3600, true, "/", false, SameSiteLaxMode)
  }

  /** `authv1.LoginResponse`. */
  datatype LoginResponse = LoginResponse(token: GoString, isNewUser: bool)

  /** How a login ends; `table` is the users table afterwards. */
  datatype LoginOutcome =
    | LoggedIn(response: LoginResponse, cookie: Cookie, claims: LoginClaims, table: Table)
    | LoginFailed(err: Connect.Error, table: Table)
    | LoginPanicked   // a method call on the nil client

  /** The signer: the compact HS256 token for the claims and key, or the error. */
  type Signer = (LoginClaims, GoString) -> Result<GoString>

  /** The configuration key of the signing secret. */
  const SigningSecretKey: GoString := "JWT_SIGNING_SECRET"

  /** Either the value the flow goes on with, or the error it stops with. */
  datatype Step<T> = Continue(value: T) | Stop(err: Connect.Error)

  /** The code exchanged for an access token, then the token for the profile. */
  function FetchProfile(app: OAuth.App, code: GoString, http: OAuth.Transport): (r: Step<Profile.UserProfile>)
    ensures OAuth.ExchangeCode(app, code, http.token).Err? ==>
      r == Stop(Connect.ConnectError(Connect.Internal, "exchaning code: " + OAuth.ExchangeCode(app, code, http.token).msg))
    ensures OAuth.ExchangeCode(app, code, http.token).Ok? ==>
      var p := OAuth.GetUserProfile(app, OAuth.ExchangeCode(app, code, http.token).value, http.user);
      && (p.Err? ==> r == Stop(Connect.PlainError("denied: " + p.msg)))
      && (p.Ok? ==> r == Continue(p.value))
  {
    match OAuth.ExchangeCode(app, code, http.token)
    case Err(e) => Stop(Connect.ConnectError(Connect.Internal, "exchaning code: " + e))
    case Ok(accessToken) =>
      match OAuth.GetUserProfile(app, accessToken, http.user)
      case Err(e) => Stop(Connect.PlainError("denied: " + e))
      case Ok(p) => Continue(p)
  }

  /**
   * A login obtains a profile exactly when GitHub answers the token request
   * with a 200 that decodes and then answers the profile request carrying
   * that access token with a 200 that decodes; the profile is the user
   * resource's e-mail, name and avatar.
   */
  lemma FetchProfileChain(app: OAuth.App, code: GoString, http: OAuth.Transport)
    ensures var t := http.token(OAuth.ExchangeRequest(app.config, code));
      && (FetchProfile(app, code, http).Continue? <==>
            && t.Response? && t.status == OAuth.StatusOK && t.decoded.Ok?
            && var u := http.user(OAuth.ProfileRequest(t.decoded.value.accessToken));
               u.Response? && u.status == OAuth.StatusOK && u.decoded.Ok?)
      && (FetchProfile(app, code, http).Continue? ==>
            var u := http.user(OAuth.ProfileRequest(t.decoded.value.accessToken)).decoded.value;
            FetchProfile(app, code, http).value == Profile.UserProfile(u.email, u.name, u.avatarURL))
  {
  }

  /**
   * The end of a login once the user is known: claims (the clock read after
   * the body's `k` readings), the signed token, the response and the cookie.
   */
  function IssueSession(rec: Reconciled, clock: Clock, env: OAuth2.Env, sign: Signer): (r: LoginOutcome)
    ensures r.LoggedIn? || r.LoginFailed?
    ensures r.table == rec.table
    ensures var k := if rec.isNewUser then 2 else 0;
      && r.LoggedIn? <==> sign(IssueClaims(rec.user.id, clock, k), env(SigningSecretKey)).Ok?
    ensures r.LoggedIn? ==>
      && r.response.isNewUser == rec.isNewUser
      && r.cookie.value == r.response.token
      && r.claims.uid == rec.user.id
      && sign(r.claims, env(SigningSecretKey)) == Ok(r.response.token)
    ensures r.LoginFailed? ==> r.err.ConnectError? && r.err.code == Connect.Internal
  {
    var k := if rec.isNewUser then 2 else 0;
    var claims := IssueClaims(rec.user.id, clock, k);
    match sign(claims, env(SigningSecretKey))
    case Err(e) => LoginFailed(Connect.ConnectError(Connect.Internal, "signing token: " + e), rec.table)
    case Ok(token) => LoggedIn(LoginResponse(token, rec.isNewUser), SessionCookie(token, clock(k + 3)), claims, rec.table)
  }

  /**
   * `Login(req)` as written: the registry's error is dropped (a missing
   * client is then called through a nil interface), and a failed transaction
   * is reported with the profile call's error, which is nil at that point.
   */
  function Login(reg: Registry, provider: int, code: GoString, http: OAuth.Transport, table: Table,
                 db: DbReplies, clock: Clock, env: OAuth2.Env, sign: Signer): (r: LoginOutcome)
    ensures r.LoginPanicked? <==> GetOAuthApp(reg, provider).Err?
    ensures r.LoggedIn? ==> table.Keys <= r.table.Keys
    ensures r.LoggedIn? ==> r.cookie.name == "token" && r.cookie.value == r.response.token && r.claims.iss == "gsm"
    // a failed login leaves the table as it was, unless signing failed after the commit
    ensures r.LoginFailed? && r.table != table ==> r.err.ConnectError? && r.err.code == Connect.Internal
  {
    match GetOAuthApp(reg, provider)
    case Err(_) => LoginPanicked
    case Ok(app) =>
      match FetchProfile(app, code, http)
      case Stop(e) => LoginFailed(e, table)
      case Continue(p) =>
        var ex := RunReconcile(table, p, db, clock);
        if ex.err.Some? then LoginFailed(Connect.PlainError("in login flow: <nil>"), table)
        else if ex.result.None? then LoginPanicked
        else IssueSession(ex.result.value, clock, env, sign)
  }

  /**
   * `Login` as evidently intended: the registry's error is returned as
   * Internal (as `GetAuthURL` does), and a failed transaction is reported
   * with the transaction's error.
   */
  function LoginChecked(reg: Registry, provider: int, code: GoString, http: OAuth.Transport, table: Table,
                        db: DbReplies, clock: Clock, env: OAuth2.Env, sign: Signer): (r: LoginOutcome)
    ensures !r.LoginPanicked?
    ensures GetOAuthApp(reg, provider).Err? ==>
      r == LoginFailed(Connect.ConnectError(Connect.Internal, GetOAuthApp(reg, provider).msg), table)
    ensures r.LoggedIn? ==> table.Keys <= r.table.Keys
    ensures r.LoggedIn? ==> r.cookie.name == "token" && r.cookie.value == r.response.token && r.claims.iss == "gsm"
  {
    match GetOAuthApp(reg, provider)
    case Err(e) => LoginFailed(Connect.ConnectError(Connect.Internal, e), table)
    case Ok(app) =>
      match FetchProfile(app, code, http)
      case Stop(e) => LoginFailed(e, table)
      case Continue(p) =>
        var ex := RunReconcile(table, p, db, clock);
        match ex.err
        case Some(txErr) => LoginFailed(Connect.PlainError("in login flow: " + txErr), table)
        case None => IssueSession(ex.result.value, clock, env, sign)
  }

  /** The user record a login reaches before it issues the session; `None` when it stops or panics earlier. */
  function Reached(reg: Registry, provider: int, code: GoString, http: OAuth.Transport, table: Table,
                   db: DbReplies, clock: Clock): Option<Reconciled> {
    match GetOAuthApp(reg, provider)
    case Err(_) => None
    case Ok(app) =>
      match FetchProfile(app, code, http)
      case Stop(_) => None
      case Continue(p) =>
        var ex := RunReconcile(table, p, db, clock);
        if ex.err.Some? || ex.result.None? then None else Some(ex.result.value)
  }

  /** A login that reaches a user record ends as `IssueSession` on it; one that does not leaves the table alone. */
  lemma LoginThroughReached(reg: Registry, provider: int, code: GoString, http: OAuth.Transport, table: Table,
                            db: DbReplies, clock: Clock, env: OAuth2.Env, sign: Signer)
    ensures var r := Login(reg, provider, code, http, table, db, clock, env, sign);
      var rec := Reached(reg, provider, code, http, table, db, clock);
      && (rec.Some? ==> r == IssueSession(rec.value, clock, env, sign))
      && (rec.None? ==> r.LoginPanicked? || (r.LoginFailed? && r.table == table))
  {
  }

  /** The replies of a database that does not fail; only the id of an inserted row is open. */
  predicate Healthy(db: DbReplies) {
    db.begin.Ok? && db.lookupFault.None? && db.insert.Inserted? && db.rollbackErr.None? && db.commitErr.None?
  }

  /** The profile a login with these inputs obtains, when it obtains one. */
  predicate ProfileFetched(reg: Registry, provider: int, code: GoString, http: OAuth.Transport, p: Profile.UserProfile) {
    GetOAuthApp(reg, provider).Ok? && FetchProfile(GetOAuthApp(reg, provider).value, code, http) == Continue(p)
  }

  /**
   * A returning user: the existing row is used, nothing is inserted (the
   * insert's reply plays no part), and the token names that row's id.
   */
  lemma ReturningUserIsNotInserted(reg: Registry, provider: int, code: GoString, http: OAuth.Transport, table: Table,
                                   db: DbReplies, clock: Clock, env: OAuth2.Env, sign: Signer, p: Profile.UserProfile, insert: InsertReply)
    requires ProfileFetched(reg, provider, code, http, p)
    requires db.begin.Ok? && db.lookupFault.None? && db.commitErr.None?
    requires KeyOf(p) in table
    ensures var r := Login(reg, provider, code, http, table, db, clock, env, sign);
      && r == Login(reg, provider, code, http, table, db.(insert := insert), clock, env, sign)
      && (r.LoggedIn? || r.LoginFailed?)
      && r.table == table
      && (r.LoggedIn? ==> !r.response.isNewUser && r.claims.uid == table[KeyOf(p)].id)
  {
    var ex := RunReconcile(table, p, db, clock);
    var ex' := RunReconcile(table, p, db.(insert := insert), clock);
    assert Reconcile(table, p, db, clock) == Reconcile(table, p, db.(insert := insert), clock);
    assert ex == ex';
  }

  /**
   * A first-time user: exactly one row is added, under the profile's key,
   * holding the profile's e-mail, name and avatar, an empty "about me" and
   * the id the database chose; the token names that id.
   */
  lemma FirstLoginInsertsOneUser(reg: Registry, provider: int, code: GoString, http: OAuth.Transport, table: Table,
                                 db: DbReplies, clock: Clock, env: OAuth2.Env, sign: Signer, p: Profile.UserProfile)
    requires ProfileFetched(reg, provider, code, http, p)
    requires Healthy(db)
    requires KeyOf(p) !in table
    ensures var r := Login(reg, provider, code, http, table, db, clock, env, sign);
      var row := NewUserRow(db.insert.id, p, clock);
      && (r.LoggedIn? || r.LoginFailed?)
      && r.table == table[KeyOf(p) := row]
      && row.aboutMe == [] && row.username == p.name && row.email == p.email && row.avatarURL == p.avatarURL
      && (r.LoggedIn? ==> r.response.isNewUser && r.claims.uid == db.insert.id)
  {
    var ex := RunReconcile(table, p, db, clock);
    var body := Reconcile(table, p, db, clock);
    assert body.err.None? && body.result.value.table.Keys == table.Keys + {KeyOf(p)};
    assert body.result.value.table == table[KeyOf(p) := NewUserRow(db.insert.id, p, clock)];
  }

  /**
   * A lookup error other than "no rows": nothing is inserted, and the error
   * the caller sees does not carry the database's error.
   */
  lemma LookupFaultLosesItsError(reg: Registry, provider: int, code: GoString, http: OAuth.Transport, table: Table,
                                 db: DbReplies, clock: Clock, env: OAuth2.Env, sign: Signer, p: Profile.UserProfile)
    requires ProfileFetched(reg, provider, code, http, p)
    requires db.begin.Ok? && db.lookupFault.Some?
    ensures Login(reg, provider, code, http, table, db, clock, env, sign) == LoginFailed(Connect.PlainError("in login flow: <nil>"), table)
    ensures Connect.CodeOf(Login(reg, provider, code, http, table, db, clock, env, sign).err) == Connect.Unknown
  {
  }

  /** The corrected flow reports the database's error, after the rollback's if that failed too. */
  lemma CheckedLoginReportsTxError(reg: Registry, provider: int, code: GoString, http: OAuth.Transport, table: Table,
                                   db: DbReplies, clock: Clock, env: OAuth2.Env, sign: Signer, p: Profile.UserProfile)
    requires ProfileFetched(reg, provider, code, http, p)
    requires db.begin.Ok? && db.lookupFault.Some?
    ensures var r := LoginChecked(reg, provider, code, http, table, db, clock, env, sign);
      && r.LoginFailed? && r.err.PlainError? && r.table == table
      && (db.rollbackErr.None? ==> r.err.msg == "in login flow: " + db.lookupFault.value)
      && (db.rollbackErr.Some? ==> r.err.msg == "in login flow: " + db.lookupFault.value + ", rollback failed: " + db.rollbackErr.value)
  {
  }

  /** Where `Login` does not panic and the transaction succeeds, the corrected flow does exactly the same. */
  lemma CheckedLoginAgrees(reg: Registry, provider: int, code: GoString, http: OAuth.Transport, table: Table,
                           db: DbReplies, clock: Clock, env: OAuth2.Env, sign: Signer)
    requires GetOAuthApp(reg, provider).Ok?
    requires !Login(reg, provider, code, http, table, db, clock, env, sign).LoginFailed? ||
             Login(reg, provider, code, http, table, db, clock, env, sign).err != Connect.PlainError("in login flow: <nil>")
    ensures LoginChecked(reg, provider, code, http, table, db, clock, env, sign) == Login(reg, provider, code, http, table, db, clock, env, sign)
  {
  }

  /** Every row is stored under its own (e-mail, provider) key. */
  predicate WellKeyed(table: Table) {
    forall k :: k in table ==> table[k].email == k.0 && table[k].identityProvider == k.1
  }

  /** No two rows share an id. */
  predicate UniqueIds(table: Table) {
    forall k1, k2 :: k1 in table && k2 in table && k1 != k2 ==> table[k1].id != table[k2].id
  }

  /** An id the table does not use yet. */
  predicate FreshId(table: Table, id: Int64) {
    forall k :: k in table ==> table[k].id != id
  }

  /** The transaction body keeps every row under its own key, and, with a fresh id for a new row, keeps ids unique. */
  lemma ReconcileKeepsInvariants(table: Table, p: Profile.UserProfile, db: DbReplies, clock: Clock)
    requires WellKeyed(table)
    requires db.insert.Inserted? ==> FreshId(table, db.insert.id)
    requires UniqueIds(table)
    ensures var r := Reconcile(table, p, db, clock);
      r.err.None? ==> WellKeyed(r.result.value.table) && UniqueIds(r.result.value.table)
  {
    var r := Reconcile(table, p, db, clock);
    if r.err.None? {
      var rec := r.result.value;
      if rec.isNewUser {
        assert rec.table == table[KeyOf(p) := NewUserRow(db.insert.id, p, clock)];
      } else {
        assert rec.table == table;
      }
    }
  }

  /** The record a login reaches keeps the table's invariants. */
  lemma ReachedKeepsInvariants(reg: Registry, provider: int, code: GoString, http: OAuth.Transport, table: Table,
                               db: DbReplies, clock: Clock)
    requires WellKeyed(table)
    requires db.insert.Inserted? ==> FreshId(table, db.insert.id)
    requires UniqueIds(table)
    ensures var rec := Reached(reg, provider, code, http, table, db, clock);
      rec.Some? ==> WellKeyed(rec.value.table) && UniqueIds(rec.value.table)
  {
    if Reached(reg, provider, code, http, table, db, clock).Some? {
      var app := GetOAuthApp(reg, provider).value;
      var p := FetchProfile(app, code, http).value;
      ReconcileKeepsInvariants(table, p, db, clock);
    }
  }

  /** Logins keep every row under its own key, and, with fresh ids for new rows, keep ids unique. */
  lemma LoginKeepsTableInvariants(reg: Registry, provider: int, code: GoString, http: OAuth.Transport, table: Table,
                                  db: DbReplies, clock: Clock, env: OAuth2.Env, sign: Signer)
    requires WellKeyed(table)
    requires db.insert.Inserted? ==> FreshId(table, db.insert.id)
    requires UniqueIds(table)
    ensures var r := Login(reg, provider, code, http, table, db, clock, env, sign);
      !r.LoginPanicked? ==> WellKeyed(r.table) && UniqueIds(r.table)
  {
    LoginThroughReached(reg, provider, code, http, table, db, clock, env, sign);
    ReachedKeepsInvariants(reg, provider, code, http, table, db, clock);
  }

  /** After a successful login, the same person logging in again is a returning user with the same id. */
  lemma SecondLoginFindsTheUser(reg: Registry, provider: int, code: GoString, http: OAuth.Transport, table: Table,
                                db1: DbReplies, db2: DbReplies, clock1: Clock, clock2: Clock, env: OAuth2.Env, sign: Signer, p: Profile.UserProfile)
    requires ProfileFetched(reg, provider, code, http, p)
    requires Login(reg, provider, code, http, table, db1, clock1, env, sign).LoggedIn?
    requires db2.begin.Ok? && db2.lookupFault.None? && db2.commitErr.None?
    ensures var r1 := Login(reg, provider, code, http, table, db1, clock1, env, sign);
      var r2 := Login(reg, provider, code, http, r1.table, db2, clock2, env, sign);
      r2.LoggedIn? ==> !r2.response.isNewUser && r2.claims.uid == r1.claims.uid && r2.table == r1.table
  {
    var r1 := Login(reg, provider, code, http, table, db1, clock1, env, sign);
    var body := Reconcile(table, p, db1, clock1);
    assert body.err.None?;
    assert r1.table == body.result.value.table && r1.claims.uid == body.result.value.user.id;
    assert KeyOf(p) in r1.table && r1.table[KeyOf(p)].id == r1.claims.uid;
    ReturningUserIsNotInserted(reg, provider, code, http, r1.table, db2, clock2, env, sign, p, db2.insert);
  }

  /** Adding whole hours keeps the position within the second. */
  lemma TruncateHourLater(t: Time)
    ensures Token.Truncate(t + Hour) == Token.Truncate(t) + Hour
  {
    Proto.DivModUnique(t + Hour, t / Second + 3600, t % Second);
  }

  /** With a clock that stands still, the session's instants line up. */
  lemma SteadySession(rec: Reconciled, clock: Clock, env: OAuth2.Env, sign: Signer, t: Time)
    requires forall i: nat :: clock(i) == t
    ensures var r := IssueSession(rec, clock, env, sign);
      r.LoggedIn? ==>
        && r.claims.iat == r.claims.nbf
        && r.claims.exp.time == r.claims.iat.time + Hour
        && r.cookie.expires == t + Hour
        && r.claims.exp.time <= r.cookie.expires < r.claims.exp.time + Second
  {
    TruncateHourLater(t);
    var k := if rec.isNewUser then 2 else 0;
    assert clock(k) == t && clock(k + 1) == t && clock(k + 2) == t && clock(k + 3) == t;
  }

  /**
   * With a clock that does not move during the request, the token is issued
   * and valid from the same second and expires an hour later; the cookie
   * expires an hour after the reading itself, so within the token's expiry
   * second rather than at its start.
   */
  lemma SteadyClockClaims(reg: Registry, provider: int, code: GoString, http: OAuth.Transport, table: Table,
                          db: DbReplies, clock: Clock, env: OAuth2.Env, sign: Signer, t: Time)
    requires forall i: nat :: clock(i) == t
    ensures var r := Login(reg, provider, code, http, table, db, clock, env, sign);
      r.LoggedIn? ==>
        && r.claims.iat == r.claims.nbf
        && r.claims.exp.time == r.claims.iat.time + Hour
        && r.cookie.expires == t + Hour
        && r.claims.exp.time <= r.cookie.expires < r.claims.exp.time + Second
        && r.cookie.maxAge * Second == Hour
  {
    LoginThroughReached(reg, provider, code, http, table, db, clock, env, sign);
    var rec := Reached(reg, provider, code, http, table, db, clock);
    if rec.Some? {
      SteadySession(rec.value, clock, env, sign, t);
    }
  }

  /**
   * The payload of the session token: `jwt.MapClaims` is marshalled with its
   * keys in sorted order, each numeric date as its whole seconds.
   */
  function SessionPayload(c: LoginClaims): Token.Payload {
    [("exp", Token.JsonInteger(c.exp.time / Second)),
     ("iat", Token.JsonInteger(c.iat.time / Second)),
     ("iss", Token.JsonString(c.iss)),
     ("nbf", Token.JsonInteger(c.nbf.time / Second)),
     ("uid", Token.JsonInteger(c.uid))]
  }

  /**
   * The JWT library, given the key `readKey`, reads every token the signer
   * made with `signKey` as the payload it signed, with a good signature. With
   * HMAC this is what equal keys give; the signer's key comes from the
   * configuration when the login runs, the validators' from the environment
   * when the process starts.
   */
  ghost predicate ReadsBack(lib: Token.Library, sign: Signer, signKey: GoString, readKey: GoString) {
    forall c: LoginClaims :: sign(c, signKey).Ok? ==>
      lib.read(sign(c, signKey).value, readKey) == Token.Read(Token.HS256, SessionPayload(c), None)
  }

  /**
   * As written, no key of the session payload names a field of `UserClaims`
   * (the record has no tags, and encoding/json matches Go names up to case),
   * so decoding leaves the record exactly as `NewUserClaims()` made it.
   */
  lemma UntaggedClaimsMissTheSession(c: LoginClaims, rfc3339: GoString -> Result<Time>)
    ensures Token.Unmarshal(Token.Untagged, SessionPayload(c), rfc3339) == Ok(Token.NewUserClaims())
  {
    var p := SessionPayload(c);
    forall i | 0 <= i < |p|
      ensures Token.FieldOf(Token.Untagged, p[i].0).None?
    {
      Token.ShortKeysNameNoField(p[i].0);
    }
    Token.KeysNamingNoFieldAreSkipped(Token.Untagged, Token.NewUserClaims(), p, rfc3339);
  }

  /** With the claim names as tags and numeric-date instants, the record gets every signed claim back. */
  lemma TaggedClaimsReadTheSession(c: LoginClaims, rfc3339: GoString -> Result<Time>)
    requires WholeSeconds(c)
    ensures Token.Unmarshal(Token.Tagged, SessionPayload(c), rfc3339) ==
      Ok(Token.UserClaims([], c.iss, c.iat.time, c.exp.time, c.nbf.time, c.uid))
  {
    var p := SessionPayload(c);
    Token.TagsNameTheirFields();
    var c2 := Token.NewUserClaims().(expirationTime := c.exp.time, issuedAt := c.iat.time);
    var c3 := c2.(issuer := c.iss);
    SessionTimesRead(c, rfc3339);
    assert p[2..][1..] == p[3..];
    Token.UnmarshalFirst(Token.Tagged, c2, p[2..], rfc3339);
    SessionRestRead(c, c3, rfc3339);
  }

  /** The first two members of the session payload, its expiry and issue time, land in their fields. */
  lemma SessionTimesRead(c: LoginClaims, rfc3339: GoString -> Result<Time>)
    requires WholeSeconds(c)
    ensures Token.Unmarshal(Token.Tagged, SessionPayload(c), rfc3339) ==
      Token.UnmarshalInto(Token.Tagged, Token.NewUserClaims().(expirationTime := c.exp.time, issuedAt := c.iat.time),
        SessionPayload(c)[2..], rfc3339)
  {
    var p := SessionPayload(c);
    Token.TagsNameTheirFields();
    WholeSecondsOf(c.exp.time);
    WholeSecondsOf(c.iat.time);
    var c0 := Token.NewUserClaims();
    var c1 := c0.(expirationTime := c.exp.time);
    Token.UnmarshalFirst(Token.Tagged, c0, p, rfc3339);
    Token.UnmarshalFirst(Token.Tagged, c1, p[1..], rfc3339);
    assert p[1..][1..] == p[2..];
  }

  /** The last two members of the session payload, its start and user, land in their fields. */
  lemma SessionRestRead(c: LoginClaims, c3: Token.UserClaims, rfc3339: GoString -> Result<Time>)
    requires WholeSeconds(c)
    ensures Token.UnmarshalInto(Token.Tagged, c3, SessionPayload(c)[3..], rfc3339) ==
      Ok(c3.(notBefore := c.nbf.time, userID := c.uid))
  {
    var q := SessionPayload(c)[3..];
    Token.TagsNameTheirFields();
    WholeSecondsOf(c.nbf.time);
    var c4 := c3.(notBefore := c.nbf.time);
    Token.UnmarshalFirst(Token.Tagged, c3, q, rfc3339);
    Token.UnmarshalFirst(Token.Tagged, c4, q[1..], rfc3339);
    assert |q| == 2;
  }

  /** An instant on a whole second is its count of seconds times a second. */
  lemma WholeSecondsOf(t: Time)
    requires t % Second == 0
    ensures (t / Second) * Second == t
  {
  }

  /**
   * As written, every session a login issues makes both validators panic,
   * even when the library reads the token back exactly as signed: the claims
   * record keeps Go's zero-time expiry, the library refuses the token as
   * expired, and its nil token is dereferenced.
   */
  lemma IssuedSessionPanics(reg: Registry, provider: int, code: GoString, http: OAuth.Transport, table: Table,
                            db: DbReplies, clock: Clock, env: OAuth2.Env, sign: Signer,
                            lib: Token.Library, readKey: GoString, libNow: Time, now: Time)
    requires Login(reg, provider, code, http, table, db, clock, env, sign).LoggedIn?
    requires ReadsBack(lib, sign, env(SigningSecretKey), readKey)
    requires libNow >= ZeroTime
    ensures var r := Login(reg, provider, code, http, table, db, clock, env, sign);
      && Middleware.Authorize(Token.Untagged, Some(r.cookie.value), lib, readKey, libNow, now) == Authn.NilDereference
      && Authn.Authenticate(Token.Untagged, Some(r.response.token), lib, readKey, libNow, now) == Authn.NilDereference
  {
    var r := Login(reg, provider, code, http, table, db, clock, env, sign);
    SignedSessionReadsBack(reg, provider, code, http, table, db, clock, env, sign, lib, readKey);
    UntaggedSessionPanics(lib, r.response.token, readKey, r.claims, libNow, now);
  }

  /** A token read back as a session payload makes both validators as written panic. */
  lemma UntaggedSessionPanics(lib: Token.Library, token: GoString, readKey: GoString, c: LoginClaims, libNow: Time, now: Time)
    requires lib.read(token, readKey) == Token.Read(Token.HS256, SessionPayload(c), None)
    requires libNow >= ZeroTime
    ensures Middleware.Authorize(Token.Untagged, Some(token), lib, readKey, libNow, now) == Authn.NilDereference
    ensures Authn.Authenticate(Token.Untagged, Some(token), lib, readKey, libNow, now) == Authn.NilDereference
  {
    UntaggedClaimsMissTheSession(c, lib.rfc3339);
    assert Token.Verify(lib, Token.Untagged, token, readKey) == Token.Verified(Token.HS256, Token.NewUserClaims());
    Authn.UnfilledClaimsPanic(Token.Untagged, token, lib, readKey, libNow, now);
    Middleware.AgreesWithBearerInterceptor(Token.Untagged, token, lib, readKey, libNow, now);
  }

  /** The token of a login is read back as the session payload of its claims. */
  lemma SignedSessionReadsBack(reg: Registry, provider: int, code: GoString, http: OAuth.Transport, table: Table,
                               db: DbReplies, clock: Clock, env: OAuth2.Env, sign: Signer,
                               lib: Token.Library, readKey: GoString)
    requires Login(reg, provider, code, http, table, db, clock, env, sign).LoggedIn?
    requires ReadsBack(lib, sign, env(SigningSecretKey), readKey)
    ensures var r := Login(reg, provider, code, http, table, db, clock, env, sign);
      && WholeSeconds(r.claims)
      && lib.read(r.response.token, readKey) == Token.Read(Token.HS256, SessionPayload(r.claims), None)
  {
    var r := Login(reg, provider, code, http, table, db, clock, env, sign);
    LoginThroughReached(reg, provider, code, http, table, db, clock, env, sign);
    var rec := Reached(reg, provider, code, http, table, db, clock);
    assert sign(r.claims, env(SigningSecretKey)) == Ok(r.response.token);
  }

  /**
   * With the claims record tagged, the session a login issues is accepted by
   * both validators from its activation second until its expiry second, as
   * long as the library reads it back with the validators' key and reads
   * the clock within that window.
   */
  lemma IssuedSessionAuthenticates(reg: Registry, provider: int, code: GoString, http: OAuth.Transport, table: Table,
                                   db: DbReplies, clock: Clock, env: OAuth2.Env, sign: Signer,
                                   lib: Token.Library, readKey: GoString, libNow: Time, now: Time)
    requires Login(reg, provider, code, http, table, db, clock, env, sign).LoggedIn?
    requires ReadsBack(lib, sign, env(SigningSecretKey), readKey)
    requires var r := Login(reg, provider, code, http, table, db, clock, env, sign);
      r.claims.nbf.time <= libNow <= now <= r.claims.exp.time && libNow < r.claims.exp.time
    ensures var r := Login(reg, provider, code, http, table, db, clock, env, sign);
      && Middleware.Authorize(Token.Tagged, Some(r.cookie.value), lib, readKey, libNow, now) == Authn.Pass(Connect.Int64Pointer(Some(r.claims.uid)))
      && Authn.Authenticate(Token.Tagged, Some(r.response.token), lib, readKey, libNow, now) == Authn.Pass(Connect.Int64Value(r.claims.uid))
  {
    var r := Login(reg, provider, code, http, table, db, clock, env, sign);
    SignedSessionReadsBack(reg, provider, code, http, table, db, clock, env, sign, lib, readKey);
    TaggedClaimsReadTheSession(r.claims, lib.rfc3339);
    var c := Token.UserClaims([], r.claims.iss, r.claims.iat.time, r.claims.exp.time, r.claims.nbf.time, r.claims.uid);
    Token.NumericDateOfWholeSecond(c.notBefore);
    Token.NumericDateOfWholeSecond(c.expirationTime);
    assert Token.Verify(lib, Token.Tagged, r.response.token, readKey) == Token.Verified(Token.HS256, c);
    assert Token.Parse(lib, Token.Tagged, r.response.token, readKey, libNow) == Token.Parsed(Token.HS256, c);
    assert Authn.ActiveAt(c, now);
  }

  /** `authv1.LogoutResponse`. */
  datatype LogoutResponse = LogoutResponse

  /** `Logout(req)`: a nil response and a nil error. */
  function Logout(): (r: (Option<LogoutResponse>, Option<Connect.Error>))
    ensures r.0.None? && r.1.None?
  {
    (None, None)
  }
}
