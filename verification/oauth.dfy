/**
 * The GitHub OAuth client of pkg/oauth: the authorization URL, the exchange
 * of a temporary code for an access token, and the profile request. The
 * HTTP client is a parameter mapping a request to what came back: a
 * transport error, a body that could not be read, or a response with its
 * status, its body and the body's JSON decoding.
 */
module OAuth {
  import opened GoTypes
  import OAuth2
  import UrlQuery
  import Strconv
  import Profile

  /** The client: its `oauth2.Config` and its random-string generator. */
  datatype App = App(config: OAuth2.Config, randStr: OAuth2.RandStr)

  /** The configuration keys the client reads. */
  const ClientIDKey: GoString := "OAUTH_GITHUB_CLIENT_ID"
  const ClientSecretKey: GoString := "OAUTH_GITHUB_CLIENT_SECRET"
  const RedirectURLKey: GoString := "OAUTH_GITHUB_REDIRECT_URL"

  /**
   * `NewGitHub(httpClient, randStrFunc)`: credentials and callback from the
   * configuration, GitHub's endpoints, the scope "user"; `randStr` is `None`
   * for a nil generator, and `uuid` is the UUID generator used instead.
   */
  function NewGitHub(env: OAuth2.Env, randStr: Option<OAuth2.RandStr>, uuid: OAuth2.RandStr): (a: App)
    ensures a.config.clientID == env(ClientIDKey)
    ensures a.config.clientSecret == env(ClientSecretKey)
    ensures a.config.redirectURL == env(RedirectURLKey)
    ensures a.config.endpoint == OAuth2.GitHubEndpoint && a.config.scopes == ["user"]
    ensures randStr.None? ==> a.randStr == uuid
    ensures randStr.Some? ==> a.randStr == randStr.value
  {
    var config := OAuth2.Config(
      env(ClientIDKey),
      env(ClientSecretKey),
      OAuth2.GitHubEndpoint,
      env(RedirectURLKey),
      ["user"]);
    App(config, OAuth2.ChooseRandStr(randStr, uuid))
  }

  /** What `GetAuthURL` returns, with the number of generator calls it made. */
  datatype AuthURL = AuthURL(url: Result<GoString>, draws: nat)

  /** The query pairs of the authorization URL, in the order they are added. */
  function AuthQuery(config: OAuth2.Config, state: GoString): UrlQuery.Values {
    [("client_id", config.clientID), ("scope", OAuth2.ScopeParam(config.scopes)), ("state", state)]
  }

  /**
   * `GetAuthURL()`, where `next` counts the generator calls made before:
   * the authorize endpoint with client_id, scope and a fresh state; never an
   * error.
   */
  function GetAuthURL(a: App, next: nat): (r: AuthURL)
    ensures r.url.Ok? && r.draws == 1
    ensures OAuth2.QueryOf(r.url.value, a.config.endpoint.authURL) ==
      Some([("client_id", a.config.clientID), ("scope", OAuth2.ScopeParam(a.config.scopes)), ("state", a.randStr(next))])
  {
    var v := AuthQuery(a.config, a.randStr(next));
    assert UrlQuery.KeysAscending(v);
    UrlQuery.SortAscending(v);
    AuthURL(Ok(OAuth2.WithQuery(a.config.endpoint.authURL, v)), 1)
  }

  /** The URL a client built by `NewGitHub` sends the user to: scope "user", the state its one draw. */
  lemma GitHubAuthURL(env: OAuth2.Env, randStr: Option<OAuth2.RandStr>, uuid: OAuth2.RandStr, next: nat)
    ensures OAuth2.QueryOf(GetAuthURL(NewGitHub(env, randStr, uuid), next).url.value, OAuth2.GitHubEndpoint.authURL) ==
      Some([("client_id", env(ClientIDKey)), ("scope", "user"), ("state", OAuth2.ChooseRandStr(randStr, uuid)(next))])
  {
    var a := NewGitHub(env, randStr, uuid);
    var scope := OAuth2.ScopeParam(a.config.scopes);
    assert scope == "user";
    var r := GetAuthURL(a, next);
    assert OAuth2.QueryOf(r.url.value, a.config.endpoint.authURL) ==
      Some([("client_id", a.config.clientID), ("scope", scope), ("state", a.randStr(next))]);
  }

  /** An HTTP request: its method (`verb`), URL, the header fields set, and the JSON object sent (empty for none). */
  datatype Request = Request(verb: GoString, url: GoString, header: map<GoString, GoString>, body: map<GoString, GoString>)

  /** What the client got back, with the JSON decoding of the body into `J` or the decoder's error. */
  datatype Reply<J> =
    | TransportError(msg: string)
    | ReadError(msg: string)
    | Response(status: int, body: GoString, decoded: Result<J>)

  /** `http.StatusOK`. */
  const StatusOK: int := 200

  /** The JSON fields of GitHub's token response. */
  datatype TokenJson = TokenJson(accessToken: GoString, tokenType: GoString, scope: GoString)

  /** The JSON fields of GitHub's user resource that are read. */
  datatype UserJson = UserJson(email: GoString, name: GoString, avatarURL: GoString)

  /** The client's transport, one function per request the client makes. */
  datatype Transport = Transport(token: Request -> Reply<TokenJson>, user: Request -> Reply<UserJson>)

  /** The token request: a JSON POST of the credentials and the code to the token endpoint. */
  function ExchangeRequest(config: OAuth2.Config, code: GoString): (req: Request)
    ensures req.verb == "POST" && req.url == config.endpoint.tokenURL
    ensures req.header == map["Accept" := "application/json", "Content-Type" := "application/json"]
    ensures req.body.Keys == {"client_id", "client_secret", "code"}
    ensures req.body["client_id"] == config.clientID && req.body["client_secret"] == config.clientSecret && req.body["code"] == code
  {
    Request("POST", config.endpoint.tokenURL,
      map["Accept" := "application/json", "Content-Type" := "application/json"],
      map["client_id" := config.clientID, "client_secret" := config.clientSecret, "code" := code])
  }

  /** `ExchangeCode(code)`: the access token of a successful, decodable response. */
  function ExchangeCode(a: App, code: GoString, send: Request -> Reply<TokenJson>): (r: Result<GoString>)
    ensures var reply := send(ExchangeRequest(a.config, code));
      && (r.Ok? <==> reply.Response? && reply.status == StatusOK && reply.decoded.Ok?)
      && (r.Ok? ==> r.value == reply.decoded.value.accessToken)
      && (reply.TransportError? ==> r == Err("failed to exchange code: " + reply.msg))
      && (reply.ReadError? ==> r == Err("failed to read response body: " + reply.msg))
      && (reply.Response? && reply.status != StatusOK ==>
            r == Err("exchanging token status: " + Strconv.FormatInt(reply.status, 10) + " body: " + reply.body))
      && (reply.Response? && reply.status == StatusOK && reply.decoded.Err? ==>
            r == Err("failed to parse token response: " + reply.decoded.msg))
  {
    match send(ExchangeRequest(a.config, code))
    case TransportError(e) => Err("failed to exchange code: " + e)
    case ReadError(e) => Err("failed to read response body: " + e)
    case Response(status, body, decoded) =>
      if status != StatusOK then Err("exchanging token status: " + Strconv.FormatInt(status, 10) + " body: " + body)
      else
        match decoded
        case Err(e) => Err("failed to parse token response: " + e)
        case Ok(t) => Ok(t.accessToken)
  }

  /** A successful response without an access token yields the empty token, not an error. */
  lemma EmptyAccessTokenIsReturned(a: App, code: GoString, send: Request -> Reply<TokenJson>)
    requires send(ExchangeRequest(a.config, code)) == Response(StatusOK, "{}", Ok(TokenJson([], [], [])))
    ensures ExchangeCode(a, code, send) == Ok([])
  {
  }

  /** The profile request: a GET of the user resource with the token as bearer credential. */
  function ProfileRequest(accessToken: GoString): (req: Request)
    ensures req.verb == "GET" && req.url == "https://api.github.com/user"
    ensures req.header == map["Authorization" := "Bearer " + accessToken, "Accept" := "application/vnd.github+json"]
    ensures req.body == map[]
  {
    Request("GET", "https://api.github.com/user",
      map["Authorization" := "Bearer " + accessToken, "Accept" := "application/vnd.github+json"], map[])
  }

  /** `GetUserProfile(accessToken)`: the name, e-mail and avatar of a successful, decodable response. */
  function GetUserProfile(a: App, accessToken: GoString, send: Request -> Reply<UserJson>): (r: Result<Profile.UserProfile>)
    ensures var reply := send(ProfileRequest(accessToken));
      && (r.Ok? <==> reply.Response? && reply.status == StatusOK && reply.decoded.Ok?)
      && (r.Ok? ==> r.value == Profile.UserProfile(reply.decoded.value.email, reply.decoded.value.name, reply.decoded.value.avatarURL))
      && (reply.TransportError? ==> r == Err("requesting github user: " + reply.msg))
      && (reply.ReadError? ==> r == Err("reading response body: " + reply.msg))
      && (reply.Response? && reply.status != StatusOK ==>
            r == Err("requesting user status: " + Strconv.FormatInt(reply.status, 10) + " body: " + reply.body))
      && (reply.Response? && reply.status == StatusOK && reply.decoded.Err? ==>
            r == Err("unmarshalling json: " + reply.decoded.msg))
  {
    match send(ProfileRequest(accessToken))
    case TransportError(e) => Err("requesting github user: " + e)
    case ReadError(e) => Err("reading response body: " + e)
    case Response(status, body, decoded) =>
      if status != StatusOK then Err("requesting user status: " + Strconv.FormatInt(status, 10) + " body: " + body)
      else
        match decoded
        case Err(e) => Err("unmarshalling json: " + e)
        case Ok(u) => Ok(Profile.UserProfile(u.email, u.name, u.avatarURL))
  }

  /** Whatever the body says, a response other than 200 yields no profile. */
  lemma NonOkStatusYieldsNoProfile(a: App, accessToken: GoString, send: Request -> Reply<UserJson>, status: int, body: GoString, u: UserJson)
    requires status != StatusOK
    requires send(ProfileRequest(accessToken)) == Response(status, body, Ok(u))
    ensures GetUserProfile(a, accessToken, send).Err?
  {
  }
}
