/**
 * The GitHub client of pkg/oauthapp: the authorization URL with an optional
 * redirect override (section 4.1.1 of RFC 6749), which is accepted only when
 * its host and port are those of the configured callback, and the two
 * not-yet-written methods. `url.Parse` is a parameter, and so is the quoted
 * form (`%q` of `u.String()`) of a rejected URL in the error text.
 */
module OAuthApp {
  import opened GoTypes
  import OAuth2
  import UrlQuery
  import Url
  import Profile

  /** The client: its `oauth2.Config` and its random-string generator. */
  datatype App = App(config: OAuth2.Config, randStr: OAuth2.RandStr)

  /** The configuration keys the client reads. */
  const ClientIDKey: GoString := "OAUTH_GITHUB_CLIENT_ID"
  const ClientSecretKey: GoString := "OAUTH_GITHUB_CLIENT_SECRET"
  const CallbackURLKey: GoString := "OAUTH_GITHUB_CALLBACK_URL"

  /**
   * `NewGitHub(httpClient, randStr)`: as the pkg/oauth client, except that
   * the callback comes from the CALLBACK_URL key.
   */
  function NewGitHub(env: OAuth2.Env, randStr: Option<OAuth2.RandStr>, uuid: OAuth2.RandStr): (a: App)
    ensures a.config.clientID == env(ClientIDKey)
    ensures a.config.clientSecret == env(ClientSecretKey)
    ensures a.config.redirectURL == env(CallbackURLKey)
    ensures a.config.endpoint == OAuth2.GitHubEndpoint && a.config.scopes == ["user"]
    ensures randStr.None? ==> a.randStr == uuid
    ensures randStr.Some? ==> a.randStr == randStr.value
  {
    var config := OAuth2.Config(env(ClientIDKey), env(ClientSecretKey), OAuth2.GitHubEndpoint, env(CallbackURLKey), ["user"]);
    App(config, OAuth2.ChooseRandStr(randStr, uuid))
  }

  /** What `isValidRedirectURL` decides; a configured callback that does not parse is a nil `*url.URL`, dereferenced. */
  datatype RedirectCheck = Matches | Mismatch(msg: string) | ConfiguredUnparsable

  /** The authorities of two URLs agree in host name and in port. */
  predicate SameHostPort(d: Url.URL, u: Url.URL) {
    Url.Hostname(d) == Url.Hostname(u) && Url.Port(d) == Url.Port(u)
  }

  /** `g.isValidRedirectURL(u)`: `u` against the configured callback. */
  function IsValidRedirectURL(a: App, u: Url.URL, parse: Url.Parser, quoted: Url.URL -> GoString): (c: RedirectCheck)
    ensures c.ConfiguredUnparsable? <==> parse(a.config.redirectURL).Err?
    ensures c.Matches? <==> parse(a.config.redirectURL).Ok? && SameHostPort(parse(a.config.redirectURL).value, u)
    ensures c.Mismatch? ==> c.msg == "redirect url " + quoted(u) + "'s host and port must match configured oauth app settings"
  {
    match parse(a.config.redirectURL)
    case Err(_) => ConfiguredUnparsable
    case Ok(d) =>
      if Url.Hostname(d) != Url.Hostname(u) || Url.Port(d) != Url.Port(u) then
        Mismatch("redirect url " + quoted(u) + "'s host and port must match configured oauth app settings")
      else Matches
  }

  /** What `GetAuthURL` does: returns, with the number of generator calls made, or panics. */
  datatype AuthURL = Returned(url: Result<GoString>, draws: nat) | Panicked

  const ErrPrefix: string := "invalid redirect url: "

  /** The query pairs, in the order they are added; `redirect_uri` only with an override. */
  function AuthQuery(config: OAuth2.Config, redirect: Option<GoString>, state: GoString): (v: UrlQuery.Values)
    ensures UrlQuery.KeysAscending(v)
  {
    if redirect.Some? then
      [("client_id", config.clientID), ("redirect_uri", redirect.value), ("scope", OAuth2.ScopeParam(config.scopes)), ("state", state)]
    else
      [("client_id", config.clientID), ("scope", OAuth2.ScopeParam(config.scopes)), ("state", state)]
  }

  /** The URL for a query: the authorize endpoint, "?", the pairs sorted by key. */
  function URLFor(config: OAuth2.Config, redirect: Option<GoString>, state: GoString): (u: GoString)
    ensures OAuth2.QueryOf(u, config.endpoint.authURL) == Some(AuthQuery(config, redirect, state))
  {
    var v := AuthQuery(config, redirect, state);
    UrlQuery.SortAscending(v);
    OAuth2.WithQuery(config.endpoint.authURL, v)
  }

  /**
   * `GetAuthURL(option)`, where `redirect` is `option.RedirectURL` (`None`
   * when the option or the field is nil) and `next` counts the generator
   * calls made before.
   */
  function GetAuthURL(a: App, redirect: Option<GoString>, parse: Url.Parser, quoted: Url.URL -> GoString, next: nat): (r: AuthURL)
    // without an override: client_id, scope and state, and no redirect_uri
    ensures redirect.None? ==> (r.Returned? && r.url.Ok? && r.draws == 1 &&
      OAuth2.QueryOf(r.url.value, a.config.endpoint.authURL) ==
        Some([("client_id", a.config.clientID), ("scope", OAuth2.ScopeParam(a.config.scopes)), ("state", a.randStr(next))]))
    // an override that does not parse: its parse error
    ensures redirect.Some? && parse(redirect.value).Err? ==> r == Returned(Err(ErrPrefix + parse(redirect.value).msg), 0)
    // a parsed override with a configured callback that does not parse: the nil dereference
    ensures r.Panicked? <==> redirect.Some? && parse(redirect.value).Ok? && parse(a.config.redirectURL).Err?
    // a parsed override is accepted exactly when host and port match
    ensures redirect.Some? && parse(redirect.value).Ok? && parse(a.config.redirectURL).Ok? ==>
      (r.Returned? && (r.url.Ok? <==> SameHostPort(parse(a.config.redirectURL).value, parse(redirect.value).value)))
    // an accepted override appears verbatim, between client_id and scope
    ensures redirect.Some? && r.Returned? && r.url.Ok? ==> (r.draws == 1 &&
      OAuth2.QueryOf(r.url.value, a.config.endpoint.authURL) ==
        Some([("client_id", a.config.clientID), ("redirect_uri", redirect.value),
              ("scope", OAuth2.ScopeParam(a.config.scopes)), ("state", a.randStr(next))]))
    // every error carries the prefix, and no state was drawn
    ensures r.Returned? && r.url.Err? ==> r.draws == 0 && |r.url.msg| >= |ErrPrefix| && r.url.msg[..|ErrPrefix|] == ErrPrefix
  {
    match redirect
    case None => Returned(Ok(URLFor(a.config, None, a.randStr(next))), 1)
    case Some(raw) =>
      match parse(raw)
      case Err(e) => Returned(Err(ErrPrefix + e), 0)
      case Ok(u) =>
        match IsValidRedirectURL(a, u, parse, quoted)
        case ConfiguredUnparsable => Panicked
        case Mismatch(m) => Returned(Err(ErrPrefix + m), 0)
        case Matches => Returned(Ok(URLFor(a.config, Some(raw), a.randStr(next))), 1)
  }

  /** Two overrides with the same authority are treated alike: scheme, path, query and fragment are not compared. */
  lemma SchemeAndPathNotCompared(a: App, r1: GoString, r2: GoString, parse: Url.Parser, quoted: Url.URL -> GoString, next: nat)
    requires parse(r1).Ok? && parse(r2).Ok? && parse(r1).value.host == parse(r2).value.host
    ensures GetAuthURL(a, Some(r1), parse, quoted, next).Returned? == GetAuthURL(a, Some(r2), parse, quoted, next).Returned?
    ensures GetAuthURL(a, Some(r1), parse, quoted, next).Returned? ==>
      GetAuthURL(a, Some(r1), parse, quoted, next).url.Ok? == GetAuthURL(a, Some(r2), parse, quoted, next).url.Ok?
  {
  }

  /** A callback configured with an explicit port rejects an override on the same host without one. */
  lemma PortMustMatch(a: App, raw: GoString, parse: Url.Parser, quoted: Url.URL -> GoString, next: nat, host: GoString, port: GoString, d: Url.URL, u: Url.URL)
    requires ':' !in host && '[' !in host
    requires |port| > 0 && forall i :: 0 <= i < |port| ==> Url.IsDigit(port[i])
    requires parse(a.config.redirectURL) == Ok(d) && d.host == host + [':'] + port
    requires parse(raw) == Ok(u) && u.host == host
    ensures GetAuthURL(a, Some(raw), parse, quoted, next).Returned?
    ensures GetAuthURL(a, Some(raw), parse, quoted, next).url.Err?
  {
    Url.SplitJoinHostPort(host, port);
    assert Url.Port(d) == port;
    assert Url.Port(u) == [];
  }

  /** `ExchangeCode(code, option)`: not written yet, it yields the empty token and no error. */
  function ExchangeCode(a: App, code: GoString, redirect: Option<GoString>): (r: Result<GoString>)
    ensures r == Ok([])
  {
    Ok([])
  }

  /** `GetUserProfile(accessToken)`: not written yet, it yields the empty profile and no error. */
  function GetUserProfile(a: App, accessToken: GoString): (r: Result<Profile.UserProfile>)
    ensures r.Ok? && r.value.email == [] && r.value.avatarURL == []
  {
    Ok(Profile.UserProfile([], [], []))
  }

  /** A login through the unwritten profile call would name its user "". */
  lemma StubProfileHasEmptyTempName(a: App, accessToken: GoString)
    ensures Profile.TempName(GetUserProfile(a, accessToken).value) == []
  {
  }
}
