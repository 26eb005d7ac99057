/**
 * What the two GitHub OAuth clients share: the `oauth2.Config` record and
 * GitHub's endpoints, the configuration lookup and the random-string
 * generator they are built from, and the authorization-URL form
 * `AuthURL + "?" + query` of section 4.1.1 of RFC 6749.
 */
module OAuth2 {
  import opened GoTypes
  import GoStrings
  import UrlQuery

  datatype Endpoint = Endpoint(authURL: GoString, tokenURL: GoString)

  /** `endpoints.GitHub`. */
  const GitHubEndpoint: Endpoint :=
    Endpoint("https://github.com/login/oauth/authorize", "https://github.com/login/oauth/access_token")

  /** `oauth2.Config`. */
  datatype Config = Config(clientID: GoString, clientSecret: GoString, endpoint: Endpoint, redirectURL: GoString, scopes: seq<GoString>)

  /** The configuration store (`viper.GetString`): the value under a key, empty when unset. */
  type Env = GoString -> GoString

  /** A random-string generator: its `n`-th call (from 0) returns `draw(n)`. */
  type RandStr = nat -> GoString

  /** The generator an app uses: the one given, or the UUID generator when none is. */
  function ChooseRandStr(given: Option<RandStr>, uuid: RandStr): (r: RandStr)
    ensures given.Some? ==> r == given.value
    ensures given.None? ==> r == uuid
  {
    if given.Some? then given.value else uuid
  }

  /** The `scope` parameter: the scopes joined by single spaces (section 3.3 of RFC 6749). */
  function ScopeParam(scopes: seq<GoString>): (s: GoString)
    ensures |scopes| == 1 ==> s == scopes[0]
  {
    GoStrings.Join(scopes, ' ')
  }

  /** A server splitting the `scope` parameter at its spaces gets the configured scopes back. */
  lemma ScopeParamSplits(scopes: seq<GoString>)
    requires |scopes| >= 1 && forall i :: 0 <= i < |scopes| ==> ' ' !in scopes[i]
    ensures GoStrings.Split(ScopeParam(scopes), ' ') == scopes
  {
    GoStrings.SplitJoin(scopes, ' ');
  }

  /** `base + "?" + v.Encode()`. */
  function WithQuery(base: GoString, v: UrlQuery.Values): (u: GoString)
    ensures QueryOf(u, base) == Some(UrlQuery.SortByKey(v))
  {
    var q := UrlQuery.Encode(v);
    UrlQuery.DecodeEncode(v);
    assert (base + "?" + q)[..|base| + 1] == base + "?";
    assert (base + "?" + q)[|base| + 1..] == q;
    base + "?" + q
  }

  /** The query pairs of a URL `base?query`; `None` for any other text or an undecodable query. */
  function QueryOf(u: GoString, base: GoString): Option<UrlQuery.Values> {
    if |u| > |base| && u[..|base| + 1] == base + "?" then UrlQuery.DecodeQuery(u[|base| + 1..]) else None
  }
}
