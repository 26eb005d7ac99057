/**
 * The older auth handler (service/auth/v1/service_handler.go): it classifies
 * the requested provider and hands out GitHub's bare authorize endpoint;
 * login and logout are not written yet.
 */
module AuthHandler {
  import opened GoTypes
  import Connect
  import OAuth2
  import Proto
  import AuthService

  /** What the handler's `GetAuthURL` answers. */
  datatype AuthURLReply = AuthURLResponse(authURL: GoString) | AuthURLError(err: Connect.Error)

  /** `GetAuthURL(req)`. */
  function GetAuthURL(provider: int): (r: AuthURLReply)
    ensures r.AuthURLResponse? <==> provider == Proto.IdentityProviderGitHub
    ensures r.AuthURLResponse? ==> r.authURL == OAuth2.GitHubEndpoint.authURL
    ensures provider == Proto.IdentityProviderUnspecified ==>
      r == AuthURLError(Connect.ConnectError(Connect.InvalidArgument, "identity provider must be specified"))
    ensures provider != Proto.IdentityProviderUnspecified && provider != Proto.IdentityProviderGitHub ==>
      r == AuthURLError(Connect.ConnectError(Connect.InvalidArgument, "unsupported auth provider: " + Proto.ProviderName(provider)))
  {
    if provider == Proto.IdentityProviderUnspecified then
      AuthURLError(Connect.ConnectError(Connect.InvalidArgument, "identity provider must be specified"))
    else if provider == Proto.IdentityProviderGitHub then
      AuthURLResponse(OAuth2.GitHubEndpoint.authURL)
    else
      AuthURLError(Connect.ConnectError(Connect.InvalidArgument, "unsupported auth provider: " + Proto.ProviderName(provider)))
  }

  /** The GitHub answer is the endpoint alone: it carries no query at all. */
  lemma GitHubURLHasNoQuery()
    ensures GetAuthURL(Proto.IdentityProviderGitHub).AuthURLResponse?
    ensures '?' !in GetAuthURL(Proto.IdentityProviderGitHub).authURL
  {
    var u := OAuth2.GitHubEndpoint.authURL;
    assert forall i :: 0 <= i < |u| ==> u[i] != '?';
  }

  /**
   * An example of the last case of `GetAuthURL`: an enum value without a
   * name is reported with an empty name, since a Go map read of a missing
   * key gives the empty string.
   */
  lemma UnknownProviderHasEmptyName(provider: int)
    requires provider != Proto.IdentityProviderUnspecified && provider != Proto.IdentityProviderGitHub
    ensures GetAuthURL(provider) == AuthURLError(Connect.ConnectError(Connect.InvalidArgument, "unsupported auth provider: "))
  {
    assert provider !in Proto.IdentityProviderNames;
    assert Proto.ProviderName(provider) == [];
    assert "unsupported auth provider: " + [] == "unsupported auth provider: ";
  }

  /**
   * The handler and the service refuse the same providers once a GitHub
   * client is registered, with different codes: InvalidArgument here,
   * Internal there.
   */
  lemma AgreesWithService(reg: AuthService.Registry, provider: int, next: nat)
    requires AuthService.GitHubKey in reg
    ensures GetAuthURL(provider).AuthURLError? <==> AuthService.GetAuthURL(reg, provider, next).AuthURLError?
    ensures GetAuthURL(provider).AuthURLError? ==>
      && GetAuthURL(provider).err.code == Connect.InvalidArgument
      && AuthService.GetAuthURL(reg, provider, next).err.code == Connect.Internal
  {
  }

  datatype LoginResponse = LoginResponse
  datatype LogoutResponse = LogoutResponse

  /** `Login(req)`: a nil response and a nil error, whatever the request. */
  function Login(provider: int, code: GoString): (r: (Option<LoginResponse>, Option<Connect.Error>))
    ensures r.0.None? && r.1.None?
  {
    (None, None)
  }

  /** `Logout(req)`: a nil response and a nil error. */
  function Logout(): (r: (Option<LogoutResponse>, Option<Connect.Error>))
    ensures r.0.None? && r.1.None?
  {
    (None, None)
  }
}
