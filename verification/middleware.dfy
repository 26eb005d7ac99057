/**
 * The cookie-based authentication function of the HTTP middleware
 * (pkg/middleware): the same check chain as the bearer interceptor, but a
 * request without a "token" cookie proceeds anonymously, and the principal
 * is handed over as a pointer. The clock readings and the claims layout are
 * as for the interceptor.
 */
module Middleware {
  import opened GoTypes
  import Token
  import Connect
  import Authn

  /**
   * `Authorize`: the value of the request's "token" cookie (`None` when the
   * cookie is missing), the library, the key, and the two clock readings.
   */
  function Authorize(layout: Token.Layout, cookie: Option<GoString>, lib: Token.Library, secret: GoString, libNow: Time, now: Time): (r: Authn.Outcome)
    ensures cookie.None? ==> r == Authn.Pass(Connect.NoInfo)
    ensures cookie.Some? ==>
      var o := Token.Parse(lib, layout, cookie.value, secret, libNow);
      && (r.Pass? <==> Authn.Accepted(o, now))
      && (r.Pass? ==> r.info == Connect.Int64Pointer(Some(o.claims.userID)))
      && (r.NilDereference? <==> Authn.FailedWith(o, Token.OtherKind))
      && (r.Reject? && Connect.CodeOf(r.err) == Connect.Internal <==> Authn.FailedWith(o, Token.TokenMalformed))
    ensures r != Authn.Reject(Authn.InvalidToken)
  {
    match cookie
    case None => Authn.Pass(Connect.NoInfo)
    case Some(tokenValue) =>
      Authn.CheckChain(Token.ParseWithClaims(lib, layout, secret, tokenValue, libNow), now, (id: Int64) => Connect.Int64Pointer(Some(id)))
  }

  /**
   * Once a token is present, the cookie middleware and the bearer interceptor
   * reach the same verdict with the same error; they differ only in how the
   * accepted user ID is handed over (pointer versus plain value).
   */
  lemma AgreesWithBearerInterceptor(layout: Token.Layout, raw: GoString, lib: Token.Library, secret: GoString, libNow: Time, now: Time)
    ensures var a := Authorize(layout, Some(raw), lib, secret, libNow, now);
      var b := Authn.Authenticate(layout, Some(raw), lib, secret, libNow, now);
      && a.Pass? == b.Pass?
      && a.NilDereference? == b.NilDereference?
      && (a.Reject? ==> b.Reject? && a.err == b.err)
      && (a.Pass? ==> a.info.Int64Pointer? && b.info.Int64Value? && a.info.target == Some(b.info.id))
  {
  }

  /**
   * Boundaries of the window, as for the bearer interceptor: the expiry
   * second is refused by the library, and the request panics on the nil token.
   */
  lemma WindowBoundaries(layout: Token.Layout, raw: GoString, lib: Token.Library, secret: GoString)
    requires Token.Verify(lib, layout, raw, secret).Verified?
    requires var c := Token.Verify(lib, layout, raw, secret).claims;
      Token.Truncate(c.notBefore) < Token.Truncate(c.expirationTime)
    ensures var c := Token.Verify(lib, layout, raw, secret).claims;
      var exp := Token.Truncate(c.expirationTime);
      var nbf := Token.Truncate(c.notBefore);
      && Authorize(layout, Some(raw), lib, secret, exp - 1, exp - 1) == Authn.Pass(Connect.Int64Pointer(Some(c.userID)))
      && Authorize(layout, Some(raw), lib, secret, exp, exp) == Authn.NilDereference
      && Authorize(layout, Some(raw), lib, secret, nbf, nbf) == Authn.Pass(Connect.Int64Pointer(Some(c.userID)))
      && Authorize(layout, Some(raw), lib, secret, nbf - 1, nbf - 1) == Authn.NilDereference
  {
  }

  /** As written, the nil token of a well-signed cookie the library finds expired is dereferenced. */
  lemma OtherParseErrorPanics(raw: GoString, lib: Token.Library, secret: GoString, libNow: Time, now: Time)
    requires Token.Verify(lib, Token.Untagged, raw, secret).Verified?
    requires libNow >= Token.Truncate(Token.Verify(lib, Token.Untagged, raw, secret).claims.expirationTime)
    ensures Authorize(Token.Untagged, Some(raw), lib, secret, libNow, now) == Authn.NilDereference
  {
  }

  /** The cookie middleware with the nil token handled as an unauthenticated request. */
  function AuthorizeChecked(layout: Token.Layout, cookie: Option<GoString>, lib: Token.Library, secret: GoString, libNow: Time, now: Time): (r: Authn.Outcome)
    ensures !r.NilDereference?
    ensures cookie.None? ==> r == Authn.Pass(Connect.NoInfo)
    ensures cookie.Some? && Token.Parse(lib, layout, cookie.value, secret, libNow).Failed? ==> r.Reject?
    ensures !Authorize(layout, cookie, lib, secret, libNow, now).NilDereference? ==> r == Authorize(layout, cookie, lib, secret, libNow, now)
  {
    match cookie
    case Some(raw) =>
      var o := Token.Parse(lib, layout, raw, secret, libNow);
      if Authn.FailedWith(o, Token.OtherKind) then
        Authn.Reject(Connect.ConnectError(Connect.Unauthenticated, "invalid token: " + o.err.msg))
      else Authorize(layout, cookie, lib, secret, libNow, now)
    case None => Authorize(layout, cookie, lib, secret, libNow, now)
  }
}
