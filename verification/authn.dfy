/**
 * The bearer-token authentication function of the RPC interceptor
 * (pkg/authn): extract the token, parse it, and run the fixed chain of
 * checks; the first failing check decides the answer. The clock is read
 * twice: by the JWT library while it parses (`libNow`), then by the
 * interceptor (`now`). `layout` is how the claims record is declared; the
 * program as written uses `Token.Untagged`.
 */
module Authn {
  import opened GoTypes
  import Token
  import Connect

  /** How one authentication attempt ends. */
  datatype Outcome =
    | Pass(info: Connect.Info)       // the request proceeds with this principal
    | Reject(err: Connect.Error)     // the request is refused with this error
    | NilDereference                 // the function dereferences a nil token and panics

  /**
   * The validity window as the interceptor's own checks read it: the whole
   * second holding `notBefore` has begun and `now` is not past the whole
   * second holding the expiry.
   */
  predicate ActiveAt(c: Token.UserClaims, now: Time) {
    Token.Truncate(c.notBefore) <= now <= Token.Truncate(c.expirationTime)
  }

  /** A library outcome that the interceptor's own checks accept at `now`. */
  predicate Accepted(o: Token.ParseOutcome, now: Time) {
    o.Parsed? && ActiveAt(o.claims, now)
  }

  /** A library error of the given class. */
  predicate FailedWith(o: Token.ParseOutcome, kind: Token.ErrorKind) {
    o.Failed? && o.err.kind == kind
  }

  const NoToken: Connect.Error := Connect.ConnectError(Connect.Unauthenticated, "extracting token: not found")
  const InvalidSignature: Connect.Error := Connect.ConnectError(Connect.Unauthenticated, "invalid signature")
  const InvalidToken: Connect.Error := Connect.ConnectError(Connect.Unauthenticated, "invalid token")
  const NotYetActive: Connect.Error := Connect.ConnectError(Connect.Unauthenticated, "token not yet active")
  const Expired: Connect.Error := Connect.ConnectError(Connect.Unauthenticated, "token expired")

  /**
   * The checks after the library's result: the error classes, the nil token,
   * `Valid`, then activation and expiry at `now`; `principal` wraps the user
   * id the way the caller hands it over.
   */
  function CheckChain(pr: Token.ParseResult, now: Time, principal: Int64 -> Connect.Info): Outcome {
    if pr.err.Some? && pr.err.value.kind == Token.TokenMalformed then
      Reject(Connect.ConnectError(Connect.Internal, "token malformed: " + pr.err.value.msg))
    else if pr.err.Some? && pr.err.value.kind == Token.TokenSignatureInvalid then
      Reject(InvalidSignature)
    else if pr.tok.None? then
      NilDereference
    else
      var tok := pr.tok.value;
      if !tok.valid then
        Reject(InvalidToken)
      else
        var nbf := Token.GetNotBefore(tok.claims).value;
        if now < nbf.time then
          Reject(NotYetActive)
        else
          var exp := Token.GetExpirationTime(tok.claims).value;
          if now > exp.time then
            Reject(Expired)
          else
            Pass(principal(tok.claims.userID))
  }

  /** `Authenticate`: the bearer token of the request (`None` when there is none), the library, the key, and the two clock readings. */
  function Authenticate(layout: Token.Layout, bearer: Option<GoString>, lib: Token.Library, secret: GoString, libNow: Time, now: Time): (r: Outcome)
    ensures bearer.None? ==> r == Reject(NoToken)
    ensures bearer.Some? ==>
      var o := Token.Parse(lib, layout, bearer.value, secret, libNow);
      && (r.Pass? <==> Accepted(o, now))
      && (r.Pass? ==> r.info == Connect.Int64Value(o.claims.userID))
      && (r.NilDereference? <==> FailedWith(o, Token.OtherKind))
      && (r.Reject? && Connect.CodeOf(r.err) == Connect.Internal <==> FailedWith(o, Token.TokenMalformed))
    ensures r.Reject? ==> r.err.ConnectError? && r.err.code in {Connect.Internal, Connect.Unauthenticated}
    // the library sets `Valid` on every token it returns
    ensures r != Reject(InvalidToken)
  {
    match bearer
    case None => Reject(NoToken)
    case Some(raw) =>
      // The library decodes into a fresh `NewUserClaims()` record.
      CheckChain(Token.ParseWithClaims(lib, layout, secret, raw, libNow), now, (id: Int64) => Connect.Int64Value(id))
  }

  /** Without a bearer token the request is refused as unauthenticated and nothing is parsed. */
  lemma NoBearerIsUnauthenticated(layout: Token.Layout, lib: Token.Library, secret: GoString, libNow: Time, now: Time)
    ensures Authenticate(layout, None, lib, secret, libNow, now) == Reject(NoToken)
  {
  }

  /**
   * The order of the checks: the first failing one decides. A token the
   * library verifies but finds outside its window at its own reading never
   * reaches the interceptor's window checks: the nil token is dereferenced.
   */
  lemma CheckOrder(layout: Token.Layout, raw: GoString, lib: Token.Library, secret: GoString, libNow: Time, now: Time)
    ensures var v := Token.Verify(lib, layout, raw, secret);
      var o := Token.Parse(lib, layout, raw, secret, libNow);
      var r := Authenticate(layout, Some(raw), lib, secret, libNow, now);
      && (v.Rejected? && v.err.kind == Token.TokenSignatureInvalid ==> r == Reject(InvalidSignature))
      && (v.Verified? && !(Token.Truncate(v.claims.notBefore) <= libNow < Token.Truncate(v.claims.expirationTime)) ==> r == NilDereference)
      && (o.Parsed? && now < Token.Truncate(o.claims.notBefore) ==> r == Reject(NotYetActive))
      && (o.Parsed? && Token.Truncate(o.claims.notBefore) <= now && now > Token.Truncate(o.claims.expirationTime) ==> r == Reject(Expired))
  {
  }

  /**
   * With the clock not running backwards between the library's reading and
   * the interceptor's, "token not yet active" never happens, and "token
   * expired" happens only when the expiry second ends between the two
   * readings.
   */
  lemma ClockOrderRefusals(layout: Token.Layout, raw: GoString, lib: Token.Library, secret: GoString, libNow: Time, now: Time)
    requires libNow <= now
    ensures var r := Authenticate(layout, Some(raw), lib, secret, libNow, now);
      && r != Reject(NotYetActive)
      && (r == Reject(Expired) <==>
            var v := Token.Verify(lib, layout, raw, secret);
            v.Verified? && Token.Truncate(v.claims.notBefore) <= libNow < Token.Truncate(v.claims.expirationTime) < now)
  {
  }

  /**
   * Boundaries of the window, with one instant `t` read by both: the last
   * nanosecond before the expiry second passes and the expiry second itself
   * is already refused by the library; the activation second passes and
   * the nanosecond before it is refused by the library. A library refusal
   * leaves the token nil, and the interceptor dereferences it.
   */
  lemma WindowBoundaries(layout: Token.Layout, raw: GoString, lib: Token.Library, secret: GoString)
    requires Token.Verify(lib, layout, raw, secret).Verified?
    requires var c := Token.Verify(lib, layout, raw, secret).claims;
      Token.Truncate(c.notBefore) < Token.Truncate(c.expirationTime)
    ensures var c := Token.Verify(lib, layout, raw, secret).claims;
      var exp := Token.Truncate(c.expirationTime);
      var nbf := Token.Truncate(c.notBefore);
      && Authenticate(layout, Some(raw), lib, secret, exp - 1, exp - 1) == Pass(Connect.Int64Value(c.userID))
      && Authenticate(layout, Some(raw), lib, secret, exp, exp) == NilDereference
      && Authenticate(layout, Some(raw), lib, secret, nbf, nbf) == Pass(Connect.Int64Value(c.userID))
      && Authenticate(layout, Some(raw), lib, secret, nbf - 1, nbf - 1) == NilDereference
  {
  }

  /**
   * As written, a well-signed token that the library finds expired is
   * returned as a nil token with an error of neither handled class, and
   * reading its `Valid` flag panics.
   */
  lemma OtherParseErrorPanics(raw: GoString, lib: Token.Library, secret: GoString, libNow: Time, now: Time)
    requires Token.Verify(lib, Token.Untagged, raw, secret).Verified?
    requires libNow >= Token.Truncate(Token.Verify(lib, Token.Untagged, raw, secret).claims.expirationTime)
    ensures Authenticate(Token.Untagged, Some(raw), lib, secret, libNow, now) == NilDereference
  {
  }

  /**
   * Claims the payload filled nothing of keep `NewUserClaims`' expiry, Go's
   * zero time, so the library finds them expired at every instant from
   * year 1 on and the interceptor panics.
   */
  lemma UnfilledClaimsPanic(layout: Token.Layout, raw: GoString, lib: Token.Library, secret: GoString, libNow: Time, now: Time)
    requires Token.Verify(lib, layout, raw, secret).Verified?
    requires Token.Verify(lib, layout, raw, secret).claims == Token.NewUserClaims()
    requires libNow >= ZeroTime
    ensures Authenticate(layout, Some(raw), lib, secret, libNow, now) == NilDereference
  {
    assert Token.Truncate(ZeroTime) == ZeroTime;
  }

  /**
   * The check chain with the nil token handled: any library error that is
   * neither "malformed" nor "signature invalid" refuses the request as
   * unauthenticated instead of panicking.
   */
  function AuthenticateChecked(layout: Token.Layout, bearer: Option<GoString>, lib: Token.Library, secret: GoString, libNow: Time, now: Time): (r: Outcome)
    ensures !r.NilDereference?
    ensures r.Pass? <==> bearer.Some? && Accepted(Token.Parse(lib, layout, bearer.value, secret, libNow), now)
  {
    match bearer
    case Some(raw) =>
      var o := Token.Parse(lib, layout, raw, secret, libNow);
      if FailedWith(o, Token.OtherKind) then
        Reject(Connect.ConnectError(Connect.Unauthenticated, "invalid token: " + o.err.msg))
      else Authenticate(layout, bearer, lib, secret, libNow, now)
    case None => Authenticate(layout, bearer, lib, secret, libNow, now)
  }

  /**
   * The corrected chain refuses every token the library rejects, with
   * Internal only for a malformed one, and otherwise answers exactly as the
   * chain as written.
   */
  lemma CheckedChainRejectsEveryLibraryError(layout: Token.Layout, bearer: Option<GoString>, lib: Token.Library, secret: GoString, libNow: Time, now: Time)
    ensures var r := AuthenticateChecked(layout, bearer, lib, secret, libNow, now);
      var w := Authenticate(layout, bearer, lib, secret, libNow, now);
      && (bearer.Some? && Token.Parse(lib, layout, bearer.value, secret, libNow).Failed? ==> r.Reject?)
      && (r.Reject? && Connect.CodeOf(r.err) == Connect.Internal <==>
            bearer.Some? && FailedWith(Token.Parse(lib, layout, bearer.value, secret, libNow), Token.TokenMalformed))
      && (!w.NilDereference? ==> r == w)
  {
  }
}
