/**
 * Session-token claims (pkg/token): the claims record the validators decode
 * into, its `jwt.Claims` getters, token construction and the parse wrapper,
 * together with the parts of the JWT library (golang-jwt v5) they rely on:
 * encoding/json's filling of the claims record and the default claims
 * validation. Reading a token's segments and checking its signature belong
 * to the library and are a parameter.
 */
module Token {
  import opened GoTypes

  /** The JWT signing algorithms of the library. */
  datatype SigningMethod = HS256 | HS384 | HS512 | RS256 | ES256

  /** The one algorithm the package signs with. */
  const SigningMethodUsed: SigningMethod := HS256

  /** `UserClaims`: the claims a session token is decoded into. */
  datatype UserClaims = UserClaims(
    audience: seq<GoString>,
    issuer: GoString,
    issuedAt: Time,
    expirationTime: Time,
    notBefore: Time,
    userID: Int64)

  /** `jwt.NumericDate`: an instant in whole seconds. */
  datatype NumericDate = NumericDate(time: Time)

  /** `t.Truncate(time.Second)`: rounds down to a whole second. */
  function Truncate(t: Time): Time {
    t - t % Second
  }

  /**
   * `jwt.NewNumericDate(t)`: the whole second in which `t` falls (the library
   * truncates to its one-second precision).
   */
  function NewNumericDate(t: Time): (d: NumericDate)
    ensures d.time <= t < d.time + Second
    ensures d.time % Second == 0
  {
    NumericDate(Truncate(t))
  }

  /** A whole-second instant is its own numeric date. */
  lemma NumericDateOfWholeSecond(t: Time)
    requires t % Second == 0
    ensures NewNumericDate(t).time == t
  {
  }

  /** `NewUserClaims()`: claims with nothing set, every instant Go's zero time. */
  function NewUserClaims(): (c: UserClaims)
    ensures |c.audience| == 0 && |c.issuer| == 0 && c.userID == 0
    ensures c.issuedAt == c.expirationTime == c.notBefore == ZeroTime
  {
    UserClaims([], [], ZeroTime, ZeroTime, ZeroTime, 0)
  }

  /** `GetAudience`: the stored audience, never an error. */
  function GetAudience(u: UserClaims): (r: Result<seq<GoString>>)
    ensures r.Ok? && r.value == u.audience
  {
    Ok(u.audience)
  }

  /** `GetIssuer`: the stored issuer, never an error. */
  function GetIssuer(u: UserClaims): (r: Result<GoString>)
    ensures r.Ok? && r.value == u.issuer
  {
    Ok(u.issuer)
  }

  /** `GetSubject`: always the empty subject, never an error. */
  function GetSubject(u: UserClaims): (r: Result<GoString>)
    ensures r.Ok? && |r.value| == 0
  {
    Ok([])
  }

  /** `GetExpirationTime`: the whole second of the stored expiry, never an error. */
  function GetExpirationTime(u: UserClaims): (r: Result<NumericDate>)
    ensures r.Ok? && r.value.time <= u.expirationTime < r.value.time + Second
  {
    Ok(NewNumericDate(u.expirationTime))
  }

  /** `GetIssuedAt`: the whole second of the stored issue time, never an error. */
  function GetIssuedAt(u: UserClaims): (r: Result<NumericDate>)
    ensures r.Ok? && r.value.time <= u.issuedAt < r.value.time + Second
  {
    Ok(NewNumericDate(u.issuedAt))
  }

  /** `GetNotBefore`: the whole second of the stored activation time, never an error. */
  function GetNotBefore(u: UserClaims): (r: Result<NumericDate>)
    ensures r.Ok? && r.value.time <= u.notBefore < r.value.time + Second
  {
    Ok(NewNumericDate(u.notBefore))
  }

  /** A `*jwt.Token` holding `UserClaims`; `valid` is the library's `Valid` flag. */
  datatype Jwt = Jwt(alg: SigningMethod, claims: UserClaims, valid: bool)

  /** `NewWithUserClaims(claims)`: an unsigned token carrying the claims, always HS256. */
  function NewWithUserClaims(claims: UserClaims): (t: Jwt)
    ensures t.alg == HS256 && t.claims == claims && !t.valid
  {
    Jwt(SigningMethodUsed, claims, false)
  }

  /** The library error classes the validators distinguish with `errors.Is`. */
  datatype ErrorKind = TokenMalformed | TokenSignatureInvalid | OtherKind

  datatype JwtError = JwtError(kind: ErrorKind, msg: string)


  /*
   * The claims payload and how encoding/json fills a claims record from it.
   */

  /** A JSON value of a claims payload, told apart as far as the claims record's field types need. */
  datatype JsonValue =
    | JsonString(s: GoString)
    | JsonInteger(n: int)                      // a number written without fraction or exponent
    | JsonStringArray(items: seq<GoString>)
    | JsonNull
    | JsonOther                                // true, false, any other number, an object or another array

  /** A claims payload: the members of its JSON object, in the order they appear. */
  type Payload = seq<(GoString, JsonValue)>

  /** The fields of `UserClaims`. */
  datatype Field = AudienceField | IssuerField | IssuedAtField | ExpirationTimeField | NotBeforeField | UserIDField

  /**
   * How the claims record is declared. `Untagged` is `UserClaims` as written
   * (pkg/token/token.go:19-26): no `json` tags and `time.Time` instants.
   * `Tagged` names the fields "aud", "iss", "iat", "exp", "nbf" and "uid"
   * through tags and holds the instants as `jwt.NumericDate`, the form of the
   * payload the auth service signs.
   */
  datatype Layout = Untagged | Tagged

  /** The name encoding/json matches keys against: the field's tag, or its Go name when it has none. */
  function KeyName(layout: Layout, f: Field): GoString {
    match layout
    case Untagged =>
      (match f
       case AudienceField => "Audience"
       case IssuerField => "Issuer"
       case IssuedAtField => "IssuedAt"
       case ExpirationTimeField => "ExpirationTime"
       case NotBeforeField => "NotBefore"
       case UserIDField => "UserID")
    case Tagged =>
      (match f
       case AudienceField => "aud"
       case IssuerField => "iss"
       case IssuedAtField => "iat"
       case ExpirationTimeField => "exp"
       case NotBeforeField => "nbf"
       case UserIDField => "uid")
  }

  /** A byte with ASCII upper case folded to lower case. */
  function Lower(b: Byte): Byte {
    if 'A' <= b <= 'Z' then (b as int + 32) as char else b
  }

  /** The string with ASCII upper case folded to lower case. */
  function Fold(s: GoString): (t: GoString)
    ensures |t| == |s|
    ensures forall i :: 0 <= i < |s| ==> t[i] == Lower(s[i])
  {
    seq(|s|, i requires 0 <= i < |s| => Lower(s[i]))
  }

  /** A key names a field when it equals the field's name up to ASCII case. */
  predicate Names(layout: Layout, key: GoString, f: Field) {
    Fold(key) == Fold(KeyName(layout, f))
  }

  /** The field an object key fills, if any (the record's names differ even up to case, so at most one matches). */
  function FieldOf(layout: Layout, key: GoString): (f: Option<Field>)
    ensures f.Some? ==> Names(layout, key, f.value)
    ensures f.None? ==>
      && !Names(layout, key, AudienceField) && !Names(layout, key, IssuerField)
      && !Names(layout, key, IssuedAtField) && !Names(layout, key, ExpirationTimeField)
      && !Names(layout, key, NotBeforeField) && !Names(layout, key, UserIDField)
  {
    if Names(layout, key, AudienceField) then Some(AudienceField)
    else if Names(layout, key, IssuerField) then Some(IssuerField)
    else if Names(layout, key, IssuedAtField) then Some(IssuedAtField)
    else if Names(layout, key, ExpirationTimeField) then Some(ExpirationTimeField)
    else if Names(layout, key, NotBeforeField) then Some(NotBeforeField)
    else if Names(layout, key, UserIDField) then Some(UserIDField)
    else None
  }

  /** The error for a value the field cannot hold. */
  function TypeError(layout: Layout, f: Field): string {
    "json: cannot unmarshal into Go struct field UserClaims." + KeyName(layout, f)
  }

  const NotAJsonString: string := "Time.UnmarshalJSON: input is not a JSON string"

  /**
   * The instant a value gives a time field: `None` leaves the field as it
   * was. A `time.Time` takes a JSON string in RFC 3339 (`rfc3339` parses it)
   * and ignores null; a `jwt.NumericDate` takes a whole number of seconds.
   */
  function InstantOf(layout: Layout, v: JsonValue, rfc3339: GoString -> Result<Time>): (r: Result<Option<Time>>)
    ensures layout.Tagged? ==> (r.Ok? <==> v.JsonInteger?)
    ensures layout.Tagged? && v.JsonInteger? ==> r == Ok(Some(v.n * Second))
    ensures layout.Untagged? && v.JsonInteger? ==> r == Err(NotAJsonString)
  {
    match layout
    case Tagged =>
      if v.JsonInteger? then Ok(Some(v.n * Second)) else Err("jwt: could not parse NumericDate")
    case Untagged =>
      match v
      case JsonNull => Ok(None)
      case JsonString(s) =>
        (match rfc3339(s)
         case Ok(t) => Ok(Some(t))
         case Err(e) => Err(e))
      case _ => Err(NotAJsonString)
  }

  /** The record with one instant field set. */
  function WithInstant(c: UserClaims, f: Field, t: Time): UserClaims
    requires f in {IssuedAtField, ExpirationTimeField, NotBeforeField}
  {
    if f == IssuedAtField then c.(issuedAt := t)
    else if f == ExpirationTimeField then c.(expirationTime := t)
    else c.(notBefore := t)
  }

  /** One object member stored into its field, or the error encoding/json reports for it. */
  function SetField(layout: Layout, c: UserClaims, f: Field, v: JsonValue, rfc3339: GoString -> Result<Time>): (r: Result<UserClaims>)
    ensures v.JsonString? && f == IssuerField ==> r == Ok(c.(issuer := v.s))
    ensures v.JsonInteger? && f == UserIDField ==>
      (r.Ok? <==> MinInt64 <= v.n <= MaxInt64) && (r.Ok? ==> r.value == c.(userID := v.n))
  {
    match f
    case AudienceField =>
      (match v
       case JsonStringArray(a) => Ok(c.(audience := a))
       case JsonNull => Ok(c.(audience := []))
       case JsonString(s) => if layout.Tagged? then Ok(c.(audience := [s])) else Err(TypeError(layout, f))
       case _ => Err(TypeError(layout, f)))
    case IssuerField =>
      (match v
       case JsonString(s) => Ok(c.(issuer := s))
       case JsonNull => Ok(c)
       case _ => Err(TypeError(layout, f)))
    case UserIDField =>
      (match v
       case JsonInteger(n) => if MinInt64 <= n <= MaxInt64 then Ok(c.(userID := n)) else Err(TypeError(layout, f))
       case JsonNull => Ok(c)
       case _ => Err(TypeError(layout, f)))
    case _ =>
      match InstantOf(layout, v, rfc3339)
      case Err(e) => Err(e)
      case Ok(None) => Ok(c)
      case Ok(Some(t)) => Ok(WithInstant(c, f, t))
  }

  /** The members from the first on stored into `c`; a key naming no field is skipped, and the first member a field cannot hold ends with its error. */
  function UnmarshalInto(layout: Layout, c: UserClaims, p: Payload, rfc3339: GoString -> Result<Time>): Result<UserClaims>
    decreases |p|
  {
    if |p| == 0 then Ok(c)
    else
      match FieldOf(layout, p[0].0)
      case None => UnmarshalInto(layout, c, p[1..], rfc3339)
      case Some(f) =>
        match SetField(layout, c, f, p[0].1, rfc3339)
        case Err(e) => Err(e)
        case Ok(c1) => UnmarshalInto(layout, c1, p[1..], rfc3339)
  }

  /** `json.Unmarshal` of a payload into the `NewUserClaims()` record the validators hand the library. */
  function Unmarshal(layout: Layout, p: Payload, rfc3339: GoString -> Result<Time>): Result<UserClaims> {
    UnmarshalInto(layout, NewUserClaims(), p, rfc3339)
  }

  /** Members whose keys name no field leave the record as it was. */
  lemma {:induction false} KeysNamingNoFieldAreSkipped(layout: Layout, c: UserClaims, p: Payload, rfc3339: GoString -> Result<Time>)
    requires forall i :: 0 <= i < |p| ==> FieldOf(layout, p[i].0).None?
    ensures UnmarshalInto(layout, c, p, rfc3339) == Ok(c)
    decreases |p|
  {
    if |p| > 0 {
      assert FieldOf(layout, p[0].0).None?;
      assert forall i :: 0 <= i < |p[1..]| ==> p[1..][i] == p[i + 1];
      KeysNamingNoFieldAreSkipped(layout, c, p[1..], rfc3339);
    }
  }

  /** A member whose key names a field is stored first, and the rest follow into the updated record. */
  lemma UnmarshalFirst(layout: Layout, c: UserClaims, p: Payload, rfc3339: GoString -> Result<Time>)
    requires |p| > 0 && FieldOf(layout, p[0].0).Some?
    requires SetField(layout, c, FieldOf(layout, p[0].0).value, p[0].1, rfc3339).Ok?
    ensures UnmarshalInto(layout, c, p, rfc3339) ==
      UnmarshalInto(layout, SetField(layout, c, FieldOf(layout, p[0].0).value, p[0].1, rfc3339).value, p[1..], rfc3339)
  {
  }

  /** Each tag names its own field and no other: the five lower-case names differ in their first two letters. */
  lemma TagsNameTheirFields()
    ensures FieldOf(Tagged, "exp") == Some(ExpirationTimeField)
    ensures FieldOf(Tagged, "iat") == Some(IssuedAtField)
    ensures FieldOf(Tagged, "iss") == Some(IssuerField)
    ensures FieldOf(Tagged, "nbf") == Some(NotBeforeField)
    ensures FieldOf(Tagged, "uid") == Some(UserIDField)
  {
    TagsOfTimesNameTheirFields();
    OtherTagsNameTheirFields();
  }

  lemma TagsOfTimesNameTheirFields()
    ensures FieldOf(Tagged, "exp") == Some(ExpirationTimeField)
    ensures FieldOf(Tagged, "iat") == Some(IssuedAtField)
    ensures FieldOf(Tagged, "nbf") == Some(NotBeforeField)
  {
    var aud, iss, iat, exp, nbf := Fold("aud"), Fold("iss"), Fold("iat"), Fold("exp"), Fold("nbf");
    assert aud[0] == 'a' && iss[0] == 'i' && iat[0] == 'i' && exp[0] == 'e' && nbf[0] == 'n';
    assert iss[1] == 's' && iat[1] == 'a';
  }

  lemma OtherTagsNameTheirFields()
    ensures FieldOf(Tagged, "iss") == Some(IssuerField)
    ensures FieldOf(Tagged, "uid") == Some(UserIDField)
  {
    var aud, iss, iat, exp, nbf, uid := Fold("aud"), Fold("iss"), Fold("iat"), Fold("exp"), Fold("nbf"), Fold("uid");
    assert aud[0] == 'a' && iss[0] == 'i' && exp[0] == 'e' && nbf[0] == 'n' && uid[0] == 'u';
    assert iss[1] == 's' && iat[1] == 'a';
  }

  /** A key shorter than every Go field name names no field of the record as written. */
  lemma ShortKeysNameNoField(key: GoString)
    requires |key| < 6
    ensures FieldOf(Untagged, key).None?
  {
  }

  /*
   * The library: reading a token, validating its claims, and the wrapper.
   */

  /**
   * The JWT library's reading of a token string with a key, before the claims
   * are validated: either the segments, header or payload could not be read
   * (a malformed token), or the algorithm, the payload, and the error (if any)
   * of the checks that follow it: the algorithm's availability, the key
   * function and the signature.
   */
  datatype Reading =
    | Unreadable(err: JwtError)
    | Read(alg: SigningMethod, payload: Payload, checks: Option<JwtError>)

  /**
   * What the model takes from the JWT library and the Go runtime: the reading
   * of a token string with a key, and the RFC 3339 parser of `time.Time`.
   */
  datatype Library = Library(read: (GoString, GoString) -> Reading, rfc3339: GoString -> Result<Time>)

  /** The library's verdict on a token before the claims are validated: the algorithm and the decoded claims, or the error. */
  datatype Verified = Verified(alg: SigningMethod, claims: UserClaims) | Rejected(err: JwtError)

  const ClaimsDecodeError: string := "token is malformed: could not JSON decode claim: "

  /**
   * Reading, decoding into the claims record, then the key and signature
   * checks: a payload the record cannot hold is a malformed token even when
   * the signature is also bad, because the library decodes the claims first.
   */
  function Verify(lib: Library, layout: Layout, raw: GoString, key: GoString): (v: Verified)
    ensures lib.read(raw, key).Unreadable? ==> v == Rejected(lib.read(raw, key).err)
    ensures lib.read(raw, key).Read? && Unmarshal(layout, lib.read(raw, key).payload, lib.rfc3339).Err? ==>
      v.Rejected? && v.err.kind == TokenMalformed
    ensures v.Verified? <==>
      && lib.read(raw, key).Read? && lib.read(raw, key).checks.None?
      && Unmarshal(layout, lib.read(raw, key).payload, lib.rfc3339).Ok?
    ensures v.Verified? ==>
      v.alg == lib.read(raw, key).alg && v.claims == Unmarshal(layout, lib.read(raw, key).payload, lib.rfc3339).value
  {
    match lib.read(raw, key)
    case Unreadable(e) => Rejected(e)
    case Read(alg, p, checks) =>
      match Unmarshal(layout, p, lib.rfc3339)
      case Err(e) => Rejected(JwtError(TokenMalformed, ClaimsDecodeError + e))
      case Ok(c) =>
        if checks.Some? then Rejected(checks.value) else Verified(alg, c)
  }

  const ErrTokenInvalidClaims: string := "token has invalid claims: "
  const ErrTokenExpired: string := "token is expired"
  const ErrTokenNotValidYet: string := "token is not valid yet"

  /**
   * The library's default claims validation at its own clock reading `now`:
   * the expiry is exclusive and the activation inclusive, both read through
   * the record's getters; issue time, audience, issuer and subject are not
   * checked. A failure is neither "malformed" nor "signature invalid".
   */
  function Validate(c: UserClaims, now: Time): (e: Option<JwtError>)
    ensures e.None? <==> Truncate(c.notBefore) <= now < Truncate(c.expirationTime)
    ensures e.Some? ==> e.value.kind == OtherKind
    ensures now >= Truncate(c.expirationTime) && now >= Truncate(c.notBefore) ==>
      e == Some(JwtError(OtherKind, ErrTokenInvalidClaims + ErrTokenExpired))
  {
    var exp := GetExpirationTime(c).value;
    var nbf := GetNotBefore(c).value;
    var expired := !(now < exp.time);
    var early := now < nbf.time;
    if expired && early then Some(JwtError(OtherKind, ErrTokenInvalidClaims + ErrTokenExpired + ", " + ErrTokenNotValidYet))
    else if expired then Some(JwtError(OtherKind, ErrTokenInvalidClaims + ErrTokenExpired))
    else if early then Some(JwtError(OtherKind, ErrTokenInvalidClaims + ErrTokenNotValidYet))
    else None
  }

  /** The library's outcome: a token with its claims (then always valid), or the error. */
  datatype ParseOutcome = Parsed(alg: SigningMethod, claims: UserClaims) | Failed(err: JwtError)

  /** `jwt.ParseWithClaims` into a fresh claims record, with the library reading the clock as `now`. */
  function Parse(lib: Library, layout: Layout, raw: GoString, key: GoString, now: Time): (o: ParseOutcome)
    ensures o.Parsed? <==> Verify(lib, layout, raw, key).Verified? && Validate(Verify(lib, layout, raw, key).claims, now).None?
    ensures o.Parsed? ==> o.alg == Verify(lib, layout, raw, key).alg && o.claims == Verify(lib, layout, raw, key).claims
    ensures Verify(lib, layout, raw, key).Rejected? ==> o == Failed(Verify(lib, layout, raw, key).err)
    ensures Verify(lib, layout, raw, key).Verified? && o.Failed? ==> o.err.kind == OtherKind
  {
    match Verify(lib, layout, raw, key)
    case Rejected(e) => Failed(e)
    case Verified(alg, c) =>
      match Validate(c, now)
      case Some(e) => Failed(e)
      case None => Parsed(alg, c)
  }

  /** The key function handed to the library: the process-wide secret, whatever the token. */
  function KeyFunc(secret: GoString, t: Jwt): (k: Result<GoString>)
    ensures k.Ok? && k.value == secret
  {
    Ok(secret)
  }

  /** What `ParseWithClaims` returns: a token pointer and an error. */
  datatype ParseResult = ParseResult(tok: Option<Jwt>, err: Option<JwtError>)

  /**
   * `ParseWithClaims(raw, claims)`: the library's result checked with the
   * process-wide secret, except that on any error the token is dropped (nil)
   * and only the error is returned.
   */
  function ParseWithClaims(lib: Library, layout: Layout, secret: GoString, raw: GoString, now: Time): (r: ParseResult)
    ensures r.tok.None? <==> r.err.Some?
    ensures Parse(lib, layout, raw, secret, now).Failed? ==> r.err == Some(Parse(lib, layout, raw, secret, now).err)
    ensures Parse(lib, layout, raw, secret, now).Parsed? ==>
      r.tok == Some(Jwt(Parse(lib, layout, raw, secret, now).alg, Parse(lib, layout, raw, secret, now).claims, true))
  {
    // The library asks the key function for the key of the token it decoded;
    // the answer is the secret for every token.
    match Parse(lib, layout, raw, secret, now)
    case Failed(e) => ParseResult(None, Some(e))
    case Parsed(m, c) => ParseResult(Some(Jwt(m, c, true)), None)
  }
}
