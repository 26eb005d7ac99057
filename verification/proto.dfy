/**
 * The wire messages of the API (typesv1) and `timestamppb.Timestamp`. A
 * message field that is a pointer is an `Option`, `None` for nil.
 */
module Proto {
  import opened GoTypes

  /** `timestamppb.Timestamp`: whole seconds since the epoch and the nanoseconds past them. */
  datatype Timestamp = Timestamp(seconds: int, nanos: int)

  /** `timestamppb.New(t)`: the second in which `t` falls, and the nanoseconds into it. */
  function NewTimestamp(t: Time): (ts: Timestamp)
    ensures 0 <= ts.nanos < Second
    ensures ts.seconds * Second + ts.nanos == t
  {
    Timestamp(t / Second, t % Second)
  }

  /** The instant a timestamp stands for. */
  function TimeOf(ts: Timestamp): Time {
    ts.seconds * Second + ts.nanos
  }

  /** `NewTimestamp` loses nothing, and a normalised timestamp comes from exactly one instant. */
  lemma TimestampRoundTrip(t: Time, ts: Timestamp)
    requires 0 <= ts.nanos < Second
    ensures TimeOf(NewTimestamp(t)) == t
    ensures NewTimestamp(TimeOf(ts)) == ts
  {
    var u := TimeOf(ts);
    assert u / Second == ts.seconds && u % Second == ts.nanos by {
      DivModUnique(u, ts.seconds, ts.nanos);
    }
  }

  lemma DivModUnique(n: int, q: int, r: int)
    requires 0 <= r < Second && n == q * Second + r
    ensures n / Second == q && n % Second == r
  {
    var q' := n / Second;
    assert (q - q') * Second == n % Second - r;
    ZeroFactor(q - q');
  }

  lemma ZeroFactor(k: int)
    requires -Second < k * Second < Second
    ensures k == 0
  {
  }

  /** The `IdentityProvider` enum values the model knows. */
  const IdentityProviderUnspecified: int := 0
  const IdentityProviderGitHub: int := 1

  /** `IdentityProvider_name`: the generated value-to-name table. */
  const IdentityProviderNames: map<int, GoString> :=
    map[IdentityProviderUnspecified := "IDENTITY_PROVIDER_UNSPECIFIED", IdentityProviderGitHub := "IDENTITY_PROVIDER_GITHUB"]

  /** `IdentityProvider_value`: the generated name-to-value table. */
  const IdentityProviderValues: map<GoString, int> :=
    map["IDENTITY_PROVIDER_UNSPECIFIED" := IdentityProviderUnspecified, "IDENTITY_PROVIDER_GITHUB" := IdentityProviderGitHub]

  /** `IdentityProvider_name[v]`: empty for a value with no name, as a Go map read is. */
  function ProviderName(v: int): (name: GoString)
    ensures v !in IdentityProviderNames ==> name == []
  {
    if v in IdentityProviderNames then IdentityProviderNames[v] else []
  }

  /** `IdentityProvider_value[name]`: 0 (UNSPECIFIED) for an unknown name. */
  function ProviderValue(name: GoString): (v: int)
    ensures name !in IdentityProviderValues ==> v == IdentityProviderUnspecified
  {
    if name in IdentityProviderValues then IdentityProviderValues[name] else IdentityProviderUnspecified
  }

  /** The two tables are inverse to each other. */
  lemma ProviderNameValue(v: int, name: GoString)
    ensures v in IdentityProviderNames ==> ProviderValue(ProviderName(v)) == v
    ensures name in IdentityProviderValues ==> ProviderName(ProviderValue(name)) == name
  {
  }

  /** `typesv1.User`. */
  datatype User = User(
    id: Int64,
    username: GoString,
    email: GoString,
    avatarURL: GoString,
    aboutMe: GoString,
    identityProvider: int,
    createdAt: Option<Timestamp>,
    updatedAt: Option<Timestamp>,
    deletedAt: Option<Timestamp>)

  /** The zero `typesv1.User{}`. */
  const EmptyUser: User := User(0, [], [], [], [], IdentityProviderUnspecified, None, None, None)

  /** `typesv1.PostContent`. */
  datatype PostContent = PostContent(title: GoString, body: GoString)

  /** `typesv1.Post`. */
  datatype Post = Post(
    id: Int64,
    likes: Int64,
    views: Int64,
    author: Option<User>,
    content: Option<PostContent>,
    createdAt: Option<Timestamp>,
    updatedAt: Option<Timestamp>,
    deletedAt: Option<Timestamp>)
}
