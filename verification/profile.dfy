/**
 * The user profile an OAuth provider reports, and the provisional user name
 * derived from its e-mail address (`UserProfile.TempName`, written the same
 * way in pkg/oauth and pkg/oauthapp).
 */
module Profile {
  import opened GoTypes
  import GoStrings

  /** A provider's user profile: e-mail, display name and avatar URL. */
  datatype UserProfile = UserProfile(email: GoString, name: GoString, avatarURL: GoString)

  /** `TempName`: the first field of the e-mail split at '@'. */
  function TempName(p: UserProfile): (n: GoString)
    // the longest '@'-free prefix of the address
    ensures '@' !in n
    ensures |n| <= |p.email| && n == p.email[..|n|]
    ensures |n| < |p.email| ==> p.email[|n|] == '@'
    ensures '@' !in p.email ==> n == p.email
  {
    GoStrings.Split(p.email, '@')[0]
  }

  /** An address `local@domain` with an '@'-free local part names its user `local`. */
  lemma TempNameOfAddress(local: GoString, domain: GoString, name: GoString, avatarURL: GoString)
    requires '@' !in local
    ensures TempName(UserProfile(local + ['@'] + domain, name, avatarURL)) == local
  {
    GoStrings.IndexAfterPrefix(local, '@', domain);
    assert (local + ['@'] + domain)[..|local|] == local;
  }
}
