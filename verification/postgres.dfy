/**
 * The rows the generated queries read and write (gen/db/postgres): users,
 * posts and the nullable timestamp type.
 */
module Postgres {
  import opened GoTypes

  /** `pgtype.Timestamptz`: an instant, and whether the column is non-NULL. */
  datatype Timestamptz = Timestamptz(time: Time, valid: bool)

  /** A NULL timestamp. */
  const NullTimestamp: Timestamptz := Timestamptz(ZeroTime, false)

  /** `postgres.User`; `identityProvider` holds the provider's enum name. */
  datatype User = User(
    id: Int64,
    identityProvider: GoString,
    email: GoString,
    username: GoString,
    avatarURL: GoString,
    aboutMe: GoString,
    createdAt: Timestamptz,
    updatedAt: Timestamptz,
    deletedAt: Timestamptz)

  /** `postgres.Post`. */
  datatype Post = Post(
    id: Int64,
    likes: Int64,
    views: Int64,
    title: GoString,
    body: GoString,
    userID: Int64,
    createdAt: Timestamptz,
    updatedAt: Timestamptz,
    deletedAt: Timestamptz)
}
