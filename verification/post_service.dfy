/**
 * The post service (service/post/v1/svc.go): creating a post for the
 * authenticated author, listing recent posts a page at a time with the
 * pagination cursor, and the mapping of stored rows to wire messages.
 *
 * The users the service can look up are a map by id; the other database
 * replies (begin, a failed lookup, the new post's id or the insert's error,
 * rollback and commit) and the page query are parameters, as is the clock.
 */
module PostService {
  import opened GoTypes
  import Connect
  import Postgres
  import Proto
  import Cursor
  import Transaction
  import Middleware
  import Token
  import AuthService
  import Profile

  // ----- mapping rows to messages -----

  /** `pbIdentityProvider(name)`: the enum value of a provider name, UNSPECIFIED for any other. */
  function PbIdentityProvider(name: GoString): (v: int)
    ensures name == AuthService.GitHubProviderName ==> v == Proto.IdentityProviderGitHub
    ensures name != "IDENTITY_PROVIDER_GITHUB" && name != "IDENTITY_PROVIDER_UNSPECIFIED" ==> v == Proto.IdentityProviderUnspecified
    ensures v == Proto.IdentityProviderUnspecified || v == Proto.IdentityProviderGitHub
  {
    Proto.ProviderValue(name)
  }

  /** The provider of a row the login flow creates maps back to GitHub. */
  lemma CreatedUsersMapToGitHub(id: Int64, p: Profile.UserProfile, clock: Clock)
    ensures PbIdentityProvider(AuthService.NewUserRow(id, p, clock).identityProvider) == Proto.IdentityProviderGitHub
    ensures Proto.ProviderName(PbIdentityProvider(AuthService.NewUserRow(id, p, clock).identityProvider)) == AuthService.GitHubProviderName
  {
  }

  /** `pbUser(u)`. */
  function PbUser(u: Postgres.User): (m: Proto.User)
    ensures m.id == u.id && m.username == u.username && m.email == u.email
    ensures m.avatarURL == u.avatarURL && m.aboutMe == u.aboutMe
    ensures m.identityProvider == PbIdentityProvider(u.identityProvider)
    ensures m.createdAt.Some? && Proto.TimeOf(m.createdAt.value) == u.createdAt.time
    ensures m.updatedAt.Some? && Proto.TimeOf(m.updatedAt.value) == u.updatedAt.time
    // a deletion time exactly when the row has one, and then that time
    ensures m.deletedAt.None? <==> !u.deletedAt.valid
    ensures m.deletedAt.Some? ==> Proto.TimeOf(m.deletedAt.value) == u.deletedAt.time
  {
    var deletedAt := if u.deletedAt.valid then Some(Proto.NewTimestamp(u.deletedAt.time)) else None;
    Proto.User(u.id, u.username, u.email, u.avatarURL, u.aboutMe, PbIdentityProvider(u.identityProvider),
      Some(Proto.NewTimestamp(u.createdAt.time)), Some(Proto.NewTimestamp(u.updatedAt.time)), deletedAt)
  }

  /** Two rows that map to the same message agree on everything but the time of a row that is not deleted. */
  lemma PbUserKeepsTheRow(u1: Postgres.User, u2: Postgres.User)
    requires PbUser(u1) == PbUser(u2)
    requires u1.identityProvider in Proto.IdentityProviderValues && u2.identityProvider in Proto.IdentityProviderValues
    ensures u1.id == u2.id && u1.username == u2.username && u1.email == u2.email
    ensures u1.avatarURL == u2.avatarURL && u1.aboutMe == u2.aboutMe && u1.identityProvider == u2.identityProvider
    ensures u1.createdAt.time == u2.createdAt.time && u1.updatedAt.time == u2.updatedAt.time
    ensures u1.deletedAt.valid == u2.deletedAt.valid
    ensures u1.deletedAt.valid ==> u1.deletedAt.time == u2.deletedAt.time
  {
    Proto.ProviderNameValue(0, u1.identityProvider);
    Proto.ProviderNameValue(0, u2.identityProvider);
  }

  /** The zero `timestamppb.Timestamp{}`: the Unix epoch. */
  const ZeroTimestamp: Proto.Timestamp := Proto.Timestamp(0, 0)

  /**
   * `pbPost(p)`: the post's id and counters; the author, the content and
   * the three timestamps are present but empty.
   */
  function PbPost(p: Postgres.Post): (m: Proto.Post)
    ensures m.id == p.id && m.likes == p.likes && m.views == p.views
    ensures m.author == Some(Proto.EmptyUser) && m.content == Some(Proto.PostContent([], []))
    ensures m.createdAt.Some? && m.updatedAt.Some? && m.deletedAt.Some?
    ensures Proto.TimeOf(m.createdAt.value) == 0 && Proto.TimeOf(m.updatedAt.value) == 0 && Proto.TimeOf(m.deletedAt.value) == 0
  {
    Proto.Post(p.id, p.likes, p.views, Some(Proto.EmptyUser), Some(Proto.PostContent([], [])),
      Some(ZeroTimestamp), Some(ZeroTimestamp), Some(ZeroTimestamp))
  }

  /** A listed post tells apart only id and counters: title, body, author and times are lost. */
  lemma PbPostKeepsOnlyCounters(p: Postgres.Post, q: Postgres.Post)
    ensures PbPost(p) == PbPost(q) <==> p.id == q.id && p.likes == q.likes && p.views == q.views
  {
  }

  // ----- List -----

  /** The page size `List` asks for. */
  const PageSize: int := 10

  /** `ListRecentPosts(limit, cursor)`: the rows, or the query's error. */
  type PageQuery = (int, Int64) -> Result<seq<Postgres.Post>>

  datatype ListReply = Listed(posts: seq<Proto.Post>, next: Cursor.Cursor) | ListFailed(err: Connect.Error)

  /** The id the next page starts from: the last row's, or 0 for no rows. */
  function LastID(rows: seq<Postgres.Post>): Int64 {
    if |rows| == 0 then 0 else rows[|rows| - 1].id
  }

  /** The error prefix of a failed page query. */
  const ListErrPrefix: string := "retreiving posts: "

  /** The loop of `List`: one message per row, and the id of the last row (0 for none). */
  method MapRows(rows: seq<Postgres.Post>) returns (posts: seq<Proto.Post>, c: Int64)
    ensures |posts| == |rows| && forall i :: 0 <= i < |rows| ==> posts[i] == PbPost(rows[i])
    ensures c == LastID(rows)
  {
    var last := |rows|;
    posts := [];
    c := 0;
    for i := 0 to |rows|
      invariant |posts| == i
      invariant forall j :: 0 <= j < i ==> posts[j] == PbPost(rows[j])
      invariant c == if i == last && last > 0 then rows[last - 1].id else 0
    {
      posts := posts + [PbPost(rows[i])];
      if i == last - 1 {
        c := rows[i].id;
      }
    }
  }

  /** `List(req)`, where `reqCursor` is the request's cursor (`None` for nil). */
  method List(reqCursor: Option<Cursor.Cursor>, query: PageQuery) returns (r: ListReply)
    ensures var rows := query(PageSize, Cursor.MustParseInt64(reqCursor));
      && (rows.Err? ==> r == ListFailed(Connect.ConnectError(Connect.Internal, ListErrPrefix + rows.msg)))
      && (rows.Ok? ==> r.Listed?)
      // one message per row, in the order of the rows
      && (rows.Ok? ==> |r.posts| == |rows.value| && forall i :: 0 <= i < |rows.value| ==> r.posts[i] == PbPost(rows.value[i]))
      // the next cursor reads back as the last row's id, or as 0
      && (rows.Ok? ==> r.next == Cursor.FromInt64(LastID(rows.value)) && Cursor.MustParseInt64(Some(r.next)) == LastID(rows.value))
  {
    var cur := Cursor.MustParseInt64(reqCursor);
    var page := query(PageSize, cur);
    if page.Err? {
      return ListFailed(Connect.ConnectError(Connect.Internal, ListErrPrefix + page.msg));
    }
    var posts, c := MapRows(page.value);
    Cursor.RoundTrip(c);
    return Listed(posts, Cursor.FromInt64(c));
  }

  // ----- Create -----

  /** The database's reply to the post insert: the new post's id, or the error. */
  datatype InsertReply = Inserted(id: Int64) | InsertFailed(msg: string)

  /** The replies of the database that the users map does not determine. */
  datatype DbReplies = DbReplies(
    begin: Result<Transaction.Tx>,
    lookupFault: Option<string>,   // a lookup error other than "no rows"
    insert: InsertReply,
    rollbackErr: Option<string>,
    commitErr: Option<string>)

  /** The users by id. */
  type Users = map<Int64, Postgres.User>

  /** The row `CreatePost` inserts; the clock is read for both timestamps. */
  function NewPostRow(id: Int64, author: Postgres.User, content: Proto.PostContent, clock: Clock): (p: Postgres.Post)
    ensures p.id == id && p.likes == 0 && p.views == 0 && p.userID == author.id
    ensures p.title == content.title && p.body == content.body
    ensures p.createdAt == Postgres.Timestamptz(clock(0), true) && p.updatedAt == Postgres.Timestamptz(clock(1), true)
    ensures !p.deletedAt.valid
  {
    Postgres.Post(id, 0, 0, content.title, content.body, author.id,
      Postgres.Timestamptz(clock(0), true), Postgres.Timestamptz(clock(1), true), Postgres.NullTimestamp)
  }

  /** The transaction body: look the author up, insert the post. */
  function CreateBody(users: Users, uid: Int64, content: Proto.PostContent, db: DbReplies, clock: Clock): (r: Transaction.BodyResult<(Postgres.User, Postgres.Post)>)
    ensures r.err.None? <==> db.lookupFault.None? && uid in users && db.insert.Inserted?
    ensures r.err.None? ==> r.result == Some((users[uid], NewPostRow(db.insert.id, users[uid], content, clock)))
    ensures db.lookupFault.Some? ==> r.err == Some("user not found: " + db.lookupFault.value)
    ensures db.lookupFault.None? && uid !in users ==> r.err == Some("user not found: " + AuthService.ErrNoRows)
    ensures db.lookupFault.None? && uid in users && db.insert.InsertFailed? ==> r.err == Some("insert new post: " + db.insert.msg)
  {
    if db.lookupFault.Some? then Transaction.BodyResult(None, Some("user not found: " + db.lookupFault.value))
    else if uid !in users then Transaction.BodyResult(None, Some("user not found: " + AuthService.ErrNoRows))
    else
      var user := users[uid];
      match db.insert
      case InsertFailed(e) => Transaction.BodyResult(None, Some("insert new post: " + e))
      case Inserted(id) => Transaction.BodyResult(Some((user, NewPostRow(id, user, content, clock))), None)
  }

  /** How a create ends: the response and the row stored, an error, or a panic. */
  datatype CreateOutcome = Created(response: Proto.Post, row: Postgres.Post) | CreateFailed(err: Connect.Error) | CreatePanicked

  /** The outcome, with the transaction calls made. */
  datatype CreateReply = CreateReply(outcome: CreateOutcome, calls: seq<Transaction.Call>)

  /** The author as the create response shows it: `pbUser` without a deletion time. */
  function AuthorMessage(u: Postgres.User): (m: Proto.User)
    ensures m == PbUser(u).(deletedAt := None)
  {
    Proto.User(u.id, u.username, u.email, u.avatarURL, u.aboutMe, PbIdentityProvider(u.identityProvider),
      Some(Proto.NewTimestamp(u.createdAt.time)), Some(Proto.NewTimestamp(u.updatedAt.time)), None)
  }

  /** The create for author `uid` once the principal is known; a nil content is dereferenced. */
  function CreateFor(uid: Int64, content: Option<Proto.PostContent>, users: Users, db: DbReplies, clock: Clock): (r: CreateReply)
    ensures r.outcome.CreatePanicked? <==> content.None?
    ensures content.Some? ==> (r.outcome.Created? <==>
      db.begin.Ok? && db.lookupFault.None? && uid in users && db.insert.Inserted? && db.commitErr.None?)
    ensures r.outcome.Created? ==>
      && content.Some? && uid in users && db.insert.Inserted?
      && var user := users[uid];
      // the stored row: no likes or views yet, the author's id, the request's title and body
      && r.outcome.row == NewPostRow(db.insert.id, user, content.value, clock)
      // the response: the row's id and counters, the author, the request's content, the row's times
      && r.outcome.response.id == r.outcome.row.id
      && r.outcome.response.likes == 0 && r.outcome.response.views == 0
      && r.outcome.response.author == Some(AuthorMessage(user))
      && r.outcome.response.content == content
      && r.outcome.response.createdAt.Some? && r.outcome.response.updatedAt.Some?
      && Proto.TimeOf(r.outcome.response.createdAt.value) == clock(0)
      && Proto.TimeOf(r.outcome.response.updatedAt.value) == clock(1)
      && r.outcome.response.deletedAt.None?
    ensures r.outcome.CreateFailed? ==>
      && r.outcome.err.ConnectError? && r.outcome.err.code == Connect.Internal
      && |r.outcome.err.msg| >= 15 && r.outcome.err.msg[..15] == "creating post: "
    ensures content.Some? ==> Transaction.Run(Transaction.Idle, r.calls).Some?
  {
    match content
    case None => CreateReply(CreatePanicked, [])
    case Some(c) =>
      var ex := Transaction.Exec(db.begin, (tx: Transaction.Tx) => CreateBody(users, uid, c, db, clock), db.rollbackErr, db.commitErr);
      Transaction.ExecFollowsProtocol(db.begin, (tx: Transaction.Tx) => CreateBody(users, uid, c, db, clock), db.rollbackErr, db.commitErr);
      match ex.err
      case Some(txErr) => CreateReply(CreateFailed(Connect.ConnectError(Connect.Internal, "creating post: " + txErr)), ex.calls)
      case None =>
        var (user, row) := ex.result.value;
        var response := Proto.Post(row.id, row.likes, row.views, Some(AuthorMessage(user)), content,
          Some(Proto.NewTimestamp(row.createdAt.time)), Some(Proto.NewTimestamp(row.updatedAt.time)), None);
        CreateReply(Created(response, row), ex.calls)
  }

  /**
   * `Create(req)` as written: the principal is asserted to be an `*int64`
   * without the comma-ok form, so any other principal panics; a typed nil
   * pointer is refused before any transaction.
   */
  function Create(info: Connect.Info, content: Option<Proto.PostContent>, users: Users, db: DbReplies, clock: Clock): (r: CreateReply)
    ensures info.NoInfo? || info.Int64Value? ==> r.outcome.CreatePanicked? && r.calls == []
    ensures info == Connect.Int64Pointer(None) ==>
      r == CreateReply(CreateFailed(Connect.ConnectError(Connect.Unauthenticated, "author not found")), [])
    ensures info.Int64Pointer? && info.target.Some? ==> r == CreateFor(info.target.value, content, users, db, clock)
  {
    match info
    case NoInfo => CreateReply(CreatePanicked, [])
    case Int64Value(_) => CreateReply(CreatePanicked, [])
    case Int64Pointer(None) => CreateReply(CreateFailed(Connect.ConnectError(Connect.Unauthenticated, "author not found")), [])
    case Int64Pointer(Some(uid)) => CreateFor(uid, content, users, db, clock)
  }

  /**
   * A request the cookie middleware let through without a cookie reaches
   * `Create` with no principal at all, and the assertion panics.
   */
  lemma AnonymousCreatePanics(lib: Token.Library, secret: GoString, libNow: Time, now: Time,
                              content: Option<Proto.PostContent>, users: Users, db: DbReplies, clock: Clock)
    ensures Middleware.Authorize(Token.Untagged, None, lib, secret, libNow, now).Pass?
    ensures Create(Middleware.Authorize(Token.Untagged, None, lib, secret, libNow, now).info, content, users, db, clock).outcome.CreatePanicked?
  {
  }

  /** `Create` with the comma-ok assertion: every principal that is not a non-nil `*int64` is refused. */
  function CreateChecked(info: Connect.Info, content: Option<Proto.PostContent>, users: Users, db: DbReplies, clock: Clock): (r: CreateReply)
    ensures !(info.Int64Pointer? && info.target.Some?) ==>
      r == CreateReply(CreateFailed(Connect.ConnectError(Connect.Unauthenticated, "author not found")), [])
    ensures info.Int64Pointer? && info.target.Some? ==> r == CreateFor(info.target.value, content, users, db, clock)
    ensures content.Some? ==> !r.outcome.CreatePanicked?
  {
    match info
    case Int64Pointer(Some(uid)) => CreateFor(uid, content, users, db, clock)
    case _ => CreateReply(CreateFailed(Connect.ConnectError(Connect.Unauthenticated, "author not found")), [])
  }

  /** Wherever the written `Create` does not panic on the principal, the corrected one answers the same. */
  lemma CreateCheckedAgrees(info: Connect.Info, content: Option<Proto.PostContent>, users: Users, db: DbReplies, clock: Clock)
    requires info.Int64Pointer?
    ensures CreateChecked(info, content, users, db, clock) == Create(info, content, users, db, clock)
  {
  }

  /** A created post shows up in a later listing with its id, its counters and nothing else. */
  lemma CreatedPostListsAsCounters(info: Connect.Info, content: Option<Proto.PostContent>, users: Users, db: DbReplies, clock: Clock)
    requires CreateChecked(info, content, users, db, clock).outcome.Created?
    ensures var c := CreateChecked(info, content, users, db, clock).outcome;
      && PbPost(c.row).id == c.response.id
      && PbPost(c.row).likes == 0 && PbPost(c.row).views == 0
      && PbPost(c.row).content == Some(Proto.PostContent([], []))
  {
  }
}
