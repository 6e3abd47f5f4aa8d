/**
 * The account table that every handler reads and writes: the user record,
 * the lookups the handlers issue against it, and the table itself as a
 * class whose create and update keep the uniqueness constraints on email,
 * username, Google id and GitHub id.
 */
module Users {
  import opened Base

  type UserId = nat

  /** How the account was first created. */
  datatype Provider = Local | Google | GitHub {
    /** The string stored in the `provider` column. */
    function Name(): string
    {
      match this
      case Local => "local"
      case Google => "google"
      case GitHub => "github"
    }
  }

  /** One row of the user table. `password` holds a bcrypt digest. */
  datatype User = User(
    id: UserId,
    email: string,
    username: string,
    password: Option<string>,
    provider: Provider,
    googleId: Option<string>,
    githubId: Option<string>,
    isVerified: bool,
    isPro: bool,
    firstName: Option<string>,
    lastName: Option<string>,
    avatar: Option<string>,
    verificationToken: Option<string>,
    verificationTokenExpires: Option<Millis>,
    resetPasswordToken: Option<string>,
    resetPasswordExpires: Option<Millis>,
    createdAt: Millis)

  /** `user.password` is truthy: the account can sign in with a password. */
  predicate HasPassword(u: User)
  {
    Truthy(u.password)
  }

  /** A user record without its digest and its four token fields. */
  datatype SanitizedUser = SanitizedUser(
    id: UserId,
    email: string,
    username: string,
    provider: Provider,
    googleId: Option<string>,
    githubId: Option<string>,
    isVerified: bool,
    isPro: bool,
    firstName: Option<string>,
    lastName: Option<string>,
    avatar: Option<string>,
    createdAt: Millis)

  /** `sanitizeUser`: the record with the five secret fields dropped. */
  function Sanitize(u: User): (s: SanitizedUser)
    ensures s.id == u.id && s.email == u.email && s.username == u.username
    ensures s.provider == u.provider && s.googleId == u.googleId && s.githubId == u.githubId
    ensures s.isVerified == u.isVerified && s.isPro == u.isPro
    ensures s.firstName == u.firstName && s.lastName == u.lastName && s.avatar == u.avatar
    ensures s.createdAt == u.createdAt
  {
    SanitizedUser(u.id, u.email, u.username, u.provider, u.googleId, u.githubId,
                  u.isVerified, u.isPro, u.firstName, u.lastName, u.avatar, u.createdAt)
  }

  /**
   * Two records sanitize alike exactly when they differ at most in the
   * digest and the four token fields: `Sanitize` forgets those five and
   * nothing else.
   */
  lemma SanitizeForgetsExactlySecrets(u: User, v: User)
    ensures Sanitize(u) == Sanitize(v) <==>
      u.(password := v.password,
         verificationToken := v.verificationToken,
         verificationTokenExpires := v.verificationTokenExpires,
         resetPasswordToken := v.resetPasswordToken,
         resetPasswordExpires := v.resetPasswordExpires) == v
  {
  }

  /** The `where` filters the handlers pass to the table. */
  datatype Query =
    | ByEmail(email: string)
    | ByGoogleId(googleId: string)
    | ByGithubId(githubId: string)
    | ByEmailOrUsername(email: string, username: string)
    | ByLiveResetToken(token: string, now: Millis)

  /** Whether a row satisfies a filter. */
  predicate Selects(q: Query, u: User)
  {
    match q
    case ByEmail(e) => u.email == e
    case ByGoogleId(g) => u.googleId == Some(g)
    case ByGithubId(g) => u.githubId == Some(g)
    case ByEmailOrUsername(e, n) => u.email == e || u.username == n
    case ByLiveResetToken(t, now) =>
      u.resetPasswordToken == Some(t) && u.resetPasswordExpires.Some? && u.resetPasswordExpires.value > now
  }

  /** The filters on a unique column: at most one row satisfies them. */
  predicate IsKeyQuery(q: Query)
  {
    q.ByEmail? || q.ByGoogleId? || q.ByGithubId?
  }

  /**
   * The first row, in id order, among ids below `bound` that satisfies `q`
   * (`findFirst`; on a unique column also `findUnique`).
   */
  function FindFirst(rows: map<UserId, User>, bound: nat, q: Query): (r: Option<UserId>)
    ensures r.Some? ==> r.value < bound && r.value in rows && Selects(q, rows[r.value])
    ensures forall j :: j < (if r.Some? then r.value else bound) && j in rows ==> !Selects(q, rows[j])
    decreases bound
  {
    if bound == 0 then None
    else
      match FindFirst(rows, bound - 1, q)
      case Some(i) => Some(i)
      case None =>
        if bound - 1 in rows && Selects(q, rows[bound - 1]) then Some(bound - 1) else None
  }

  /** Two rows collide on a column that must be unique. */
  predicate Clash(a: User, b: User)
  {
    || a.email == b.email
    || a.username == b.username
    || (b.googleId.Some? && a.googleId == b.googleId)
    || (b.githubId.Some? && a.githubId == b.githubId)
  }

  /** No two rows share an email, a username, a Google id or a GitHub id. */
  predicate Unique(rows: map<UserId, User>)
  {
    forall i, j | i in rows && j in rows && i != j :: !Clash(rows[i], rows[j])
  }

  /** Some row collides with `u`. */
  predicate Conflicts(rows: map<UserId, User>, u: User)
  {
    exists j | j in rows :: Clash(rows[j], u)
  }

  /** No row other than `id` collides with `u`. */
  predicate KeysFreeFor(rows: map<UserId, User>, id: UserId, u: User)
  {
    forall j | j in rows && j != id :: !Clash(rows[j], u)
  }

  /** On a unique column the first match is the one match. */
  lemma KeyLookupFindsTheRow(rows: map<UserId, User>, bound: nat, q: Query, id: UserId)
    requires Unique(rows) && IsKeyQuery(q)
    requires id in rows && id < bound && Selects(q, rows[id])
    ensures FindFirst(rows, bound, q) == Some(id)
  {
    var r := FindFirst(rows, bound, q);
    assert r.Some?;
    if r.value != id {
      assert Clash(rows[r.value], rows[id]);
    }
  }

  /** `prisma.user`: the account table. */
  class UserTable {
    var rows: map<UserId, User>
    /** The id the next created row receives. */
    var nextId: UserId

    ghost predicate Valid()
      reads this
    {
      && (forall id | id in rows :: rows[id].id == id && id < nextId)
      && Unique(rows)
    }

    constructor ()
      ensures Valid() && rows == map[] && nextId == 0
    {
      rows := map[];
      nextId := 0;
    }

    /** The first row matching `q`. */
    function Find(q: Query): (r: Option<UserId>)
      reads this
      requires Valid()
      ensures r.Some? ==> r.value in rows && Selects(q, rows[r.value])
      ensures r.None? <==> forall id | id in rows :: !Selects(q, rows[id])
    {
      FindFirst(rows, nextId, q)
    }

    /**
     * `prisma.user.create`: inserts `u` under a fresh id, or refuses (the
     * database's unique-constraint error) when a row already holds one of
     * its unique values.
     */
    method Create(u: User) returns (r: Option<User>)
      requires Valid()
      modifies this
      ensures Valid()
      ensures Conflicts(old(rows), u) ==> r.None? && unchanged(this)
      ensures !Conflicts(old(rows), u) ==>
        && r == Some(u.(id := old(nextId)))
        && old(nextId) !in old(rows)
        && rows == old(rows)[old(nextId) := u.(id := old(nextId))]
        && nextId == old(nextId) + 1
    {
      if exists j | j in rows :: Clash(rows[j], u) {
        return None;
      }
      var v := u.(id := nextId);
      rows := rows[nextId := v];
      nextId := nextId + 1;
      r := Some(v);
    }

    /** `prisma.user.update` of the row `id` to the record `u`. */
    method Update(id: UserId, u: User)
      requires Valid()
      requires id in rows && u.id == id && KeysFreeFor(rows, id, u)
      modifies this
      ensures Valid()
      ensures rows == old(rows)[id := u] && nextId == old(nextId)
    {
      rows := rows[id := u];
    }
  }
}
