/** The persisted entities (users, roles, refresh tokens) and the database
    context that holds their tables. */
module Entities {
  import opened Common

  /** A named permission group; `id` is its primary key. */
  datatype Role = Role(id: int, name: string)

  /** A user record. `roles` is the many-to-many role collection, held by value:
      roles are never changed once stored. */
  datatype User = User(
    id: Guid,
    email: string,
    userName: string,
    passwordHash: string,
    fullName: Option<string>,
    phone: Option<string>,
    isActive: bool,
    createdAt: Time,
    updatedAt: Option<Time>,
    deletedAt: Option<Time>,
    roles: seq<Role>)

  /** A refresh-token session. It is Active while `revokedAt` is unset and
      Revoked once it is set; nothing ever unsets it. */
  datatype RefreshToken = RefreshToken(
    userId: Guid,
    token: string,
    expiresAt: Time,
    createdAt: Time,
    createdByIp: Option<string>,
    revokedAt: Option<Time>)
  {
    predicate IsRevoked() {
      revokedAt.Some?
    }

    /** The refresh endpoint accepts a token only when it is not revoked and
        has not yet expired. */
    predicate IsUsable(now: Time)
      ensures IsUsable(now) ==> revokedAt.None?
      // a token whose expiry is at or before `now` is refused
      ensures expiresAt <= now ==> !IsUsable(now)
    {
      !IsRevoked() && now < expiresAt
    }
  }

  /** The three tables, as values. */
  datatype Store = Store(users: seq<User>, roles: seq<Role>, tokens: seq<RefreshToken>)
  {
    /** The constraints the schema declares: user and role primary keys, the
        unique index on the user e-mail, and the token-to-user foreign key. */
    ghost predicate Valid()
      // in a valid store an e-mail or a user id picks out at most one user
      ensures Valid() ==> forall i, j :: 0 <= i < |users| && 0 <= j < |users| && users[i].email == users[j].email ==> i == j
      ensures Valid() ==> forall i, j :: 0 <= i < |users| && 0 <= j < |users| && users[i].id == users[j].id ==> i == j
    {
      && UserIdsUnique(users)
      && EmailsUnique(users)
      && RoleIdsUnique(roles)
      && TokensOwned()
    }

    ghost predicate TokensOwned() {
      forall i :: 0 <= i < |tokens| ==> HasUser(users, tokens[i].userId)
    }
  }

  ghost predicate UserIdsUnique(users: seq<User>) {
    forall i, j :: 0 <= i < j < |users| ==> users[i].id != users[j].id
  }

  ghost predicate EmailsUnique(users: seq<User>) {
    forall i, j :: 0 <= i < j < |users| ==> users[i].email != users[j].email
  }

  ghost predicate RoleIdsUnique(roles: seq<Role>) {
    forall i, j :: 0 <= i < j < |roles| ==> roles[i].id != roles[j].id
  }

  ghost predicate HasUser(users: seq<User>, id: Guid) {
    exists j :: 0 <= j < |users| && users[j].id == id
  }

  /** Row filters used by the services' queries. */
  function WithEmail(email: string): User -> bool {
    (u: User) => u.email == email
  }

  function WithId(id: Guid): User -> bool {
    (u: User) => u.id == id
  }

  function WithRoleName(name: string): Role -> bool {
    (r: Role) => r.name == name
  }

  function WithToken(token: string): RefreshToken -> bool {
    (t: RefreshToken) => t.token == token
  }

  /** The database context: one table per entity, shared by every service
      that holds a reference to it. */
  class AppDb {
    var users: seq<User>
    var roles: seq<Role>
    var tokens: seq<RefreshToken>

    constructor()
      ensures users == [] && roles == [] && tokens == []
      ensures Valid()
    {
      users, roles, tokens := [], [], [];
    }

    function State(): Store
      reads this
    {
      Store(users, roles, tokens)
    }

    ghost predicate Valid()
      reads this
    {
      State().Valid()
    }
  }
}
