/** The user-profile service: two read projections, a partial update and a
    soft delete over the shared database context. */
module Users {
  import opened Common
  import opened Entities

  /** The profile view of a user: no password hash, roles or deletion data. */
  datatype UserDto = UserDto(
    id: Guid,
    email: string,
    userName: string,
    fullName: Option<string>,
    phone: Option<string>,
    isActive: bool,
    createdAt: Time)

  /** A field left null is left unchanged. */
  datatype UpdateUserRequest = UpdateUserRequest(fullName: Option<string>, phone: Option<string>, isActive: Option<bool>)

  datatype UserError = UserNotFound

  function ToDto(u: User): (d: UserDto)
    ensures d.id == u.id && d.email == u.email && d.userName == u.userName
    ensures d.fullName == u.fullName && d.phone == u.phone
    ensures d.isActive == u.isActive && d.createdAt == u.createdAt
  {
    UserDto(u.id, u.email, u.userName, u.fullName, u.phone, u.isActive, u.createdAt)
  }

  /** `GetAllAsync`: one view per stored user, in table order, soft-deleted and
      inactive users included. */
  function GetAll(users: seq<User>): (r: seq<UserDto>)
    ensures |r| == |users|
    ensures forall i :: 0 <= i < |users| ==> r[i] == ToDto(users[i])
  {
    seq(|users|, i requires 0 <= i < |users| => ToDto(users[i]))
  }

  /** `GetByIdAsync`: the view of the user with that id, or none when no user
      has it. */
  function GetById(users: seq<User>, id: Guid): (r: Option<UserDto>)
    ensures r.None? <==> !HasUser(users, id)
    ensures r.Some? ==> r.value.id == id
    ensures r.Some? ==> exists i :: 0 <= i < |users| && users[i].id == id && r.value == ToDto(users[i])
  {
    match First(users, WithId(id))
    case None => None
    case Some(i) => Some(ToDto(users[i]))
  }

  /** The two projections agree: what `GetById` finds is in `GetAll`, and every
      entry of `GetAll` is found by its own id when ids are unique. */
  lemma GetByIdAgreesWithGetAll(users: seq<User>, id: Guid)
    requires UserIdsUnique(users)
    ensures GetById(users, id).Some? ==> GetById(users, id).value in GetAll(users)
    ensures forall d :: d in GetAll(users) ==> GetById(users, d.id) == Some(d)
  {
    var all := GetAll(users);
    forall d | d in all ensures GetById(users, d.id) == Some(d) {
      var i :| 0 <= i < |all| && all[i] == d;
      FirstAt(users, WithId(d.id), i);
    }
  }

  /** The user after `UpdateAsync` at instant `now`. */
  function ApplyUpdate(u: User, req: UpdateUserRequest, now: Time): (r: User)
    // only the three optional fields and the update stamp can change
    ensures r.id == u.id && r.email == u.email && r.userName == u.userName
    ensures r.passwordHash == u.passwordHash && r.roles == u.roles
    ensures r.createdAt == u.createdAt && r.deletedAt == u.deletedAt
    // a supplied field overwrites, a null one keeps the old value
    ensures req.fullName.Some? ==> r.fullName == req.fullName
    ensures req.fullName.None? ==> r.fullName == u.fullName
    ensures req.phone.Some? ==> r.phone == req.phone
    ensures req.phone.None? ==> r.phone == u.phone
    ensures req.isActive.Some? ==> r.isActive == req.isActive.value
    ensures req.isActive.None? ==> r.isActive == u.isActive
    // the stamp is set even when nothing else is supplied
    ensures r.updatedAt == Some(now)
  {
    var u1 := if req.fullName.Some? then u.(fullName := req.fullName) else u;
    var u2 := if req.phone.Some? then u1.(phone := req.phone) else u1;
    var u3 := if req.isActive.Some? then u2.(isActive := req.isActive.value) else u2;
    u3.(updatedAt := Some(now))
  }

  /** The user after `DeleteSoftAsync` at instant `now`. */
  function SoftDelete(u: User, now: Time): (r: User)
    ensures !r.isActive && r.deletedAt == Some(now)
    ensures r.id == u.id && r.email == u.email && r.userName == u.userName
    ensures r.passwordHash == u.passwordHash && r.roles == u.roles
    ensures r.fullName == u.fullName && r.phone == u.phone
    ensures r.createdAt == u.createdAt && r.updatedAt == u.updatedAt
  {
    u.(isActive := false, deletedAt := Some(now))
  }

  /** An update that supplies nothing only moves the update stamp; applying
      the same update twice at one instant is the same as applying it once. */
  lemma UpdateProperties(u: User, req: UpdateUserRequest, now: Time)
    ensures ApplyUpdate(u, UpdateUserRequest(None, None, None), now) == u.(updatedAt := Some(now))
    ensures ApplyUpdate(ApplyUpdate(u, req, now), req, now) == ApplyUpdate(u, req, now)
  {
  }

  /** Soft-deleting again keeps the user inactive and only moves the deletion
      stamp; an update that does not supply `isActive` keeps a soft-deleted
      user inactive. */
  lemma SoftDeleteProperties(u: User, now: Time, later: Time, req: UpdateUserRequest)
    ensures SoftDelete(SoftDelete(u, now), later) == SoftDelete(u, later)
    ensures req.isActive.None? ==> !ApplyUpdate(SoftDelete(u, now), req, later).isActive
  {
  }

  class UserService {
    const db: AppDb

    constructor(db: AppDb)
      ensures this.db == db
    {
      this.db := db;
    }

    /** `UpdateAsync(id, req)` at instant `now`. */
    method Update(id: Guid, req: UpdateUserRequest, now: Time) returns (r: Result<(), UserError>)
      requires db.Valid()
      modifies db
      ensures db.Valid()
      ensures db.roles == old(db.roles) && db.tokens == old(db.tokens)
      ensures r.Err? <==> !HasUser(old(db.users), id)
      ensures r.Err? ==> r.error == UserNotFound && db.users == old(db.users)
      ensures r.Ok? ==> exists i :: && 0 <= i < |old(db.users)| && old(db.users)[i].id == id
                                    && db.users == old(db.users)[i := ApplyUpdate(old(db.users)[i], req, now)]
    {
      var found := First(db.users, WithId(id));
      if found.None? {
        return Err(UserNotFound);
      }
      var i := found.value;
      ghost var before := db.users;
      db.users := db.users[i := ApplyUpdate(db.users[i], req, now)];
      KeysKept(before, db.users, db.tokens);
      r := Ok(());
    }

    /** `DeleteSoftAsync(id)` at instant `now`: the record stays in the table. */
    method DeleteSoft(id: Guid, now: Time) returns (r: Result<(), UserError>)
      requires db.Valid()
      modifies db
      ensures db.Valid()
      ensures db.roles == old(db.roles) && db.tokens == old(db.tokens)
      ensures |db.users| == |old(db.users)|
      ensures r.Err? <==> !HasUser(old(db.users), id)
      ensures r.Err? ==> r.error == UserNotFound && db.users == old(db.users)
      ensures r.Ok? ==> exists i :: && 0 <= i < |old(db.users)| && old(db.users)[i].id == id
                                    && db.users == old(db.users)[i := SoftDelete(old(db.users)[i], now)]
    {
      var found := First(db.users, WithId(id));
      if found.None? {
        return Err(UserNotFound);
      }
      var i := found.value;
      ghost var before := db.users;
      db.users := db.users[i := SoftDelete(db.users[i], now)];
      KeysKept(before, db.users, db.tokens);
      r := Ok(());
    }
  }

  /** Replacing users by records with the same id and e-mail keeps the keys,
      the unique e-mail index and the token owners valid. */
  lemma KeysKept(before: seq<User>, after: seq<User>, tokens: seq<RefreshToken>)
    requires |before| == |after|
    requires forall i :: 0 <= i < |before| ==> after[i].id == before[i].id && after[i].email == before[i].email
    requires UserIdsUnique(before) && EmailsUnique(before)
    requires forall i :: 0 <= i < |tokens| ==> HasUser(before, tokens[i].userId)
    ensures UserIdsUnique(after) && EmailsUnique(after)
    ensures forall i :: 0 <= i < |tokens| ==> HasUser(after, tokens[i].userId)
  {
    forall i | 0 <= i < |tokens| ensures HasUser(after, tokens[i].userId) {
      var j :| 0 <= j < |before| && before[j].id == tokens[i].userId;
      assert after[j].id == tokens[i].userId;
    }
  }
}
