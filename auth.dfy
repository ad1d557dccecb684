/** The authentication service: registration, login, refresh-token rotation
    and logout over the shared database context.

    Each operation is specified by a function from the old tables to the new
    tables and the response (`RegisterStep`, `LoginStep`, `RefreshStep`,
    `LogoutStep`); the `AuthService` methods update the context in place and
    are proved to agree with them. The clock, the GUID source, the identity
    column and the password hasher are parameters. */
module Auth {
  import opened Common
  import opened Text
  import opened Entities
  import Jwt

  /** Role given to a registration that names none. */
  const DefaultRoleName: string := "Tenant"

  /** Lifetime of a refresh token. */
  const RefreshTokenDays: int := 14

  /** The three failures the service reports, one per distinct message. */
  datatype AuthError =
    | EmailTaken           // "the e-mail already exists"
    | BadCredentials       // "wrong account or password"
    | InvalidRefreshToken  // "refresh token invalid or expired"

  datatype RegisterRequest = RegisterRequest(
    email: string,
    userName: string,
    password: string,
    confirmPassword: string,
    fullName: Option<string>,
    phone: Option<string>,
    role: Option<string>)

  datatype LoginRequest = LoginRequest(email: string, password: string)

  /** The access token stands for the signed JWT. */
  datatype AuthResponse = AuthResponse(accessToken: Jwt.AccessToken, refreshToken: string, expiresAt: Time)

  datatype Verification = Failed | Success | SuccessRehashNeeded

  /** The password hasher: a hash function and the check of a password
      against a stored hash. */
  datatype Hasher = Hasher(hash: string -> string, verify: (string, string) -> Verification)

  /** A hasher accepts every password against its own hash. */
  ghost predicate Consistent(h: Hasher) {
    forall p :: h.verify(h.hash(p), p) != Failed
  }

  /** The values an operation draws from outside: the new user's GUID, the
      identity value for a new role, the Base64 text of the GUID behind a new
      refresh token, and the access token's `jti`. */
  datatype Fresh = Fresh(userId: Guid, roleId: int, tokenBase64: string, jti: Guid)

  /** The fresh values are not yet in use in `s`. */
  ghost predicate FreshFor(s: Store, f: Fresh) {
    && !HasUser(s.users, f.userId)
    && (forall i :: 0 <= i < |s.roles| ==> s.roles[i].id != f.roleId)
    && (forall i :: 0 <= i < |s.tokens| ==> s.tokens[i].token != TokenText(f.tokenBase64))
  }

  /** The tables after an operation, and what it returned or threw. */
  datatype Outcome = Outcome(store: Store, response: Result<AuthResponse, AuthError>)

  // ---------- Refresh-token construction ----------

  /** `s.Replace(c, "")`: drops every `c` and keeps every other character. */
  function Remove(s: string, c: char): (r: string)
    ensures forall x :: x in r <==> x in s && x != c
  {
    if s == [] then []
    else
      var rest := Remove(s[1..], c);
      assert forall x :: x in s <==> x == s[0] || x in s[1..];
      if s[0] == c then rest else [s[0]] + rest
  }

  /** The refresh-token string: the Base64 text with '+', '/' and '=' removed. */
  function TokenText(base64: string): (r: string)
    ensures '+' !in r && '/' !in r && '=' !in r
    ensures forall x :: x in r <==> x in base64 && x != '+' && x != '/' && x != '='
  {
    Remove(Remove(Remove(base64, '+'), '/'), '=')
  }

  /** The characters of `s` outside `drop`, in order: a one-pass filter. */
  function Without(s: string, drop: set<char>): string {
    if s == [] then []
    else (if s[0] in drop then [] else [s[0]]) + Without(s[1..], drop)
  }

  lemma {:induction false} RemoveIsWithout(s: string, c: char)
    ensures Remove(s, c) == Without(s, {c})
  {
    if s != [] {
      RemoveIsWithout(s[1..], c);
    }
  }

  lemma {:induction false} WithoutAppend(a: string, b: string, drop: set<char>)
    ensures Without(a + b, drop) == Without(a, drop) + Without(b, drop)
  {
    if a == [] {
      assert a + b == b;
    } else {
      assert (a + b)[1..] == a[1..] + b;
      WithoutAppend(a[1..], b, drop);
    }
  }

  lemma {:induction false} WithoutTwice(s: string, a: set<char>, b: set<char>)
    ensures Without(Without(s, a), b) == Without(s, a + b)
  {
    if s != [] {
      var head := if s[0] in a then [] else [s[0]];
      WithoutAppend(head, Without(s[1..], a), b);
      WithoutTwice(s[1..], a, b);
    }
  }

  /** The three chained removals keep exactly the other characters, in their
      original order. */
  lemma TokenTextKeepsOrder(base64: string)
    ensures TokenText(base64) == Without(base64, {'+', '/', '='})
  {
    var one := Remove(base64, '+');
    var two := Remove(one, '/');
    RemoveIsWithout(base64, '+');
    RemoveIsWithout(one, '/');
    RemoveIsWithout(two, '=');
    WithoutTwice(base64, {'+'}, {'/'});
    WithoutTwice(base64, {'+', '/'}, {'='});
    assert {'+'} + {'/'} == {'+', '/'};
    assert {'+', '/'} + {'='} == {'+', '/', '='};
  }

  /** `BuildRefreshToken(userId, ip)` at instant `now`. */
  function BuildRefreshToken(userId: Guid, base64: string, ip: Option<string>, now: Time): (t: RefreshToken)
    ensures t.userId == userId && t.createdByIp == ip && t.token == TokenText(base64)
    ensures t.createdAt == now && t.expiresAt == now + RefreshTokenDays * SecondsPerDay
    ensures !t.IsRevoked() && t.IsUsable(now)
    ensures '+' !in t.token && '/' !in t.token && '=' !in t.token
  {
    RefreshToken(userId, TokenText(base64), now + RefreshTokenDays * SecondsPerDay, now, ip, None)
  }

  // ---------- Helpers shared by the operations ----------

  /** The role a registration asks for: the default when the request names
      none or only white space, the requested name verbatim otherwise. The
      result is never blank. */
  function RoleNameFor(requested: Option<string>): (name: string)
    ensures IsNullOrWhiteSpace(requested) ==> name == DefaultRoleName
    ensures !IsNullOrWhiteSpace(requested) ==> name == requested.value
    ensures !IsNullOrWhiteSpace(Some(name))
  {
    if IsNullOrWhiteSpace(requested) then
      assert !IsWhiteSpace(DefaultRoleName[0]);
      DefaultRoleName
    else requested.value
  }

  /** No two stored roles share a name. */
  ghost predicate RoleNamesDistinct(roles: seq<Role>) {
    forall i, j :: 0 <= i < j < |roles| ==> roles[i].name != roles[j].name
  }

  /** Get-or-create by name: the first stored role with the name, or a new role
      appended to the table. */
  function ResolveRole(roles: seq<Role>, name: string, newId: int): (r: (Role, seq<Role>))
    ensures r.0.name == name && r.0 in r.1
    ensures (exists i :: 0 <= i < |roles| && roles[i].name == name) ==>
      r.1 == roles && exists i :: First(roles, WithRoleName(name)) == Some(i) && r.0 == roles[i]
    ensures (forall i :: 0 <= i < |roles| ==> roles[i].name != name) ==>
      r.1 == roles + [Role(newId, name)] && r.0 == Role(newId, name)
    ensures RoleNamesDistinct(roles) ==> RoleNamesDistinct(r.1)
    ensures RoleIdsUnique(roles) && (forall i :: 0 <= i < |roles| ==> roles[i].id != newId) ==>
      RoleIdsUnique(r.1)
  {
    match First(roles, WithRoleName(name))
    case Some(i) => (roles[i], roles)
    case None => (Role(newId, name), roles + [Role(newId, name)])
  }

  function RoleNames(roles: seq<Role>): (names: seq<string>)
    ensures |names| == |roles|
    ensures forall i :: 0 <= i < |roles| ==> names[i] == roles[i].name
  {
    seq(|roles|, i requires 0 <= i < |roles| => roles[i].name)
  }

  /** Issues an access token for `user` and appends a new refresh token for
      them; the rest of the store is untouched. */
  function Issue(s: Store, user: User, f: Fresh, ip: Option<string>, now: Time, settings: Jwt.JwtSettings): (o: Outcome)
    ensures o.response.Ok?
    ensures o.store.users == s.users && o.store.roles == s.roles
    ensures |o.store.tokens| == |s.tokens| + 1 && o.store.tokens[..|s.tokens|] == s.tokens
    ensures o.store.tokens[|s.tokens|] == BuildRefreshToken(user.id, f.tokenBase64, ip, now)
    ensures o.response.value.refreshToken == o.store.tokens[|s.tokens|].token
    ensures o.response.value.accessToken == Jwt.Generate(user, RoleNames(user.roles), f.jti, now, settings)
    ensures o.response.value.expiresAt == o.response.value.accessToken.expiresAt
  {
    var access := Jwt.Generate(user, RoleNames(user.roles), f.jti, now, settings);
    var refresh := BuildRefreshToken(user.id, f.tokenBase64, ip, now);
    Outcome(s.(tokens := s.tokens + [refresh]), Ok(AuthResponse(access, refresh.token, access.expiresAt)))
  }

  /** Token `b` is token `a`, possibly revoked since: every other field is
      unchanged and a revoked token stays revoked. */
  predicate Evolves(a: RefreshToken, b: RefreshToken) {
    && b == a.(revokedAt := b.revokedAt)
    && (a.IsRevoked() ==> b.IsRevoked())
  }

  /** The token table only grows, and revocation is never undone. */
  predicate HistoryKept(before: seq<RefreshToken>, after: seq<RefreshToken>) {
    && |before| <= |after|
    && forall i :: 0 <= i < |before| ==> Evolves(before[i], after[i])
  }

  /** `token.RevokedAt = now` on the row at position `i`. */
  function Revoke(tokens: seq<RefreshToken>, i: nat, now: Time): (r: seq<RefreshToken>)
    requires i < |tokens|
    ensures |r| == |tokens| && r[i].IsRevoked() && r[i].revokedAt == Some(now)
    ensures forall j :: 0 <= j < |tokens| && j != i ==> r[j] == tokens[j]
    ensures HistoryKept(tokens, r)
  {
    tokens[i := tokens[i].(revokedAt := Some(now))]
  }

  // ---------- Register ----------

  /** Some stored user, active or soft-deleted, has the e-mail. */
  predicate EmailInUse(users: seq<User>, email: string)
    // the `AnyAsync` test agrees with the `FirstOrDefault` lookup login uses
    ensures EmailInUse(users, email) <==> First(users, WithEmail(email)).Some?
  {
    exists i :: 0 <= i < |users| && users[i].email == email
  }

  /** The user a successful registration stores. */
  function NewUser(req: RegisterRequest, id: Guid, passwordHash: string, role: Role, now: Time): (u: User)
    ensures u.id == id && u.email == req.email && u.userName == req.userName && u.passwordHash == passwordHash
    // a missing full name or phone is stored as the empty string, never as null
    ensures u.fullName.Some? && u.phone.Some?
    ensures req.fullName.Some? ==> u.fullName == req.fullName
    ensures req.fullName.None? ==> u.fullName == Some("")
    ensures req.phone.Some? ==> u.phone == req.phone
    ensures req.phone.None? ==> u.phone == Some("")
    ensures u.isActive && u.createdAt == now && u.updatedAt.None? && u.deletedAt.None? && u.roles == [role]
  {
    User(id, req.email, req.userName, passwordHash,
         Some(req.fullName.GetOr("")), Some(req.phone.GetOr("")),
         true, now, None, None, [role])
  }

  function RegisterStep(s: Store, req: RegisterRequest, ip: Option<string>, now: Time, f: Fresh,
                        hasher: Hasher, settings: Jwt.JwtSettings): (o: Outcome)
    ensures o.response.Err? <==> EmailInUse(s.users, req.email)
    ensures o.response.Err? ==> o == Outcome(s, Err(EmailTaken))
    ensures HistoryKept(s.tokens, o.store.tokens)
    // with a fresh GUID, the new refresh token differs from every stored one
    ensures FreshFor(s, f) && o.response.Ok? ==>
      forall k :: 0 <= k < |s.tokens| ==> s.tokens[k].token != o.response.value.refreshToken
  {
    if EmailInUse(s.users, req.email) then
      Outcome(s, Err(EmailTaken))
    else
      var (role, roles) := ResolveRole(s.roles, RoleNameFor(req.role), f.roleId);
      var user := NewUser(req, f.userId, hasher.hash(req.password), role, now);
      Issue(Store(s.users + [user], roles, s.tokens), user, f, ip, now, settings)
  }

  /** A registration with a new e-mail adds exactly one active user carrying
      the request's e-mail and user name, the hash of the password (never the
      password itself, unless the hasher maps it to itself) and one role of
      the resolved name; and exactly one usable refresh token owned by that
      user. The access token names that one role. */
  lemma RegisterAdds(s: Store, req: RegisterRequest, ip: Option<string>, now: Time, f: Fresh,
                     hasher: Hasher, settings: Jwt.JwtSettings)
    requires !EmailInUse(s.users, req.email)
    ensures var o := RegisterStep(s, req, ip, now, f, hasher, settings);
      && o.response.Ok?
      && |o.store.users| == |s.users| + 1
      && o.store.users[..|s.users|] == s.users
      && var u := o.store.users[|s.users|];
         && u.id == f.userId && u.email == req.email && u.userName == req.userName
         && u.isActive && u.createdAt == now && u.updatedAt.None? && u.deletedAt.None?
         && u.fullName == Some(req.fullName.GetOr("")) && u.phone == Some(req.phone.GetOr(""))
         && u.passwordHash == hasher.hash(req.password)
         && |u.roles| == 1 && u.roles[0].name == RoleNameFor(req.role) && u.roles[0] in o.store.roles
         && |o.store.tokens| == |s.tokens| + 1
         && o.store.tokens[..|s.tokens|] == s.tokens
         && o.store.tokens[|s.tokens|].userId == u.id
         && o.store.tokens[|s.tokens|].IsUsable(now)
         && o.store.tokens[|s.tokens|].token == o.response.value.refreshToken
         && Jwt.RolesOf(o.response.value.accessToken.claims) == [RoleNameFor(req.role)]
         && Jwt.SubjectOf(o.response.value.accessToken.claims) == Some(f.userId.text)
  {
    var o := RegisterStep(s, req, ip, now, f, hasher, settings);
    var (role, roles) := ResolveRole(s.roles, RoleNameFor(req.role), f.roleId);
    var u := NewUser(req, f.userId, hasher.hash(req.password), role, now);
    assert RoleNames(u.roles) == [role.name];
  }

  /** The role is looked up by name and created only when none has it. */
  lemma RegisterRole(s: Store, req: RegisterRequest, ip: Option<string>, now: Time, f: Fresh,
                     hasher: Hasher, settings: Jwt.JwtSettings)
    requires !EmailInUse(s.users, req.email)
    ensures var roles' := RegisterStep(s, req, ip, now, f, hasher, settings).store.roles;
      && ((exists i :: 0 <= i < |s.roles| && s.roles[i].name == RoleNameFor(req.role)) ==> roles' == s.roles)
      && ((forall i :: 0 <= i < |s.roles| ==> s.roles[i].name != RoleNameFor(req.role)) ==>
            roles' == s.roles + [Role(f.roleId, RoleNameFor(req.role))])
  {
  }

  /** Registration never creates a second role of a name already stored. */
  lemma RegisterKeepsRoleNamesDistinct(s: Store, req: RegisterRequest, ip: Option<string>, now: Time, f: Fresh,
                                       hasher: Hasher, settings: Jwt.JwtSettings)
    requires RoleNamesDistinct(s.roles)
    ensures RoleNamesDistinct(RegisterStep(s, req, ip, now, f, hasher, settings).store.roles)
  {
  }

  /** Two registrations asking for the same role name add at most one role
      between them. */
  lemma RegisterSameRoleOnce(s: Store, req: RegisterRequest, req2: RegisterRequest, ip: Option<string>, now: Time,
                             f: Fresh, f2: Fresh, hasher: Hasher, settings: Jwt.JwtSettings)
    requires RoleNameFor(req2.role) == RoleNameFor(req.role)
    ensures var s1 := RegisterStep(s, req, ip, now, f, hasher, settings).store;
            |RegisterStep(s1, req2, ip, now, f2, hasher, settings).store.roles| <= |s.roles| + 1
  {
    var s1 := RegisterStep(s, req, ip, now, f, hasher, settings).store;
    if !EmailInUse(s.users, req.email) {
      RegisterRole(s, req, ip, now, f, hasher, settings);
      var (role, roles) := ResolveRole(s.roles, RoleNameFor(req.role), f.roleId);
      assert s1.roles == roles;
      var k :| 0 <= k < |roles| && roles[k] == role;
      if !EmailInUse(s1.users, req2.email) {
        RegisterRole(s1, req2, ip, now, f2, hasher, settings);
        assert s1.roles[k].name == RoleNameFor(req2.role);
      }
    }
  }

  lemma RegisterPreservesValid(s: Store, req: RegisterRequest, ip: Option<string>, now: Time, f: Fresh,
                               hasher: Hasher, settings: Jwt.JwtSettings)
    requires s.Valid() && FreshFor(s, f)
    ensures RegisterStep(s, req, ip, now, f, hasher, settings).store.Valid()
  {
    var o := RegisterStep(s, req, ip, now, f, hasher, settings);
    if !EmailInUse(s.users, req.email) {
      RegisterAdds(s, req, ip, now, f, hasher, settings);
      var users := o.store.users;
      assert forall i :: 0 <= i < |s.users| ==> users[i] == s.users[i];
      forall i | 0 <= i < |o.store.tokens|
        ensures HasUser(users, o.store.tokens[i].userId)
      {
        if i < |s.tokens| {
          assert o.store.tokens[i] == s.tokens[i];
          var j :| 0 <= j < |s.users| && s.users[j].id == s.tokens[i].userId;
          assert users[j].id == s.tokens[i].userId;
        } else {
          assert users[|s.users|].id == o.store.tokens[i].userId;
        }
      }
    }
  }

  // ---------- Login ----------

  function LoginStep(s: Store, req: LoginRequest, ip: Option<string>, now: Time, f: Fresh,
                     hasher: Hasher, settings: Jwt.JwtSettings): (o: Outcome)
    // the first user with the e-mail must pass verification; IsActive and
    // DeletedAt are not consulted, and a hash that needs rehashing still passes
    ensures o.response.Ok? <==>
      exists i :: && 0 <= i < |s.users| && s.users[i].email == req.email
                  && (forall j :: 0 <= j < i ==> s.users[j].email != req.email)
                  && hasher.verify(s.users[i].passwordHash, req.password) != Failed
    ensures o.response.Err? ==> o == Outcome(s, Err(BadCredentials))
    // success adds one usable token for that user and touches nothing else
    ensures o.response.Ok? ==>
      && o.store.users == s.users && o.store.roles == s.roles
      && |o.store.tokens| == |s.tokens| + 1
      && o.store.tokens[..|s.tokens|] == s.tokens
      && o.store.tokens[|s.tokens|].IsUsable(now)
      && o.store.tokens[|s.tokens|].token == o.response.value.refreshToken
      && exists i :: && 0 <= i < |s.users| && s.users[i].email == req.email
                     && o.store.tokens[|s.tokens|].userId == s.users[i].id
                     && Jwt.RolesOf(o.response.value.accessToken.claims) == RoleNames(s.users[i].roles)
                     && Jwt.SubjectOf(o.response.value.accessToken.claims) == Some(s.users[i].id.text)
    ensures HistoryKept(s.tokens, o.store.tokens)
    ensures s.Valid() ==> o.store.Valid()
    // with a fresh GUID, the new refresh token differs from every stored one
    ensures FreshFor(s, f) && o.response.Ok? ==>
      forall k :: 0 <= k < |s.tokens| ==> s.tokens[k].token != o.response.value.refreshToken
  {
    match First(s.users, WithEmail(req.email))
    case None => Outcome(s, Err(BadCredentials))
    case Some(i) =>
      var user := s.users[i];
      if hasher.verify(user.passwordHash, req.password) == Failed then
        Outcome(s, Err(BadCredentials))
      else
        assert HasUser(s.users, user.id);
        Issue(s, user, f, ip, now, settings)
  }

  // ---------- Refresh ----------

  /** The refresh endpoint accepts `presented`: the first token with that
      string exists and is usable now. */
  predicate Accepts(tokens: seq<RefreshToken>, presented: string, now: Time)
    ensures Accepts(tokens, presented, now) ==>
      exists i :: 0 <= i < |tokens| && tokens[i].token == presented && tokens[i].IsUsable(now)
    ensures (forall i :: 0 <= i < |tokens| ==> tokens[i].token != presented) ==> !Accepts(tokens, presented, now)
  {
    match First(tokens, WithToken(presented))
    case None => false
    case Some(i) => tokens[i].IsUsable(now)
  }

  function RefreshStep(s: Store, presented: string, ip: Option<string>, now: Time, f: Fresh,
                       settings: Jwt.JwtSettings): (o: Outcome)
    requires s.TokensOwned()
    ensures o.response.Ok? <==> Accepts(s.tokens, presented, now)
    ensures o.response.Err? ==> o == Outcome(s, Err(InvalidRefreshToken))
    ensures o.store.users == s.users && o.store.roles == s.roles
    ensures HistoryKept(s.tokens, o.store.tokens)
    // with a fresh GUID, the new refresh token differs from every stored one
    ensures FreshFor(s, f) && o.response.Ok? ==>
      forall k :: 0 <= k < |s.tokens| ==> s.tokens[k].token != o.response.value.refreshToken
  {
    match First(s.tokens, WithToken(presented))
    case None => Outcome(s, Err(InvalidRefreshToken))
    case Some(i) =>
      var token := s.tokens[i];
      if token.IsRevoked() || token.expiresAt <= now then
        Outcome(s, Err(InvalidRefreshToken))
      else
        assert HasUser(s.users, token.userId);
        match First(s.users, WithId(token.userId))
        case None => assert false; Outcome(s, Err(InvalidRefreshToken))
        case Some(u) => Issue(s.(tokens := Revoke(s.tokens, i, now)), s.users[u], f, ip, now, settings)
  }

  /** Unknown, revoked and expired tokens are refused, and nothing changes. */
  lemma RefreshRejects(s: Store, presented: string, ip: Option<string>, now: Time, f: Fresh,
                       settings: Jwt.JwtSettings)
    requires s.TokensOwned()
    requires || (forall i :: 0 <= i < |s.tokens| ==> s.tokens[i].token != presented)
             || (exists i :: First(s.tokens, WithToken(presented)) == Some(i) && s.tokens[i].IsRevoked())
             || (exists i :: First(s.tokens, WithToken(presented)) == Some(i) && s.tokens[i].expiresAt <= now)
    ensures RefreshStep(s, presented, ip, now, f, settings) == Outcome(s, Err(InvalidRefreshToken))
  {
  }

  /** A successful refresh revokes the presented token at `now` and appends
      one usable token for the same user. */
  lemma RefreshRotates(s: Store, presented: string, ip: Option<string>, now: Time, f: Fresh,
                       settings: Jwt.JwtSettings, i: nat)
    requires s.TokensOwned()
    requires First(s.tokens, WithToken(presented)) == Some(i) && s.tokens[i].IsUsable(now)
    ensures var o := RefreshStep(s, presented, ip, now, f, settings);
      && o.response.Ok?
      && |o.store.tokens| == |s.tokens| + 1
      && o.store.tokens[..|s.tokens|] == Revoke(s.tokens, i, now)
      && o.store.tokens[|s.tokens|].userId == s.tokens[i].userId
      && o.store.tokens[|s.tokens|].IsUsable(now)
      && o.store.tokens[|s.tokens|].token == o.response.value.refreshToken
      && o.store.TokensOwned()
      // the access token is issued to the presented token's owner
      && Jwt.SubjectOf(o.response.value.accessToken.claims) == Some(s.tokens[i].userId.text)
      && exists u :: && 0 <= u < |s.users| && s.users[u].id == s.tokens[i].userId
                     && Jwt.RolesOf(o.response.value.accessToken.claims) == RoleNames(s.users[u].roles)
  {
    var o := RefreshStep(s, presented, ip, now, f, settings);
    assert HasUser(s.users, s.tokens[i].userId);
    var u :| First(s.users, WithId(s.tokens[i].userId)) == Some(u);
    assert o.store.tokens[|s.tokens|].userId == s.users[u].id;
    forall k | 0 <= k < |o.store.tokens| ensures HasUser(o.store.users, o.store.tokens[k].userId) {
      if k < |s.tokens| {
        assert o.store.tokens[k].userId == s.tokens[k].userId;
      }
    }
  }

  lemma RefreshPreservesValid(s: Store, presented: string, ip: Option<string>, now: Time, f: Fresh,
                              settings: Jwt.JwtSettings)
    requires s.Valid()
    ensures RefreshStep(s, presented, ip, now, f, settings).store.Valid()
  {
    match First(s.tokens, WithToken(presented))
    case None =>
    case Some(i) =>
      if s.tokens[i].IsUsable(now) {
        RefreshRotates(s, presented, ip, now, f, settings, i);
      }
  }

  // ---------- Logout ----------

  function LogoutStep(s: Store, presented: string, now: Time): (s': Store)
    ensures s'.users == s.users && s'.roles == s.roles && |s'.tokens| == |s.tokens|
    // an unknown token is not an error and changes nothing
    ensures (forall i :: 0 <= i < |s.tokens| ==> s.tokens[i].token != presented) ==> s' == s
    // the first token with that string is revoked now, even if it already was
    ensures forall i :: First(s.tokens, WithToken(presented)) == Some(i) ==> s'.tokens == Revoke(s.tokens, i, now)
    ensures HistoryKept(s.tokens, s'.tokens)
    ensures s.Valid() ==> s'.Valid()
  {
    match First(s.tokens, WithToken(presented))
    case None => s
    case Some(i) => s.(tokens := Revoke(s.tokens, i, now))
  }

  // ---------- Properties across operations ----------

  /** A refresh token is single-use: presenting it again after a successful
      refresh fails, whatever the time. */
  lemma SecondRefreshFails(s: Store, presented: string, ip: Option<string>, now: Time, f: Fresh,
                           settings: Jwt.JwtSettings, ip2: Option<string>, later: Time, f2: Fresh)
    requires s.TokensOwned()
    requires Accepts(s.tokens, presented, now)
    ensures var s1 := RefreshStep(s, presented, ip, now, f, settings).store;
            s1.TokensOwned() && RefreshStep(s1, presented, ip2, later, f2, settings).response == Err(InvalidRefreshToken)
  {
    var i := First(s.tokens, WithToken(presented)).value;
    RefreshRotates(s, presented, ip, now, f, settings, i);
    var t := RefreshStep(s, presented, ip, now, f, settings).store.tokens;
    forall j | 0 <= j < i ensures !WithToken(presented)(t[j]) {
      assert t[j] == s.tokens[j];
    }
    FirstAt(t, WithToken(presented), i);
  }

  /** After logout, the token can no longer be refreshed. */
  lemma LogoutThenRefreshFails(s: Store, presented: string, now: Time, ip: Option<string>, later: Time,
                               f: Fresh, settings: Jwt.JwtSettings)
    requires s.TokensOwned()
    ensures var s1 := LogoutStep(s, presented, now);
            s1.TokensOwned() && RefreshStep(s1, presented, ip, later, f, settings).response == Err(InvalidRefreshToken)
  {
    var s1 := LogoutStep(s, presented, now);
    assert forall k :: 0 <= k < |s1.tokens| ==> s1.tokens[k].userId == s.tokens[k].userId;
    match First(s.tokens, WithToken(presented))
    case None =>
    case Some(i) =>
      forall j | 0 <= j < i ensures !WithToken(presented)(s1.tokens[j]) {
        assert s1.tokens[j] == s.tokens[j];
      }
      FirstAt(s1.tokens, WithToken(presented), i);
  }

  /** A newly registered user can log in with the password they registered
      with, given a hasher that accepts its own hashes. */
  lemma RegisterThenLogin(s: Store, req: RegisterRequest, ip: Option<string>, now: Time, f: Fresh,
                          hasher: Hasher, settings: Jwt.JwtSettings, ip2: Option<string>, later: Time, f2: Fresh)
    requires Consistent(hasher)
    requires !EmailInUse(s.users, req.email)
    ensures LoginStep(RegisterStep(s, req, ip, now, f, hasher, settings).store, LoginRequest(req.email, req.password),
                      ip2, later, f2, hasher, settings).response.Ok?
  {
    RegisterAdds(s, req, ip, now, f, hasher, settings);
    var users := RegisterStep(s, req, ip, now, f, hasher, settings).store.users;
    var k := |s.users|;
    forall j | 0 <= j < k ensures users[j].email != req.email {
      assert users[j] == s.users[j];
    }
    assert hasher.verify(hasher.hash(req.password), req.password) != Failed;
  }

  /** Registering an e-mail twice fails the second time and leaves the first
      registration's data as it was. */
  lemma RegisterTwiceConflicts(s: Store, req: RegisterRequest, req2: RegisterRequest, ip: Option<string>, now: Time,
                               f: Fresh, f2: Fresh, hasher: Hasher, settings: Jwt.JwtSettings)
    requires req2.email == req.email
    requires !EmailInUse(s.users, req.email)
    ensures var s1 := RegisterStep(s, req, ip, now, f, hasher, settings).store;
            RegisterStep(s1, req2, ip, now, f2, hasher, settings) == Outcome(s1, Err(EmailTaken))
  {
    RegisterAdds(s, req, ip, now, f, hasher, settings);
  }

  /** The outcome of a login does not depend on whether the user is active or
      soft-deleted: changing those two fields changes neither the response nor
      the tokens issued. */
  lemma LoginIgnoresActivation(s: Store, k: nat, active: bool, deletedAt: Option<Time>, req: LoginRequest,
                               ip: Option<string>, now: Time, f: Fresh, hasher: Hasher, settings: Jwt.JwtSettings)
    requires k < |s.users|
    ensures var s' := s.(users := s.users[k := s.users[k].(isActive := active, deletedAt := deletedAt)]);
            var o := LoginStep(s, req, ip, now, f, hasher, settings);
            LoginStep(s', req, ip, now, f, hasher, settings) == o.(store := o.store.(users := s'.users))
  {
    var users' := s.users[k := s.users[k].(isActive := active, deletedAt := deletedAt)];
    FirstSame(s.users, users', WithEmail(req.email));
  }

  // ---------- The service ----------

  class AuthService {
    const db: AppDb
    const hasher: Hasher
    const jwt: Jwt.JwtSettings

    constructor(db: AppDb, hasher: Hasher, jwt: Jwt.JwtSettings)
      ensures this.db == db && this.hasher == hasher && this.jwt == jwt
    {
      this.db, this.hasher, this.jwt := db, hasher, jwt;
    }

    method Register(req: RegisterRequest, ip: Option<string>, now: Time, f: Fresh)
      returns (r: Result<AuthResponse, AuthError>)
      requires db.Valid() && FreshFor(db.State(), f)
      modifies db
      ensures db.Valid()
      ensures Outcome(db.State(), r) == RegisterStep(old(db.State()), req, ip, now, f, hasher, jwt)
    {
      RegisterPreservesValid(db.State(), req, ip, now, f, hasher, jwt);
      if exists i :: 0 <= i < |db.users| && db.users[i].email == req.email {
        return Err(EmailTaken);
      }
      var name := RoleNameFor(req.role);
      var found := First(db.roles, WithRoleName(name));
      var role: Role;
      if found.None? {
        role := Role(f.roleId, name);
        db.roles := db.roles + [role];
      } else {
        role := db.roles[found.value];
      }
      var user := NewUser(req, f.userId, hasher.hash(req.password), role, now);
      db.users := db.users + [user];
      var access := Jwt.Generate(user, RoleNames(user.roles), f.jti, now, jwt);
      var refresh := BuildRefreshToken(user.id, f.tokenBase64, ip, now);
      db.tokens := db.tokens + [refresh];
      r := Ok(AuthResponse(access, refresh.token, access.expiresAt));
    }

    method Login(req: LoginRequest, ip: Option<string>, now: Time, f: Fresh)
      returns (r: Result<AuthResponse, AuthError>)
      requires db.Valid()
      modifies db
      ensures db.Valid()
      ensures Outcome(db.State(), r) == LoginStep(old(db.State()), req, ip, now, f, hasher, jwt)
      ensures FreshFor(old(db.State()), f) && r.Ok? ==>
        forall k :: 0 <= k < |old(db.tokens)| ==> old(db.tokens)[k].token != r.value.refreshToken
    {
      var found := First(db.users, WithEmail(req.email));
      if found.None? {
        return Err(BadCredentials);
      }
      var user := db.users[found.value];
      if hasher.verify(user.passwordHash, req.password) == Failed {
        return Err(BadCredentials);
      }
      var access := Jwt.Generate(user, RoleNames(user.roles), f.jti, now, jwt);
      var refresh := BuildRefreshToken(user.id, f.tokenBase64, ip, now);
      db.tokens := db.tokens + [refresh];
      r := Ok(AuthResponse(access, refresh.token, access.expiresAt));
    }

    method Refresh(presented: string, ip: Option<string>, now: Time, f: Fresh)
      returns (r: Result<AuthResponse, AuthError>)
      requires db.Valid()
      modifies db
      ensures db.Valid()
      ensures Outcome(db.State(), r) == RefreshStep(old(db.State()), presented, ip, now, f, jwt)
      ensures FreshFor(old(db.State()), f) && r.Ok? ==>
        forall k :: 0 <= k < |old(db.tokens)| ==> old(db.tokens)[k].token != r.value.refreshToken
    {
      var found := First(db.tokens, WithToken(presented));
      if found.None? || db.tokens[found.value].IsRevoked() || db.tokens[found.value].expiresAt <= now {
        return Err(InvalidRefreshToken);
      }
      var i := found.value;
      var token := db.tokens[i];
      db.tokens := db.tokens[i := token.(revokedAt := Some(now))];
      assert HasUser(db.users, token.userId);
      var owner := First(db.users, WithId(token.userId));
      var user := db.users[owner.value];
      var access := Jwt.Generate(user, RoleNames(user.roles), f.jti, now, jwt);
      var refresh := BuildRefreshToken(user.id, f.tokenBase64, ip, now);
      db.tokens := db.tokens + [refresh];
      r := Ok(AuthResponse(access, refresh.token, access.expiresAt));
    }

    method Logout(presented: string, now: Time)
      requires db.Valid()
      modifies db
      ensures db.Valid()
      ensures db.State() == LogoutStep(old(db.State()), presented, now)
    {
      var found := First(db.tokens, WithToken(presented));
      if found.None? {
        return;
      }
      var i := found.value;
      db.tokens := db.tokens[i := db.tokens[i].(revokedAt := Some(now))];
    }
  }
}
