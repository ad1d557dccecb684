/** The access-token generator: the ordered claim list it signs and the expiry
    it stamps. Signing and serialising the token are not part of this model. */
module Jwt {
  import opened Common
  import opened Entities

  /** A claim: its type URI (or registered short name) and its value. */
  datatype Claim = Claim(kind: string, value: string)

  const SubjectType: string := "sub"
  const TokenIdType: string := "jti"
  const NameIdentifierType: string := "http://schemas.xmlsoap.org/ws/2005/05/identity/claims/nameidentifier"
  const NameType: string := "http://schemas.xmlsoap.org/ws/2005/05/identity/claims/name"
  const EmailType: string := "http://schemas.xmlsoap.org/ws/2005/05/identity/claims/emailaddress"
  const RoleType: string := "http://schemas.microsoft.com/ws/2008/06/identity/claims/role"

  /** Lifetime used when the `Jwt:AccessTokenMinutes` setting is absent. */
  const DefaultAccessTokenMinutes: nat := 15

  /** The `Jwt` configuration section, as far as the claim list and expiry use
      it: the access-token lifetime in minutes, when configured. */
  datatype JwtSettings = JwtSettings(accessTokenMinutes: Option<nat>)

  /** What the generator hands back: the claims the signed token carries and
      its expiry instant. */
  datatype AccessToken = AccessToken(claims: seq<Claim>, expiresAt: Time)

  /** One role claim per role name, in order, duplicates kept. */
  function RoleClaims(roles: seq<string>): (r: seq<Claim>)
    ensures |r| == |roles|
    ensures forall i :: 0 <= i < |roles| ==> r[i].kind == RoleType && r[i].value == roles[i]
  {
    if roles == [] then [] else [Claim(RoleType, roles[0])] + RoleClaims(roles[1..])
  }

  /** The claim list: five identity claims, then the role claims. */
  function Claims(user: User, roles: seq<string>, jti: Guid): (r: seq<Claim>)
    ensures |r| == 5 + |roles|
    ensures r[0] == Claim(SubjectType, user.id.text)
    ensures r[1] == Claim(TokenIdType, jti.text)
    ensures r[2] == Claim(NameIdentifierType, user.id.text)
    ensures r[3] == Claim(NameType, user.userName)
    ensures r[4] == Claim(EmailType, user.email)
    ensures r[0].value == r[2].value
    ensures forall i :: 0 <= i < |roles| ==> r[5 + i] == Claim(RoleType, roles[i])
  {
    [ Claim(SubjectType, user.id.text),
      Claim(TokenIdType, jti.text),
      Claim(NameIdentifierType, user.id.text),
      Claim(NameType, user.userName),
      Claim(EmailType, user.email) ]
    + RoleClaims(roles)
  }

  /** The configured lifetime, or the default. */
  function LifetimeMinutes(settings: JwtSettings): (m: nat)
    ensures settings.accessTokenMinutes.None? ==> m == DefaultAccessTokenMinutes
    ensures settings.accessTokenMinutes.Some? ==> m == settings.accessTokenMinutes.value
  {
    settings.accessTokenMinutes.GetOr(DefaultAccessTokenMinutes)
  }

  /** `Generate(user, roles)` at instant `now`, with `jti` the fresh token id. */
  function Generate(user: User, roles: seq<string>, jti: Guid, now: Time, settings: JwtSettings): (r: AccessToken)
    ensures |r.claims| == 5 + |roles|
    ensures RolesOf(r.claims) == roles
    ensures SubjectOf(r.claims) == Some(user.id.text)
    ensures r.expiresAt == now + LifetimeMinutes(settings) * SecondsPerMinute
    ensures settings.accessTokenMinutes.None? ==> r.expiresAt == now + 15 * 60
    ensures now <= r.expiresAt
  {
    RolesRoundTrip(user, roles, jti);
    AccessToken(Claims(user, roles, jti), now + LifetimeMinutes(settings) * SecondsPerMinute)
  }

  /** The role names a token carries: the values of its role claims, in order. */
  function RolesOf(claims: seq<Claim>): seq<string> {
    if claims == [] then []
    else (if claims[0].kind == RoleType then [claims[0].value] else []) + RolesOf(claims[1..])
  }

  /** The subject a token names: the value of its first `sub` claim. */
  function SubjectOf(claims: seq<Claim>): Option<string> {
    if claims == [] then None
    else if claims[0].kind == SubjectType then Some(claims[0].value)
    else SubjectOf(claims[1..])
  }

  lemma {:induction false} RolesOfAppend(a: seq<Claim>, b: seq<Claim>)
    ensures RolesOf(a + b) == RolesOf(a) + RolesOf(b)
  {
    if a == [] {
      assert a + b == b;
    } else {
      assert (a + b)[1..] == a[1..] + b;
      RolesOfAppend(a[1..], b);
    }
  }

  lemma {:induction false} RolesOfRoleClaims(roles: seq<string>)
    ensures RolesOf(RoleClaims(roles)) == roles
  {
    if roles != [] {
      var rest := RoleClaims(roles[1..]);
      assert RoleClaims(roles) == [Claim(RoleType, roles[0])] + rest;
      RolesOfAppend([Claim(RoleType, roles[0])], rest);
      RolesOfRoleClaims(roles[1..]);
    }
  }

  /** The role names are recovered from the claim list exactly: in order, with
      duplicates, and none of the five identity claims is read as a role. */
  lemma RolesRoundTrip(user: User, roles: seq<string>, jti: Guid)
    ensures RolesOf(Claims(user, roles, jti)) == roles
    ensures SubjectOf(Claims(user, roles, jti)) == Some(user.id.text)
  {
    var head := Claims(user, roles, jti)[..5];
    assert Claims(user, roles, jti) == head + RoleClaims(roles);
    RolesOfAppend(head, RoleClaims(roles));
    RolesOfRoleClaims(roles);
    NoRoleClaims(head);
  }

  lemma {:induction false} NoRoleClaims(claims: seq<Claim>)
    requires forall i :: 0 <= i < |claims| ==> claims[i].kind != RoleType
    ensures RolesOf(claims) == []
  {
    if claims != [] {
      NoRoleClaims(claims[1..]);
    }
  }
}
