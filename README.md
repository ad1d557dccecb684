# TRManager authentication and user services in Dafny

This project models the account core of the TRManager API:

- `AuthService` handles registration, login, refresh-token rotation and logout.
- `UserService` provides profile listing, lookup, partial update and soft delete.
- `JwtTokenGenerator` builds the claim list and the expiry of an access token.
- Two FluentValidation validators hold the rules for registration and password-change requests.

The database context is a class, `Entities.AppDb`, whose three tables (`users`, `roles` and `tokens`) are sequences in row order. A `FirstOrDefault` query is the generic `Common.First`, which returns the index of the first matching row.

Each service operation that changes the tables is specified twice:

- a pure function: for `AuthService`, a step function from the old tables to the new tables and the response (`Auth.RegisterStep`, `Auth.LoginStep`, `Auth.RefreshStep`, `Auth.LogoutStep`); for `UserService`, a function from the old user row to the new one (`Users.ApplyUpdate`, `Users.SoftDelete`);
- a method of `Auth.AuthService` or `Users.UserService` that updates the context in place and is proved equal to its step function.

The properties are proved as lemmas about the step functions:

- single-use refresh tokens;
- logout invalidating a token;
- register-then-login;
- duplicate e-mails;
- role get-or-create;
- preservation of the store invariant `Store.Valid`: unique user ids, unique e-mails, unique role ids, and every token owned by a stored user.

A thrown `InvalidOperationException` or `KeyNotFoundException` becomes an `Err` value. Every error path leaves the store unchanged.

Some things the code draws from outside are parameters of the model, and the contracts range over all of them:

- the clock, as one instant `now` per call, in whole seconds;
- `Guid.NewGuid()` and the Base64 text of a new GUID, bundled in `Auth.Fresh`;
- the identity value of a new role;
- the password hasher, as `Auth.Hasher`;
- the `Jwt` configuration section, as `Jwt.JwtSettings`.

Some behaviours of the code are easy to miss, and the model keeps them as written:

- **Login ignores account status.** `LoginAsync` does not look at `IsActive` or `DeletedAt`, so a deactivated or soft-deleted user can still log in (`Auth.LoginIgnoresActivation`).
- **Soft-deleted users still hold their e-mail.** Registration refuses an e-mail held by any stored user, including a soft-deleted one.
- **The validators are never invoked.** Nothing in the request pipeline runs them, so `Auth.RegisterStep` accepts requests that `RegisterValidator.IsValid` rejects (`RegisterValidator.WeakPasswordStillRegisters`).
- **The phone pattern accepts a trailing line feed.** It is anchored with the .NET `$`, which also matches just before a final line feed, so a phone number followed by one `"\n"` passes.

## Model

| member | source | states |
|---|---|---|
| Common.First | TRManager.Api/Features/Auth/AuthService.cs:71-73 | `FirstOrDefault` over a table: the index of a matching row with no earlier match, or none exactly when no row matches |
| Common.FirstAt | TRManager.Api/Features/Auth/AuthService.cs:118 | the earliest matching row is the one `FirstOrDefault` returns |
| Common.FirstSame | TRManager.Api/Features/Auth/AuthService.cs:71-73 | tables that agree on the filter row by row return the same first row |
| Text.IsWhiteSpace | TRManager.Api/Features/Auth/AuthService.cs:35 | `char.IsWhiteSpace`: tab, line feed, carriage return and space are white space; no ASCII letter, digit or '+' is |
| Text.IsNullOrWhiteSpace | TRManager.Api/Features/Auth/AuthService.cs:35 | a string that is not blank is present and holds a non-space character; one starting with a non-space character is not blank |
| Text.IsNullOrEmpty | TRManager.Api/Features/Auth/Validation/RegisterRequestValidator.cs:37 | the empty test is narrower than the blank test: every null or empty string is blank, and " " is blank but not empty |
| Entities.RefreshToken.IsRevoked | TRManager.Api/Features/Auth/AuthService.cs:99 | a token counts as revoked exactly when its revocation time is set (no contract: it would repeat the one-field test) |
| Entities.Store.Valid | TRManager.Api/Data/ApplicationDbContext.cs:22-45 | the schema's constraints: unique user ids (line 22), unique e-mails (line 25), unique role ids (line 35) and every token owned by a stored user (lines 43-45); in a valid store an e-mail or a user id picks out at most one user |
| Entities.RefreshToken.IsUsable | TRManager.Api/Features/Auth/AuthService.cs:99 | a usable token is unrevoked, and a token whose expiry is at or before `now` is not usable |
| Entities.AppDb.constructor | TRManager.Api/Data/ApplicationDbContext.cs:11-13 | a fresh context has three empty tables and satisfies the store invariant |
| Jwt.RoleClaims | TRManager.Api/Features/Auth/JwtTokenGenerator.cs:31 | one role claim per role name, in order, duplicates kept |
| Jwt.Claims | TRManager.Api/Features/Auth/JwtTokenGenerator.cs:23-31 | the five identity claims in order (sub and nameidentifier both carry the user id, then the jti, user name and e-mail), followed by the role claims |
| Jwt.LifetimeMinutes | TRManager.Api/Features/Auth/JwtTokenGenerator.cs:33 | the configured lifetime, or 15 minutes when the setting is absent |
| Jwt.Generate | TRManager.Api/Features/Auth/JwtTokenGenerator.cs:16-44 | the token carries 5 + n claims, its roles read back are exactly the given roles, and its subject is the user id; the expiry is the lifetime after `now` and never before it |
| Jwt.RolesOfAppend | TRManager.Api/Features/Auth/JwtTokenGenerator.cs:31 | reading roles from a concatenated claim list concatenates the roles read |
| Jwt.RolesOfRoleClaims | TRManager.Api/Features/Auth/JwtTokenGenerator.cs:31 | role claims read back give the original role names |
| Jwt.NoRoleClaims | TRManager.Api/Features/Auth/JwtTokenGenerator.cs:23-30 | a claim list with no role-typed claim yields no roles |
| Jwt.RolesRoundTrip | TRManager.Api/Features/Auth/JwtTokenGenerator.cs:23-31 | the roles of the claim list are exactly the input roles, and no identity claim is read as a role; the subject is the user id |
| Auth.Remove | TRManager.Api/Features/Auth/AuthService.cs:130-131 | `Replace(c, "")` keeps exactly the characters other than `c` |
| Auth.TokenText | TRManager.Api/Features/Auth/AuthService.cs:130-131 | the refresh-token text has no '+', '/' or '=' and keeps every other character of the Base64 text |
| Auth.RemoveIsWithout | TRManager.Api/Features/Auth/AuthService.cs:130-131 | one `Replace` is the order-keeping filter by that character |
| Auth.WithoutAppend | TRManager.Api/Features/Auth/AuthService.cs:130-131 | filtering distributes over concatenation |
| Auth.WithoutTwice | TRManager.Api/Features/Auth/AuthService.cs:130-131 | two filters in a row are one filter by the union |
| Auth.TokenTextKeepsOrder | TRManager.Api/Features/Auth/AuthService.cs:130-131 | the three chained removals equal one pass that drops '+', '/' and '=' and keeps the rest in order |
| Auth.BuildRefreshToken | TRManager.Api/Features/Auth/AuthService.cs:126-135 | owner, IP and creation instant as given, expiry 14 days after `now`, not revoked, usable now, and no '+', '/' or '=' in the text |
| Auth.RoleNameFor | TRManager.Api/Features/Auth/AuthService.cs:35 | "Tenant" when the requested role is null or white space, the requested name verbatim otherwise; never blank |
| Auth.ResolveRole | TRManager.Api/Features/Auth/AuthService.cs:36-42 | get-or-create by name: the first stored role with the name and an unchanged table, or a new role appended; distinct names and unique ids are kept |
| Auth.RoleNames | TRManager.Api/Features/Auth/AuthService.cs:59 | the user's role names, one per role, in order |
| Auth.Issue | TRManager.Api/Features/Auth/AuthService.cs:82-88 | success; users and roles untouched; exactly one refresh token for the user appended; the response carries that token's text and the access token's expiry |
| Auth.Revoke | TRManager.Api/Features/Auth/AuthService.cs:121 | only the chosen row changes, and it is revoked at `now`; history is kept |
| Auth.EmailInUse | TRManager.Api/Features/Auth/AuthService.cs:31 | the `AnyAsync` e-mail test holds exactly when the first-match lookup by e-mail finds a user |
| Auth.NewUser | TRManager.Api/Features/Auth/AuthService.cs:44-54 | the stored user carries the request's e-mail, user name and given hash, a missing full name or phone stored as "", active, created now, never updated or deleted, with exactly the resolved role |
| Auth.RegisterStep | TRManager.Api/Features/Auth/AuthService.cs:29-66 | fails exactly when some stored user has the e-mail, and then with `EmailTaken` and no change (the database's column limits are not modelled, see "## Left out"); tokens only grow and stay revoked; with fresh values the new refresh token differs from every stored one |
| Auth.RegisterAdds | TRManager.Api/Features/Auth/AuthService.cs:44-65 | a new e-mail adds one active user with the hashed password and one resolved role, plus one usable refresh token for that user; the user's full name and phone are the request's or "", and it is never updated or deleted; the access token names that role and has the new user's id as subject |
| Auth.RegisterRole | TRManager.Api/Features/Auth/AuthService.cs:36-42 | the role table is unchanged when the name exists, and grows by the new role otherwise |
| Auth.RegisterKeepsRoleNamesDistinct | TRManager.Api/Features/Auth/AuthService.cs:36-42 | registration never creates a second role with a stored name |
| Auth.RegisterSameRoleOnce | TRManager.Api/Features/Auth/AuthService.cs:35-42 | two registrations asking for the same role name add at most one role between them |
| Auth.RegisterPreservesValid | TRManager.Api/Data/ApplicationDbContext.cs:22-45 | with fresh ids, registration keeps ids and e-mails unique and every token owned |
| Auth.LoginStep | TRManager.Api/Features/Auth/AuthService.cs:69-89 | succeeds exactly when the first user with the e-mail passes verification (a rehash-needed result passes); failure is `BadCredentials` with no change; success appends one usable token for that user, whose access token has that user's id as subject and lists that user's roles; with fresh values the new refresh token differs from every stored one; the invariant is kept |
| Auth.RefreshStep | TRManager.Api/Features/Auth/AuthService.cs:92-113 | succeeds exactly when the first token with that text is unrevoked and unexpired; failure is `InvalidRefreshToken` with no change; users and roles never change; with fresh values the new refresh token differs from every stored one |
| Auth.Accepts | TRManager.Api/Features/Auth/AuthService.cs:94-100 | an accepted text belongs to a stored token that is usable now; an unknown text is never accepted |
| Auth.RefreshRejects | TRManager.Api/Features/Auth/AuthService.cs:99-100 | unknown, revoked or expired (expiry at or before now) tokens are refused and nothing changes |
| Auth.RefreshRotates | TRManager.Api/Features/Auth/AuthService.cs:102-110 | a usable token is revoked at `now` and one usable token for the same user is appended; the access token has the token owner's id as subject and lists the owner's roles |
| Auth.RefreshPreservesValid | TRManager.Api/Data/ApplicationDbContext.cs:43-45 | refresh keeps the store invariant |
| Auth.LogoutStep | TRManager.Api/Features/Auth/AuthService.cs:116-123 | an unknown token changes nothing; otherwise the first token with the text is revoked at `now`, even if already revoked; nothing else changes and the invariant is kept |
| Auth.SecondRefreshFails | TRManager.Api/Features/Auth/AuthService.cs:99-102 | a refresh token is single-use: after a successful refresh the same text is refused at any later time |
| Auth.LogoutThenRefreshFails | TRManager.Api/Features/Auth/AuthService.cs:118-121 | after logout the token text is refused by refresh |
| Auth.RegisterThenLogin | TRManager.Api/Features/Auth/AuthService.cs:54 | with a hasher that accepts its own hashes, a newly registered user can log in with their password |
| Auth.RegisterTwiceConflicts | TRManager.Api/Features/Auth/AuthService.cs:31-32 | a second registration with the same e-mail fails with `EmailTaken` and leaves the store as the first left it |
| Auth.LoginIgnoresActivation | TRManager.Api/Features/Auth/AuthService.cs:71-80 | changing a user's `IsActive` or `DeletedAt` changes neither the login response nor the tokens issued |
| Auth.AuthService.constructor | TRManager.Api/Features/Auth/AuthService.cs:18-26 | the service holds the given context, hasher and settings |
| Auth.AuthService.Register | TRManager.Api/Features/Auth/AuthService.cs:29-66 | updates the context in place exactly as `RegisterStep` says and keeps the invariant |
| Auth.AuthService.Login | TRManager.Api/Features/Auth/AuthService.cs:69-89 | updates the context in place exactly as `LoginStep` says and keeps the invariant; with fresh values the returned refresh token differs from every earlier one |
| Auth.AuthService.Refresh | TRManager.Api/Features/Auth/AuthService.cs:92-113 | updates the context in place exactly as `RefreshStep` says and keeps the invariant; with fresh values the returned refresh token differs from every earlier one |
| Auth.AuthService.Logout | TRManager.Api/Features/Auth/AuthService.cs:116-123 | updates the context in place exactly as `LogoutStep` says and keeps the invariant |
| Users.ToDto | TRManager.Api/Features/User/UserService.cs:22 | the view copies id, e-mail, user name, full name, phone, activity and creation instant from the user |
| Users.GetAll | TRManager.Api/Features/User/UserService.cs:20-23 | one view per stored user, in the model's table order (the database gives no order, see "## Left out"), soft-deleted users included |
| Users.GetById | TRManager.Api/Features/User/UserService.cs:25-28 | none exactly when no user has the id; otherwise the view of a user with that id |
| Users.GetByIdAgreesWithGetAll | TRManager.Api/Features/User/UserService.cs:20-28 | with unique ids, what `GetById` finds is listed by `GetAll`, and every listed view is found by its own id |
| Users.ApplyUpdate | TRManager.Api/Features/User/UserService.cs:30-38 | supplied fields overwrite and null fields keep the old value; the update stamp is always set; identity, e-mail, hash, roles and deletion data are unchanged |
| Users.SoftDelete | TRManager.Api/Features/User/UserService.cs:40-46 | the user becomes inactive with the deletion stamp `now`; every other field is unchanged |
| Users.UpdateProperties | TRManager.Api/Features/User/UserService.cs:33-36 | an empty update only moves the stamp; an update applied twice at one instant equals one application |
| Users.SoftDeleteProperties | TRManager.Api/Features/User/UserService.cs:43-44 | soft-deleting twice only moves the deletion stamp; an update without `IsActive` keeps a deleted user inactive |
| Users.KeysKept | TRManager.Api/Data/ApplicationDbContext.cs:22-25 | rows rewritten with the same id and e-mail keep keys, the unique e-mail index and token owners valid |
| Users.UserService.constructor | TRManager.Api/Features/User/UserService.cs:18 | the service holds the given context |
| Users.UserService.Update | TRManager.Api/Features/User/UserService.cs:30-38 | `UserNotFound` with no change exactly when no user has the id; otherwise the user with the id is replaced by `ApplyUpdate` of it; other tables unchanged; invariant kept |
| Users.UserService.DeleteSoft | TRManager.Api/Features/User/UserService.cs:40-46 | `UserNotFound` with no change exactly when no user has the id; otherwise the row stays and is replaced by `SoftDelete` of it; invariant kept |
| Rules.NotEmpty | TRManager.Api/Features/Auth/Validation/RegisterRequestValidator.cs:11 | `NotEmpty()`: holds exactly when the string is present and has a non-space character; such a string is neither null nor empty |
| Rules.MinimumLength | TRManager.Api/Features/Auth/Validation/RegisterRequestValidator.cs:16 | `MinimumLength(n)`: at least `n` characters |
| Rules.HasUpper | TRManager.Api/Features/Auth/Validation/RegisterRequestValidator.cs:21 | `Matches("[A-Z]")`: a string with an upper-case letter passes `NotEmpty` |
| Rules.HasLower | TRManager.Api/Features/Auth/Validation/RegisterRequestValidator.cs:22 | `Matches("[a-z]")`: a string with a lower-case letter passes `NotEmpty` |
| Rules.HasDigit | TRManager.Api/Features/Auth/Validation/RegisterRequestValidator.cs:23 | `Matches("[0-9]")`: a string with a digit passes `NotEmpty` |
| Rules.HasSpecial | TRManager.Api/Features/Auth/Validation/RegisterRequestValidator.cs:24 | `Matches("[^a-zA-Z0-9]")`: never matches letters and digits alone; any non-empty white-space string matches |
| Rules.AlphanumericIsNotEmpty | TRManager.Api/Features/Auth/Validation/RegisterRequestValidator.cs:18-23 | a string containing an ASCII letter or digit passes `NotEmpty` |
| RegisterValidator.EmailOk | TRManager.Api/Features/Auth/Validation/RegisterRequestValidator.cs:10-12 | an accepted e-mail is non-empty and passes the e-mail address check |
| RegisterValidator.UserNameOk | TRManager.Api/Features/Auth/Validation/RegisterRequestValidator.cs:14-16 | an accepted user name has at least 4 characters and is not all white space |
| RegisterValidator.PasswordOk | TRManager.Api/Features/Auth/Validation/RegisterRequestValidator.cs:18-24 | an accepted password has at least 8 characters and a special character, and passes the confirmation rule when repeated |
| RegisterValidator.ConfirmPasswordOk | TRManager.Api/Features/Auth/Validation/RegisterRequestValidator.cs:27-29 | an accepted confirmation equals a non-blank password |
| RegisterValidator.PhoneBody | TRManager.Api/Features/Auth/Validation/RegisterRequestValidator.cs:32 | `\+?\d{9,15}` over the whole string: a match has 9 to 16 characters and ends in a digit, and one of 16 characters starts with '+' |
| RegisterValidator.PhoneMatches | TRManager.Api/Features/Auth/Validation/RegisterRequestValidator.cs:32 | a phone matching the pattern has 9 to 17 characters and does not start with white space |
| RegisterValidator.PhoneOk | TRManager.Api/Features/Auth/Validation/RegisterRequestValidator.cs:31-34 | a null or blank phone always passes; a non-blank phone that passes has 9 to 17 characters |
| RegisterValidator.RoleOk | TRManager.Api/Features/Auth/Validation/RegisterRequestValidator.cs:36-38 | a role that passes the validator resolves in the service to Admin, Staff or Tenant |
| RegisterValidator.IsValid | TRManager.Api/Features/Auth/Validation/RegisterRequestValidator.cs:10-38 | a valid request has a confirmation equal to its password, a password of at least 8 characters, and a role the service resolves to one of the three names |
| RegisterValidator.UserNameRule | TRManager.Api/Features/Auth/Validation/RegisterRequestValidator.cs:14-16 | a user name of only white space never passes; one of at least 4 characters containing an ASCII letter or digit always passes |
| RegisterValidator.PasswordRule | TRManager.Api/Features/Auth/Validation/RegisterRequestValidator.cs:18-24 | a password passes exactly when it has at least 8 characters, an upper-case letter, a lower-case letter, a digit and some other character |
| RegisterValidator.AlphanumericPasswordRejected | TRManager.Api/Features/Auth/Validation/RegisterRequestValidator.cs:24 | a password of ASCII letters and digits only is rejected at any length |
| RegisterValidator.PasswordExamples | TRManager.Api/Features/Auth/Validation/RegisterRequestValidator.cs:18-24 | "abc", "Aa1aaaaa" and "Aa1!aaa" are rejected; "Aa1!aaaa" is accepted |
| RegisterValidator.ConfirmPasswordRule | TRManager.Api/Features/Auth/Validation/RegisterRequestValidator.cs:27-29 | the confirmation passes exactly when it equals a non-blank password; next to a password that passes its own rule, exactly when it equals it; a blank password can never be confirmed |
| RegisterValidator.UserNameExamples | TRManager.Api/Features/Auth/Validation/RegisterRequestValidator.cs:14-16 | four spaces and "bob" are rejected; "alice" is accepted |
| RegisterValidator.PhoneShape | TRManager.Api/Features/Auth/Validation/RegisterRequestValidator.cs:31-32 | an accepted phone holds only digits, apart from one leading '+' and one final line feed, and has 9 to 17 characters; without the optional '+' and line feed it has 9 to 15 digits |
| RegisterValidator.PhoneRule | TRManager.Api/Features/Auth/Validation/RegisterRequestValidator.cs:32 | both directions: a string matches the phone pattern exactly when it is non-empty and, once an optional leading '+' and an optional final line feed are dropped, 9 to 15 ASCII digits remain |
| RegisterValidator.PhoneAccepts | TRManager.Api/Features/Auth/Validation/RegisterRequestValidator.cs:31-34 | 9 to 15 digits pass, with or without '+', and also with one trailing line feed |
| RegisterValidator.PhoneExamples | TRManager.Api/Features/Auth/Validation/RegisterRequestValidator.cs:31-34 | a null, empty or blank phone is not checked; "+84912345678" passes; 8 digits and a dashed number fail |
| RegisterValidator.RoleExamples | TRManager.Api/Features/Auth/Validation/RegisterRequestValidator.cs:36-38 | null, empty and "Staff" pass; "admin", " " and "Owner" fail |
| RegisterValidator.BlankRoleDisagreement | TRManager.Api/Features/Auth/Validation/RegisterRequestValidator.cs:37 | for every non-empty role made only of white space, the validator rejects it and the service turns it into "Tenant" |
| RegisterValidator.WeakPasswordStillRegisters | TRManager.Api/Features/Auth/AuthService.cs:29-66 | a registration with password "abc", which the validator rejects, is still stored when its e-mail is new |
| ChangePasswordValidator.CurrentPasswordOk | TRManager.Api/Features/Auth/Validation/ChangePasswordRequestValidator.cs:10 | an accepted current password is non-empty and not all white space; its strength is not checked |
| ChangePasswordValidator.NewPasswordOk | TRManager.Api/Features/Auth/Validation/ChangePasswordRequestValidator.cs:12-17 | an accepted new password has at least 8 characters and would also pass as a current password |
| ChangePasswordValidator.IsValid | TRManager.Api/Features/Auth/Validation/ChangePasswordRequestValidator.cs:10-17 | a valid request has a new password of at least 8 characters with a special character, and a non-empty current password |
| ChangePasswordValidator.SameRuleAsRegistration | TRManager.Api/Features/Auth/Validation/ChangePasswordRequestValidator.cs:12-17 | the new-password rule is exactly the registration password rule |
| ChangePasswordValidator.ChangePasswordExamples | TRManager.Api/Features/Auth/Validation/ChangePasswordRequestValidator.cs:10-17 | a weak but non-blank current password is accepted; a blank current password or an all-alphanumeric new password is rejected |

## Left out

- Signing and serialising the JWT are not modelled: the HMAC-SHA256 key, the issuer and audience, and `WriteToken`. The access token is its claim list and expiry.
- Password hashing internals are not modelled. The hasher is an arbitrary pair of functions; only `Auth.RegisterThenLogin` assumes the hasher accepts its own hashes.
- `Guid.NewGuid()`, the Base64 encoding of its bytes, the identity column and `DateTime.UtcNow` are supplied values. Each operation reads the clock once, where the code reads it separately for each stamp.
- `Jwt.LifetimeMinutes` is a non-negative whole number of minutes. The code parses a `double`, so fractional, negative and unparsable settings are not modelled. The `Jwt.Generate` promise that the expiry is never before `now` rests on this.
- Time is whole seconds, with no `DateTime` range limits or overflow.
- `Auth.RegisterStep` does not model the column limits that ApplicationDbContext.cs declares: 256 characters on `Email` (line 23), 100 on `UserName` (line 24) and 50 on `Role.Name` (line 36). No validator runs, so longer values reach `RegisterAsync`. The database then refuses the insert and `SaveChangesAsync` throws: at AuthService.cs line 41 for a new role name that is too long, and at line 57 for a user whose e-mail or user name is too long. In the second case a new role has already been saved. The model instead registers all these requests with `Ok`.
- The `async` calls and the separate `SaveChangesAsync` calls in `RegisterAsync` are not modelled. A role saved before a later failure cannot happen in the model: each operation is atomic.
- Concurrency is not modelled, including two registrations racing past the e-mail check. The unique index would reject the second one in the database.
- `Auth.FreshFor` requires that a new user id, role id and token text are not already stored. A GUID or Base64 collision is left out.
- The refresh-token row's own `Id` key is not modelled.
- String comparison is exact. `Program.cs` configures SQL Server, whose default collation compares case-insensitively and ignores trailing spaces. The e-mail, role-name and token queries in `AuthService.cs` (lines 31, 36, 73, 97 and 118) therefore match more rows in the database than the model's `==` does.
- `Common.First` returns the first matching row in table order. The queries behind it use `FirstOrDefault` with no `OrderBy`, so the database may return any matching row. This matters when rows share a key. Role names and token texts have no unique index, and `Auth.LoginStep` and `Auth.RefreshStep` do not require fresh token text. The same holds for `Users.GetAll`: `GetAllAsync` (UserService.cs lines 20-23) calls `ToListAsync` with no `OrderBy`, so the order of the list it returns is not fixed.
- Null values in non-nullable fields are not modelled, such as `user.UserName ?? ""` in the claims and a null `PasswordHash`.
- `RegisterValidator.EmailOk`: the `EmailAddress()` check belongs to FluentValidation and is a parameter.
- `RegisterValidator.PhoneMatches`: `\d` is modelled as the ASCII digits. .NET also matches other Unicode decimal digits.
- `Rules.MinimumLength` counts Dafny characters, not UTF-16 code units, so strings outside the Basic Multilingual Plane count differently.
- The validator error messages are not modelled.
- Controllers, `Program.cs` wiring and the unused `Infrastructure/Security/JwtTokenGenerator.cs` are not part of this model.
