# MinimalRazor credentials, claims and sign-in, in Dafny

A model of the authentication kernel of MinimalRazor, a small ASP.NET
application: the user and role records, the salted password derivation
`Encrypt`, the projection `ToClaims` of a user onto the claims of its cookie
session, the readers (`GetId`, `GetName`, `GetEmail`, `GetPhone`,
`GetMemberId`, `GetDetails`, `IsLogged`) that read a principal back, the two
administrator checks, and the three handlers of Program.cs that show the
sign-in page, process the sign-in form and sign out.

Modules:

- `Wrappers` (wrappers.dfy): `Option` for C# nulls, `Result` for exceptions, `IsNullOrEmpty`.
- `Int32Text` (int32_text.dfy): `Int32.ToString()` and `int.TryParse` (default number style,
  invariant culture), with the round trip between them.
- `Claims` (claims.dfy): `User`, `Role`, claims and principals; `User.IsAdmin`, the
  principal extensions, `ToClaims` as a method that builds the list `Add` by `Add`.
- `Credentials` (credentials.dfy): `Encrypt` as a method over a salt buffer. PBKDF2 and
  base64 are function parameters (`Primitives`); `Lawful` names the only facts used of them:
  decoding undoes encoding, the empty string and the empty buffer correspond, and PBKDF2
  returns as many bytes as asked.
- `AuthEndpoints` (auth_endpoints.dfy): the class `AuthApp` holding the session cookie and
  the anti-forgery cookie, with one method per handler; `Authenticate` is the decision the
  sign-in handler takes.

Inputs that the source reads from the outside world are parameters: the user
found by email (`Option<User>`), the roles the role query returns, the clock
(`now`, in `DateTime` ticks), the 16 bytes the random generator yields
(`entropy`) and the anti-forgery token set the framework issues.

Notes on the code as written:

- An email or phone claim is emitted whenever the field is non-null; an empty string still
  yields a claim (`UserClaimKinds`).
- The redirect target after sign-in is `returnUrl ?? "/"` with no filtering of external URLs.
- `User.IsAdmin` looks for role id 1, while the principal's `IsAdmin` looks for a role claim
  with the value "Admin". The two agree when role 1 is the role named "Admin" and no other
  role has that name (`AdminChecksAgree`). They can also agree without that convention
  (`AdminChecksAgreeWithoutConvention`). When it fails they can disagree in either direction
  (`AdminChecksDisagree`). There is no claim-level check by role id.
- A supplied empty salt is decoded to an empty buffer. `string.IsNullOrEmpty` then holds, so
  the generator fills zero bytes and the salt becomes the encoding of nothing, that is `""`.
  So `Encrypt` returns a supplied salt unchanged in every well-formed case, including `""`.
- The anti-forgery check on the form submission runs in the framework's middleware before
  the handler. Nothing in the handler checks tokens, so the model does not either.

## Model

| member | source | states |
|---|---|---|
| `Wrappers.IsNullOrEmpty` | Models/User.cs:46 | `string.IsNullOrEmpty`, used by `IsLogged` and `Encrypt`; characterised through `SignedInIsLogged` and `Credentials.Encrypt` |
| `Int32Text.Format` | Models/User.cs:74 | `Int32.ToString()`; `FormatShape` gives its shape and `ParseFormat` inverts it |
| `Int32Text.Parse` | Models/User.cs:54 | `int.TryParse` on a non-null string; `ParseMeaning` states exactly when it succeeds and with what value |
| `Int32Text.ParseMeaning` | Models/User.cs:54 | a parse succeeds only on text that, without leading and trailing white space, is an optional `+`/`-` and digits denoting the result. Every such text whose value fits in an `int` parses to that value |
| `Int32Text.DigitsValueOfNatDigits` | Models/User.cs:74 | the decimal digits written for a number denote that number |
| `Int32Text.FormatShape` | Models/User.cs:81 | an id written as text is never empty and neither starts nor ends with white space |
| `Int32Text.ParseFormat` | Models/User.cs:54 | `int.TryParse` of `n.ToString()` succeeds with `n`, for every 32-bit `n` |
| `Int32Text.ParseRejectsInnerSpace` | Models/User.cs:54 | for any non-empty digit strings `a`, `b` and white-space character `w`, `int.TryParse` fails on `a + w + b` |
| `Claims.AdminRoleCount` | Models/User.cs:29 | the count of roles with id 1 is at most the number of roles, and it is positive iff such a role exists |
| `Claims.UserIsAdmin` | Models/User.cs:29 | `User.IsAdmin` holds iff the role list is non-null and holds a role with id 1 |
| `Claims.UserIsAdminIgnoresOrder` | Models/User.cs:29 | reordering the roles does not change `User.IsAdmin` |
| `Claims.FindFirst` | Models/User.cs:56-63 | the reader finds nothing iff no claim has the type; otherwise it returns the value of the first claim of that type |
| `Claims.HasRole` | Models/User.cs:50 | `IsInRole` holds iff some role claim carries exactly the given value |
| `Claims.IsAdmin` | Models/User.cs:50 | the principal `IsAdmin`; `AnonymousReaders` (null principal), `IsAdminOfUserClaims`, `AdminChecksAgree`, `AdminChecksAgreeWithoutConvention` and `AdminChecksDisagree` characterise it |
| `Claims.IsLogged` | Models/User.cs:52 | `IsLogged`; `SignedInIsLogged` and `AnonymousReaders` characterise it |
| `Claims.IdentityName` | Models/User.cs:54 | `user?.Identity?.Name`, the first name claim; read through `FindFirst`'s contract |
| `Claims.GetId` | Models/User.cs:54 | `GetId`; `NumericReadersDefault`, `AnonymousReaders` and `GetIdRoundTrip` characterise it |
| `Claims.GetName` | Models/User.cs:56-57 | `GetName`; `AnonymousReaders` and `GetNameRoundTrip` characterise it |
| `Claims.GetEmail` | Models/User.cs:58-59 | `GetEmail`; `AnonymousReaders` and `GetEmailRoundTrip` characterise it |
| `Claims.GetPhone` | Models/User.cs:60-61 | `GetPhone`; `AnonymousReaders` and `GetPhoneRoundTrip` characterise it |
| `Claims.GetMemberId` | Models/User.cs:62-63 | `GetMemberId`; `NumericReadersDefault`, `AnonymousReaders` and `GetMemberIdRoundTrip` characterise it |
| `Claims.GetDetails` | Models/User.cs:64-70 | `GetDetails`; `AnonymousReaders` and `DetailsRoundTrip` characterise it |
| `Claims.IdentityClaims` | Models/User.cs:74-78 | the identity part of `ToClaims`; laid out by `UserClaimsLayout` and `UserClaimKinds` |
| `Claims.RoleClaims` | Models/User.cs:79-81 | the role part of `ToClaims`; `RoleClaimsAt` characterises it |
| `Claims.ProjectedRoles` | Models/User.cs:79 | the roles `ToClaims` projects, none for a null list; used by `UserClaimsLayout` |
| `Claims.UserClaims` | Models/User.cs:74-81 | the list `ToClaims` returns; `UserClaimsLayout` and `UserClaimKinds` determine it completely |
| `Claims.FirstClaimIsFound` | Models/User.cs:56-63 | the first claim of a type is what `FindFirst` returns |
| `Claims.AnonymousReaders` | Models/User.cs:50-70 | on a null principal: id and member id 0, name "Anonymous User", no email or phone, not admin, not logged in, and the matching `GetDetails` record |
| `Claims.NumericReadersDefault` | Models/User.cs:54-63 | `GetId` and `GetMemberId` are 0 when their claim is missing, and otherwise the parse of the first such claim, 0 when it fails |
| `Claims.SignedInIsLogged` | Models/User.cs:52 | a principal whose identity has a non-empty authentication type is logged in |
| `Claims.RoleClaimValue` | Models/User.cs:81 | a role without a name is projected as its id in text, which parses back to the id and is never "Admin" |
| `Claims.ToClaims` | Models/User.cs:72-83 | the claim list built `Add` by `Add` is the identity claims followed by one role claim per loaded role |
| `Claims.RoleClaimsAt` | Models/User.cs:79-81 | one role claim per role, in list order, with the role's name, or else its id in text |
| `Claims.UserClaimsLayout` | Models/User.cs:74-81 | the claims are `(Name, id)`, `(GivenName, name)`, then Email and MobilePhone in that order when non-null, then the roles. Their count is 2 + [email non-null] + [phone non-null] + the number of roles, with none for a null list |
| `Claims.UserClaimKinds` | Models/User.cs:74-81 | role claims sit exactly after the identity claims; an email claim exists only at index 2 and only for a non-null email; likewise a phone claim just before the roles; no Sid claim is ever emitted |
| `Claims.GetIdRoundTrip` | Models/User.cs:54 | on `ToClaims(u)`, `GetId` parses the first name claim, `u.Id.ToString()` (line 74), back to `u.Id` |
| `Claims.GetNameRoundTrip` | Models/User.cs:56-57 | on `ToClaims(u)`, `GetName` is `u.Name`, never the anonymous default |
| `Claims.GetEmailRoundTrip` | Models/User.cs:58-59 | on `ToClaims(u)`, `GetEmail` is `u.Email`, null included |
| `Claims.GetPhoneRoundTrip` | Models/User.cs:60-61 | on `ToClaims(u)`, `GetPhone` is `u.Phone`, null included |
| `Claims.GetMemberIdRoundTrip` | Models/User.cs:62-63 | on `ToClaims(u)`, `GetMemberId` is 0, since no Sid claim is emitted (lines 74-81) |
| `Claims.ReadersRoundTrip` | Models/User.cs:54-78 | on a principal built from `ToClaims(u)`: `GetId` is `u.Id`, `GetName` is `u.Name` (never the anonymous default), `GetEmail`/`GetPhone` are `u.Email`/`u.Phone`, `GetMemberId` is 0 |
| `Claims.DetailsRoundTrip` | Models/User.cs:64-70 | `GetDetails` of a projected user is its id, name, phone and email with no password, salt or roles |
| `Claims.IsAdminOfUserClaims` | Models/User.cs:50 | on a projected user the principal `IsAdmin` holds iff some loaded role's claim value (line 81) is "Admin" |
| `Claims.AdminChecksAgree` | Models/User.cs:29 | when role id 1 always has the name "Admin" and only it does, `User.IsAdmin` and the principal `IsAdmin` (line 50) agree, whether or not roles are loaded |
| `Claims.AdminChecksAgreeWithoutConvention` | Models/User.cs:29 | the converse fails: roles `[1 without name, 2 named "Admin"]` break the convention yet make both checks true |
| `Claims.AdminChecksDisagree` | Models/User.cs:29 | role 1 with no name makes the record an admin and its principal not one; a role named "Admin" with id 2 gives the reverse |
| `Claims.NamelessAdminRole` | Models/User.cs:81 | a nameless role 1 is projected as "1": the record is an admin (line 29) but its principal is not (line 50) |
| `Claims.AdminNamedOtherRole` | Models/User.cs:81 | a role named "Admin" with id 2 is projected as "Admin": the principal is an admin (line 50) but the record is not (line 29) |
| `Credentials.DerivedKey` | Models/User.cs:96-97 | the PBKDF2 call with SHA1, 10000 iterations and 32 bytes; `DerivedKeyLength` gives its length |
| `Credentials.Hash` | Models/User.cs:96-97 | the base64 of the derived key; the hash `Encrypt` returns (`Credentials.Encrypt`, `FreshSalt`, `SuppliedSaltIsKept`) |
| `Credentials.Encrypted` | Models/User.cs:85-99 | what `Encrypt` computes; `Credentials.Encrypt` proves the method equals it, and `SuppliedSaltIsKept`, `MalformedSaltThrows`, `FreshSalt`, `ProvisionThenDerive` characterise it |
| `Credentials.Encrypt` | Models/User.cs:85-100 | null salt: the buffer is filled by the generator and its encoding returned. Supplied salt: decoded, used and returned; a malformed one throws. The hash is the encoded 32-byte PBKDF2-SHA1 key of 10000 iterations |
| `Credentials.DerivedKeyLength` | Models/User.cs:96-97 | the derived key is 32 bytes |
| `Credentials.SuppliedSaltIsKept` | Models/User.cs:87-99 | a supplied well-formed salt is returned unchanged, and the result is independent of the random generator (deterministic in password and salt) |
| `Credentials.MalformedSaltThrows` | Models/User.cs:87 | a supplied salt that is not base64 raises a format error |
| `Credentials.FreshSalt` | Models/User.cs:87-94 | a null salt returns the encoding of exactly the 16 drawn bytes, and the hash is taken over those bytes |
| `Credentials.ProvisionThenDerive` | Models/User.cs:85-99 | deriving again with the salt a fresh derivation returned reproduces the same hash and salt |
| `AuthEndpoints.Expiry` | Program.cs:55 | `AddDays(1)` succeeds iff now + 1 day is within `DateTime`'s range, and then it is exactly one day after the issue time |
| `AuthEndpoints.Authenticate` | Program.cs:52 | the sign-in decision; `AcceptsMatchingPassword`, `RejectsOtherPassword`, `AcceptsProvisionedPassword` and `NullSaltDependsOnDraw` characterise it |
| `AuthEndpoints.RedirectTarget` | Program.cs:56 | `returnUrl ?? "/"`; `AuthApp.PostAuth` returns it on success |
| `AuthEndpoints.SessionFor` | Program.cs:54-55 | the session signed in for the user with the loaded roles; `SessionReadsBack` characterises it |
| `AuthEndpoints.AcceptsMatchingPassword` | Program.cs:52 | a stored hash equal to the submitted password's hash under the stored salt is accepted |
| `AuthEndpoints.RejectsOtherPassword` | Program.cs:52-53 | a submitted password whose hash under the stored salt differs from the stored hash is rejected |
| `AuthEndpoints.AcceptsProvisionedPassword` | Program.cs:52 | a record holding what `Encrypt(p)` produced with a fresh salt accepts `p`, whatever the generator yields at sign-in |
| `AuthEndpoints.NullSaltDependsOnDraw` | Program.cs:52 | with a null stored salt, acceptance depends on the random draw: accepted only if the stored hash matches the hash under it |
| `AuthEndpoints.SessionReadsBack` | Program.cs:54-55 | the signed-in principal holds the claims of the user with the loaded roles: it is logged in and its readers return the user's id, name, email and phone; admin iff a role claim is "Admin" |
| `AuthEndpoints.AuthApp.constructor` | Program.cs:25-31 | the application starts with no session and no anti-forgery cookie |
| `AuthEndpoints.AuthApp.GetAuth` | Program.cs:46-47 | the sign-in page is rendered with freshly issued tokens; the cookie token is stored and the session is unchanged |
| `AuthEndpoints.AuthApp.PostAuth` | Program.cs:48-57 | on an unknown email or a wrong password: same page with new tokens, session unchanged. On a malformed stored salt: error, nothing changed. On a match: a session of `ToClaims` of the user with loaded roles, expiring now + 1 day, and a redirect to `returnUrl ?? "/"` |
| `AuthEndpoints.AuthApp.Logout` | Program.cs:58-62 | the session is gone and the response is a redirect to "/", whether or not a session existed |

`AuthEndpoints.SignInThenOut` is a client of these contracts. A user provisioned with a
fresh salt signs in with that password and reads back their id for one day. Two
sign-outs then each land at the root.

## Left out

- PBKDF2 (HMAC-SHA1), `Convert.ToBase64String`/`FromBase64String` and `RandomNumberGenerator`
  are library and native code. They are parameters listed by `Lawful`. That two different
  salts give two different hashes is a statistical property and is not stated.
- The database queries (Program.cs:51, 54) are I/O. The user found is an `Option<User>` and the
  roles are a sequence. The model follows the handler's `m is null` test, not Dapper's exception
  when no row matches.
- Cookie authentication, `SignInAsync`/`SignOutAsync` and the serialisation of the ticket are
  reduced to the `session` field. The unawaited `SignOutAsync` is taken to complete.
- The anti-forgery service is reduced to the token set and the stored cookie token.
  `GetAndStoreTokens` reusing an existing cookie token is not modelled: the given token set
  stands for what it returns. Token validation happens in middleware the source does not show.
- Routing, model binding, `Results.Redirect`'s own argument checks, rendering of the pages
  (`ViewTemplate.cs`, `Extensions.cs`, the page templates) and `Project.cs` are not modelled.
- `DateTime.UtcNow` is the parameter `now`, in ticks. Converting `DateTime` to `DateTimeOffset`
  for the ticket is not modelled.
- `m.Roles = …` on the looked-up record is a value update (`m.(roles := …)`), since the record
  is local to the request. Aliasing of the record object is not captured.
- A principal holds at most one identity, as every principal this application builds does. With
  several identities, `Identity.Name` (primary identity) and `FindFirst` (all identities) could differ.
- `int.TryParse`: culture-specific sign symbols and the parser's tolerance of trailing NUL
  characters are not modelled. `Int32.ToString` is taken with the invariant culture's "-".
- The unused members `IsNullOrWhiteSpace` (Models/User.cs:48) and `User.ToString` (line 33) are not
  modelled. Neither are the audit fields `Token`, `SignInDate`, `SignOutDate`, the created and
  updated dates and ids, `CreatedBy`/`UpdatedBy`, nor `Role.Users` and `Role.IsActive`. No
  modelled operation reads them.
- The validation attributes `[Phone]` and `[EmailAddress]` are not modelled: the kernel never evaluates them.
- The `Claim` constructor throws on a null value. `User.Name` is non-nullable, so a non-null name
  is part of the type.
- The stricter behaviour a hardened design would add is not modelled, because the source does none
  of it: open-redirect filtering, claims only for non-empty email and phone, lockout or rate limiting.
