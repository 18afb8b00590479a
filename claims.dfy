/**
 * The user and role records, the two administrator predicates, the readers
 * that recover a user from a signed-in principal, and the projection of a
 * user onto the claims of its session (`User`, `Role` and `UserExtensions`
 * in Models/User.cs).
 */
module Claims {
  import opened Wrappers
  import opened Int32Text

  /** The role id the application reserves for administrators. */
  const ADMIN_ROLE_ID: Int32 := 1
  /** The role name the principal-level check looks for. */
  const ADMIN_ROLE_NAME := "Admin"
  /** What `GetName` answers when there is no given-name claim. */
  const ANONYMOUS_NAME := "Anonymous User"

  datatype Role = Role(id: Int32, name: Option<string>)

  /** The credential record; `roles` is null until the handler loads it. */
  datatype User = User(
    id: Int32,
    name: string,
    phone: Option<string>,
    email: Option<string>,
    password: Option<string>,
    salt: Option<string>,
    isActive: bool,
    roles: Option<seq<Role>>)

  /** The standard claim types the application reads or writes. */
  datatype ClaimType = NameClaim | GivenNameClaim | EmailClaim | MobilePhoneClaim | RoleClaim | SidClaim

  datatype Claim = Claim(kind: ClaimType, value: string)

  /** A claims identity; it is authenticated when its authentication type is neither null nor empty. */
  datatype Identity = Identity(authenticationType: Option<string>, claims: seq<Claim>)

  /** A claims principal, with the single identity the application ever gives one (if any). */
  datatype Principal = Principal(identity: Option<Identity>)

  // ---------------------------------------------------------------------
  // User.IsAdmin

  /** `roles.Where(w => w.Id == 1).Count()`. */
  function AdminRoleCount(roles: seq<Role>): (n: nat)
    ensures n <= |roles|
    ensures n > 0 <==> exists i :: 0 <= i < |roles| && roles[i].id == ADMIN_ROLE_ID
  {
    if roles == [] then 0
    else (if roles[0].id == ADMIN_ROLE_ID then 1 else 0) + AdminRoleCount(roles[1..])
  }

  /** `User.IsAdmin`: the role list is loaded and holds a role with the reserved id. */
  function UserIsAdmin(u: User): (b: bool)
    ensures b <==> u.roles.Some? && exists r :: r in u.roles.value && r.id == ADMIN_ROLE_ID
  {
    u.roles.Some? && AdminRoleCount(u.roles.value) > 0
  }

  /** `User.IsAdmin` does not depend on the order of the roles. */
  lemma UserIsAdminIgnoresOrder(u: User, roles: seq<Role>)
    requires u.roles.Some? && multiset(roles) == multiset(u.roles.value)
    ensures UserIsAdmin(u.(roles := Some(roles))) == UserIsAdmin(u)
  {
    forall r | r in roles ensures r in u.roles.value {
      assert r in multiset(roles);
    }
    forall r | r in u.roles.value ensures r in roles {
      assert r in multiset(u.roles.value);
    }
  }

  // ---------------------------------------------------------------------
  // Reading a principal

  /** Every claim a principal carries; none for a null principal or one without identity. */
  function ClaimsOf(p: Option<Principal>): seq<Claim> {
    if p.Some? && p.value.identity.Some? then p.value.identity.value.claims else []
  }

  /** `FindFirst(type)?.Value`: the value of the first claim of that type. */
  function FindFirst(claims: seq<Claim>, kind: ClaimType): (r: Option<string>)
    ensures r.None? <==> forall i :: 0 <= i < |claims| ==> claims[i].kind != kind
    ensures r.Some? ==> exists i :: 0 <= i < |claims| && claims[i] == Claim(kind, r.value) &&
                          forall j :: 0 <= j < i ==> claims[j].kind != kind
  {
    if claims == [] then None
    else if claims[0].kind == kind then Some(claims[0].value)
    else
      var r := FindFirst(claims[1..], kind);
      assert r.Some? ==> exists i :: 1 <= i < |claims| && claims[i] == Claim(kind, r.value) &&
                          forall j :: 0 <= j < i ==> claims[j].kind != kind by {
        if r.Some? {
          var i :| 0 <= i < |claims[1..]| && claims[1..][i] == Claim(kind, r.value) &&
                   forall j :: 0 <= j < i ==> claims[1..][j].kind != kind;
          assert claims[i + 1] == Claim(kind, r.value);
          forall j | 0 <= j < i + 1 ensures claims[j].kind != kind {
            if j > 0 { assert claims[j] == claims[1..][j - 1]; }
          }
        }
      }
      r
  }

  /** `IsInRole(role)`: some claim of the role type carries exactly that value. */
  function HasRole(claims: seq<Claim>, role: string): (b: bool)
    ensures b <==> exists i :: 0 <= i < |claims| && claims[i] == Claim(RoleClaim, role)
  {
    if claims == [] then false
    else if claims[0] == Claim(RoleClaim, role) then true
    else
      var b := HasRole(claims[1..], role);
      assert b ==> exists i :: 0 <= i < |claims| && claims[i] == Claim(RoleClaim, role) by {
        if b {
          var i :| 0 <= i < |claims[1..]| && claims[1..][i] == Claim(RoleClaim, role);
          assert claims[i + 1] == Claim(RoleClaim, role);
        }
      }
      b
  }

  /** The principal-level `IsAdmin`: non-null and in the role named "Admin". */
  function IsAdmin(p: Option<Principal>): bool {
    p.Some? && HasRole(ClaimsOf(p), ADMIN_ROLE_NAME)
  }

  /** `IsLogged`: the principal's identity is authenticated. */
  function IsLogged(p: Option<Principal>): bool {
    p.Some? && p.value.identity.Some? && !IsNullOrEmpty(p.value.identity.value.authenticationType)
  }

  /** `user?.Identity?.Name`: the identity's first name claim. */
  function IdentityName(p: Option<Principal>): Option<string> {
    if p.Some? && p.value.identity.Some? then FindFirst(p.value.identity.value.claims, NameClaim) else None
  }

  /** `GetId`: the identity name as a number, 0 when there is none or it does not parse. */
  function GetId(p: Option<Principal>): Int32 {
    TryParse(IdentityName(p)).GetOr(0)
  }

  /** `GetName`: the first given-name claim, or "Anonymous User". */
  function GetName(p: Option<Principal>): string {
    FindFirst(ClaimsOf(p), GivenNameClaim).GetOr(ANONYMOUS_NAME)
  }

  function GetEmail(p: Option<Principal>): Option<string> {
    FindFirst(ClaimsOf(p), EmailClaim)
  }

  function GetPhone(p: Option<Principal>): Option<string> {
    FindFirst(ClaimsOf(p), MobilePhoneClaim)
  }

  /** `GetMemberId`: the first security-id claim as a number, 0 when there is none or it does not parse. */
  function GetMemberId(p: Option<Principal>): Int32 {
    TryParse(FindFirst(ClaimsOf(p), SidClaim)).GetOr(0)
  }

  /**
   * `GetDetails`: a fresh user record carrying what the principal says about
   * id, name, email and phone; every other field keeps its default.
   * (`GetName` is never null, so the source's `?? "Anonymous"` never applies.)
   */
  function GetDetails(p: Option<Principal>): User {
    User(GetId(p), GetName(p), GetPhone(p), GetEmail(p), None, None, false, None)
  }

  /** Readers on an absent principal fall back to their defaults. */
  lemma AnonymousReaders()
    ensures GetId(None) == 0 && GetMemberId(None) == 0
    ensures GetName(None) == ANONYMOUS_NAME
    ensures GetEmail(None).None? && GetPhone(None).None?
    ensures !IsAdmin(None) && !IsLogged(None)
    ensures GetDetails(None) == User(0, ANONYMOUS_NAME, None, None, None, None, false, None)
  {
  }

  /**
   * `GetId` and `GetMemberId` answer 0 when the claim they read is missing
   * or does not parse as an `int`, and the parsed value otherwise.
   */
  lemma NumericReadersDefault(claims: seq<Claim>, scheme: string)
    ensures (forall i :: 0 <= i < |claims| ==> claims[i].kind != NameClaim) ==> GetId(SignedIn(claims, scheme)) == 0
    ensures (forall i :: 0 <= i < |claims| ==> claims[i].kind != SidClaim) ==> GetMemberId(SignedIn(claims, scheme)) == 0
    ensures forall i :: 0 <= i < |claims| && claims[i].kind == NameClaim && (forall j :: 0 <= j < i ==> claims[j].kind != NameClaim) ==>
      GetId(SignedIn(claims, scheme)) == Parse(claims[i].value).GetOr(0)
    ensures forall i :: 0 <= i < |claims| && claims[i].kind == SidClaim && (forall j :: 0 <= j < i ==> claims[j].kind != SidClaim) ==>
      GetMemberId(SignedIn(claims, scheme)) == Parse(claims[i].value).GetOr(0)
  {
    assert ClaimsOf(SignedIn(claims, scheme)) == claims;
    FirstClaimIsFound(claims, NameClaim);
    FirstClaimIsFound(claims, SidClaim);
  }

  /** The first claim of a type is the one `FindFirst` returns. */
  lemma FirstClaimIsFound(claims: seq<Claim>, kind: ClaimType)
    ensures forall i :: 0 <= i < |claims| && claims[i].kind == kind && (forall j :: 0 <= j < i ==> claims[j].kind != kind) ==>
      FindFirst(claims, kind) == Some(claims[i].value)
  {
  }

  // ---------------------------------------------------------------------
  // ToClaims

  /** The value of a role's claim: its name, or its id as text when the name is null. */
  function RoleClaimValue(r: Role): (v: string)
    ensures r.name.None? ==> Parse(v) == Some(r.id) && v != ADMIN_ROLE_NAME
  {
    match r.name
    case Some(n) => n
    case None =>
      ParseFormat(r.id);
      Format(r.id)
  }

  /** The id, given-name, email and phone claims, in that order. */
  function IdentityClaims(u: User): seq<Claim> {
    [Claim(NameClaim, Format(u.id)), Claim(GivenNameClaim, u.name)]
    + (if u.email.Some? then [Claim(EmailClaim, u.email.value)] else [])
    + (if u.phone.Some? then [Claim(MobilePhoneClaim, u.phone.value)] else [])
  }

  /** One role claim per role, in list order. */
  function RoleClaims(roles: seq<Role>): seq<Claim> {
    if roles == [] then []
    else RoleClaims(roles[..|roles| - 1]) + [Claim(RoleClaim, RoleClaimValue(roles[|roles| - 1]))]
  }

  /** The roles `ToClaims` projects: none for a null or empty list. */
  function ProjectedRoles(u: User): seq<Role> {
    if u.roles.Some? then u.roles.value else []
  }

  /** The claim list `ToClaims` returns. */
  function UserClaims(u: User): seq<Claim> {
    IdentityClaims(u) + RoleClaims(ProjectedRoles(u))
  }

  /** How many identity claims precede the role claims. */
  function IdentityCount(u: User): nat {
    2 + (if u.email.Some? then 1 else 0) + (if u.phone.Some? then 1 else 0)
  }

  /** `ToClaims`: builds the claim list one `Add` at a time. */
  method ToClaims(u: User) returns (claims: seq<Claim>)
    ensures claims == UserClaims(u)
  {
    claims := [Claim(NameClaim, Format(u.id)), Claim(GivenNameClaim, u.name)];
    if u.email.Some? {
      claims := claims + [Claim(EmailClaim, u.email.value)];
    }
    if u.phone.Some? {
      claims := claims + [Claim(MobilePhoneClaim, u.phone.value)];
    }
    if u.roles.Some? && |u.roles.value| > 0 {
      var roles := u.roles.value;
      for i := 0 to |roles|
        invariant claims == IdentityClaims(u) + RoleClaims(roles[..i])
      {
        assert roles[..i + 1][..i] == roles[..i];
        claims := claims + [Claim(RoleClaim, RoleClaimValue(roles[i]))];
      }
      assert roles[..|roles|] == roles;
    }
  }

  lemma {:induction false} RoleClaimsAt(roles: seq<Role>)
    ensures |RoleClaims(roles)| == |roles|
    ensures forall k :: 0 <= k < |roles| ==> RoleClaims(roles)[k] == Claim(RoleClaim, RoleClaimValue(roles[k]))
  {
    if roles != [] {
      RoleClaimsAt(roles[..|roles| - 1]);
    }
  }

  /**
   * The layout of the projected claims: the id claim, then the given name,
   * then email and phone exactly when they are non-null (an empty string
   * still counts), then one role claim per role in list order; nothing else.
   */
  lemma UserClaimsLayout(u: User)
    ensures |UserClaims(u)| == IdentityCount(u) + |ProjectedRoles(u)|
    ensures UserClaims(u)[0] == Claim(NameClaim, Format(u.id))
    ensures UserClaims(u)[1] == Claim(GivenNameClaim, u.name)
    ensures u.email.Some? ==> UserClaims(u)[2] == Claim(EmailClaim, u.email.value)
    ensures u.phone.Some? ==>
      UserClaims(u)[if u.email.Some? then 3 else 2] == Claim(MobilePhoneClaim, u.phone.value)
    ensures forall k :: 0 <= k < |ProjectedRoles(u)| ==>
      UserClaims(u)[IdentityCount(u) + k] == Claim(RoleClaim, RoleClaimValue(ProjectedRoles(u)[k]))
  {
    RoleClaimsAt(ProjectedRoles(u));
  }

  /**
   * Which claim types appear where: role claims exactly after the identity
   * claims, the email claim only at index 2 and only for a non-null email,
   * the phone claim only right after the email (or at 2) and only for a
   * non-null phone, and never a security-id claim.
   */
  lemma UserClaimKinds(u: User)
    ensures forall i :: 0 <= i < |UserClaims(u)| ==>
      (UserClaims(u)[i].kind == RoleClaim <==> i >= IdentityCount(u))
    ensures forall i :: 0 <= i < |UserClaims(u)| && UserClaims(u)[i].kind == EmailClaim ==>
      i == 2 && u.email == Some(UserClaims(u)[i].value)
    ensures forall i :: 0 <= i < |UserClaims(u)| && UserClaims(u)[i].kind == MobilePhoneClaim ==>
      i == IdentityCount(u) - 1 && u.phone == Some(UserClaims(u)[i].value)
    ensures forall i :: 0 <= i < |UserClaims(u)| ==> UserClaims(u)[i].kind != SidClaim
  {
    UserClaimsLayout(u);
    var c := UserClaims(u);
    var roles := ProjectedRoles(u);
    RoleClaimsAt(roles);
    assert |IdentityClaims(u)| == IdentityCount(u);
    forall i | 0 <= i < |c| ensures
      (c[i].kind == RoleClaim <==> i >= IdentityCount(u)) &&
      (c[i].kind == EmailClaim ==> i == 2 && u.email == Some(c[i].value)) &&
      (c[i].kind == MobilePhoneClaim ==> i == IdentityCount(u) - 1 && u.phone == Some(c[i].value)) &&
      c[i].kind != SidClaim
    {
      if i >= IdentityCount(u) {
        assert c[i] == RoleClaims(roles)[i - IdentityCount(u)];
      }
    }
  }

  /** The principal the handler signs in: one identity of the given scheme over the claims. */
  function SignedIn(claims: seq<Claim>, scheme: string): Option<Principal> {
    Some(Principal(Some(Identity(Some(scheme), claims))))
  }

  lemma SignedInIsLogged(claims: seq<Claim>, scheme: string)
    requires scheme != ""
    ensures IsLogged(SignedIn(claims, scheme))
  {
  }

  /** The id claim comes first, so `GetId` parses `u.Id.ToString()` back to `u.Id`. */
  lemma GetIdRoundTrip(u: User, scheme: string)
    ensures GetId(SignedIn(UserClaims(u), scheme)) == u.id
  {
    UserClaimsLayout(u);
    assert UserClaims(u)[0] == Claim(NameClaim, Format(u.id));
    assert IdentityName(SignedIn(UserClaims(u), scheme)) == Some(Format(u.id));
    ParseFormat(u.id);
  }

  /** The given-name claim is the first of its type, at index 1. */
  lemma GetNameRoundTrip(u: User, scheme: string)
    ensures GetName(SignedIn(UserClaims(u), scheme)) == u.name
  {
    var c := UserClaims(u);
    UserClaimsLayout(u);
    assert c[0].kind == NameClaim && c[1] == Claim(GivenNameClaim, u.name);
    FirstClaimIsFound(c, GivenNameClaim);
    assert FindFirst(c, GivenNameClaim) == Some(u.name);
    assert ClaimsOf(SignedIn(c, scheme)) == c;
  }

  /** A non-null email is the first email claim, at index 2; a null email leaves none. */
  lemma GetEmailRoundTrip(u: User, scheme: string)
    ensures GetEmail(SignedIn(UserClaims(u), scheme)) == u.email
  {
    var c := UserClaims(u);
    UserClaimsLayout(u);
    UserClaimKinds(u);
    assert ClaimsOf(SignedIn(c, scheme)) == c;
    if u.email.Some? {
      assert c[0].kind == NameClaim && c[1].kind == GivenNameClaim;
      assert c[2] == Claim(EmailClaim, u.email.value);
      FirstClaimIsFound(c, EmailClaim);
    }
  }

  /** A non-null phone is the only phone claim, just before the roles; a null phone leaves none. */
  lemma GetPhoneRoundTrip(u: User, scheme: string)
    ensures GetPhone(SignedIn(UserClaims(u), scheme)) == u.phone
  {
    var c := UserClaims(u);
    UserClaimsLayout(u);
    UserClaimKinds(u);
    assert ClaimsOf(SignedIn(c, scheme)) == c;
    if u.phone.Some? {
      var i := IdentityCount(u) - 1;
      assert c[i] == Claim(MobilePhoneClaim, u.phone.value);
      FirstClaimIsFound(c, MobilePhoneClaim);
    }
  }

  /** No security-id claim is emitted, so `GetMemberId` is 0. */
  lemma GetMemberIdRoundTrip(u: User, scheme: string)
    ensures GetMemberId(SignedIn(UserClaims(u), scheme)) == 0
  {
    UserClaimKinds(u);
    assert ClaimsOf(SignedIn(UserClaims(u), scheme)) == UserClaims(u);
  }

  /**
   * Reading back a principal built from `ToClaims(u)` recovers the user's id
   * (through `int.TryParse` of its `ToString`), name, email and phone, and
   * a member id of 0, since no security-id claim is ever emitted.
   */
  lemma ReadersRoundTrip(u: User, scheme: string)
    ensures GetId(SignedIn(UserClaims(u), scheme)) == u.id
    ensures GetName(SignedIn(UserClaims(u), scheme)) == u.name
    ensures GetEmail(SignedIn(UserClaims(u), scheme)) == u.email
    ensures GetPhone(SignedIn(UserClaims(u), scheme)) == u.phone
    ensures GetMemberId(SignedIn(UserClaims(u), scheme)) == 0
  {
    GetIdRoundTrip(u, scheme);
    GetNameRoundTrip(u, scheme);
    GetEmailRoundTrip(u, scheme);
    GetPhoneRoundTrip(u, scheme);
    GetMemberIdRoundTrip(u, scheme);
  }

  /** `GetDetails` of a projected user is that user's public fields, with no credentials or roles. */
  lemma DetailsRoundTrip(u: User, scheme: string)
    ensures GetDetails(SignedIn(UserClaims(u), scheme)) ==
            User(u.id, u.name, u.phone, u.email, None, None, false, None)
  {
    ReadersRoundTrip(u, scheme);
  }

  /** On a projected user the principal-level `IsAdmin` asks whether some role's claim value is "Admin". */
  lemma IsAdminOfUserClaims(u: User, scheme: string)
    ensures IsAdmin(SignedIn(UserClaims(u), scheme)) <==>
      exists k :: 0 <= k < |ProjectedRoles(u)| && RoleClaimValue(ProjectedRoles(u)[k]) == ADMIN_ROLE_NAME
  {
    var c := UserClaims(u);
    var roles := ProjectedRoles(u);
    UserClaimsLayout(u);
    UserClaimKinds(u);
    assert ClaimsOf(SignedIn(c, scheme)) == c;
    if HasRole(c, ADMIN_ROLE_NAME) {
      var i :| 0 <= i < |c| && c[i] == Claim(RoleClaim, ADMIN_ROLE_NAME);
      var k := i - IdentityCount(u);
      assert c[IdentityCount(u) + k] == c[i];
      assert RoleClaimValue(roles[k]) == ADMIN_ROLE_NAME;
    }
    if exists k :: 0 <= k < |roles| && RoleClaimValue(roles[k]) == ADMIN_ROLE_NAME {
      var k :| 0 <= k < |roles| && RoleClaimValue(roles[k]) == ADMIN_ROLE_NAME;
      assert c[IdentityCount(u) + k] == Claim(RoleClaim, ADMIN_ROLE_NAME);
      assert HasRole(c, ADMIN_ROLE_NAME);
    }
  }

  /**
   * The two administrator checks agree on a projected user when its roles
   * follow the convention that id 1 and the name "Admin" go together. The
   * converse does not hold (`AdminChecksAgreeWithoutConvention`).
   */
  lemma AdminChecksAgree(u: User, scheme: string)
    requires forall r :: r in ProjectedRoles(u) ==> (r.id == ADMIN_ROLE_ID <==> r.name == Some(ADMIN_ROLE_NAME))
    ensures IsAdmin(SignedIn(UserClaims(u), scheme)) == UserIsAdmin(u)
  {
    IsAdminOfUserClaims(u, scheme);
    var roles := ProjectedRoles(u);
    assert u.roles.Some? ==> roles == u.roles.value;
    if UserIsAdmin(u) {
      var r :| r in roles && r.id == ADMIN_ROLE_ID;
      var k :| 0 <= k < |roles| && roles[k] == r;
      assert RoleClaimValue(roles[k]) == ADMIN_ROLE_NAME;
    }
    if IsAdmin(SignedIn(UserClaims(u), scheme)) {
      var k :| 0 <= k < |roles| && RoleClaimValue(roles[k]) == ADMIN_ROLE_NAME;
      assert roles[k] in roles;
    }
  }

  /**
   * The checks disagree without that convention: role 1 with a null name is
   * projected as "1", so the record is an administrator and its principal is
   * not; a role named "Admin" with another id gives the reverse.
   */
  lemma AdminChecksDisagree(u: User, scheme: string)
    ensures var v := u.(roles := Some([Role(ADMIN_ROLE_ID, None)]));
      UserIsAdmin(v) && !IsAdmin(SignedIn(UserClaims(v), scheme))
    ensures var w := u.(roles := Some([Role(2, Some(ADMIN_ROLE_NAME))]));
      !UserIsAdmin(w) && IsAdmin(SignedIn(UserClaims(w), scheme))
  {
    NamelessAdminRole(u, scheme);
    AdminNamedOtherRole(u, scheme);
  }

  /** A nameless role 1 makes the record an administrator and is projected as "1", not "Admin". */
  lemma NamelessAdminRole(u: User, scheme: string)
    ensures var v := u.(roles := Some([Role(ADMIN_ROLE_ID, None)]));
      UserIsAdmin(v) && !IsAdmin(SignedIn(UserClaims(v), scheme))
  {
    var v := u.(roles := Some([Role(ADMIN_ROLE_ID, None)]));
    assert ProjectedRoles(v) == [Role(ADMIN_ROLE_ID, None)];
    assert Role(ADMIN_ROLE_ID, None) in v.roles.value;
    assert RoleClaimValue(ProjectedRoles(v)[0]) != ADMIN_ROLE_NAME;
    IsAdminOfUserClaims(v, scheme);
  }

  /** A role named "Admin" with id 2 gives an administrator principal for a record that is not one. */
  lemma AdminNamedOtherRole(u: User, scheme: string)
    ensures var w := u.(roles := Some([Role(2, Some(ADMIN_ROLE_NAME))]));
      !UserIsAdmin(w) && IsAdmin(SignedIn(UserClaims(w), scheme))
  {
    var w := u.(roles := Some([Role(2, Some(ADMIN_ROLE_NAME))]));
    assert ProjectedRoles(w) == [Role(2, Some(ADMIN_ROLE_NAME))];
    assert forall r :: r in w.roles.value ==> r == Role(2, Some(ADMIN_ROLE_NAME));
    assert RoleClaimValue(ProjectedRoles(w)[0]) == ADMIN_ROLE_NAME;
    IsAdminOfUserClaims(w, scheme);
  }

  /**
   * Agreement does not imply the convention: a nameless role 1 next to a
   * role named "Admin" with id 2 makes both checks true.
   */
  lemma AdminChecksAgreeWithoutConvention(u: User, scheme: string)
    ensures var x := u.(roles := Some([Role(ADMIN_ROLE_ID, None), Role(2, Some(ADMIN_ROLE_NAME))]));
      && UserIsAdmin(x) && IsAdmin(SignedIn(UserClaims(x), scheme))
      && !(forall r :: r in ProjectedRoles(x) ==> (r.id == ADMIN_ROLE_ID <==> r.name == Some(ADMIN_ROLE_NAME)))
  {
    var x := u.(roles := Some([Role(ADMIN_ROLE_ID, None), Role(2, Some(ADMIN_ROLE_NAME))]));
    var roles := ProjectedRoles(x);
    assert roles == [Role(ADMIN_ROLE_ID, None), Role(2, Some(ADMIN_ROLE_NAME))];
    assert roles[0] in x.roles.value && roles[0].id == ADMIN_ROLE_ID;
    assert RoleClaimValue(roles[1]) == ADMIN_ROLE_NAME;
    IsAdminOfUserClaims(x, scheme);
  }
}
