/**
 * The sign-in page, the sign-in form submission and sign-out (the
 * `/users/auth` and `/users/logout` handlers of Program.cs). The database
 * lookups, the clock, the random generator and the anti-forgery service are
 * parameters; the cookie session and the anti-forgery cookie are fields.
 */
module AuthEndpoints {
  import opened Wrappers
  import opened Claims
  import opened Credentials

  /** `CookieAuthenticationDefaults.AuthenticationScheme`. */
  const AUTH_SCHEME := "Cookies"
  /** Where every sign-out, and a sign-in without `returnUrl`, lands. */
  const ROOT := "/"
  /** `DateTime` ticks (100 ns) in one day: the session lifetime. */
  const TICKS_PER_DAY: int := 864_000_000_000
  /** `DateTime.MaxValue.Ticks`. */
  const MAX_TICKS: int := 3_155_378_975_999_999_999

  /** An anti-forgery token set: the token for the form and the token for the cookie. */
  datatype TokenSet = TokenSet(requestToken: string, cookieToken: string)

  /** The authentication ticket the cookie carries: the principal and its absolute expiry in ticks. */
  datatype Session = Session(principal: Option<Principal>, expiresUtc: int)

  /** The exceptions the sign-in handler lets escape. */
  datatype Fault = SaltNotBase64 | ExpiryOutOfRange

  /** The handler's result: the sign-in page with its tokens, a redirect, or an unhandled exception. */
  datatype Response = Challenge(tokens: TokenSet) | Redirect(location: string) | ServerError(fault: Fault)

  /** The outcome of checking a submitted password against the looked-up record. */
  datatype Verdict = Rejected | Accepted | Failed(fault: Fault)

  /**
   * No record, or a stored hash different from the submitted password's hash
   * under the stored salt, rejects; a salt that is not base64 throws.
   * A null stored salt makes `Encrypt` draw `entropy` as a fresh salt.
   */
  function Authenticate(c: Primitives, record: Option<User>, password: string, entropy: seq<uint8>): Verdict {
    match record
    case None => Rejected
    case Some(m) =>
      match Encrypted(c, password, m.salt, entropy)
      case Err(_) => Failed(SaltNotBase64)
      case Ok(derived) => if m.password != Some(derived.password) then Rejected else Accepted
  }

  /** `returnUrl ?? "/"`, taken as given. */
  function RedirectTarget(returnUrl: Option<string>): string {
    returnUrl.GetOr(ROOT)
  }

  /** `now.AddDays(1)`, or None where it passes `DateTime.MaxValue` and throws. */
  function Expiry(now: nat): (t: Option<int>)
    ensures t.Some? <==> now + TICKS_PER_DAY <= MAX_TICKS
    ensures t.Some? ==> t.value - now == TICKS_PER_DAY
  {
    if now + TICKS_PER_DAY <= MAX_TICKS then Some(now + TICKS_PER_DAY) else None
  }

  /** The session signed in for `m` once its roles are loaded. */
  function SessionFor(m: User, roles: seq<Role>, expires: int): Session {
    Session(SignedIn(UserClaims(m.(roles := Some(roles))), AUTH_SCHEME), expires)
  }

  /** A record whose stored hash is the submitted password's hash under its stored salt is accepted. */
  lemma AcceptsMatchingPassword(c: Primitives, m: User, password: string, entropy: seq<uint8>)
    requires m.salt.Some? && c.fromBase64(m.salt.value).Some?
    requires m.password == Some(Hash(c, password, c.fromBase64(m.salt.value).value))
    ensures Authenticate(c, Some(m), password, entropy) == Accepted
  {
  }

  /** A submitted password whose hash under the stored salt differs from the stored hash is rejected. */
  lemma RejectsOtherPassword(c: Primitives, m: User, password: string, entropy: seq<uint8>)
    requires m.salt.Some? && c.fromBase64(m.salt.value).Some?
    requires m.password != Some(Hash(c, password, c.fromBase64(m.salt.value).value))
    ensures Authenticate(c, Some(m), password, entropy) == Rejected
  {
  }

  /** A record provisioned by `Encrypt(password)` with a fresh salt accepts that password later. */
  lemma AcceptsProvisionedPassword(c: Primitives, m: User, password: string, e1: seq<uint8>, e2: seq<uint8>)
    requires c.Lawful() && |e1| == SALT_LENGTH
    requires m.password == Some(Encrypted(c, password, None, e1).value.password)
    requires m.salt == Some(Encrypted(c, password, None, e1).value.salt)
    ensures Authenticate(c, Some(m), password, e2) == Accepted
  {
    ProvisionThenDerive(c, password, e1, e2);
  }

  /**
   * With a null stored salt the outcome is decided by the random draw: it is
   * accepted only when the stored hash happens to equal the hash under it.
   */
  lemma NullSaltDependsOnDraw(c: Primitives, m: User, password: string, entropy: seq<uint8>)
    requires m.salt.None?
    ensures Authenticate(c, Some(m), password, entropy) ==
            if m.password == Some(Hash(c, password, entropy)) then Accepted else Rejected
  {
  }

  /**
   * The signed-in session carries exactly the claims of the user with the
   * loaded roles: reading it back gives the user's id, name, email and
   * phone, it is logged in, and it is an administrator exactly when some
   * loaded role's claim value is "Admin".
   */
  lemma SessionReadsBack(m: User, roles: seq<Role>, expires: int)
    ensures var p := SessionFor(m, roles, expires).principal;
      && IsLogged(p)
      && GetId(p) == m.id && GetName(p) == m.name
      && GetEmail(p) == m.email && GetPhone(p) == m.phone
      && GetMemberId(p) == 0
      && (IsAdmin(p) <==> exists k :: 0 <= k < |roles| && RoleClaimValue(roles[k]) == ADMIN_ROLE_NAME)
  {
    var u := m.(roles := Some(roles));
    ReadersRoundTrip(u, AUTH_SCHEME);
    IsAdminOfUserClaims(u, AUTH_SCHEME);
  }

  /** The application's authentication state: the session cookie and the anti-forgery cookie. */
  class AuthApp {
    const crypto: Primitives
    var session: Option<Session>
    var antiforgeryCookie: Option<string>

    ghost predicate Valid() {
      crypto.Lawful()
    }

    constructor (crypto: Primitives)
      requires crypto.Lawful()
      ensures Valid() && this.crypto == crypto
      ensures session == None && antiforgeryCookie == None
    {
      this.crypto := crypto;
      session := None;
      antiforgeryCookie := None;
    }

    /** GET `/users/auth`: issue anti-forgery tokens and render the sign-in page; the session is untouched. */
    method GetAuth(tokens: TokenSet) returns (resp: Response)
      requires Valid()
      modifies this
      ensures Valid()
      ensures resp == Challenge(tokens)
      ensures antiforgeryCookie == Some(tokens.cookieToken)
      ensures session == old(session)
    {
      antiforgeryCookie := Some(tokens.cookieToken);
      resp := Challenge(tokens);
    }

    /**
     * POST `/users/auth`. `record` is the user found by email, `roles` what
     * the role query returns, `now` the clock, `entropy` the generator's
     * bytes and `tokens` the token set the anti-forgery service issues.
     * A rejection re-renders the page with new tokens, whether the email was
     * unknown or the password wrong; an acceptance signs in a session of the
     * user's claims for one day and redirects to `returnUrl ?? "/"`.
     */
    method PostAuth(record: Option<User>, password: string, returnUrl: Option<string>,
                    roles: seq<Role>, now: nat, entropy: seq<uint8>, tokens: TokenSet)
      returns (resp: Response)
      requires Valid()
      requires |entropy| == SALT_LENGTH && now <= MAX_TICKS
      modifies this
      ensures Valid()
      ensures match Authenticate(crypto, record, password, entropy)
        case Rejected =>
          && resp == Challenge(tokens)
          && antiforgeryCookie == Some(tokens.cookieToken)
          && session == old(session)
        case Failed(f) =>
          && resp == ServerError(f)
          && antiforgeryCookie == old(antiforgeryCookie)
          && session == old(session)
        case Accepted =>
          && antiforgeryCookie == old(antiforgeryCookie)
          && match Expiry(now)
             case None => resp == ServerError(ExpiryOutOfRange) && session == old(session)
             case Some(t) => resp == Redirect(RedirectTarget(returnUrl)) && session == Some(SessionFor(record.value, roles, t))
    {
      if record.None? {
        antiforgeryCookie := Some(tokens.cookieToken);
        return Challenge(tokens);
      }
      var m := record.value;
      var derived := Encrypt(crypto, password, m.salt, entropy);
      if derived.Err? {
        return ServerError(SaltNotBase64);
      }
      if m.password != Some(derived.value.password) {
        antiforgeryCookie := Some(tokens.cookieToken);
        return Challenge(tokens);
      }
      m := m.(roles := Some(roles));
      var claims := ToClaims(m);
      if now + TICKS_PER_DAY > MAX_TICKS {
        return ServerError(ExpiryOutOfRange);
      }
      session := Some(Session(SignedIn(claims, AUTH_SCHEME), now + TICKS_PER_DAY));
      return Redirect(RedirectTarget(returnUrl));
    }

    /** GET `/users/logout`: end the session, if any, and redirect to the root. */
    method Logout() returns (resp: Response)
      requires Valid()
      modifies this
      ensures Valid()
      ensures resp == Redirect(ROOT)
      ensures session == None && antiforgeryCookie == old(antiforgeryCookie)
    {
      session := None;
      resp := Redirect(ROOT);
    }
  }

  /**
   * A user provisioned with a fresh salt signs in with that password, is
   * then logged in as themself for one day, and signing out twice ends at
   * the root both times.
   */
  method SignInThenOut(c: Primitives, m: User, password: string, e1: seq<uint8>, e2: seq<uint8>,
                       roles: seq<Role>, now: nat, tokens: TokenSet)
    requires c.Lawful() && |e1| == SALT_LENGTH && |e2| == SALT_LENGTH
    requires now + TICKS_PER_DAY <= MAX_TICKS
    requires m.password == Some(Encrypted(c, password, None, e1).value.password)
    requires m.salt == Some(Encrypted(c, password, None, e1).value.salt)
  {
    var app := new AuthApp(c);
    var page := app.GetAuth(tokens);
    assert page == Challenge(tokens);
    AcceptsProvisionedPassword(c, m, password, e1, e2);
    var r := app.PostAuth(Some(m), password, None, roles, now, e2, tokens);
    assert r == Redirect(ROOT);
    SessionReadsBack(m, roles, now + TICKS_PER_DAY);
    assert app.session.Some? && GetId(app.session.value.principal) == m.id;
    assert app.session.value.expiresUtc == now + TICKS_PER_DAY;
    r := app.Logout();
    assert r == Redirect(ROOT) && app.session.None?;
    r := app.Logout();
    assert r == Redirect(ROOT) && app.session.None?;
  }
}
