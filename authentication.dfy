/**
 * Accounts and sessions (server/routers/authentication.py): the input rules for
 * registration and login, registration itself, the token-version scheme that
 * lets a login or a logout revoke every earlier access token, the resolution
 * of the cookie to the current user, and the password change.
 *
 * The JWT library is not modelled: a cookie is absent, fails to decode (bad
 * signature, expired), or decodes to the claims a login issued. The
 * email_validator syntax check and phonenumbers.parse are library calls whose
 * outcome is passed in as a boolean.
 */
module Authentication {
  import opened Wrappers
  import opened Strings
  import opened Lists
  import opened Tables

  const PasswordMaxLength := 64
  const PasswordMinLength := 15
  const EmailMaxLength := 255
  const NameMaxLength := 255
  /** How long a validation token stays valid, in seconds (24 hours). */
  const ValidationExpirationSeconds := 24 * 60 * 60

  /** The account types registration accepts, with the role each is given. */
  const AccountType: map<string, int> := map["user" := StandardUserRoleId, "merchant" := MerchantRoleId]

  const LoginError := HttpError(401, "Incorrect username or password")
  const CredentialsError := HttpError(401, "Could not validate credentials")
  const InvalidPassword := HttpError(401, "Invalid password")
  const Unprocessable := HttpError(422, "Unprocessable Entity")

  // ---------------------------------------------------------------------
  // Input rules

  predicate IsPasswordValid(password: string) {
    |password| <= PasswordMaxLength && |password| >= PasswordMinLength
  }

  /** Non-empty, accepted by the email syntax check, and shorter than 255 characters. */
  predicate IsEmailValid(email: string, syntaxOk: bool) {
    |email| > 0 && syntaxOk && |email| < EmailMaxLength
  }

  const PhoneSeparators: set<char> := {'-', ' ', '(', ')'}

  /** Deletes every hyphen, space and bracket and keeps the rest in order. */
  function FormatPhoneNumber(phone: string): (r: string)
    ensures forall i :: 0 <= i < |r| ==> r[i] !in PhoneSeparators
    ensures |r| <= |phone|
  {
    RemoveChars(phone, PhoneSeparators)
  }

  lemma {:induction false} NoSeparatorsKept(s: string)
    requires forall i :: 0 <= i < |s| ==> s[i] !in PhoneSeparators
    ensures RemoveChars(s, PhoneSeparators) == s
  {
    if |s| > 0 {
      NoSeparatorsKept(s[1..]);
    }
  }

  /** Formatting a formatted number changes nothing. */
  lemma FormatPhoneIdempotent(phone: string)
    ensures FormatPhoneNumber(FormatPhoneNumber(phone)) == FormatPhoneNumber(phone)
  {
    NoSeparatorsKept(FormatPhoneNumber(phone));
  }

  /** Every character other than a separator survives formatting, in order. */
  lemma {:induction false} FormatPhoneKeepsOthers(phone: string, c: char)
    requires c !in PhoneSeparators
    ensures c in phone <==> c in FormatPhoneNumber(phone)
  {
    if |phone| > 0 {
      FormatPhoneKeepsOthers(phone[1..], c);
      assert phone == [phone[0]] + phone[1..];
    }
  }

  /**
   * is_formatted_phone_valid AS WRITTEN: `phone[1:].isalpha` names the method
   * without calling it, and a method object is truthy, so that test never
   * rejects; only the library parse can.
   */
  predicate IsFormattedPhoneValidAsWritten(phone: string, parses: bool) {
    phone == "" || parses
  }

  /** The rule as its comment states it: only digits after the leading '+'. */
  predicate IsFormattedPhoneValid(phone: string, parses: bool) {
    phone == "" || (|phone| >= 2 && AllDigits(phone[1..]) && parses)
  }

  /** A number with letters in it passes the rule as written and fails the intended one. */
  lemma PhoneLettersAccepted()
    ensures IsFormattedPhoneValidAsWritten("+1800FLOWERS", true)
    ensures !IsFormattedPhoneValid("+1800FLOWERS", true)
  {
    assert !IsDigit("+1800FLOWERS"[5]);
  }

  /**
   * is_name_valid AS WRITTEN: `name is not None` holds for every string, so the
   * `or` never looks at the length.
   */
  predicate IsNameValidAsWritten(name: string) {
    true || |name| <= NameMaxLength
  }

  /** The rule as evidently intended: not None (always, for a string) and at most 255 characters. */
  predicate IsNameValid(name: string) {
    |name| <= NameMaxLength
  }

  /** A 256-character name passes the rule as written and fails the intended one. */
  lemma LongNameAccepted()
    ensures var name := seq(256, _ => 'a');
      IsNameValidAsWritten(name) && !IsNameValid(name)
  {
  }

  predicate IsRoleValid(role: string) {
    role in AccountType
  }

  /** Registration can only ask for a standard user or a merchant, never an administrator. */
  lemma RegistrationNeverAdmin(role: string)
    requires IsRoleValid(role)
    ensures role == "user" || role == "merchant"
    ensures AccountType[role] != AdminRoleId
  {
  }

  // ---------------------------------------------------------------------
  // Registration

  datatype Registration = Registration(
    username: string, password: string, email: string, phone: string, accountType: string)

  /**
   * The phone check of register. The number as entered is passed to the rule,
   * so only an empty entry takes the empty shortcut and the library parses the
   * entered text (parses is its outcome). The intended digits-only test is
   * applied to the number without its separators, since the library accepts
   * separators that the digits test would refuse.
   */
  predicate PhoneAccepted(phone: string, parses: bool) {
    phone == "" || (FormatPhoneNumber(phone) != "" && IsFormattedPhoneValid(FormatPhoneNumber(phone), parses))
  }

  /**
   * A non-empty entry made only of separators, such as "()", is refused: it
   * does not take the empty shortcut, whatever the library makes of it.
   */
  lemma SeparatorsOnlyPhoneRefused(phone: string, parses: bool)
    requires phone != "" && forall i :: 0 <= i < |phone| ==> phone[i] in PhoneSeparators
    ensures !PhoneAccepted(phone, parses)
  {
    NoOthersDropped(phone);
  }

  lemma {:induction false} NoOthersDropped(s: string)
    requires forall i :: 0 <= i < |s| ==> s[i] in PhoneSeparators
    ensures RemoveChars(s, PhoneSeparators) == ""
  {
    if |s| > 0 {
      NoOthersDropped(s[1..]);
    }
  }

  /** The five input checks of register; emailOk and phoneParses are the library outcomes. */
  predicate RegistrationValid(reg: Registration, emailOk: bool, phoneParses: bool) {
    IsEmailValid(reg.email, emailOk) &&
    IsPasswordValid(reg.password) &&
    IsNameValid(reg.username) &&
    PhoneAccepted(reg.phone, phoneParses) &&
    IsRoleValid(reg.accountType)
  }

  /** The account register creates for reg under the key id. */
  function NewAccount(reg: Registration, id: int, now: int): (u: UserAccount)
    requires IsRoleValid(reg.accountType)
    ensures u.isValidated <==> reg.accountType != "merchant"
    ensures u.tokenVersion == 0 && Verifies(reg.password, u.passwordHash)
  {
    UserAccount(id, reg.username, reg.email, Hash(reg.password), FormatPhoneNumber(reg.phone), now,
                reg.accountType != "merchant", 0)
  }

  /**
   * Invalid input gives 422 and changes nothing. Otherwise, when no account has
   * the email, one account, its role mapping and a validation token expiring a
   * day later are added; when one has, nothing is added. Either way the answer
   * is the same success message.
   */
  method Register(db: Database, reg: Registration, emailOk: bool, phoneParses: bool, token: string, now: int)
    returns (r: Result<string, HttpError>)
    modifies db
    ensures !RegistrationValid(reg, emailOk, phoneParses) ==> r == Err(Unprocessable) && db.State() == old(db.State())
    ensures RegistrationValid(reg, emailOk, phoneParses) ==> r == Ok("User successfully created.")
    ensures RegistrationValid(reg, emailOk, phoneParses) && UserByEmail(old(db.users), reg.email).Some? ==>
      db.State() == old(db.State())
    ensures RegistrationValid(reg, emailOk, phoneParses) && UserByEmail(old(db.users), reg.email).None? ==>
      var id := old(db.nextId);
      db.State() == old(db.State()).(
        users := old(db.users) + [NewAccount(reg, id, now)],
        userRoles := old(db.userRoles) + [UserRole(AccountType[reg.accountType], id)],
        tokens := old(db.tokens) + [ValidationToken(id, token, now + ValidationExpirationSeconds)])
  {
    if !RegistrationValid(reg, emailOk, phoneParses) {
      return Err(Unprocessable);
    }
    var existing := UserByEmail(db.users, reg.email);
    if existing.None? {
      var id := db.NewId();
      db.users := db.users + [NewAccount(reg, id, now)];
      db.userRoles := db.userRoles + [UserRole(AccountType[reg.accountType], id)];
      db.tokens := db.tokens + [ValidationToken(id, token, now + ValidationExpirationSeconds)];
    }
    return Ok("User successfully created.");
  }

  /** A registration keeps every foreign key valid when its role exists. */
  lemma RegistrationConsistent(db: Db, reg: Registration, id: int, token: string, now: int)
    requires Consistent(db) && IsRoleValid(reg.accountType)
    requires RoleById(db.roles, AccountType[reg.accountType]).Some?
    ensures Consistent(db.(
      users := db.users + [NewAccount(reg, id, now)],
      userRoles := db.userRoles + [UserRole(AccountType[reg.accountType], id)],
      tokens := db.tokens + [ValidationToken(id, token, now + ValidationExpirationSeconds)]))
  {
    var u := NewAccount(reg, id, now);
    var d := db.(
      users := db.users + [u],
      userRoles := db.userRoles + [UserRole(AccountType[reg.accountType], id)],
      tokens := db.tokens + [ValidationToken(id, token, now + ValidationExpirationSeconds)]);
    assert u in d.users;
    var a := RoleById(db.roles, AccountType[reg.accountType]).value;
    assert a in d.roles;
    forall x | x in db.users ensures x in d.users { }
  }

  // ---------------------------------------------------------------------
  // Sessions

  /** The claims of an access token: `sub`, `ip_address` and `version`. */
  datatype Claims = Claims(email: string, ipAddress: string, version: int)

  /** The `auth_token` cookie of a request, after JWT decoding. */
  datatype Cookie = NoCookie | Undecodable | Decoded(claims: Claims)

  /** What get_current_user returns. */
  datatype SessionUser = SessionUser(name: string, email: string, role: string)

  /** `TokenVersion += 1` on the first account with the email; nothing else changes. */
  function BumpTokenVersion(users: seq<UserAccount>, email: string): (r: seq<UserAccount>)
    ensures |r| == |users|
    ensures UserByEmail(users, email).None? ==> r == users
    ensures var i := FirstIndex(users, (u: UserAccount) => u.email == email);
      i >= 0 ==> r == users[i := users[i].(tokenVersion := users[i].tokenVersion + 1)]
  {
    var i := FirstIndex(users, (u: UserAccount) => u.email == email);
    if i == -1 then users else users[i := users[i].(tokenVersion := users[i].tokenVersion + 1)]
  }

  /** After the bump the account found by the email carries the next version, and is otherwise the same. */
  lemma BumpedVersion(users: seq<UserAccount>, email: string)
    requires UserByEmail(users, email).Some?
    ensures UserByEmail(BumpTokenVersion(users, email), email)
         == Some(UserByEmail(users, email).value.(tokenVersion := UserByEmail(users, email).value.tokenVersion + 1))
  {
    var p := (u: UserAccount) => u.email == email;
    var i := FirstIndex(users, p);
    var r := BumpTokenVersion(users, email);
    assert FirstIndex(r, p) == i by {
      assert p(r[i]);
      forall j | 0 <= j < i ensures !p(r[j]) {
        assert r[j] == users[j];
      }
    }
  }

  /**
   * The requests get_current_user as written answers with 500: a current-address
   * token of a deleted account, or one with the current version of an account
   * that has no role.
   */
  predicate ServerErrorCase(db: Db, cookie: Cookie, host: string) {
    cookie.Decoded? && cookie.claims.ipAddress == host &&
    var user := UserByEmail(db.users, cookie.claims.email);
    user.None? ||
    (user.value.tokenVersion == cookie.claims.version && RoleOfUser(db, user.value.userId).None?)
  }

  /**
   * get_current_user AS WRITTEN: the account is dereferenced for its
   * TokenVersion before the check that it exists, and get_user_role indexes a
   * missing row; both become 500 errors.
   */
  function CurrentUserAsWritten(db: Db, cookie: Cookie, host: string): (r: Result<SessionUser, HttpError>)
    ensures r.Ok? <==> CurrentUser(db, cookie, host).Ok?
    ensures r.Ok? ==> r == CurrentUser(db, cookie, host)
    ensures r.Err? ==> (r.error.status == 500 <==> ServerErrorCase(db, cookie, host))
    ensures r.Err? && !ServerErrorCase(db, cookie, host) ==> r.error == CredentialsError
  {
    match cookie
    case NoCookie => Err(CredentialsError)
    case Undecodable => Err(CredentialsError)
    case Decoded(c) =>
      if c.ipAddress != host then Err(CredentialsError)
      else
        var user := UserByEmail(db.users, c.email);
        if user.None? then Err(HttpError(500, "'NoneType' object has no attribute 'TokenVersion'"))
        else if user.value.tokenVersion != c.version then Err(CredentialsError)
        else
          var role := RoleOfUser(db, user.value.userId);
          if role.None? then Err(HttpError(500, "'NoneType' object is not subscriptable"))
          else Ok(SessionUser(user.value.fullName, user.value.email, role.value.roleName))
  }

  /**
   * get_current_user: the cookie must be present and decode, be issued to the
   * requesting address, name an existing account and carry that account's
   * current token version, and the account must have a role; every failure is
   * the same 401.
   */
  function CurrentUser(db: Db, cookie: Cookie, host: string): (r: Result<SessionUser, HttpError>)
    ensures r.Err? ==> r.error == CredentialsError
    ensures r.Ok? <==>
      cookie.Decoded? && cookie.claims.ipAddress == host &&
      UserByEmail(db.users, cookie.claims.email).Some? &&
      UserByEmail(db.users, cookie.claims.email).value.tokenVersion == cookie.claims.version &&
      RoleOfUser(db, UserByEmail(db.users, cookie.claims.email).value.userId).Some?
    ensures r.Ok? ==> r.value.email == cookie.claims.email
  {
    match cookie
    case NoCookie => Err(CredentialsError)
    case Undecodable => Err(CredentialsError)
    case Decoded(c) =>
      if c.ipAddress != host then Err(CredentialsError)
      else
        var user := UserByEmail(db.users, c.email);
        if user.None? || user.value.tokenVersion != c.version then Err(CredentialsError)
        else
          var role := RoleOfUser(db, user.value.userId);
          if role.None? then Err(CredentialsError)
          else Ok(SessionUser(user.value.fullName, user.value.email, role.value.roleName))
  }

  /** A valid token of a deleted account: 500 as written, 401 as intended. */
  lemma DeletedAccountIsServerError(db: Db, c: Claims)
    requires UserByEmail(db.users, c.email).None?
    ensures CurrentUserAsWritten(db, Decoded(c), c.ipAddress).error.status == 500
    ensures CurrentUser(db, Decoded(c), c.ipAddress) == Err(CredentialsError)
  {
  }

  /** A current token of an account without a role: 500 as written, 401 as intended. */
  lemma RolelessAccountIsServerError(db: Db, c: Claims)
    requires UserByEmail(db.users, c.email).Some?
    requires UserByEmail(db.users, c.email).value.tokenVersion == c.version
    requires RoleOfUser(db, UserByEmail(db.users, c.email).value.userId).None?
    ensures CurrentUserAsWritten(db, Decoded(c), c.ipAddress).error.status == 500
    ensures CurrentUser(db, Decoded(c), c.ipAddress) == Err(CredentialsError)
  {
  }

  /**
   * Revocation: once the account's version has been bumped (by a later login
   * or a logout), a token carrying any version issued up to then is refused.
   */
  lemma EarlierTokenRejected(db: Db, c: Claims, host: string)
    requires UserByEmail(db.users, c.email).Some?
    requires c.version <= UserByEmail(db.users, c.email).value.tokenVersion
    ensures CurrentUser(db.(users := BumpTokenVersion(db.users, c.email)), Decoded(c), host) == Err(CredentialsError)
  {
    BumpedVersion(db.users, c.email);
  }

  /**
   * login: both inputs must pass their rules and the password must verify
   * against the account's digest (401 otherwise, nothing changed); then the
   * account's token version goes up by one and the new token carries it.
   */
  method Login(db: Database, email: string, password: string, emailOk: bool, host: string)
    returns (r: Result<Claims, HttpError>)
    modifies db
    ensures var u := UserByEmail(old(db.users), email);
      r.Ok? <==> IsPasswordValid(password) && IsEmailValid(email, emailOk) &&
                 u.Some? && Verifies(password, u.value.passwordHash)
    ensures r.Err? ==> r.error == LoginError && db.State() == old(db.State())
    ensures r.Ok? ==>
      r.value == Claims(email, host, UserByEmail(old(db.users), email).value.tokenVersion + 1) &&
      db.State() == old(db.State()).(users := BumpTokenVersion(old(db.users), email))
  {
    if !IsPasswordValid(password) || !IsEmailValid(email, emailOk) {
      return Err(LoginError);
    }
    var user := UserByEmail(db.users, email);
    if user.None? || !Verifies(password, user.value.passwordHash) {
      return Err(LoginError);
    }
    db.users := BumpTokenVersion(db.users, email);
    return Ok(Claims(email, host, user.value.tokenVersion + 1));
  }

  /** A freshly issued token is accepted from the address it was issued to, while the account has a role. */
  lemma FreshTokenAccepted(db: Db, email: string, host: string)
    requires UserByEmail(db.users, email).Some?
    requires RoleOfUser(db, UserByEmail(db.users, email).value.userId).Some?
    ensures var c := Claims(email, host, UserByEmail(db.users, email).value.tokenVersion + 1);
      CurrentUser(db.(users := BumpTokenVersion(db.users, email)), Decoded(c), host).Ok?
  {
    var u := UserByEmail(db.users, email).value;
    var d := db.(users := BumpTokenVersion(db.users, email));
    BumpedVersion(db.users, email);
    var p := (x: UserAccount) => x.email == email;
    var i := FirstIndex(db.users, p);
    assert UserByEmail(d.users, email).value.userId == u.userId;
    assert RoleOfUser(d, u.userId) == RoleOfUser(db, u.userId);
  }

  /** invalidate_access_token: the account's version goes up by one; no account is a 500. */
  method InvalidateAccessToken(db: Database, email: string) returns (r: Result<(), HttpError>)
    modifies db
    ensures UserByEmail(old(db.users), email).None? ==> r.Err? && r.error.status == 500 && db.State() == old(db.State())
    ensures UserByEmail(old(db.users), email).Some? ==>
      r.Ok? && db.State() == old(db.State()).(users := BumpTokenVersion(old(db.users), email))
  {
    var user := UserByEmail(db.users, email);
    if user.None? {
      return Err(HttpError(500, "'NoneType' object has no attribute 'TokenVersion'"));
    }
    db.users := BumpTokenVersion(db.users, email);
    return Ok(());
  }

  /** logout: the current user's token is revoked; an unauthenticated request is a 401. */
  method Logout(db: Database, cookie: Cookie, host: string) returns (r: Result<(), HttpError>)
    modifies db
    ensures CurrentUser(old(db.State()), cookie, host).Err? ==> r == Err(CredentialsError) && db.State() == old(db.State())
    ensures CurrentUser(old(db.State()), cookie, host).Ok? ==>
      r.Ok? && db.State() == old(db.State()).(users := BumpTokenVersion(old(db.users), cookie.claims.email))
  {
    var current := CurrentUser(db.State(), cookie, host);
    if current.Err? {
      return Err(current.error);
    }
    r := InvalidateAccessToken(db, current.value.email);
  }

  /**
   * change_password: the current password must verify and the new one must
   * equal its confirmation (401 otherwise); then only the account's digest is
   * replaced. The length policy is not applied.
   */
  method ChangePassword(db: Database, cookie: Cookie, host: string, current: string, newPassword: string, confirm: string)
    returns (r: Result<string, HttpError>)
    modifies db
    ensures var me := CurrentUser(old(db.State()), cookie, host);
      r.Ok? <==> me.Ok? && Verifies(current, UserByEmail(old(db.users), me.value.email).value.passwordHash) &&
                 newPassword == confirm
    ensures r.Err? ==>
      db.State() == old(db.State()) &&
      r.error == (if CurrentUser(old(db.State()), cookie, host).Err? then CredentialsError else InvalidPassword)
    ensures r.Ok? ==>
      r.value == "User successfully changed password." &&
      var i := FirstIndex(old(db.users), (u: UserAccount) => u.email == cookie.claims.email);
      0 <= i && db.State() == old(db.State()).(users := old(db.users)[i := old(db.users)[i].(passwordHash := Hash(newPassword))])
  {
    var me := CurrentUser(db.State(), cookie, host);
    if me.Err? {
      return Err(me.error);
    }
    var i := FirstIndex(db.users, (u: UserAccount) => u.email == me.value.email);
    var user := db.users[i];
    if !Verifies(current, user.passwordHash) || newPassword != confirm {
      return Err(InvalidPassword);
    }
    db.users := db.users[i := user.(passwordHash := Hash(newPassword))];
    return Ok("User successfully changed password.");
  }
}
