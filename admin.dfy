/**
 * The administrator routes of server/routers/admin.py over the in-memory
 * tables: the account listings built from the outer join of accounts with
 * their role mappings, the role change, the administrator's account deletion
 * (the same cascade as the self-service one, found by email) and the
 * validation of a merchant account.
 */
module Admin {
  import opened Wrappers
  import opened Strings
  import opened Lists
  import opened Tables
  import opened Authentication
  import opened Users

  // ---------------------------------------------------------------------
  // Listings

  /** One row of `UserAccount OUTER JOIN UserAccountRole OUTER JOIN AccountRole`. */
  datatype JoinedRow = JoinedRow(account: UserAccount, role: Option<AccountRole>)

  /**
   * The joined rows of one account: one per role mapping, carrying the mapped
   * role when it exists, or a single row without a role when it has none.
   */
  function RowsOf(db: Db, u: UserAccount): (rows: seq<JoinedRow>)
    ensures |rows| > 0
  {
    var ms := Filter(db.userRoles, MappingOf(u.userId));
    if ms == [] then [JoinedRow(u, None)]
    else seq(|ms|, i requires 0 <= i < |ms| => JoinedRow(u, RoleById(db.roles, ms[i].roleId)))
  }

  /** The joined rows of every account, account by account in table order. */
  function Joined(db: Db, users: seq<UserAccount>): seq<JoinedRow> {
    if |users| == 0 then [] else RowsOf(db, users[0]) + Joined(db, users[1..])
  }

  /** The outer join pairs u with r: r is the role of one of u's mappings, or u has no mapping and r is None. */
  ghost predicate JoinsTo(db: Db, u: UserAccount, r: Option<AccountRole>) {
    (r.None? && forall m :: m in db.userRoles ==> m.userId != u.userId) ||
    (exists m :: m in db.userRoles && m.userId == u.userId && r == RoleById(db.roles, m.roleId))
  }

  lemma RowsOfMembers(db: Db, u: UserAccount)
    ensures forall row :: row in RowsOf(db, u) <==> row.account == u && JoinsTo(db, u, row.role)
  {
    var ms := Filter(db.userRoles, MappingOf(u.userId));
    FilterMembers(db.userRoles, MappingOf(u.userId));
    var rows := RowsOf(db, u);
    if ms != [] {
      assert ms[0] in db.userRoles && ms[0].userId == u.userId;
      forall row: JoinedRow | row.account == u && JoinsTo(db, u, row.role) ensures row in rows {
        var m :| m in db.userRoles && m.userId == u.userId && row.role == RoleById(db.roles, m.roleId);
        var i :| 0 <= i < |ms| && ms[i] == m;
        assert rows[i] == row;
      }
      forall row | row in rows ensures row.account == u && JoinsTo(db, u, row.role) {
        var i :| 0 <= i < |rows| && rows[i] == row;
        assert ms[i] in ms;
      }
    }
  }

  /** The join holds exactly the pairs of an account of the table with a role it joins to. */
  lemma {:induction false} JoinedMembers(db: Db, users: seq<UserAccount>)
    ensures forall row :: row in Joined(db, users) <==> row.account in users && JoinsTo(db, row.account, row.role)
    decreases |users|
  {
    if |users| > 0 {
      JoinedMembers(db, users[1..]);
      RowsOfMembers(db, users[0]);
      assert users == [users[0]] + users[1..];
    }
  }

  /** An entry of the get_users answer. */
  datatype AccountListing = AccountListing(
    fullName: string, email: string, phoneNumber: string, createdAt: int, role: Option<AccountRole>)

  /** An entry of the get_invalid_merchant_accounts answer. */
  datatype MerchantListing = MerchantListing(fullName: string, email: string, phoneNumber: string, createdAt: int)

  function ListingOf(row: JoinedRow): AccountListing {
    AccountListing(row.account.fullName, row.account.email, row.account.phoneNumber, row.account.createdAt, row.role)
  }

  function MerchantListingOf(row: JoinedRow): MerchantListing {
    MerchantListing(row.account.fullName, row.account.email, row.account.phoneNumber, row.account.createdAt)
  }

  /** `filter(UserAccount.IsValidated == 1)` on a joined row. */
  predicate ValidatedRow(row: JoinedRow) {
    row.account.isValidated
  }

  /** `filter(AccountRole.RoleName == "merchant").filter(UserAccount.IsValidated == 0)` on a joined row. */
  predicate PendingMerchantRow(row: JoinedRow) {
    row.role.Some? && row.role.value.roleName == "merchant" && !row.account.isValidated
  }

  /** `get_users`: the joined rows of validated accounts. */
  function GetUsers(db: Db): seq<AccountListing> {
    var rows := Filter(Joined(db, db.users), ValidatedRow);
    seq(|rows|, i requires 0 <= i < |rows| => ListingOf(rows[i]))
  }

  /** `get_invalid_merchant_accounts`: the joined rows of unvalidated accounts mapped to the merchant role. */
  function GetInvalidMerchantAccounts(db: Db): seq<MerchantListing> {
    var rows := Filter(Joined(db, db.users), PendingMerchantRow);
    seq(|rows|, i requires 0 <= i < |rows| => MerchantListingOf(rows[i]))
  }

  /** get_users lists only validated accounts, and every validated account at least once. */
  /** e lists a validated account joined to one of its roles, or to none when it has no mapping. */
  ghost predicate ValidatedListing(db: Db, e: AccountListing) {
    exists u, role :: u in db.users && u.isValidated && JoinsTo(db, u, role) && e == ListingOf(JoinedRow(u, role))
  }

  lemma GetUsersValidatedOnly(db: Db)
    ensures forall e :: e in GetUsers(db) ==> ValidatedListing(db, e)
    ensures forall u :: u in db.users && u.isValidated ==> exists role :: ListingOf(JoinedRow(u, role)) in GetUsers(db)
  {
    var rows := Filter(Joined(db, db.users), ValidatedRow);
    var r := GetUsers(db);
    JoinedMembers(db, db.users);
    FilterMembers(Joined(db, db.users), ValidatedRow);
    forall e | e in r ensures ValidatedListing(db, e) {
      var i :| 0 <= i < |r| && r[i] == e;
      var row := rows[i];
      assert row in rows;
      assert e == ListingOf(JoinedRow(row.account, row.role));
    }
    forall u | u in db.users && u.isValidated ensures exists role :: ListingOf(JoinedRow(u, role)) in r {
      RowsOfMembers(db, u);
      var row := RowsOf(db, u)[0];
      assert row in RowsOf(db, u);
      assert row in rows;
      var i :| 0 <= i < |rows| && rows[i] == row;
      assert r[i] == ListingOf(JoinedRow(u, row.role));
    }
  }

  /** e describes an unvalidated account joined to a role named "merchant". */
  ghost predicate PendingMerchant(db: Db, e: MerchantListing) {
    exists u: UserAccount, a: AccountRole ::
      u in db.users && !u.isValidated && a.roleName == "merchant" && JoinsTo(db, u, Some(a)) &&
      e == MerchantListingOf(JoinedRow(u, Some(a)))
  }

  /** get_invalid_merchant_accounts lists only unvalidated accounts joined to a role named "merchant". */
  lemma PendingMerchantsOnly(db: Db)
    ensures forall e :: e in GetInvalidMerchantAccounts(db) ==> PendingMerchant(db, e)
  {
    var rows := Filter(Joined(db, db.users), PendingMerchantRow);
    var r := GetInvalidMerchantAccounts(db);
    JoinedMembers(db, db.users);
    FilterMembers(Joined(db, db.users), PendingMerchantRow);
    forall e | e in r ensures PendingMerchant(db, e) {
      var i :| 0 <= i < |r| && r[i] == e;
      var row := rows[i];
      assert row in rows;
      var u, a := row.account, row.role.value;
      assert u in db.users && !u.isValidated && a.roleName == "merchant" && JoinsTo(db, u, Some(a)) &&
        e == MerchantListingOf(JoinedRow(u, Some(a)));
    }
  }

  /** Every unvalidated account with a mapping to a role named "merchant" is listed by get_invalid_merchant_accounts. */
  lemma PendingMerchantsListed(db: Db, u: UserAccount, m: UserRole)
    requires u in db.users && !u.isValidated && m in db.userRoles && m.userId == u.userId
    requires RoleById(db.roles, m.roleId).Some? && RoleById(db.roles, m.roleId).value.roleName == "merchant"
    ensures MerchantListingOf(JoinedRow(u, RoleById(db.roles, m.roleId))) in GetInvalidMerchantAccounts(db)
  {
    var rows := Filter(Joined(db, db.users), PendingMerchantRow);
    var r := GetInvalidMerchantAccounts(db);
    JoinedMembers(db, db.users);
    FilterMembers(Joined(db, db.users), PendingMerchantRow);
    var row := JoinedRow(u, RoleById(db.roles, m.roleId));
    assert JoinsTo(db, u, row.role);
    assert row in rows;
    var i :| 0 <= i < |rows| && rows[i] == row;
    assert r[i] == MerchantListingOf(row);
  }

  // ---------------------------------------------------------------------
  // Role change

  const UserNotFound := HttpError(404, "User not found.")
  const RoleNotFound := HttpError(404, "Role not found.")

  /** The answer of update_user_role: its message and the new role. */
  datatype RoleUpdate = RoleUpdate(message: string, role: AccountRole)

  /**
   * The mappings after the role change: the account's first mapping gets the
   * new RoleID, or one mapping is added when it had none.
   */
  function Reassigned(userRoles: seq<UserRole>, userId: int, roleId: int): seq<UserRole> {
    var i := FirstIndex(userRoles, MappingOf(userId));
    if i == -1 then userRoles + [UserRole(roleId, userId)]
    else userRoles[i := userRoles[i].(roleId := roleId)]
  }

  /**
   * `update_user_role`: 404 when the email or the role id is unknown, with no
   * change; otherwise the account's mapping is reassigned and the new role is
   * reported.
   */
  method UpdateUserRole(db: Database, email: string, roleId: int) returns (r: Result<RoleUpdate, HttpError>)
    modifies db
    ensures UserByEmail(old(db.users), email).None? ==> r == Err(UserNotFound) && db.State() == old(db.State())
    ensures UserByEmail(old(db.users), email).Some? && RoleById(old(db.roles), roleId).None? ==>
      r == Err(RoleNotFound) && db.State() == old(db.State())
    ensures r.Ok? <==> UserByEmail(old(db.users), email).Some? && RoleById(old(db.roles), roleId).Some?
    ensures r.Ok? ==>
      r.value == RoleUpdate("Update successful.", RoleById(old(db.roles), roleId).value) &&
      db.State() == old(db.State()).(
        userRoles := Reassigned(old(db.userRoles), UserByEmail(old(db.users), email).value.userId, roleId))
    ensures db.nextId == old(db.nextId)
  {
    var user := UserByEmail(db.users, email);
    if user.None? {
      return Err(UserNotFound);
    }
    var role := RoleById(db.roles, roleId);
    if role.None? {
      return Err(RoleNotFound);
    }
    var i := FirstIndex(db.userRoles, MappingOf(user.value.userId));
    if i != -1 {
      db.userRoles := db.userRoles[i := db.userRoles[i].(roleId := roleId)];
    } else {
      db.userRoles := db.userRoles + [UserRole(roleId, user.value.userId)];
    }
    return Ok(RoleUpdate("Update successful.", role.value));
  }

  /**
   * The change touches only the account's first mapping: the mappings of
   * every other account stay, and exactly one mapping is added when the
   * account had none.
   */
  lemma ReassignedShape(userRoles: seq<UserRole>, userId: int, roleId: int)
    ensures var r := Reassigned(userRoles, userId, roleId);
      (forall m :: m in userRoles && m.userId != userId ==> m in r) &&
      (forall m :: m in r ==> m in userRoles || m == UserRole(roleId, userId)) &&
      UserRole(roleId, userId) in r &&
      ((exists m :: m in userRoles && m.userId == userId) ==> |r| == |userRoles|) &&
      ((forall m :: m in userRoles ==> m.userId != userId) ==> r == userRoles + [UserRole(roleId, userId)])
  {
    var i := FirstIndex(userRoles, MappingOf(userId));
    var r := Reassigned(userRoles, userId, roleId);
    if i != -1 {
      forall m | m in userRoles && m.userId != userId ensures m in r {
        var j :| 0 <= j < |userRoles| && userRoles[j] == m;
        assert r[j] == m;
      }
      forall m | m in r ensures m in userRoles || m == UserRole(roleId, userId) {
        var j :| 0 <= j < |r| && r[j] == m;
        if j != i {
          assert userRoles[j] == m;
        }
      }
      assert r[i] == UserRole(roleId, userId);
    } else {
      forall m | m in userRoles ensures m.userId != userId {
        var j :| 0 <= j < |userRoles| && userRoles[j] == m;
      }
      assert r[|userRoles|] == UserRole(roleId, userId);
    }
  }

  /** After the change the account's role, as every later request sees it, is the new one. */
  lemma RoleReassigned(db: Db, userId: int, roleId: int)
    requires RoleById(db.roles, roleId).Some?
    ensures RoleOfUser(db.(userRoles := Reassigned(db.userRoles, userId, roleId)), userId) == RoleById(db.roles, roleId)
  {
    var d := db.(userRoles := Reassigned(db.userRoles, userId, roleId));
    var i := FirstIndex(db.userRoles, MappingOf(userId));
    var k := if i == -1 then |db.userRoles| else i;
    var p := (m: UserRole) => m.userId == userId && RoleById(d.roles, m.roleId).Some?;
    assert p(d.userRoles[k]);
    forall j | 0 <= j < k ensures !p(d.userRoles[j]) {
      assert !MappingOf(userId)(db.userRoles[j]);
    }
    assert FirstIndex(d.userRoles, p) == k;
  }

  /** The change keeps every foreign key valid when the account and the role exist. */
  lemma ReassignedConsistent(db: Db, userId: int, roleId: int)
    requires Consistent(db)
    requires UserById(db.users, userId).Some? && RoleById(db.roles, roleId).Some?
    ensures Consistent(db.(userRoles := Reassigned(db.userRoles, userId, roleId)))
  {
    var d := db.(userRoles := Reassigned(db.userRoles, userId, roleId));
    ReassignedShape(db.userRoles, userId, roleId);
    var u := UserById(db.users, userId).value;
    var a := RoleById(db.roles, roleId).value;
    forall m | m in d.userRoles
      ensures (exists x :: x in d.users && x.userId == m.userId) && (exists b :: b in d.roles && b.roleId == m.roleId)
    {
      if m !in db.userRoles {
        assert u in d.users && a in d.roles;
      }
    }
  }

  // ---------------------------------------------------------------------
  // Account deletion by an administrator

  /**
   * admin.py's `_delete_user_data`: the account is found by its email (a 500
   * when there is none) and the same cascade as users.py's runs on it.
   */
  method DeleteUserDataByEmail(db: Database, email: string) returns (r: Result<Report, HttpError>)
    modifies db
    ensures UserByEmail(old(db.users), email).None? ==>
      r == Err(DeleteUserNotFound) && db.State() == old(db.State())
    ensures UserByEmail(old(db.users), email).Some? ==>
      var id := UserByEmail(old(db.users), email).value.userId;
      r == Ok(DeletionReport(old(db.State()), id)) && db.State() == Cascade(old(db.State()), id)
    ensures db.nextId == old(db.nextId)
  {
    var user := UserByEmail(db.users, email);
    if user.None? {
      return Err(DeleteUserNotFound);
    }
    r := DeleteUserData(db, user.value.userId);
  }

  /** The role check of the administrator routes: the role name, lowercased, is "admin". */
  predicate IsAdmin(roleName: string) {
    ToLower(roleName) == "admin"
  }

  const NotPermittedToDelete := HttpError(403, "You do not have permission to delete users.")
  const TargetNotFound := HttpError(404, "User to delete not found.")
  const SelfDeletion := HttpError(400, "Administrators cannot delete their own accounts.")

  /** The answer of delete_user_by_admin: its message and the deletion report. */
  datatype AdminDeletion = AdminDeletion(message: string, report: Report)

  /**
   * `delete_user_by_admin`, with its checks in order: a valid session (401),
   * an administrator's role (403), an existing target (404), a target other
   * than the requester (400); then the cascade. The 401 for a requester
   * without an account and the 403 for one without a role cannot be reached,
   * because a valid session names an account that has a role.
   */
  method DeleteUserByAdmin(db: Database, email: string, cookie: Cookie, host: string)
    returns (r: Result<AdminDeletion, HttpError>)
    modifies db
    ensures var me := CurrentUser(old(db.State()), cookie, host);
      var target := UserByEmail(old(db.users), email);
      (me.Err? ==> r == Err(CredentialsError)) &&
      (me.Ok? && !IsAdmin(me.value.role) ==> r == Err(NotPermittedToDelete)) &&
      (me.Ok? && IsAdmin(me.value.role) && target.None? ==> r == Err(TargetNotFound)) &&
      ((me.Ok? && IsAdmin(me.value.role) && target.Some? &&
        target.value.userId == UserByEmail(old(db.users), me.value.email).value.userId) ==> r == Err(SelfDeletion))
    ensures var me := CurrentUser(old(db.State()), cookie, host);
      var target := UserByEmail(old(db.users), email);
      r.Ok? <==> me.Ok? && IsAdmin(me.value.role) && target.Some? &&
                 target.value.userId != UserByEmail(old(db.users), me.value.email).value.userId
    ensures r.Err? ==> db.State() == old(db.State())
    ensures r.Ok? ==>
      var id := UserByEmail(old(db.users), email).value.userId;
      r.value == AdminDeletion("User with Email " + email + " and all related data deleted successfully",
                               DeletionReport(old(db.State()), id)) &&
      db.State() == Cascade(old(db.State()), id)
  {
    var me := CurrentUser(db.State(), cookie, host);
    if me.Err? {
      return Err(me.error);
    }
    var admin := UserByEmail(db.users, me.value.email).value;
    if !IsAdmin(me.value.role) {
      return Err(NotPermittedToDelete);
    }
    var target := UserByEmail(db.users, email);
    if target.None? {
      return Err(TargetNotFound);
    }
    if admin.userId == target.value.userId {
      return Err(SelfDeletion);
    }
    var report := DeleteUserDataByEmail(db, email);
    return Ok(AdminDeletion("User with Email " + email + " and all related data deleted successfully", report.value));
  }

  /**
   * Once an account has been deleted, the validated-account listing no longer
   * shows its email, provided the email named only that account.
   */
  lemma DeletedAccountNotListed(db: Db, userId: int, email: string)
    requires forall u :: u in db.users && u.email == email ==> u.userId == userId
    ensures forall e :: e in GetUsers(Cascade(db, userId)) ==> e.email != email
  {
    var d := Cascade(db, userId);
    CascadeRemovesUser(db, userId);
    CascadeKeepsOthers(db, userId);
    GetUsersValidatedOnly(d);
    forall e | e in GetUsers(d) ensures e.email != email {
      var u, role :| u in d.users && u.isValidated && JoinsTo(d, u, role) && e == ListingOf(JoinedRow(u, role));
      assert u in db.users;
    }
  }

  // ---------------------------------------------------------------------
  // Merchant validation

  const Impermissible := HttpError(403, "Impermissible action.")

  /**
   * `validate_merchant`: a valid session (401) with an administrator's role
   * (403), and an existing account for the email (404); then only that
   * account's IsValidated becomes true. The first 404, for a requester
   * without an account, cannot be reached.
   */
  method ValidateMerchant(db: Database, email: string, cookie: Cookie, host: string) returns (r: Result<string, HttpError>)
    modifies db
    ensures var me := CurrentUser(old(db.State()), cookie, host);
      (me.Err? ==> r == Err(CredentialsError)) &&
      (me.Ok? && !IsAdmin(me.value.role) ==> r == Err(Impermissible)) &&
      (me.Ok? && IsAdmin(me.value.role) && UserByEmail(old(db.users), email).None? ==> r == Err(UserNotFound))
    ensures var me := CurrentUser(old(db.State()), cookie, host);
      r.Ok? <==> me.Ok? && IsAdmin(me.value.role) && UserByEmail(old(db.users), email).Some?
    ensures r.Err? ==> db.State() == old(db.State())
    ensures r.Ok? ==>
      var i := FirstIndex(old(db.users), (u: UserAccount) => u.email == email);
      0 <= i &&
      r.value == "Merchant: " + old(db.users)[i].fullName + " has been successfully validated." &&
      db.State() == old(db.State()).(users := old(db.users)[i := old(db.users)[i].(isValidated := true)])
  {
    var me := CurrentUser(db.State(), cookie, host);
    if me.Err? {
      return Err(me.error);
    }
    if !IsAdmin(me.value.role) {
      return Err(Impermissible);
    }
    var i := FirstIndex(db.users, (u: UserAccount) => u.email == email);
    if i == -1 {
      return Err(UserNotFound);
    }
    var merchant := db.users[i];
    db.users := db.users[i := merchant.(isValidated := true)];
    return Ok("Merchant: " + merchant.fullName + " has been successfully validated.");
  }

  /** A validated merchant account appears in the validated-account listing. */
  lemma ValidatedMerchantListed(db: Db, i: int)
    requires 0 <= i < |db.users|
    ensures var d := db.(users := db.users[i := db.users[i].(isValidated := true)]);
      exists role :: ListingOf(JoinedRow(d.users[i], role)) in GetUsers(d)
  {
    var d := db.(users := db.users[i := db.users[i].(isValidated := true)]);
    GetUsersValidatedOnly(d);
    assert d.users[i] in d.users;
  }
}
