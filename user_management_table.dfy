/**
 * client/src/components/administrator/UserManagementTable.js: the
 * administrator's table of accounts, the role-change dialog, the deletion
 * dialog and the message built from the server's deletion report. Server
 * answers are inputs.
 */
module UserManagementTable {
  import opened Wrappers
  import opened Strings
  import opened Lists
  import Admin
  import Users
  import Tables

  /** The `role` object of a /users entry: both parts are null for an account without a role. */
  datatype RoleRef = RoleRef(id: Option<int>, name: Option<string>)

  /** A table row: one entry of the /users answer. */
  datatype Row = Row(fullName: string, email: string, phoneNumber: string, createdAt: int, role: RoleRef)

  /** The JSON the server writes for one listing. */
  function RowOf(l: Admin.AccountListing): (r: Row)
    ensures r.email == l.email && r.fullName == l.fullName
    ensures r.role.id.Some? <==> l.role.Some?
    ensures l.role.Some? ==> r.role == RoleRef(Some(l.role.value.roleId), Some(l.role.value.roleName))
  {
    Row(l.fullName, l.email, l.phoneNumber, l.createdAt,
        if l.role.None? then RoleRef(None, None) else RoleRef(Some(l.role.value.roleId), Some(l.role.value.roleName)))
  }

  /** The rows after a successful role change: the rows with that email get the new role, every other row is kept. */
  function WithRole(rows: seq<Row>, email: string, role: RoleRef): (r: seq<Row>)
    ensures |r| == |rows|
    ensures forall i :: 0 <= i < |rows| && rows[i].email != email ==> r[i] == rows[i]
    ensures forall i :: 0 <= i < |rows| && rows[i].email == email ==> r[i] == rows[i].(role := role)
  {
    if |rows| == 0 then []
    else [if rows[0].email == email then rows[0].(role := role) else rows[0]] + WithRole(rows[1..], email, role)
  }

  /** A role change keeps the emails, so the table's row ids, in order. */
  lemma {:induction false} WithRoleKeepsEmails(rows: seq<Row>, email: string, role: RoleRef)
    ensures Emails(WithRole(rows, email, role)) == Emails(rows)
  {
    if |rows| > 0 {
      WithRoleKeepsEmails(rows[1..], email, role);
    }
  }

  function Emails(rows: seq<Row>): seq<string> {
    if |rows| == 0 then [] else [rows[0].email] + Emails(rows[1..])
  }

  predicate HasEmail(email: string, r: Row) {
    r.email == email
  }

  /** The rows after a deletion: every row with that email goes, the others stay in order. */
  function WithoutEmail(rows: seq<Row>, email: string): (r: seq<Row>)
    ensures forall x :: x in r <==> x in rows && x.email != email
    ensures |r| + Count(rows, (x: Row) => HasEmail(email, x)) == |rows|
  {
    RemoveMembers(rows, (x: Row) => HasEmail(email, x));
    RemoveCount(rows, (x: Row) => HasEmail(email, x));
    Remove(rows, (x: Row) => HasEmail(email, x))
  }

  /** `${value} ${key.replace(/_/g, ' ')}`. */
  function EntryText(key: string, count: int): (t: string)
    requires count > 0
    ensures var n := NatToString(count);
      |t| == |n| + 1 + |key| && t[..|n|] == n && t[|n|] == ' ' && '_' !in t[|n| + 1..]
  {
    NatToString(count) + " " + ReplaceChar(key, '_', ' ')
  }

  predicate Positive(e: (string, int)) {
    e.1 > 0
  }

  /** The texts of the report's entries with a positive count, in report order. */
  function Entries(report: Users.Report): (parts: seq<string>)
    ensures forall i :: 0 <= i < |parts| ==> parts[i] != ""
  {
    if |report| == 0 then []
    else if report[0].1 > 0 then [EntryText(report[0].0, report[0].1)] + Entries(report[1..])
    else Entries(report[1..])
  }

  /** One text per positive entry, none for the others. */
  lemma {:induction false} EntriesCount(report: Users.Report)
    ensures |Entries(report)| == Count(report, Positive)
  {
    if |report| > 0 {
      EntriesCount(report[1..]);
    }
  }

  /** There is nothing to list exactly when no count is positive. */
  lemma {:induction false} EntriesEmpty(report: Users.Report)
    ensures Entries(report) == [] <==> forall i :: 0 <= i < |report| ==> report[i].1 <= 0
  {
    if |report| > 0 {
      EntriesEmpty(report[1..]);
      assert forall i :: 1 <= i < |report| ==> report[i] == report[1..][i - 1];
    }
  }

  lemma {:induction false} EntriesAppend(a: Users.Report, b: Users.Report)
    ensures Entries(a + b) == Entries(a) + Entries(b)
  {
    if |a| == 0 {
      assert a + b == b;
    } else {
      var x, r := a[0], a[1..];
      var h := if x.1 > 0 then [EntryText(x.0, x.1)] else [];
      assert a == [x] + r;
      assert a + b == [x] + (r + b);
      EntriesAppend(r, b);
      EntriesCons(x, r + b);
      EntriesCons(x, r);
      calc {
        Entries(a + b);
        h + Entries(r + b);
        h + (Entries(r) + Entries(b));
        (h + Entries(r)) + Entries(b);
        Entries(a) + Entries(b);
      }
    }
  }

  lemma EntriesCons(x: (string, int), r: Users.Report)
    ensures Entries([x] + r) == (if x.1 > 0 then [EntryText(x.0, x.1)] else []) + Entries(r)
  {
    assert ([x] + r)[1..] == r;
  }

  /** The details joined with ", ": empty exactly when no count is positive. */
  function Details(report: Users.Report): (d: string)
  {
    Join(Entries(report), ", ")
  }

  lemma DetailsEmpty(report: Users.Report)
    ensures Details(report) == "" <==> forall i :: 0 <= i < |report| ==> report[i].1 <= 0
  {
    EntriesEmpty(report);
    var parts := Entries(report);
    if |parts| > 0 {
      assert Details(report)[..|parts[0]|] == parts[0];
    }
  }

  /** The success message of `confirmDeleteUser`. */
  function DeletionMessage(fullName: string, report: Option<Users.Report>): (m: string)
    ensures StartsWith(m, "User '" + fullName + "' deleted.")
    ensures report.None? ==> m == "User '" + fullName + "' deleted."
  {
    var head := "User '" + fullName + "' deleted.";
    var d := if report.None? then "" else Details(report.value);
    var m := if d != "" then head + " Cleaned up: " + d + "." else head;
    assert m[..|head|] == head;
    m
  }

  /** The "Cleaned up" clause is left out exactly when no count is positive, and otherwise lists the details. */
  lemma CleanedUpClause(fullName: string, report: Users.Report)
    ensures DeletionMessage(fullName, Some(report)) == "User '" + fullName + "' deleted." <==>
      forall i :: 0 <= i < |report| ==> report[i].1 <= 0
    ensures (exists i :: 0 <= i < |report| && report[i].1 > 0) ==>
      DeletionMessage(fullName, Some(report)) == "User '" + fullName + "' deleted. Cleaned up: " + Details(report) + "."
  {
    var head := "User '" + fullName + "' deleted.";
    var d := Details(report);
    var m := DeletionMessage(fullName, Some(report));
    assert m == (if d != "" then head + " Cleaned up: " + d + "." else head);
    DetailsEmpty(report);
    if d != "" {
      ClauseLonger(head, d);
    }
  }

  lemma ClauseLonger(head: string, d: string)
    requires d != ""
    ensures head + " Cleaned up: " + d + "." != head
  {
    assert |head + " Cleaned up: " + d + "."| > |head|;
  }

  lemma {:induction false} JoinLast(parts: seq<string>, last: string, sep: string)
    ensures EndsWith(Join(parts + [last], sep), last)
  {
    if |parts| > 0 {
      JoinLast(parts[1..], last, sep);
      assert (parts + [last])[1..] == parts[1..] + [last];
    }
  }

  lemma LastEntry(front: Users.Report, key: string, count: int)
    requires count > 0
    ensures Entries(front + [(key, count)]) == Entries(front) + [EntryText(key, count)]
  {
    EntriesAppend(front, [(key, count)]);
    assert Entries([(key, count)]) == [EntryText(key, count)] + Entries([]);
  }

  /** A report whose last count is positive gets a "Cleaned up" clause ending with that entry. */
  lemma LastPositiveCleanedUp(fullName: string, report: Users.Report)
    requires |report| > 0 && report[|report| - 1].1 > 0
    ensures DeletionMessage(fullName, Some(report)) == "User '" + fullName + "' deleted. Cleaned up: " + Details(report) + "."
    ensures EndsWith(Details(report), EntryText(report[|report| - 1].0, report[|report| - 1].1))
  {
    var last := report[|report| - 1];
    assert report == report[..|report| - 1] + [last];
    LastEntry(report[..|report| - 1], last.0, last.1);
    JoinLast(Entries(report[..|report| - 1]), EntryText(last.0, last.1), ", ");
    CleanedUpClause(fullName, report);
  }

  /**
   * The server's report always ends by counting the deleted account, so the
   * message for it always has a "Cleaned up" clause, whose last item is that
   * account.
   */
  lemma ServerReportCleanedUp(fullName: string, db: Tables.Db, userId: int)
    ensures var report := Users.DeletionReport(db, userId);
      |report| > 0 && report[|report| - 1] == ("users_deleted", 1) &&
      DeletionMessage(fullName, Some(report)) == "User '" + fullName + "' deleted. Cleaned up: " + Details(report) + "." &&
      EndsWith(Details(report), EntryText(report[|report| - 1].0, 1))
  {
    var report := Users.DeletionReport(db, userId);
    assert report[|report| - 1] == ("users_deleted", 1);
    LastPositiveCleanedUp(fullName, report);
  }

  /** How DELETE /users/{email} ends: deleted with an optional report, refused with a detail and status text, or failed. */
  datatype DeleteOutcome = Removed(report: Option<Users.Report>) | Refused(detail: string, statusText: string) | Failed(message: string)

  /** The error snackbar's text. */
  function DeleteErrorText(outcome: DeleteOutcome): (t: string)
    requires !outcome.Removed?
    ensures outcome.Refused? && outcome.detail != "" ==> t == outcome.detail
    ensures outcome.Refused? && outcome.detail == "" ==> t == "Failed to delete user: " + outcome.statusText
    ensures outcome.Failed? ==> t == outcome.message
  {
    match outcome
    case Refused(detail, statusText) => if detail != "" then detail else "Failed to delete user: " + statusText
    case Failed(message) => message
  }

  datatype Severity = Success | Error

  datatype Snackbar = Snackbar(open: bool, message: string, severity: Severity)

  class Table {
    var userData: seq<Row>
    var selectedRow: Option<string>
    var selectedRole: Option<Option<int>>
    var newRole: Option<int>
    var dialogOpen: bool
    var deleteDialogOpen: bool
    var userToDelete: Option<Row>
    var snackbar: Snackbar

    /** The role dialog is open only with a pending row and role. */
    predicate Valid()
      reads this
    {
      dialogOpen ==> selectedRow.Some? && newRole.Some?
    }

    constructor()
      ensures userData == [] && selectedRow == None && selectedRole == None && newRole == None
      ensures !dialogOpen && !deleteDialogOpen && userToDelete == None
      ensures snackbar == Snackbar(false, "", Success)
      ensures Valid()
    {
      userData, selectedRow, selectedRole, newRole := [], None, None, None;
      dialogOpen, deleteDialogOpen, userToDelete := false, false, None;
      snackbar := Snackbar(false, "", Success);
    }

    /** The first effect, given the /users answer. */
    method LoadUsers(listings: seq<Admin.AccountListing>)
      modifies this
      ensures |userData| == |listings|
      ensures forall i :: 0 <= i < |listings| ==> userData[i] == RowOf(listings[i])
      ensures selectedRow == old(selectedRow) && selectedRole == old(selectedRole) && newRole == old(newRole)
      ensures dialogOpen == old(dialogOpen) && deleteDialogOpen == old(deleteDialogOpen)
      ensures userToDelete == old(userToDelete) && snackbar == old(snackbar)
    {
      userData := seq(|listings|, i requires 0 <= i < |listings| => RowOf(listings[i]));
    }

    /** The role selector is enabled only on the row being edited. */
    predicate SelectorEnabled(r: Row)
      reads this
    {
      selectedRow == Some(r.email)
    }

    /** The selector's value: the pending role (when truthy) on the row being edited, the row's own role elsewhere. */
    function SelectorValue(r: Row): (v: Option<int>)
      reads this
      ensures !SelectorEnabled(r) ==> v == r.role.id
      ensures SelectorEnabled(r) && newRole.Some? && newRole.value != 0 ==> v == newRole
    {
      if newRole.Some? && newRole.value != 0 && selectedRow == Some(r.email) then newRole else r.role.id
    }

    /** The settings button of a row: that row becomes the one being edited. */
    method ClickSettings(email: string)
      modifies this
      ensures selectedRow == Some(email)
      ensures old(Valid()) ==> Valid()
      ensures userData == old(userData) && selectedRole == old(selectedRole) && newRole == old(newRole)
      ensures dialogOpen == old(dialogOpen) && deleteDialogOpen == old(deleteDialogOpen)
      ensures userToDelete == old(userToDelete) && snackbar == old(snackbar)
    {
      selectedRow := Some(email);
    }

    /** `handleRoleSelect`: the row, its old role and the new role are recorded and the dialog opens. */
    method HandleRoleSelect(email: string, oldRole: Option<int>, role: int)
      modifies this
      ensures selectedRow == Some(email) && selectedRole == Some(oldRole) && newRole == Some(role) && dialogOpen
      ensures Valid()
      ensures userData == old(userData) && deleteDialogOpen == old(deleteDialogOpen)
      ensures userToDelete == old(userToDelete) && snackbar == old(snackbar)
    {
      selectedRow := Some(email);
      selectedRole := Some(oldRole);
      newRole := Some(role);
      dialogOpen := true;
    }

    /** `cancelRoleChange`: the dialog closes and the pending row and roles are cleared. */
    method CancelRoleChange()
      modifies this
      ensures !dialogOpen && selectedRow == None && selectedRole == None && newRole == None
      ensures Valid()
      ensures userData == old(userData) && deleteDialogOpen == old(deleteDialogOpen)
      ensures userToDelete == old(userToDelete) && snackbar == old(snackbar)
    {
      dialogOpen := false;
      selectedRow := None;
      selectedRole := None;
      newRole := None;
    }

    /**
     * `confirmRoleChange`, given the role name of a successful PATCH (None
     * for a failure): on success only the rows of the pending email get the
     * new role, the dialog closes and the pending row and role are cleared
     * (the old role is kept); a failure changes nothing.
     */
    method ConfirmRoleChange(answer: Option<string>)
      requires Valid() && dialogOpen
      modifies this
      ensures Valid()
      ensures answer.None? ==>
        userData == old(userData) && dialogOpen && selectedRow == old(selectedRow) && newRole == old(newRole)
      ensures answer.Some? ==>
        userData == WithRole(old(userData), old(selectedRow).value, RoleRef(old(newRole), answer)) &&
        !dialogOpen && newRole == None && selectedRow == None
      ensures selectedRole == old(selectedRole) && deleteDialogOpen == old(deleteDialogOpen)
      ensures userToDelete == old(userToDelete) && snackbar == old(snackbar)
    {
      if answer.None? {
        return;
      }
      userData := WithRole(userData, selectedRow.value, RoleRef(newRole, answer));
      dialogOpen := false;
      newRole := None;
      selectedRow := None;
    }

    /** `handleDeleteUser`: the first row with that email (if any) is pending and the dialog opens. */
    method HandleDeleteUser(email: string)
      modifies this
      ensures deleteDialogOpen
      ensures userToDelete.None? <==> forall i :: 0 <= i < |userData| ==> userData[i].email != email
      ensures userToDelete.Some? ==> userToDelete.value == userData[FirstIndex(userData, (r: Row) => HasEmail(email, r))]
      ensures userData == old(userData) && selectedRow == old(selectedRow) && selectedRole == old(selectedRole)
      ensures newRole == old(newRole) && dialogOpen == old(dialogOpen) && snackbar == old(snackbar)
    {
      var i := FirstIndex(userData, (r: Row) => HasEmail(email, r));
      userToDelete := if i == -1 then None else Some(userData[i]);
      deleteDialogOpen := true;
    }

    /** The deletion dialog's cancel: the pending user stays recorded. */
    method CancelDeleteUser()
      modifies this
      ensures !deleteDialogOpen
      ensures userData == old(userData) && selectedRow == old(selectedRow) && selectedRole == old(selectedRole)
      ensures newRole == old(newRole) && dialogOpen == old(dialogOpen)
      ensures userToDelete == old(userToDelete) && snackbar == old(snackbar)
    {
      deleteDialogOpen := false;
    }

    /**
     * `confirmDeleteUser`, given how the DELETE ends: nothing happens without
     * a pending user; a deletion removes exactly the rows with that email,
     * reports the cleanup and closes the dialog; a failure only shows its
     * error.
     */
    method ConfirmDeleteUser(outcome: DeleteOutcome)
      modifies this
      ensures old(userToDelete).None? ==>
        userData == old(userData) && deleteDialogOpen == old(deleteDialogOpen) &&
        userToDelete == old(userToDelete) && snackbar == old(snackbar)
      ensures old(userToDelete).Some? && outcome.Removed? ==>
        userData == WithoutEmail(old(userData), old(userToDelete).value.email) &&
        snackbar == Snackbar(true, DeletionMessage(old(userToDelete).value.fullName, outcome.report), Success) &&
        !deleteDialogOpen && userToDelete == None
      ensures old(userToDelete).Some? && !outcome.Removed? ==>
        userData == old(userData) && deleteDialogOpen == old(deleteDialogOpen) && userToDelete == old(userToDelete) &&
        snackbar == Snackbar(true, DeleteErrorText(outcome), Error)
      ensures selectedRow == old(selectedRow) && selectedRole == old(selectedRole)
      ensures newRole == old(newRole) && dialogOpen == old(dialogOpen)
    {
      if userToDelete.None? {
        return;
      }
      var user := userToDelete.value;
      if outcome.Removed? {
        snackbar := Snackbar(true, DeletionMessage(user.fullName, outcome.report), Success);
        userData := WithoutEmail(userData, user.email);
        deleteDialogOpen := false;
        userToDelete := None;
      } else {
        snackbar := Snackbar(true, DeleteErrorText(outcome), Error);
      }
    }

    /** The snackbar's close: only its open flag changes. */
    method CloseSnackbar()
      modifies this
      ensures snackbar == old(snackbar).(open := false)
      ensures userData == old(userData) && selectedRow == old(selectedRow) && selectedRole == old(selectedRole)
      ensures newRole == old(newRole) && dialogOpen == old(dialogOpen)
      ensures deleteDialogOpen == old(deleteDialogOpen) && userToDelete == old(userToDelete)
    {
      snackbar := snackbar.(open := false);
    }
  }
}
