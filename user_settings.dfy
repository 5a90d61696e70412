/**
 * client/src/routes/UserSettings.js: the settings page's keyed form state,
 * the change-password guard, the section switch and the account-deletion
 * flow. Server answers are inputs.
 */
module UserSettings {
  import opened Wrappers
  import Strings

  /** A value of one of the page's state objects, read as JavaScript does: a missing key reads as empty. */
  function Get(m: map<string, string>, k: string): string {
    if k in m then m[k] else ""
  }

  /** The three password inputs. */
  datatype PasswordData = PasswordData(currentPassword: string, newPassword: string, confirmPassword: string)

  /** `mismatch`: a confirmation has been typed and differs from the new password. */
  predicate Mismatch(p: PasswordData) {
    p.confirmPassword != "" && p.newPassword != p.confirmPassword
  }

  /** `disabled` of the update button. */
  predicate UpdateDisabled(p: PasswordData) {
    p.currentPassword == "" || p.newPassword == "" || Mismatch(p)
  }

  /**
   * The button lets a request through only with both passwords given and a
   * confirmation that is empty or equal to the new password; an empty
   * confirmation does not block it, and the server then refuses the change,
   * because it requires the new password to equal the confirmation.
   */
  lemma UpdateGuard(p: PasswordData)
    ensures !UpdateDisabled(p) <==>
      p.currentPassword != "" && p.newPassword != "" && (p.confirmPassword == "" || p.confirmPassword == p.newPassword)
    ensures p.currentPassword != "" && p.newPassword != "" && p.confirmPassword == "" ==>
      !UpdateDisabled(p) && p.newPassword != p.confirmPassword
  {
  }

  /** The four panels of the page. */
  datatype Panel = AccountDetails | Profile | Password | Notifications

  /** `renderContent`: the panel of a section name, none for any other name. */
  function RenderContent(section: string): (r: Option<Panel>)
    ensures r.Some? <==> section in {"Account Details", "Profile", "Password", "Notifications"}
  {
    match section
    case "Account Details" => Some(AccountDetails)
    case "Profile" => Some(Profile)
    case "Password" => Some(Password)
    case "Notifications" => Some(Notifications)
    case _ => None
  }

  /** Each section name shows its own panel: no two names share one. */
  lemma RenderContentInjective(a: string, b: string)
    requires RenderContent(a).Some? && RenderContent(a) == RenderContent(b)
    ensures a == b
  {
  }

  /** How the DELETE /users/ request ends: deleted, refused with a status and a body, or failed before an answer. */
  datatype DeleteOutcome = Deleted | Refused(status: nat, body: string) | Failed(message: string)

  /** The error text the dialog shows for a failed deletion. */
  function DeleteErrorText(outcome: DeleteOutcome): (t: string)
    requires !outcome.Deleted?
    ensures t != ""
    ensures outcome.Refused? && outcome.body != "" ==> t == outcome.body
    ensures outcome.Refused? && outcome.body == "" ==> t == "HTTP " + Strings.NatToString(outcome.status)
    ensures outcome.Failed? ==> t == (if outcome.message == "" then "Failed to delete account" else outcome.message)
  {
    match outcome
    case Refused(status, body) => if body != "" then body else "HTTP " + Strings.NatToString(status)
    case Failed(message) => if message != "" then message else "Failed to delete account"
  }

  /** The body posted to /changePassword. */
  datatype PasswordRequest = PasswordRequest(current_password: string, new_password: string, confirm_new_password: string)

  class Settings {
    var selectedSection: string
    var formData: map<string, string>
    var passwordData: map<string, string>
    var notifications: map<string, bool>
    var passwordChanged: bool
    var saveMessage: string
    var deleteDialogOpen: bool
    var deleteBusy: bool
    var deleteError: string
    var isUserLoggedIn: bool

    constructor()
      ensures selectedSection == "Account Details"
      ensures Passwords() == PasswordData("", "", "") && UpdateDisabled(Passwords())
      ensures "emailNotifications" in notifications && notifications["emailNotifications"]
      ensures "smsNotifications" in notifications && !notifications["smsNotifications"]
      ensures !passwordChanged && saveMessage == ""
      ensures !deleteDialogOpen && !deleteBusy && deleteError == "" && !isUserLoggedIn
    {
      selectedSection := "Account Details";
      formData := map[
        "username" := "user1", "email" := "user@gmail.com", "phone" := "0412 345 678",
        "address" := "Mawson Lakes, 5095 SA", "country" := "AU", "language" := "English",
        "firstName" := "John", "lastName" := "Doe", "dateOfBirth" := "1990-01-01",
        "height" := "", "weight" := ""];
      passwordData := map["currentPassword" := "", "newPassword" := "", "confirmPassword" := ""];
      notifications := map[
        "emailNotifications" := true, "smsNotifications" := false, "pushNotifications" := true,
        "healthReminders" := true, "reportUpdates" := true, "systemAlerts" := false];
      passwordChanged, saveMessage := false, "";
      deleteDialogOpen, deleteBusy, deleteError, isUserLoggedIn := false, false, "", false;
    }

    /** The password inputs as the Password panel reads them. */
    function Passwords(): PasswordData
      reads this
    {
      PasswordData(Get(passwordData, "currentPassword"), Get(passwordData, "newPassword"), Get(passwordData, "confirmPassword"))
    }

    /** `updateForm`: only key k of the profile changes. */
    method UpdateForm(k: string, v: string)
      modifies this
      ensures formData == old(formData)[k := v]
      ensures forall j :: j != k && j in old(formData) ==> j in formData && formData[j] == old(formData)[j]
      ensures passwordData == old(passwordData) && notifications == old(notifications)
      ensures selectedSection == old(selectedSection) && passwordChanged == old(passwordChanged) && saveMessage == old(saveMessage)
      ensures deleteDialogOpen == old(deleteDialogOpen) && deleteBusy == old(deleteBusy)
      ensures deleteError == old(deleteError) && isUserLoggedIn == old(isUserLoggedIn)
    {
      formData := formData[k := v];
    }

    /** `updatePwd`: only key k of the password inputs changes. */
    method UpdatePwd(k: string, v: string)
      modifies this
      ensures passwordData == old(passwordData)[k := v]
      ensures forall j :: j != k && j in old(passwordData) ==> j in passwordData && passwordData[j] == old(passwordData)[j]
      ensures formData == old(formData) && notifications == old(notifications)
      ensures selectedSection == old(selectedSection) && passwordChanged == old(passwordChanged) && saveMessage == old(saveMessage)
      ensures deleteDialogOpen == old(deleteDialogOpen) && deleteBusy == old(deleteBusy)
      ensures deleteError == old(deleteError) && isUserLoggedIn == old(isUserLoggedIn)
    {
      passwordData := passwordData[k := v];
    }

    /** `updateNotify`: only key k of the notification switches changes. */
    method UpdateNotify(k: string, v: bool)
      modifies this
      ensures notifications == old(notifications)[k := v]
      ensures forall j :: j != k && j in old(notifications) ==> j in notifications && notifications[j] == old(notifications)[j]
      ensures formData == old(formData) && passwordData == old(passwordData)
      ensures selectedSection == old(selectedSection) && passwordChanged == old(passwordChanged) && saveMessage == old(saveMessage)
      ensures deleteDialogOpen == old(deleteDialogOpen) && deleteBusy == old(deleteBusy)
      ensures deleteError == old(deleteError) && isUserLoggedIn == old(isUserLoggedIn)
    {
      notifications := notifications[k := v];
    }

    /** `handleSave`: nothing is sent; the section's confirmation is shown. */
    method HandleSave(section: string)
      modifies this
      ensures saveMessage == section + " saved successfully!"
      ensures formData == old(formData) && passwordData == old(passwordData) && notifications == old(notifications)
      ensures selectedSection == old(selectedSection) && passwordChanged == old(passwordChanged)
      ensures deleteDialogOpen == old(deleteDialogOpen) && deleteBusy == old(deleteBusy)
      ensures deleteError == old(deleteError) && isUserLoggedIn == old(isUserLoggedIn)
    {
      saveMessage := section + " saved successfully!";
    }

    /** The timer `handleSave` starts, when it fires. */
    method ClearSaveMessage()
      modifies this
      ensures saveMessage == ""
      ensures formData == old(formData) && passwordData == old(passwordData) && notifications == old(notifications)
      ensures selectedSection == old(selectedSection) && passwordChanged == old(passwordChanged)
      ensures deleteDialogOpen == old(deleteDialogOpen) && deleteBusy == old(deleteBusy)
      ensures deleteError == old(deleteError) && isUserLoggedIn == old(isUserLoggedIn)
    {
      saveMessage := "";
    }

    /** `handleTabChange`. */
    method SelectSection(section: string)
      modifies this
      ensures selectedSection == section
      ensures formData == old(formData) && passwordData == old(passwordData) && notifications == old(notifications)
      ensures passwordChanged == old(passwordChanged) && saveMessage == old(saveMessage)
      ensures deleteDialogOpen == old(deleteDialogOpen) && deleteBusy == old(deleteBusy)
      ensures deleteError == old(deleteError) && isUserLoggedIn == old(isUserLoggedIn)
    {
      selectedSection := section;
    }

    /**
     * `handleChangePassword`, given whether the server answered OK: the
     * success flag is cleared, the three inputs are posted, and the flag is
     * set again only on an OK answer.
     */
    method HandleChangePassword(responseOk: bool) returns (request: PasswordRequest)
      modifies this
      ensures request == PasswordRequest(Passwords().currentPassword, Passwords().newPassword, Passwords().confirmPassword)
      ensures passwordChanged == responseOk
      ensures formData == old(formData) && passwordData == old(passwordData) && notifications == old(notifications)
      ensures selectedSection == old(selectedSection) && saveMessage == old(saveMessage)
      ensures deleteDialogOpen == old(deleteDialogOpen) && deleteBusy == old(deleteBusy)
      ensures deleteError == old(deleteError) && isUserLoggedIn == old(isUserLoggedIn)
    {
      passwordChanged := false;
      var p := Passwords();
      request := PasswordRequest(p.currentPassword, p.newPassword, p.confirmPassword);
      if responseOk {
        passwordChanged := true;
      }
    }

    /** `checkLoginStatus`, given whether /user/me answered OK (a network failure counts as not OK). */
    method CheckLoginStatus(meOk: bool)
      modifies this
      ensures isUserLoggedIn == meOk
      ensures formData == old(formData) && passwordData == old(passwordData) && notifications == old(notifications)
      ensures selectedSection == old(selectedSection) && passwordChanged == old(passwordChanged) && saveMessage == old(saveMessage)
      ensures deleteDialogOpen == old(deleteDialogOpen) && deleteBusy == old(deleteBusy) && deleteError == old(deleteError)
    {
      isUserLoggedIn := meOk;
    }

    /** The delete button is enabled only for a logged-in user with no deletion under way. */
    predicate DeleteEnabled()
      reads this
    {
      isUserLoggedIn && !deleteBusy
    }

    /** The delete button's click: it opens the dialog, and does nothing while the button is disabled. */
    method ClickDelete()
      modifies this
      ensures deleteDialogOpen == (old(deleteDialogOpen) || old(DeleteEnabled()))
      ensures formData == old(formData) && passwordData == old(passwordData) && notifications == old(notifications)
      ensures selectedSection == old(selectedSection) && passwordChanged == old(passwordChanged) && saveMessage == old(saveMessage)
      ensures deleteBusy == old(deleteBusy) && deleteError == old(deleteError) && isUserLoggedIn == old(isUserLoggedIn)
    {
      if DeleteEnabled() {
        deleteDialogOpen := true;
      }
    }

    /** The dialog's cancel. */
    method CancelDelete()
      modifies this
      ensures !deleteDialogOpen
      ensures formData == old(formData) && passwordData == old(passwordData) && notifications == old(notifications)
      ensures selectedSection == old(selectedSection) && passwordChanged == old(passwordChanged) && saveMessage == old(saveMessage)
      ensures deleteBusy == old(deleteBusy) && deleteError == old(deleteError) && isUserLoggedIn == old(isUserLoggedIn)
    {
      deleteDialogOpen := false;
    }

    /**
     * The dialog's confirm handler, given how DELETE /users/ ends: nothing
     * happens when logged out; otherwise the request is sent, a deletion
     * closes the dialog and leads to /login, a failure shows its error text,
     * and the busy flag is cleared at the end.
     */
    method ConfirmDelete(outcome: DeleteOutcome) returns (requested: bool, navigateTo: Option<string>)
      modifies this
      ensures requested <==> old(isUserLoggedIn)
      ensures navigateTo.Some? <==> requested && outcome.Deleted?
      ensures navigateTo.Some? ==> navigateTo.value == "/login"
      ensures !requested ==>
        deleteDialogOpen == old(deleteDialogOpen) && deleteBusy == old(deleteBusy) && deleteError == old(deleteError)
      ensures requested ==> !deleteBusy
      ensures requested && outcome.Deleted? ==> !deleteDialogOpen && deleteError == ""
      ensures requested && !outcome.Deleted? ==>
        deleteDialogOpen == old(deleteDialogOpen) && deleteError == DeleteErrorText(outcome)
      ensures formData == old(formData) && passwordData == old(passwordData) && notifications == old(notifications)
      ensures selectedSection == old(selectedSection) && passwordChanged == old(passwordChanged) && saveMessage == old(saveMessage)
      ensures isUserLoggedIn == old(isUserLoggedIn)
    {
      if !isUserLoggedIn {
        return false, None;
      }
      deleteBusy := true;
      deleteError := "";
      if outcome.Deleted? {
        deleteDialogOpen := false;
        navigateTo := Some("/login");
      } else {
        deleteError := DeleteErrorText(outcome);
        navigateTo := None;
      }
      deleteBusy := false;
      requested := true;
    }
  }
}
