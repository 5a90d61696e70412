/**
 * client/src/components/authentication/RegistrationForm.js: the state of the
 * registration form, the alert flags its handlers set, and the guard that
 * decides whether the form is posted to /register.
 */
module RegistrationForm {
  import opened Wrappers
  import opened PasswordInputField
  import Authentication

  /** `nameState`, set by `updateName`. */
  datatype NameState = NameState(isValid: bool, name: string)

  /** What the email field reports; its validity comes from a library outside this model. */
  datatype EmailState = EmailState(isValid: bool, email: string)

  /** What the phone field reports: the formatted number when valid, none when invalid, "" when empty. */
  datatype PhoneState = PhoneState(isValid: bool, phone: Option<string>)

  /** The body posted to /register. */
  datatype RegisterRequest = RegisterRequest(username: string, password: string, email: string, phone: Option<string>, accountType: string)

  class Form {
    var nameState: Option<NameState>
    var emailState: Option<EmailState>
    var phoneState: Option<PhoneState>
    var passwordState: Option<PasswordReport>
    var confirmPassword: string
    var alertNameRequired: bool
    var alertEmailRequired: bool
    var alertPasswordRequired: bool
    var alertPasswordsDontMatch: bool

    constructor()
      ensures nameState == None && emailState == None && phoneState == None && passwordState == None
      ensures confirmPassword == ""
      ensures !alertNameRequired && !alertEmailRequired && !alertPasswordRequired && !alertPasswordsDontMatch
    {
      nameState, emailState, phoneState, passwordState := None, None, None, None;
      confirmPassword := "";
      alertNameRequired, alertEmailRequired, alertPasswordRequired, alertPasswordsDontMatch := false, false, false, false;
    }

    /** `updateName`: a name is valid iff it is non-empty; the alert shows an empty name. */
    method UpdateName(value: string)
      modifies this
      ensures nameState == Some(NameState(value != "", value))
      ensures alertNameRequired <==> value == ""
      ensures emailState == old(emailState) && phoneState == old(phoneState) && passwordState == old(passwordState)
      ensures confirmPassword == old(confirmPassword)
      ensures alertEmailRequired == old(alertEmailRequired) && alertPasswordRequired == old(alertPasswordRequired)
      ensures alertPasswordsDontMatch == old(alertPasswordsDontMatch)
    {
      var valid := value != "";
      nameState := Some(NameState(valid, value));
      alertNameRequired := !valid;
    }

    /** `updateEmail`. */
    method UpdateEmail(e: EmailState)
      modifies this
      ensures emailState == Some(e) && !alertEmailRequired
      ensures nameState == old(nameState) && phoneState == old(phoneState) && passwordState == old(passwordState)
      ensures confirmPassword == old(confirmPassword)
      ensures alertNameRequired == old(alertNameRequired) && alertPasswordRequired == old(alertPasswordRequired)
      ensures alertPasswordsDontMatch == old(alertPasswordsDontMatch)
    {
      alertEmailRequired := false;
      emailState := Some(e);
    }

    /** The phone field's onChange is `setPhoneState` itself. */
    method SetPhoneState(e: PhoneState)
      modifies this
      ensures phoneState == Some(e)
      ensures nameState == old(nameState) && emailState == old(emailState) && passwordState == old(passwordState)
      ensures confirmPassword == old(confirmPassword)
      ensures alertNameRequired == old(alertNameRequired) && alertEmailRequired == old(alertEmailRequired)
      ensures alertPasswordRequired == old(alertPasswordRequired) && alertPasswordsDontMatch == old(alertPasswordsDontMatch)
    {
      phoneState := Some(e);
    }

    /** `updatePassword`: the mismatch alert shows when the confirmation differs or the password is empty. */
    method UpdatePassword(e: PasswordReport)
      modifies this
      ensures passwordState == Some(e) && !alertPasswordRequired
      ensures alertPasswordsDontMatch <==> confirmPassword != e.password || e.password == ""
      ensures nameState == old(nameState) && emailState == old(emailState) && phoneState == old(phoneState)
      ensures confirmPassword == old(confirmPassword)
      ensures alertNameRequired == old(alertNameRequired) && alertEmailRequired == old(alertEmailRequired)
    {
      alertPasswordRequired := false;
      passwordState := Some(e);
      alertPasswordsDontMatch := confirmPassword != e.password || e.password == "";
    }

    /**
     * `updateConfirmPassword`: the confirmation is stored, then
     * `passwordState.password` is read, which throws a TypeError while no
     * password has been entered; `threw` says so, and the alert is then left
     * as it was.
     */
    method UpdateConfirmPassword(value: string) returns (threw: bool)
      modifies this
      ensures confirmPassword == value
      ensures threw <==> old(passwordState).None?
      ensures threw ==> alertPasswordsDontMatch == old(alertPasswordsDontMatch)
      ensures !threw ==> passwordState.Some? && (alertPasswordsDontMatch <==> value != passwordState.value.password || value == "")
      ensures nameState == old(nameState) && emailState == old(emailState) && phoneState == old(phoneState)
      ensures passwordState == old(passwordState)
      ensures alertNameRequired == old(alertNameRequired) && alertEmailRequired == old(alertEmailRequired)
      ensures alertPasswordRequired == old(alertPasswordRequired)
    {
      confirmPassword := value;
      if passwordState.None? {
        return true;
      }
      alertPasswordsDontMatch := value != passwordState.value.password || value == "";
      return false;
    }

    /**
     * `updateAllInputFieldAlerts`: the name alert covers a missing or invalid
     * name, but the email and password alerts only a field never touched.
     */
    method UpdateAllInputFieldAlerts()
      modifies this
      ensures alertNameRequired <==> nameState.None? || !nameState.value.isValid
      ensures alertEmailRequired <==> emailState.None?
      ensures alertPasswordRequired <==> passwordState.None?
      ensures alertPasswordsDontMatch <==>
        passwordState.None? || confirmPassword != passwordState.value.password || confirmPassword == ""
      ensures nameState == old(nameState) && emailState == old(emailState) && phoneState == old(phoneState)
      ensures passwordState == old(passwordState) && confirmPassword == old(confirmPassword)
    {
      alertNameRequired := nameState.None? || !nameState.value.isValid;
      alertEmailRequired := emailState.None?;
      alertPasswordRequired := passwordState.None?;
      alertPasswordsDontMatch := passwordState.None? || confirmPassword != passwordState.value.password || confirmPassword == "";
    }

    /** `isAllInputsValid`. */
    predicate AllInputsValid()
      reads this
    {
      nameState.Some? && nameState.value.isValid &&
      emailState.Some? && emailState.value.isValid &&
      (phoneState.None? || phoneState.value.isValid) &&
      passwordState.Some? && passwordState.value.isValid &&
      passwordState.value.password == confirmPassword
    }

    /**
     * `handleRegistration` up to the request: the alerts are refreshed, and the
     * body is built only when every input is valid, with an untouched phone
     * sent as "".
     */
    method HandleRegistration(accountType: string) returns (request: Option<RegisterRequest>)
      modifies this
      ensures request.Some? <==> AllInputsValid()
      ensures request.Some? ==> request.value == RegisterRequest(
        nameState.value.name, passwordState.value.password, emailState.value.email,
        if phoneState.None? then Some("") else phoneState.value.phone, accountType)
      ensures alertNameRequired <==> nameState.None? || !nameState.value.isValid
      ensures alertEmailRequired <==> emailState.None?
      ensures alertPasswordRequired <==> passwordState.None?
      ensures alertPasswordsDontMatch <==>
        passwordState.None? || confirmPassword != passwordState.value.password || confirmPassword == ""
      ensures nameState == old(nameState) && emailState == old(emailState) && phoneState == old(phoneState)
      ensures passwordState == old(passwordState) && confirmPassword == old(confirmPassword)
    {
      UpdateAllInputFieldAlerts();
      if !AllInputsValid() {
        return None;
      }
      var phone := if phoneState.None? then Some("") else phoneState.value.phone;
      request := Some(RegisterRequest(nameState.value.name, passwordState.value.password, emailState.value.email, phone, accountType));
    }
  }

  /**
   * When the password came from the form's field (length-restricted and
   * truncating) and the form is posted, the password sent is the one typed,
   * it equals the confirmation and is not too long for the server; the server
   * accepts its length when it lies in the Basic Multilingual Plane (see
   * AstralPasswordRefused for text that does not).
   */
  lemma PostedPasswordAccepted(input: string, confirm: string)
    requires var e := PasswordReport(PasswordValid(true, input), Reported(true, input));
      e.isValid && e.password == confirm
    ensures input == confirm && |input| <= Authentication.PasswordMaxLength
    ensures BasicPlane(input) ==> Authentication.IsPasswordValid(input)
  {
    ValidNotTruncated(true, input);
    ClientMatchesServer(input);
  }
}
