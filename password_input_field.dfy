/**
 * client/src/components/authentication/PasswordInputField.js: a password
 * input that checks the entered length, reports the (optionally truncated)
 * password to its parent and shows an error text.
 */
module PasswordInputField {
  import opened Wrappers
  import Authentication

  const MinLength := 14
  const MaxLength := 65

  /** A character above U+FFFF, which UTF-16 writes as a surrogate pair. */
  predicate Astral(c: char) {
    c as int >= 0x10000
  }

  /** Text whose characters all lie in the Basic Multilingual Plane. */
  predicate BasicPlane(s: string) {
    forall i :: 0 <= i < |s| ==> !Astral(s[i])
  }

  /**
   * JavaScript's `s.length`: the number of UTF-16 code units, one per
   * character and one more for each character above U+FFFF.
   */
  function JsLength(s: string): (n: nat)
    ensures |s| <= n <= 2 * |s|
  {
    if |s| == 0 then 0
    else (if Astral(s[0]) then 2 else 1) + JsLength(s[1..])
  }

  /** In the Basic Multilingual Plane, JavaScript's length is the number of characters. */
  lemma {:induction false} BasicPlaneLength(s: string)
    requires BasicPlane(s)
    ensures JsLength(s) == |s|
  {
    if |s| > 0 {
      BasicPlaneLength(s[1..]);
    }
  }

  /** Text made only of characters above U+FFFF has twice as many code units as characters. */
  lemma {:induction false} AstralLength(s: string)
    requires forall i :: 0 <= i < |s| ==> Astral(s[i])
    ensures JsLength(s) == 2 * |s|
  {
    if |s| > 0 {
      AstralLength(s[1..]);
    }
  }

  /**
   * `isPasswordValid`: non-empty, and with restrictLength strictly between 14
   * and 65 UTF-16 code units.
   */
  function PasswordValid(restrictLength: bool, password: string): (v: bool)
    ensures |password| == 0 ==> !v
    ensures !restrictLength ==> (v <==> |password| > 0)
    ensures restrictLength ==> (v <==> MinLength < JsLength(password) < MaxLength)
  {
    if JsLength(password) == 0 then false
    else if restrictLength then MinLength < JsLength(password) < MaxLength
    else true
  }

  /**
   * With the length restriction, the field accepts exactly what the server's
   * is_password_valid accepts when every character lies in the Basic
   * Multilingual Plane; on any text, what it accepts is short enough for the
   * server.
   */
  lemma ClientMatchesServer(password: string)
    ensures BasicPlane(password) ==> (PasswordValid(true, password) <==> Authentication.IsPasswordValid(password))
    ensures PasswordValid(true, password) ==> |password| <= Authentication.PasswordMaxLength
  {
    if BasicPlane(password) {
      BasicPlaneLength(password);
    }
  }

  /**
   * JavaScript counts code units and Python code points: eight emoji have
   * length 16 in the browser, so the field accepts them, and length 8 on the
   * server, which refuses them.
   */
  lemma AstralPasswordRefused(password: string)
    requires password == seq(8, _ => '\U{1F600}')
    ensures PasswordValid(true, password) && !Authentication.IsPasswordValid(password)
  {
    AstralLength(password);
  }

  /** What the field hands to its parent's onChange. */
  datatype PasswordReport = PasswordReport(isValid: bool, password: string)

  /**
   * `inputPassword.substring(0, MAX_LENGTH-1)` under truncate: a prefix of at
   * most 64 UTF-16 code units, the whole input when it fits.
   */
  function Reported(truncate: bool, input: string): (p: string)
    ensures !truncate ==> p == input
    ensures truncate ==> |p| <= |input| && p == input[..|p|] && JsLength(p) <= MaxLength - 1
    ensures JsLength(input) < MaxLength ==> p == input
  {
    if truncate then input[..UnitCount(input, MaxLength - 1)] else input
  }

  /**
   * The number of characters in the longest prefix of s of at most n UTF-16
   * code units: one character more would exceed n.
   */
  function UnitCount(s: string, n: nat): (k: nat)
    ensures k <= |s| && JsLength(s[..k]) <= n
    ensures JsLength(s) <= n ==> k == |s|
    ensures k < |s| ==> JsLength(s[..k + 1]) > n
  {
    if |s| == 0 then 0
    else
      var w := if Astral(s[0]) then 2 else 1;
      if w > n then
        SliceStep(s, 0);
        0
      else
        var k := UnitCount(s[1..], n - w);
        SliceStep(s, k);
        if k < |s[1..]| then SliceStep(s, k + 1); k + 1 else k + 1
  }

  /** A prefix of s is its first character in front of a prefix of the rest. */
  lemma SliceStep(s: string, k: nat)
    requires k < |s|
    ensures JsLength(s[..k + 1]) == (if Astral(s[0]) then 2 else 1) + JsLength(s[1..][..k])
  {
    assert s[..k + 1][1..] == s[1..][..k];
  }

  /** A password the restricted field accepts is reported whole, truncated or not. */
  lemma ValidNotTruncated(truncate: bool, input: string)
    requires PasswordValid(true, input)
    ensures Reported(truncate, input) == input
  {
  }

  const RequiredText := "*Required"
  const TooShortText := "Passwords must be longer than 14 characters."
  const TooLongText := "Passwords must be shorter than 65 characters."

  class PasswordField {
    const restrictLength: bool
    const truncate: bool
    const showRequired: bool
    var password: string
    var isValid: bool
    var isAltered: bool

    /** The validity flag always describes the stored password. */
    predicate Valid()
      reads this
    {
      isValid == PasswordValid(restrictLength, password)
    }

    constructor(restrictLength: bool, truncate: bool, showRequired: bool)
      ensures this.restrictLength == restrictLength && this.truncate == truncate && this.showRequired == showRequired
      ensures password == "" && !isValid && !isAltered
      ensures Valid()
    {
      this.restrictLength := restrictLength;
      this.truncate := truncate;
      this.showRequired := showRequired;
      password := "";
      isValid := false;
      isAltered := false;
    }

    /** `updateState`: the field is altered, stores the input and its validity, and reports them. */
    method UpdateState(input: string) returns (report: PasswordReport)
      modifies this
      ensures isAltered && password == input && isValid == PasswordValid(restrictLength, input)
      ensures report == PasswordReport(isValid, Reported(truncate, input))
      ensures Valid()
    {
      isAltered := true;
      var inputValid := PasswordValid(restrictLength, input);
      isValid := inputValid;
      password := input;
      report := PasswordReport(inputValid, Reported(truncate, input));
    }

    /** `displayErrorText`. */
    function ErrorText(): (t: Option<string>)
      reads this
      ensures !isAltered && !showRequired ==> t == None
      ensures (isAltered || showRequired) && (|password| == 0 || showRequired) ==> t == Some(RequiredText)
      ensures t.Some? ==> t.value in {RequiredText, TooShortText, TooLongText}
      ensures !restrictLength && t.Some? ==> t == Some(RequiredText)
    {
      if !isAltered && !showRequired then None
      else if |password| == 0 || showRequired then Some(RequiredText)
      else if restrictLength && JsLength(password) <= MinLength then Some(TooShortText)
      else if restrictLength && JsLength(password) >= MaxLength then Some(TooLongText)
      else None
    }

    /** `isErrorActive`. */
    predicate ErrorActive()
      reads this
    {
      showRequired || (isAltered && !isValid)
    }

    /**
     * Once the field is altered and not forced to show "required", it shows
     * an error text exactly when it is in the error state.
     */
    lemma ErrorTextMatchesFlag()
      requires Valid() && isAltered && !showRequired
      ensures ErrorText().Some? <==> ErrorActive()
    {
    }
  }
}
