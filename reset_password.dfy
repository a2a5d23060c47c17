/**
 * The reset-password screen: the six-slot code, the new password and its
 * confirmation with an error each, the gate before the reset is submitted,
 * and the resend cooldown.
 */
module ResetPassword {
  import opened Wrappers
  import opened Text
  import opened FormRules

  /** The three errors the form shows. */
  datatype Errors = Errors(code: string, newPassword: string, confirmPassword: string)

  const NoErrors := Errors("", "", "")

  /**
   * `validateForm`'s errors: the code is refused when the joined slots do not
   * have six characters; the password and confirmation follow the sign-up rules.
   */
  function Validate(code: seq<string>, newPassword: string, confirmPassword: string): (errors: Errors)
    ensures errors.code != "" <==> |Join(code)| != CodeSlots
    ensures errors.newPassword == PasswordError(newPassword)
    ensures errors.confirmPassword == ConfirmError(confirmPassword, newPassword)
    ensures errors == NoErrors <==>
              |Join(code)| == CodeSlots && Met(newPassword) == AllCriteria && confirmPassword == newPassword
  {
    Errors(if |Join(code)| != CodeSlots then "Please enter the 6-digit code" else "",
           PasswordError(newPassword), ConfirmError(confirmPassword, newPassword))
  }

  /** What a press of the reset button ends in. */
  datatype Outcome =
    | Invalid                           // a rule failed; nothing is submitted
    | PasswordReset(code: string)       // the code was accepted; on to sign-in
    | ResetFailed(code: string, alert: string)  // the code was submitted and refused

  /** What a press of the resend link ends in. */
  datatype ResendOutcome = Blocked | Resent | ResendFailed(alert: string)

  class ResetPasswordScreen {
    const email: string
    var code: seq<string>
    var newPassword: string
    var confirmPassword: string
    var errors: Errors
    var isLoading: bool
    var cooldown: nat

    /** Six slots, each empty or digits, and a cooldown no longer than a full one. */
    predicate Valid()
      reads this
    {
      |code| == CodeSlots && DigitSlots(code) && cooldown <= ResendCooldown
    }

    constructor(email: string)
      ensures Valid() && this.email == email
      ensures code == EmptyCode() && newPassword == "" && confirmPassword == ""
      ensures errors == NoErrors && !isLoading && cooldown == 0
    {
      this.email := email;
      code := EmptyCode();
      newPassword := "";
      confirmPassword := "";
      errors := NoErrors;
      isLoading := false;
      cooldown := 0;
    }

    /**
     * `handleCodeChange`: a value that is neither empty nor digits changes
     * nothing; otherwise slot `index` takes it and the code error is cleared.
     */
    method CodeChange(index: nat, value: string)
      requires Valid() && index < CodeSlots
      modifies this
      ensures Valid()
      ensures code == SetSlot(old(code), index, value)
      ensures errors == if AcceptsSlotValue(value) then old(errors).(code := "") else old(errors)
      ensures newPassword == old(newPassword) && confirmPassword == old(confirmPassword)
      ensures isLoading == old(isLoading) && cooldown == old(cooldown)
    {
      if value != "" && !IsDigitString(value) {
        return;
      }
      code := SetSlot(code, index, value);
      errors := errors.(code := "");
    }

    /** Typing in the new-password field: the value, and its error cleared. */
    method NewPasswordChange(value: string)
      requires Valid()
      modifies this
      ensures Valid()
      ensures newPassword == value && errors == old(errors).(newPassword := "")
      ensures code == old(code) && confirmPassword == old(confirmPassword)
      ensures isLoading == old(isLoading) && cooldown == old(cooldown)
    {
      newPassword := value;
      errors := errors.(newPassword := "");
    }

    /** Typing in the confirmation field: the value, and its error cleared. */
    method ConfirmPasswordChange(value: string)
      requires Valid()
      modifies this
      ensures Valid()
      ensures confirmPassword == value && errors == old(errors).(confirmPassword := "")
      ensures code == old(code) && newPassword == old(newPassword)
      ensures isLoading == old(isLoading) && cooldown == old(cooldown)
    {
      confirmPassword := value;
      errors := errors.(confirmPassword := "");
    }

    /** `validateForm`: show all three errors and report whether there are none. */
    method ValidateForm() returns (ok: bool)
      requires Valid()
      modifies this
      ensures Valid()
      ensures errors == Validate(code, newPassword, confirmPassword)
      ensures ok <==> errors == NoErrors
      ensures code == old(code) && newPassword == old(newPassword) && confirmPassword == old(confirmPassword)
      ensures isLoading == old(isLoading) && cooldown == old(cooldown)
    {
      errors := Validate(code, newPassword, confirmPassword);
      ok := errors == NoErrors;
    }

    /**
     * `handleResetPassword`: nothing is submitted unless the form is valid;
     * then the joined code, six digits, goes out with the new password.
     * `failure` is the provider's error message, or None on success.
     */
    method ResetPassword(failure: Option<string>) returns (outcome: Outcome)
      requires Valid()
      modifies this
      ensures Valid()
      ensures errors == Validate(code, newPassword, confirmPassword)
      ensures outcome.Invalid? <==> errors != NoErrors
      ensures !outcome.Invalid? ==> outcome.code == Join(code) && IsDigitString(outcome.code) && |outcome.code| == CodeSlots
      ensures !outcome.Invalid? ==> (outcome.PasswordReset? <==> failure.None?) && !isLoading
      ensures outcome.ResetFailed? ==> outcome.alert == MessageOr(failure.value, "Please try again")
      ensures outcome.Invalid? ==> isLoading == old(isLoading)
      ensures code == old(code) && newPassword == old(newPassword) && confirmPassword == old(confirmPassword)
      ensures cooldown == old(cooldown)
    {
      var ok := ValidateForm();
      if !ok {
        return Invalid;
      }
      isLoading := true;
      var submitted := Join(code);
      JoinOfDigits(code);
      if failure.None? {
        outcome := PasswordReset(submitted);
      } else {
        outcome := ResetFailed(submitted, MessageOr(failure.value, "Please try again"));
      }
      isLoading := false;
    }

    /**
     * `handleResendCode`: nothing while the cooldown runs; otherwise a new
     * code is requested and, when that succeeds, the full cooldown starts.
     */
    method ResendCode(failure: Option<string>) returns (outcome: ResendOutcome)
      requires Valid()
      modifies this
      ensures Valid()
      ensures old(cooldown) > 0 ==> outcome == Blocked && cooldown == old(cooldown)
      ensures old(cooldown) == 0 && failure.None? ==> outcome == Resent && cooldown == ResendCooldown
      ensures old(cooldown) == 0 && failure.Some? ==>
                outcome == ResendFailed(MessageOr(failure.value, "Please try again")) && cooldown == 0
      ensures code == old(code) && newPassword == old(newPassword) && confirmPassword == old(confirmPassword)
      ensures errors == old(errors) && isLoading == old(isLoading)
    {
      if cooldown > 0 {
        return Blocked;
      }
      if failure.None? {
        cooldown := ResendCooldown;
        outcome := Resent;
      } else {
        outcome := ResendFailed(MessageOr(failure.value, "Please try again"));
      }
    }

    /** One run of the countdown effect. */
    method CooldownTick()
      requires Valid()
      modifies this
      ensures Valid() && cooldown == Tick(old(cooldown))
      ensures code == old(code) && newPassword == old(newPassword) && confirmPassword == old(confirmPassword)
      ensures errors == old(errors) && isLoading == old(isLoading)
    {
      cooldown := Tick(cooldown);
    }
  }
}
