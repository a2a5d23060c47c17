/**
 * The forgot-password screen: one e-mail field, its error, and the gate
 * before a reset code is requested.
 */
module ForgotPassword {
  import opened Wrappers
  import opened FormRules

  /** What a press of the send-code button ends in. */
  datatype Outcome =
    | Invalid                      // the address was refused; no code is requested
    | CodeSent(email: string)      // the code went out; on to the reset screen with the address
    | SendFailed(alert: string)    // the provider refused; the alert's text

  class ForgotPasswordScreen {
    var email: string
    var validationError: string
    var isLoading: bool

    constructor()
      ensures email == "" && validationError == "" && !isLoading
    {
      email := "";
      validationError := "";
      isLoading := false;
    }

    /** `handleInputChange`: the new address, and no error. */
    method InputChange(value: string)
      modifies this
      ensures email == value && validationError == "" && isLoading == old(isLoading)
    {
      email := value;
      validationError := "";
    }

    /**
     * `handleSendCode`: a refused address shows its error and stops; otherwise
     * the code is requested. `failure` is the provider's error message, or
     * None when the code is sent; either way loading ends.
     */
    method SendCode(failure: Option<string>) returns (outcome: Outcome)
      modifies this
      ensures email == old(email)
      ensures outcome.Invalid? <==> !MatchesEmail(email)
      ensures outcome.Invalid? ==> validationError == EmailError(email) && isLoading == old(isLoading)
      ensures !outcome.Invalid? ==> validationError == old(validationError) && !isLoading
      ensures !outcome.Invalid? && failure.None? ==> outcome == CodeSent(email)
      ensures !outcome.Invalid? && failure.Some? ==> outcome == SendFailed(MessageOr(failure.value, "Failed to send reset code"))
    {
      var error := EmailError(email);
      if error != "" {
        validationError := error;
        return Invalid;
      }
      isLoading := true;
      if failure.None? {
        outcome := CodeSent(email);
      } else {
        outcome := SendFailed(MessageOr(failure.value, "Failed to send reset code"));
      }
      isLoading := false;
    }
  }
}
