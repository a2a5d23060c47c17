/**
 * The sign-in screen: e-mail and password fields with their errors, the gate
 * before the provider is called, and the choice between the e-mail
 * verification prompt and a plain failure alert.
 */
module SignIn {
  import opened Wrappers
  import opened Text
  import opened FormRules
  import AuthService

  datatype Field = Email | Password

  /** One string per field; the screen keeps one for the input and one for the errors. */
  datatype Fields = Fields(email: string, password: string)
  {
    function Get(f: Field): string {
      match f
      case Email => email
      case Password => password
    }

    /** `{ ...prev, [field]: value }` */
    function With(f: Field, value: string): (r: Fields)
      ensures r.Get(f) == value
      ensures forall g | g != f :: r.Get(g) == Get(g)
    {
      match f
      case Email => this.(email := value)
      case Password => this.(password := value)
    }
  }

  const NoErrors := Fields("", "")

  /** `validatePassword` on this screen: only an empty password is refused. */
  function PasswordRequired(password: string): (r: string)
    ensures r == "" <==> password != ""
  {
    if password == "" then "Password is required" else ""
  }

  /** The errors `handleSignIn` computes; there are none exactly when the address matches and a password is given. */
  function Validate(form: Fields): (errors: Fields)
    ensures errors == NoErrors <==> MatchesEmail(form.email) && form.password != ""
  {
    Fields(EmailError(form.email), PasswordRequired(form.password))
  }

  /** The text that marks a provider failure as an unverified address. */
  const VerifyMarker := "verify your email"

  /** What a press of the sign-in button ends in. */
  datatype Outcome =
    | Invalid                        // a rule failed; the provider is not called
    | Home                           // signed in; on to the tabs
    | VerifyEmailPrompt(email: string)  // the offer to resend the code for this address
    | SignInFailed(alert: string)    // any other failure; the alert's text

  /** How `handleSignIn` reads a provider failure message. */
  function FailureOutcome(message: string, email: string): (r: Outcome)
    ensures r.VerifyEmailPrompt? <==> Contains(message, VerifyMarker)
    ensures r.SignInFailed? ==> r.alert == MessageOr(message, "Please try again")
  {
    if Contains(message, VerifyMarker) then VerifyEmailPrompt(email)
    else SignInFailed(MessageOr(message, "Please try again"))
  }

  class SignInScreen {
    var form: Fields
    var errors: Fields

    constructor()
      ensures form == Fields("", "") && errors == NoErrors
    {
      form := Fields("", "");
      errors := NoErrors;
    }

    /** `handleInputChange`: set one field and clear that field's error only. */
    method InputChange(field: Field, value: string)
      modifies this
      ensures form == old(form).With(field, value)
      ensures errors == old(errors).With(field, "")
    {
      form := form.With(field, value);
      errors := errors.With(field, "");
    }

    /**
     * `handleSignIn`: show both errors; call the provider only when there are
     * none. `failure` is the provider's error message, or None on success.
     */
    method SignIn(failure: Option<string>) returns (outcome: Outcome)
      modifies this
      ensures form == old(form) && errors == Validate(old(form))
      ensures outcome.Invalid? <==> errors != NoErrors
      ensures !outcome.Invalid? && failure.None? ==> outcome == Home
      ensures !outcome.Invalid? && failure.Some? ==> outcome == FailureOutcome(failure.value, form.email)
    {
      errors := Validate(form);
      if errors != NoErrors {
        return Invalid;
      }
      match failure
      case None => outcome := Home;
      case Some(m) => outcome := FailureOutcome(m, form.email);
    }
  }

  /**
   * A press of the sign-in button as the file is written: it takes `signIn`
   * from hooks/useAuth.ts, whose hook has no such member, so the call
   * throws a TypeError inside the `try` and the catch reads that error's
   * message `typeError`. A valid form never leads home.
   */
  function SignInAsWritten(form: Fields, typeError: string): (r: Outcome)
    ensures r != Home
    ensures r.Invalid? <==> Validate(form) != NoErrors
    ensures !r.Invalid? && !Contains(typeError, VerifyMarker) ==> r == SignInFailed(MessageOr(typeError, "Please try again"))
  {
    if Validate(form) != NoErrors then Invalid else FailureOutcome(typeError, form.email)
  }

  /**
   * An unconfirmed account reaches the screen as the service's mapped message,
   * which contains the marker, so the screen offers to resend the code.
   */
  lemma UnconfirmedGetsVerifyPrompt(e: AuthService.AuthError, email: string, message: string)
    requires AuthService.ErrorCode(e) == "UserNotConfirmedException"
    requires message == AuthService.HandleAuthError(e).message
    ensures FailureOutcome(message, email) == VerifyEmailPrompt(email)
  {
    AuthService.UnconfirmedMessage(e);
    MarkerInVerifyFirst(message, VerifyMarker);
  }

  lemma MarkerInVerifyFirst(message: string, marker: string)
    requires message == AuthService.Text(AuthService.VerifyFirst) && marker == VerifyMarker
    ensures Contains(message, marker)
  {
    var before, after := "Please ", " address first.";
    assert message == before + marker + after;
    assert (before + marker + after)[|before|..|before| + |marker|] == marker;
    assert OccursAt(message, marker, |before|);
  }
}
