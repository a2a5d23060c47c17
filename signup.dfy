/**
 * The sign-up screen: its four fields, the error shown under each, and the
 * gate that lets the form through to the identity provider only when every
 * rule passes.
 */
module SignUp {
  import opened Wrappers
  import opened Text
  import opened FormRules

  datatype Field = Name | Email | Password | ConfirmPassword

  /** One string per field; the screen keeps one of these for the input and one for the errors. */
  datatype Fields = Fields(name: string, email: string, password: string, confirmPassword: string)
  {
    function Get(f: Field): string {
      match f
      case Name => name
      case Email => email
      case Password => password
      case ConfirmPassword => confirmPassword
    }

    /** `{ ...prev, [field]: value }` */
    function With(f: Field, value: string): (r: Fields)
      ensures r.Get(f) == value
      ensures forall g | g != f :: r.Get(g) == Get(g)
    {
      match f
      case Name => this.(name := value)
      case Email => this.(email := value)
      case Password => this.(password := value)
      case ConfirmPassword => this.(confirmPassword := value)
    }
  }

  const NoErrors := Fields("", "", "", "")

  /**
   * The errors `handleSignUp` computes: there are none exactly when the name
   * has two characters after trimming, the address matches, the password
   * meets all five criteria and the confirmation repeats it.
   */
  function Validate(form: Fields): (errors: Fields)
    ensures errors == NoErrors <==>
              |Trim(form.name)| >= 2 && MatchesEmail(form.email)
              && Met(form.password) == AllCriteria && form.confirmPassword == form.password
    ensures errors.password == "" ==> form.password != ""
  {
    Fields(NameError(form.name), EmailError(form.email), PasswordError(form.password),
           ConfirmError(form.confirmPassword, form.password))
  }

  /** What a press of the sign-up button ends in. */
  datatype Outcome =
    | Invalid                        // a rule failed; the provider is not called
    | ConfirmationScreen(email: string)  // registered; on to the code screen with the address
    | SignUpFailed(alert: string)    // the provider refused; the alert's text

  class SignUpScreen {
    var form: Fields
    var errors: Fields

    constructor()
      ensures form == Fields("", "", "", "") && errors == NoErrors
    {
      form := Fields("", "", "", "");
      errors := NoErrors;
    }

    /** `handleInputChange`: set one field and clear that field's error only. */
    method InputChange(field: Field, value: string)
      modifies this
      ensures form == old(form).With(field, value)
      ensures errors == old(errors).With(field, "")
    {
      form := form.With(field, value);
      errors := errors.With(field, "");
    }

    /**
     * `handleSignUp`: show every field's error; call the provider only when
     * there are none. `failure` is the provider's error message, or None when
     * the registration succeeds.
     */
    method SignUp(failure: Option<string>) returns (outcome: Outcome)
      modifies this
      ensures form == old(form) && errors == Validate(old(form))
      ensures outcome.Invalid? <==> errors != NoErrors
      ensures !outcome.Invalid? && failure.None? ==> outcome == ConfirmationScreen(form.email)
      ensures !outcome.Invalid? && failure.Some? ==> outcome == SignUpFailed(MessageOr(failure.value, "Please try again"))
    {
      errors := Validate(form);
      if errors != NoErrors {
        return Invalid;
      }
      match failure
      case None => outcome := ConfirmationScreen(form.email);
      case Some(m) => outcome := SignUpFailed(MessageOr(m, "Please try again"));
    }
  }

  /** An accepted form carries an address without whitespace and a password of at least eight characters. */
  lemma AcceptedForm(form: Fields)
    requires Validate(form) == NoErrors
    ensures forall k | 0 <= k < |form.email| :: !IsWhitespace(form.email[k])
    ensures |form.password| >= 8 && form.confirmPassword == form.password
  {
    var at, dot :| EmailSplit(form.email, at, dot);
    MatchHasNoWhitespace(form.email, at, dot);
    assert MinLength in Met(form.password);
  }
}
