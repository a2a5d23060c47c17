/**
 * The decisions in the authentication service that do not depend on the
 * identity provider: turning a provider error into the message the screens
 * show, and what `getCurrentUser` and `isAuthenticated` report for a given
 * provider answer.
 */
module AuthService {
  import opened Wrappers

  /** A provider error; an absent `name`, `code` or `message` is "". */
  datatype AuthError = AuthError(name: string, code: string, message: string)

  /** The texts of the `errorMessages` table, one constructor per distinct value. */
  datatype Message =
    | AccountExists | PasswordRules | CheckInput | NoAccount | WrongCredentials | VerifyFirst
    | ResetRequired | WrongCode | CodeExpired | TooManyAttempts | NetworkDown | TooManyRequests
    | InvalidParameters

  function Text(m: Message): string {
    match m
    case AccountExists => "An account with this email already exists."
    case PasswordRules => "Password must be at least 8 characters with uppercase, lowercase, numbers, and special characters."
    case CheckInput => "Please check your input and try again."
    case NoAccount => "No account found with this email."
    case WrongCredentials => "Incorrect email or password."
    case VerifyFirst => "Please verify your email address first."
    case ResetRequired => "Password reset is required."
    case WrongCode => "Invalid verification code. Please try again."
    case CodeExpired => "Verification code has expired. Please request a new one."
    case TooManyAttempts => "Too many attempts. Please try again later."
    case NetworkDown => "Network error. Please check your connection."
    case TooManyRequests => "Too many requests. Please try again later."
    case InvalidParameters => "Invalid parameters provided."
  }

  /**
   * The `errorMessages` object literal, entry by entry in the order written.
   * Two keys appear twice; the object keeps the later value.
   */
  function ErrorMessages(): seq<(string, Message)> {
    [ ("UsernameExistsException", AccountExists),
      ("InvalidPasswordException", PasswordRules),
      ("InvalidParameterException", CheckInput),
      ("UserNotFoundException", NoAccount),
      ("NotAuthorizedException", WrongCredentials),
      ("UserNotConfirmedException", VerifyFirst),
      ("PasswordResetRequiredException", ResetRequired),
      ("CodeMismatchException", WrongCode),
      ("ExpiredCodeException", CodeExpired),
      ("LimitExceededException", TooManyAttempts),
      ("NetworkError", NetworkDown),
      ("LimitExceededException", TooManyRequests),
      ("InvalidParameterException", InvalidParameters) ]
  }

  /**
   * Looking a key up in an object literal: the value of the last entry with
   * that key, or nothing when no entry has it.
   */
  function LastValue<V>(table: seq<(string, V)>, key: string): Option<V> {
    if table == [] then None
    else if table[|table| - 1].0 == key then Some(table[|table| - 1].1)
    else LastValue(table[..|table| - 1], key)
  }

  /** A key no entry has finds nothing, and a key some entry has finds something. */
  lemma {:induction false} LastValueNone<V>(table: seq<(string, V)>, key: string)
    ensures LastValue(table, key).None? <==> forall i | 0 <= i < |table| :: table[i].0 != key
  {
    if table != [] && table[|table| - 1].0 != key {
      var front := table[..|table| - 1];
      LastValueNone(front, key);
      assert forall i | 0 <= i < |front| :: front[i] == table[i];
    }
  }

  /** The entry found is the last one with the key: when it sits at `i`, no entry after `i` has that key. */
  lemma {:induction false} LastValueAt<V>(table: seq<(string, V)>, key: string, i: nat)
    requires i < |table| && table[i].0 == key
    requires forall j | i < j < |table| :: table[j].0 != key
    ensures LastValue(table, key) == Some(table[i].1)
  {
    if i < |table| - 1 {
      var front := table[..|table| - 1];
      assert front[i] == table[i];
      LastValueAt(front, key, i);
    }
  }

  /** `error.name || error.code` */
  function ErrorCode(e: AuthError): (r: string)
    ensures r == e.name || r == e.code
    ensures e.name != "" ==> r == e.name
    ensures r == "" <==> e.name == "" && e.code == ""
  {
    if e.name != "" then e.name else e.code
  }

  /**
   * `getErrorMessage`: the table's message for the error's code, else the
   * error's own message, else a generic one; each `||` passes over an empty
   * string, so the result is never empty.
   */
  function GetErrorMessage(e: AuthError): (r: string)
    ensures r != ""
  {
    var found := LastValue(ErrorMessages(), ErrorCode(e));
    if found.Some? && Text(found.value) != "" then Text(found.value)
    else if e.message != "" then e.message
    else "An unexpected error occurred."
  }

  /** `handleAuthError`: a plain `Error` whose message is the mapped one. */
  function HandleAuthError(e: AuthError): (r: AuthError)
    ensures r.name == "Error" && r.code == "" && r.message == GetErrorMessage(e)
  {
    AuthError("Error", "", GetErrorMessage(e))
  }

  /** `Error` is not a key of the table. */
  lemma PlainErrorNotInTable(key: string)
    requires key == "Error"
    ensures LastValue(ErrorMessages(), key).None?
  {
    var t := ErrorMessages();
    assert forall i | 0 <= i < |t| :: t[i].0 != key;
    LastValueNone(t, key);
  }

  /** Mapping an already mapped error again leaves its message as it is. */
  lemma HandleAuthErrorStable(e: AuthError)
    ensures GetErrorMessage(HandleAuthError(e)) == GetErrorMessage(e)
  {
    PlainErrorNotInTable("Error");
  }

  /** Of the two `LimitExceededException` entries, the later one is what the user sees. */
  lemma LimitExceededUsesLaterEntry(e: AuthError)
    requires ErrorCode(e) == "LimitExceededException"
    ensures GetErrorMessage(e) == Text(TooManyRequests)
  {
    LastValueAt(ErrorMessages(), ErrorCode(e), 11);
  }

  /** Of the two `InvalidParameterException` entries, the later one is what the user sees. */
  lemma InvalidParameterUsesLaterEntry(e: AuthError)
    requires ErrorCode(e) == "InvalidParameterException"
    ensures GetErrorMessage(e) == Text(InvalidParameters)
  {
    LastValueAt(ErrorMessages(), ErrorCode(e), 12);
  }

  /** An unconfirmed account is reported with the message that asks for e-mail verification. */
  lemma UnconfirmedMessage(e: AuthError)
    requires ErrorCode(e) == "UserNotConfirmedException"
    ensures GetErrorMessage(e) == Text(VerifyFirst)
  {
    var t := ErrorMessages();
    assert forall j | 5 < j < |t| :: t[j].0 != ErrorCode(e);
    LastValueAt(t, ErrorCode(e), 5);
  }

  /** A code the table does not know falls back to the error's own message, then to the generic one. */
  lemma UnknownCodeFallsBack(e: AuthError)
    requires forall i | 0 <= i < |ErrorMessages()| :: ErrorMessages()[i].0 != ErrorCode(e)
    ensures GetErrorMessage(e) == if e.message != "" then e.message else "An unexpected error occurred."
  {
    LastValueNone(ErrorMessages(), ErrorCode(e));
  }

  // ---------------------------------------------------------------------------
  // Current user
  // ---------------------------------------------------------------------------

  /** The signed-in user as the provider reports it. */
  datatype ProviderUser = ProviderUser(userId: string, username: string, loginId: Option<string>)

  /** What `getCurrentUser` hands back. */
  datatype AuthUser = AuthUser(userId: string, username: string, email: Option<string>)

  /** `getCurrentUser`'s three outcomes: a user, `null`, or a thrown mapped error. */
  datatype CurrentUserResult = User(user: AuthUser) | NoUser | Thrown(error: AuthError)

  /**
   * `getCurrentUser`: the user lookup, then the session fetch; the first
   * failure decides. An unauthenticated-user failure is `null`; any other is
   * rethrown through `handleAuthError`.
   */
  function GetCurrentUser(lookup: Result<ProviderUser>, lookupError: AuthError, session: Option<AuthError>): (r: CurrentUserResult)
    ensures lookup.Success? && session.None? <==> r.User?
    ensures r.User? ==> r.user == AuthUser(lookup.value.userId, lookup.value.username, lookup.value.loginId)
    ensures r.NoUser? <==> (lookup.Failure? && lookupError.name == "UserUnAuthenticatedException")
                           || (lookup.Success? && session.Some? && session.value.name == "UserUnAuthenticatedException")
    ensures r.Thrown? ==> var cause := if lookup.Failure? then lookupError else session.value;
                          r.error == HandleAuthError(cause)
  {
    var failure := if lookup.Failure? then Some(lookupError) else session;
    match failure
    case None => User(AuthUser(lookup.value.userId, lookup.value.username, lookup.value.loginId))
    case Some(e) => if e.name == "UserUnAuthenticatedException" then NoUser else Thrown(HandleAuthError(e))
  }

  /** `isAuthenticated`: whether the user lookup alone succeeds. */
  function IsAuthenticated(lookup: Result<ProviderUser>): (r: bool)
    ensures r <==> lookup.Success?
  {
    lookup.Success?
  }

  /**
   * Whenever `getCurrentUser` finds a user, `isAuthenticated` is true; the
   * converse fails only when the session fetch fails after a successful lookup.
   */
  lemma CurrentUserImpliesAuthenticated(lookup: Result<ProviderUser>, lookupError: AuthError, session: Option<AuthError>)
    ensures GetCurrentUser(lookup, lookupError, session).User? ==> IsAuthenticated(lookup)
    ensures IsAuthenticated(lookup) && !GetCurrentUser(lookup, lookupError, session).User? ==> session.Some?
  {
  }
}
