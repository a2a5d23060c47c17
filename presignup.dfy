/**
 * The pre-sign-up trigger of the identity pool: it marks every new user as
 * confirmed, and the e-mail address and phone number as verified when the
 * request carries them. It changes the event it is given and hands it back.
 */
module PreSignUp {
  import opened Wrappers

  /** The response flags the trigger sets; None is a flag the event does not carry. */
  datatype Response = Response(autoConfirmUser: Option<bool>, autoVerifyEmail: Option<bool>, autoVerifyPhone: Option<bool>)

  /** `event.request.userAttributes`, when the event carries them. */
  datatype Request = Request(userAttributes: Option<map<string, string>>)

  const EmptyResponse := Response(None, None, None)

  /** `event.request && event.request.userAttributes && event.request.userAttributes[name]`: present and non-empty. */
  predicate HasAttribute(request: Option<Request>, name: string) {
    request.Some? && request.value.userAttributes.Some?
    && name in request.value.userAttributes.value && request.value.userAttributes.value[name] != ""
  }

  /** The response the handler leaves on an event with this request and (possibly absent) response. */
  function Respond(request: Option<Request>, response: Option<Response>): (r: Response)
    ensures r.autoConfirmUser == Some(true)
    ensures r.autoVerifyEmail == if HasAttribute(request, "email") then Some(true) else response.GetOr(EmptyResponse).autoVerifyEmail
    ensures r.autoVerifyPhone == if HasAttribute(request, "phone_number") then Some(true) else response.GetOr(EmptyResponse).autoVerifyPhone
  {
    var start := response.GetOr(EmptyResponse);
    var confirmed := start.(autoConfirmUser := Some(true));
    var emailed := if HasAttribute(request, "email") then confirmed.(autoVerifyEmail := Some(true)) else confirmed;
    if HasAttribute(request, "phone_number") then emailed.(autoVerifyPhone := Some(true)) else emailed
  }

  /** Running the trigger on an event it has already handled changes nothing more. */
  lemma RespondIdempotent(request: Option<Request>, response: Option<Response>)
    ensures Respond(request, Some(Respond(request, response))) == Respond(request, response)
  {
  }

  /** The event object the trigger receives. */
  class Event {
    var request: Option<Request>
    var response: Option<Response>

    constructor(request: Option<Request>, response: Option<Response>)
      ensures this.request == request && this.response == response
    {
      this.request := request;
      this.response := response;
    }
  }

  /**
   * `handler`: create the response when it is missing, set the flags on it,
   * and return the same event.
   */
  method Handler(event: Event) returns (r: Event)
    modifies event
    ensures r == event
    ensures event.request == old(event.request)
    ensures event.response == Some(Respond(old(event.request), old(event.response)))
  {
    if event.response.None? {
      event.response := Some(EmptyResponse);
    }
    event.response := Some(event.response.value.(autoConfirmUser := Some(true)));
    if HasAttribute(event.request, "email") {
      event.response := Some(event.response.value.(autoVerifyEmail := Some(true)));
    }
    if HasAttribute(event.request, "phone_number") {
      event.response := Some(event.response.value.(autoVerifyPhone := Some(true)));
    }
    r := event;
  }
}
