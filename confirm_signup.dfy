/**
 * The sign-up confirmation screen: the six-slot code with automatic
 * submission once every slot is filled, the verification that clears the
 * slots when the code is refused, and the resend cooldown.
 */
module ConfirmSignUp {
  import opened Wrappers
  import opened Text
  import opened FormRules

  /** How `handleVerify` starts. */
  datatype Start =
    | NotStarted           // no verification was asked for
    | InvalidCode          // the code did not have six characters; the provider is not called
    | Started(code: string)  // the code went to the provider

  /** How a verification ends. */
  datatype Finish = Verified | VerifyFailed(alert: string)

  /** What a press of the resend link ends in. */
  datatype ResendOutcome = Blocked | Resent | ResendFailed(alert: string)

  class ConfirmSignUpScreen {
    const email: string
    var code: seq<string>
    var cooldown: nat
    var isVerifying: bool

    /** Six slots, each empty or digits, and a cooldown no longer than a full one. */
    predicate Valid()
      reads this
    {
      |code| == CodeSlots && DigitSlots(code) && cooldown <= ResendCooldown
    }

    constructor(email: string)
      ensures Valid() && this.email == email
      ensures code == EmptyCode() && cooldown == 0 && !isVerifying
    {
      this.email := email;
      code := EmptyCode();
      cooldown := 0;
      isVerifying := false;
    }

    /**
     * `handleVerify(verificationCode)`: the given code, or the joined slots
     * when none is given; a code that is not six characters long is refused
     * before the provider is called, and nothing changes.
     */
    method Verify(given: Option<string>) returns (start: Start)
      requires Valid()
      modifies this
      ensures Valid() && code == old(code) && cooldown == old(cooldown)
      ensures var c := if given.Some? && given.value != "" then given.value else Join(old(code));
              (|c| != CodeSlots ==> start == InvalidCode && isVerifying == old(isVerifying))
              && (|c| == CodeSlots ==> start == Started(c) && isVerifying)
    {
      var c := if given.Some? && given.value != "" then given.value else Join(code);
      if |c| != CodeSlots {
        return InvalidCode;
      }
      isVerifying := true;
      start := Started(c);
    }

    /**
     * The end of a started verification: on a refusal every slot is cleared;
     * either way the screen is no longer verifying. `failure` is the
     * provider's error message, or None when the address is confirmed.
     */
    method FinishVerify(failure: Option<string>) returns (finish: Finish)
      requires Valid()
      modifies this
      ensures Valid() && !isVerifying && cooldown == old(cooldown)
      ensures failure.None? ==> finish == Verified && code == old(code)
      ensures failure.Some? ==> finish == VerifyFailed(MessageOr(failure.value, "Please try again")) && code == EmptyCode()
    {
      if failure.None? {
        finish := Verified;
      } else {
        finish := VerifyFailed(MessageOr(failure.value, "Please try again"));
        code := EmptyCode();
      }
      isVerifying := false;
    }

    /**
     * `handleCodeChange`: a value that is neither empty nor digits changes
     * nothing; otherwise slot `index` takes it, and once every slot is filled
     * and no verification is running, the joined code is verified.
     */
    method CodeChange(index: nat, value: string) returns (start: Start)
      requires Valid() && index < CodeSlots
      modifies this
      ensures Valid() && code == SetSlot(old(code), index, value) && cooldown == old(cooldown)
      ensures !AcceptsSlotValue(value) ==> start == NotStarted && isVerifying == old(isVerifying)
      ensures AcceptsSlotValue(value) ==>
                (start != NotStarted <==> AllFilled(code) && !old(isVerifying))
      ensures start == NotStarted ==> isVerifying == old(isVerifying)
      ensures start.Started? ==> start.code == Join(code) && isVerifying
      ensures start.InvalidCode? ==> |Join(code)| != CodeSlots && isVerifying == old(isVerifying)
    {
      if value != "" && !IsDigitString(value) {
        return NotStarted;
      }
      code := SetSlot(code, index, value);
      if AllFilled(code) && !isVerifying {
        assert Join(code) != "" by { JoinOfFilled(code); }
        start := Verify(Some(Join(code)));
      } else {
        start := NotStarted;
      }
    }

    /**
     * `handleResendCode`: nothing while the cooldown runs; otherwise a new
     * code is requested and, when that succeeds, the full cooldown starts.
     */
    method ResendCode(failure: Option<string>) returns (outcome: ResendOutcome)
      requires Valid()
      modifies this
      ensures Valid() && code == old(code) && isVerifying == old(isVerifying)
      ensures old(cooldown) > 0 ==> outcome == Blocked && cooldown == old(cooldown)
      ensures old(cooldown) == 0 && failure.None? ==> outcome == Resent && cooldown == ResendCooldown
      ensures old(cooldown) == 0 && failure.Some? ==>
                outcome == ResendFailed(MessageOr(failure.value, "Please try again")) && cooldown == 0
    {
      if cooldown > 0 {
        return Blocked;
      }
      if failure.None? {
        cooldown := ResendCooldown;
        outcome := Resent;
      } else {
        outcome := ResendFailed(MessageOr(failure.value, "Please try again"));
      }
    }

    /** One run of the countdown effect. */
    method CooldownTick()
      requires Valid()
      modifies this
      ensures Valid() && cooldown == Tick(old(cooldown))
      ensures code == old(code) && isVerifying == old(isVerifying)
    {
      cooldown := Tick(cooldown);
    }
  }

  /** A filled buffer joins to a non-empty code. */
  lemma JoinOfFilled(code: seq<string>)
    requires |code| > 0 && AllFilled(code)
    ensures Join(code) != ""
  {
    assert code[0] != "";
  }

  /**
   * With single-character slots, as the inputs allow, filling the last empty
   * slot always starts a verification of six digits, never the short-code alert.
   */
  lemma SingleDigitsAlwaysStart(code: seq<string>)
    requires |code| == CodeSlots && DigitSlots(code) && AllFilled(code)
    requires forall k | 0 <= k < |code| :: |code[k]| <= 1
    ensures |Join(code)| == CodeSlots && IsDigitString(Join(code))
  {
    JoinOfSingles(code);
    JoinOfDigits(code);
  }
}
