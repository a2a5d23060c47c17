/**
 * The rules the sign-in, sign-up and password screens share: the e-mail
 * regular expression, the password rule chain and strength score, the name
 * and confirmation checks, the six-slot verification-code buffer and the
 * resend cooldown.
 */
module FormRules {
  import opened Text

  // ---------------------------------------------------------------------------
  // E-mail: /^[^\s@]+@[^\s@]+\.[^\s@]+$/
  // ---------------------------------------------------------------------------

  /** `[^\s@]` */
  predicate IsEmailChar(c: char) { !IsWhitespace(c) && c != '@' }

  predicate AllEmailChars(s: string) { forall k | 0 <= k < |s| :: IsEmailChar(s[k]) }

  /**
   * The regular expression read as a split of `s`: a non-empty run of `[^\s@]`,
   * the `@` at `at`, a non-empty run, the `.` at `dot`, and a non-empty run.
   */
  predicate EmailSplit(s: string, at: int, dot: int) {
    0 < at && at + 1 < dot && dot + 1 < |s| && s[at] == '@' && s[dot] == '.'
    && AllEmailChars(s[..at]) && AllEmailChars(s[at + 1..dot]) && AllEmailChars(s[dot + 1..])
  }

  /** `emailRegex.test(s)` */
  predicate MatchesEmail(s: string) {
    exists at, dot | 0 < at < dot < |s| :: EmailSplit(s, at, dot)
  }

  /** A matching address holds no whitespace at all, at either end or inside. */
  lemma MatchHasNoWhitespace(s: string, at: int, dot: int)
    requires EmailSplit(s, at, dot)
    ensures forall k | 0 <= k < |s| :: !IsWhitespace(s[k])
  {
    forall k | 0 <= k < |s|
      ensures !IsWhitespace(s[k])
    {
      if k < at {
        assert s[..at][k] == s[k];
      } else if at < k < dot {
        assert s[at + 1..dot][k - at - 1] == s[k];
      } else if dot < k {
        assert s[dot + 1..][k - dot - 1] == s[k];
      }
    }
  }

  /** A matching address is not blank, and neither starts nor ends with whitespace. */
  lemma MatchIsNotBlank(s: string)
    ensures MatchesEmail(s) ==> |s| > 0 && !IsWhitespace(s[0]) && !IsWhitespace(s[|s| - 1]) && !AllWhitespace(s)
  {
    if MatchesEmail(s) {
      var at, dot :| EmailSplit(s, at, dot);
      MatchHasNoWhitespace(s, at, dot);
    }
  }

  /**
   * `validateEmail`, the same in the sign-in, sign-up and forgot-password
   * screens: blank input is "required"; otherwise the regular expression is
   * applied to the untrimmed string.
   */
  function EmailError(email: string): (r: string)
    ensures r == "" <==> MatchesEmail(email)
    ensures r == "Email is required" <==> AllWhitespace(email)
    ensures r == "" || r == "Email is required" || r == "Please enter a valid email"
  {
    BlankIffAllWhitespace(email);
    MatchIsNotBlank(email);
    if IsBlank(email) then "Email is required"
    else if !MatchesEmail(email) then "Please enter a valid email"
    else ""
  }

  /** An address with a space before or after it is refused, though it is not blank. */
  lemma PaddedEmailRefused(s: string, padded: string)
    requires MatchesEmail(s)
    requires padded == " " + s || padded == s + " "
    ensures EmailError(padded) == "Please enter a valid email"
  {
    MatchIsNotBlank(padded);
    var at, dot :| EmailSplit(s, at, dot);
    assert EmailSplit(s, at, dot);
    if padded == " " + s {
      assert padded[at + 1] == s[at];
    } else {
      assert padded[at] == s[at];
    }
  }

  // ---------------------------------------------------------------------------
  // Passwords
  // ---------------------------------------------------------------------------

  /** The five things `getPasswordStrength` counts, in the order `validatePassword` checks them. */
  datatype Criterion = MinLength | Lowercase | Uppercase | Digit | Special

  const AllCriteria: set<Criterion> := {MinLength, Lowercase, Uppercase, Digit, Special}

  /** The position of a criterion in the rule chain. */
  function Rank(c: Criterion): nat {
    match c
    case MinLength => 0
    case Lowercase => 1
    case Uppercase => 2
    case Digit => 3
    case Special => 4
  }

  /** Whether `p` satisfies criterion `c`. */
  predicate Meets(p: string, c: Criterion) {
    match c
    case MinLength => |p| >= 8
    case Lowercase => HasLower(p)
    case Uppercase => HasUpper(p)
    case Digit => HasDigit(p)
    case Special => HasSpecial(p)
  }

  /** `/[a-z]/.test(p)` */
  predicate HasLower(p: string) { exists k | 0 <= k < |p| :: IsLower(p[k]) }

  /** `/[A-Z]/.test(p)` */
  predicate HasUpper(p: string) { exists k | 0 <= k < |p| :: IsUpper(p[k]) }

  /** `/[0-9]/.test(p)` */
  predicate HasDigit(p: string) { exists k | 0 <= k < |p| :: IsDigit(p[k]) }

  /** `/[^A-Za-z0-9]/.test(p)` */
  predicate HasSpecial(p: string) { exists k | 0 <= k < |p| :: !IsLetter(p[k]) && !IsDigit(p[k]) }

  /** The criteria `p` satisfies. */
  function Met(p: string): (r: set<Criterion>)
    ensures r <= AllCriteria
    ensures forall c :: c in r <==> Meets(p, c)
  {
    set c | c in AllCriteria && Meets(p, c)
  }

  /** The message `validatePassword` gives for a failed criterion. */
  function Message(c: Criterion): string {
    match c
    case MinLength => "Password must be at least 8 characters"
    case Lowercase => "Password must contain lowercase letter"
    case Uppercase => "Password must contain uppercase letter"
    case Digit => "Password must contain a number"
    case Special => "Password must contain a special character"
  }

  /**
   * `validatePassword` (sign-up) and the new-password branch of `validateForm`
   * (reset): the message of the first rule that fails, or "" when none does.
   */
  function PasswordError(p: string): (r: string)
    ensures r == "" <==> Met(p) == AllCriteria
    ensures p == "" ==> r == "Password is required"
    ensures p != "" && r != "" ==>
              exists c :: r == Message(c) && !Meets(p, c) && forall d :: Rank(d) < Rank(c) ==> Meets(p, d)
  {
    if p == "" then "Password is required"
    else if !Meets(p, MinLength) then Message(MinLength)
    else if !Meets(p, Lowercase) then Message(Lowercase)
    else if !Meets(p, Uppercase) then Message(Uppercase)
    else if !Meets(p, Digit) then Message(Digit)
    else if !Meets(p, Special) then Message(Special)
    else
      assert forall c :: Meets(p, c);
      ""
  }

  /**
   * `getPasswordStrength`: one point per criterion met, counted one test after
   * another.
   */
  method PasswordStrength(p: string) returns (strength: nat)
    ensures strength == |Met(p)| && strength <= 5
    ensures strength == 5 <==> Met(p) == AllCriteria
  {
    strength := 0;
    if |p| >= 8 {
      strength := strength + 1;
    }
    assert strength == CountMet(p, 1);
    if HasLower(p) {
      strength := strength + 1;
    }
    assert strength == CountMet(p, 2);
    if HasUpper(p) {
      strength := strength + 1;
    }
    assert strength == CountMet(p, 3);
    if HasDigit(p) {
      strength := strength + 1;
    }
    assert strength == CountMet(p, 4);
    if HasSpecial(p) {
      strength := strength + 1;
    }
    assert strength == CountMet(p, 5);
    CountIsSize(p, 5);
    MetUpToAll(p);
    StrengthIsFiveExactlyWhenAllMet(p);
  }

  /** The criterion at position `n` of the chain. */
  function CriterionAt(n: nat): (c: Criterion)
    requires n < 5
    ensures Rank(c) == n
  {
    [MinLength, Lowercase, Uppercase, Digit, Special][n]
  }

  /** How many of the first `n` criteria of the chain `p` meets. */
  ghost function CountMet(p: string, n: nat): nat
    requires n <= 5
  {
    if n == 0 then 0 else CountMet(p, n - 1) + (if Meets(p, CriterionAt(n - 1)) then 1 else 0)
  }

  /** The criteria `p` meets among the first `n` of the chain. */
  ghost function MetUpTo(p: string, n: nat): set<Criterion> {
    set c | c in AllCriteria && Rank(c) < n && Meets(p, c)
  }

  /** Counting the criteria one by one gives the size of the set of those met. */
  lemma {:induction false} CountIsSize(p: string, n: nat)
    requires n <= 5
    ensures CountMet(p, n) == |MetUpTo(p, n)|
  {
    if n > 0 {
      CountIsSize(p, n - 1);
      MetStep(p, CriterionAt(n - 1));
    } else {
      assert MetUpTo(p, 0) == {};
    }
  }

  /** Testing the next criterion of the chain adds it, or nothing. */
  lemma MetStep(p: string, c: Criterion)
    ensures c !in MetUpTo(p, Rank(c))
    ensures MetUpTo(p, Rank(c) + 1) == MetUpTo(p, Rank(c)) + (if Meets(p, c) then {c} else {})
  {
    assert forall d :: Rank(d) == Rank(c) ==> d == c;
  }

  lemma MetUpToAll(p: string)
    ensures MetUpTo(p, 5) == Met(p)
  {
  }

  /** The password rules accept a password exactly when its strength score is the full five. */
  lemma StrengthIsFiveExactlyWhenAllMet(p: string)
    ensures |Met(p)| <= 5
    ensures PasswordError(p) == "" <==> |Met(p)| == 5
  {
    assert |AllCriteria| == 5;
    SubsetSize(Met(p), AllCriteria);
  }

  lemma {:induction false} SubsetSize<T>(a: set<T>, b: set<T>)
    requires a <= b
    ensures |a| <= |b|
    ensures |a| == |b| ==> a == b
  {
    if a != {} {
      var x :| x in a;
      SubsetSize(a - {x}, b - {x});
    }
  }

  /** `validateName`: blank is "required", fewer than two characters after trimming is too short. */
  function NameError(name: string): (r: string)
    ensures r == "" <==> |Trim(name)| >= 2
    ensures r == "Name is required" <==> AllWhitespace(name)
  {
    BlankIffAllWhitespace(name);
    if IsBlank(name) then "Name is required"
    else if |Trim(name)| < 2 then "Name must be at least 2 characters"
    else ""
  }

  /** `validateConfirmPassword` and the confirmation branch of the reset form. */
  function ConfirmError(confirm: string, password: string): (r: string)
    ensures r == "" <==> confirm != "" && confirm == password
    ensures r == "Please confirm your password" <==> confirm == ""
  {
    if confirm == "" then "Please confirm your password"
    else if confirm != password then "Passwords do not match"
    else ""
  }

  /** A confirmation the rules accept repeats a password the rules accept, or neither is accepted. */
  lemma ConfirmedPasswordIsTheOne(confirm: string, password: string)
    requires ConfirmError(confirm, password) == ""
    ensures PasswordError(confirm) == PasswordError(password) && password != ""
  {
  }

  /** `err.message || fallback`: the text of a failure alert. */
  function MessageOr(message: string, fallback: string): string {
    if message != "" then message else fallback
  }

  // ---------------------------------------------------------------------------
  // The six-slot verification code
  // ---------------------------------------------------------------------------

  const CodeSlots := 6

  /** `["", "", "", "", "", ""]` */
  function EmptyCode(): (code: seq<string>)
    ensures |code| == CodeSlots && forall k | 0 <= k < |code| :: code[k] == ""
  {
    ["", "", "", "", "", ""]
  }

  /** `!value || /^\d+$/.test(value)`: what `handleCodeChange` lets through. */
  predicate AcceptsSlotValue(value: string) { value == "" || IsDigitString(value) }

  /** Every slot is empty or digits only. */
  predicate DigitSlots(code: seq<string>) {
    forall k | 0 <= k < |code| :: AcceptsSlotValue(code[k])
  }

  /** Every slot holds something. */
  predicate AllFilled(code: seq<string>) {
    forall k | 0 <= k < |code| :: code[k] != ""
  }

  /**
   * `handleCodeChange`'s buffer update: a value that is neither empty nor all
   * digits leaves the code alone; otherwise slot `index` of a copy is set.
   */
  function SetSlot(code: seq<string>, index: nat, value: string): (r: seq<string>)
    requires index < |code|
    ensures !AcceptsSlotValue(value) ==> r == code
    ensures AcceptsSlotValue(value) ==> |r| == |code| && r[index] == value
    ensures forall k | 0 <= k < |code| && k != index :: r[k] == code[k]
    ensures DigitSlots(code) ==> DigitSlots(r)
  {
    if AcceptsSlotValue(value) then code[index := value] else code
  }

  /** `code.join("")`: empty exactly when every slot is empty, and it starts with the first slot. */
  function Join(code: seq<string>): (r: string)
    ensures r == "" <==> forall k | 0 <= k < |code| :: code[k] == ""
    ensures code != [] ==> |code[0]| <= |r| && r[..|code[0]|] == code[0]
  {
    if code == [] then "" else
      var rest := Join(code[1..]);
      assert forall k | 1 <= k < |code| :: code[k] == code[1..][k - 1];
      code[0] + rest
  }

  /**
   * With one character at most in each slot (the inputs' `maxLength={1}`), the
   * joined code has as many characters as there are slots exactly when every
   * slot is filled.
   */
  lemma {:induction false} JoinOfSingles(code: seq<string>)
    requires forall k | 0 <= k < |code| :: |code[k]| <= 1
    ensures |Join(code)| <= |code|
    ensures |Join(code)| == |code| <==> AllFilled(code)
  {
    if code != [] {
      JoinOfSingles(code[1..]);
      if AllFilled(code[1..]) && code[0] != "" {
        forall k | 0 <= k < |code|
          ensures code[k] != ""
        {
          if k > 0 {
            assert code[1..][k - 1] == code[k];
          }
        }
      }
      if AllFilled(code) {
        assert code[0] != "";
        forall k | 0 <= k < |code[1..]|
          ensures code[1..][k] != ""
        {
          assert code[1..][k] == code[k + 1];
        }
      }
    }
  }

  /** The joined code of digit-only slots is digits only. */
  lemma {:induction false} JoinOfDigits(code: seq<string>)
    requires DigitSlots(code)
    ensures AllDigits(Join(code))
  {
    if code != [] {
      assert DigitSlots(code[1..]) by {
        forall k | 0 <= k < |code[1..]|
          ensures AcceptsSlotValue(code[1..][k])
        {
          assert code[1..][k] == code[k + 1];
        }
      }
      JoinOfDigits(code[1..]);
      assert AcceptsSlotValue(code[0]);
      var j := Join(code);
      forall k | 0 <= k < |j|
        ensures IsDigit(j[k])
      {
        if k < |code[0]| {
          assert j[k] == code[0][k];
        } else {
          assert j[k] == Join(code[1..])[k - |code[0]|];
        }
      }
    }
  }

  // ---------------------------------------------------------------------------
  // Resend cooldown
  // ---------------------------------------------------------------------------

  /** Seconds before another code may be requested after a successful resend. */
  const ResendCooldown: nat := 60

  /** One run of the countdown effect: down by one while positive, otherwise nothing. */
  function Tick(cooldown: nat): (r: nat)
    ensures cooldown > 0 ==> r + 1 == cooldown
    ensures cooldown == 0 ==> r == 0
  {
    if cooldown > 0 then cooldown - 1 else 0
  }

  /** `n` runs of the countdown effect. */
  function Ticks(cooldown: nat, n: nat): nat {
    if n == 0 then cooldown else Ticks(Tick(cooldown), n - 1)
  }

  /** The countdown takes off one per tick and stops at zero. */
  lemma {:induction false} TicksCountDown(cooldown: nat, n: nat)
    ensures Ticks(cooldown, n) == if n <= cooldown then cooldown - n else 0
  {
    if n > 0 {
      TicksCountDown(Tick(cooldown), n - 1);
    }
  }

  /** After a successful resend the button comes back exactly after the sixtieth tick. */
  lemma ResendOpensAfterSixtyTicks(n: nat)
    ensures Ticks(ResendCooldown, n) == 0 <==> n >= ResendCooldown
  {
    TicksCountDown(ResendCooldown, n);
  }
}
