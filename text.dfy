/**
 * Character classes and the small scanners that stand in for the JavaScript
 * regular expressions and string built-ins used by the screens: `\s`, `\d`,
 * `String.prototype.trim`, the leading decimal `\d+(\.\d+)?`, `includes`,
 * and the decimal printing of whole numbers.
 */
module Text {
  import opened Wrappers

  // ---------------------------------------------------------------------------
  // Character classes
  // ---------------------------------------------------------------------------

  /** The characters JavaScript's `\s` matches and `trim` removes (WhiteSpace and LineTerminator). */
  predicate IsWhitespace(c: char) {
    c == ' ' || c == '\t' || c == '\n' || c == '\r' || c == '\U{000B}' || c == '\U{000C}'
    || c == '\U{00A0}' || c == '\U{FEFF}' || c == '\U{1680}' || ('\U{2000}' <= c <= '\U{200A}')
    || c == '\U{2028}' || c == '\U{2029}' || c == '\U{202F}' || c == '\U{205F}' || c == '\U{3000}'
  }

  /** The characters that `.` in a JavaScript regular expression does not match. */
  predicate IsLineTerminator(c: char) {
    c == '\n' || c == '\r' || c == '\U{2028}' || c == '\U{2029}'
  }

  /** `\d`: an ASCII digit. */
  predicate IsDigit(c: char) { '0' <= c <= '9' }

  /** `[a-z]` */
  predicate IsLower(c: char) { 'a' <= c <= 'z' }

  /** `[A-Z]` */
  predicate IsUpper(c: char) { 'A' <= c <= 'Z' }

  /** `[a-zA-Z]` */
  predicate IsLetter(c: char) { IsLower(c) || IsUpper(c) }

  predicate AllDigits(s: string) { forall k | 0 <= k < |s| :: IsDigit(s[k]) }

  predicate AllLetters(s: string) { forall k | 0 <= k < |s| :: IsLetter(s[k]) }

  predicate AllWhitespace(s: string) { forall k | 0 <= k < |s| :: IsWhitespace(s[k]) }

  predicate NoLineTerminator(s: string) { forall k | 0 <= k < |s| :: !IsLineTerminator(s[k]) }

  /** `/^\d+$/.test(s)` */
  predicate IsDigitString(s: string) { |s| > 0 && AllDigits(s) }

  // ---------------------------------------------------------------------------
  // trim
  // ---------------------------------------------------------------------------

  function TrimStart(s: string): (r: string)
    ensures |r| <= |s| && r == s[|s| - |r|..]
    ensures AllWhitespace(s[..|s| - |r|])
    ensures r == [] || !IsWhitespace(r[0])
  {
    if |s| > 0 && IsWhitespace(s[0]) then
      var r := TrimStart(s[1..]);
      assert s[1..][..|s[1..]| - |r|] == s[1..|s| - |r|];
      r
    else s
  }

  function TrimEnd(s: string): (r: string)
    ensures |r| <= |s| && r == s[..|r|]
    ensures AllWhitespace(s[|r|..])
    ensures r == [] || !IsWhitespace(r[|r| - 1])
  {
    if |s| > 0 && IsWhitespace(s[|s| - 1]) then
      var r := TrimEnd(s[..|s| - 1]);
      assert s[..|s| - 1][|r|..] == s[|r|..|s| - 1];
      r
    else s
  }

  /** `s.trim()`: `s` without its leading and trailing whitespace. */
  function Trim(s: string): string {
    TrimEnd(TrimStart(s))
  }

  /** `!s.trim()`: the string is empty once trimmed. */
  predicate IsBlank(s: string) { Trim(s) == "" }

  /** A string is blank exactly when every character in it is whitespace. */
  lemma BlankIffAllWhitespace(s: string)
    ensures IsBlank(s) <==> AllWhitespace(s)
  {
    var t := TrimStart(s);
    if IsBlank(s) {
      assert TrimEnd(t) == [] && AllWhitespace(t[0..]);
      assert s == s[..|s| - |t|] + t;
    }
  }

  /** `s.trim() || undefined`: the trimmed string, or nothing when that is empty. */
  function TrimOrNone(s: string): (r: Option<string>)
    ensures r == None <==> AllWhitespace(s)
    ensures r.Some? ==> r.value == Trim(s) && r.value != ""
  {
    BlankIffAllWhitespace(s);
    if Trim(s) == "" then None else Some(Trim(s))
  }

  // ---------------------------------------------------------------------------
  // Substrings
  // ---------------------------------------------------------------------------

  /** `s.includes(sub)` */
  predicate Contains(s: string, sub: string) {
    exists i | 0 <= i <= |s| - |sub| :: OccursAt(s, sub, i)
  }

  /** `sub` stands in `s` from position `i` on. */
  predicate OccursAt(s: string, sub: string, i: int) {
    0 <= i <= |s| - |sub| && s[i..i + |sub|] == sub
  }

  // ---------------------------------------------------------------------------
  // Digits and decimal numbers
  // ---------------------------------------------------------------------------

  function DigitValue(c: char): (d: nat)
    requires IsDigit(c)
    ensures d < 10
  {
    (c as int - '0' as int) as nat
  }

  function DigitChar(d: nat): (c: char)
    requires d < 10
    ensures IsDigit(c) && DigitValue(c) == d
  {
    ('0' as int + d) as char
  }

  /** The value of a string of decimal digits, read most significant first. */
  function DigitsValue(s: string): nat
    requires AllDigits(s)
  {
    if |s| == 0 then 0 else DigitsValue(s[..|s| - 1]) * 10 + DigitValue(s[|s| - 1])
  }

  /** `n.toString()` for a whole number. */
  function NatToString(n: nat): (s: string)
    ensures |s| > 0 && AllDigits(s)
  {
    if n < 10 then [DigitChar(n)] else NatToString(n / 10) + [DigitChar(n % 10)]
  }

  /** Printing a whole number and reading its digits back gives the number. */
  lemma {:induction false} NatToStringRoundTrip(n: nat)
    ensures DigitsValue(NatToString(n)) == n
  {
    if n >= 10 {
      var s := NatToString(n);
      assert s[..|s| - 1] == NatToString(n / 10);
      NatToStringRoundTrip(n / 10);
    }
  }

  function Pow10(k: nat): (p: nat)
    ensures p >= 1
  {
    if k == 0 then 1 else 10 * Pow10(k - 1)
  }

  /** The length of the run of digits at the start of `s` (greedy `\d*`). */
  function DigitRun(s: string): (n: nat)
    ensures n <= |s| && AllDigits(s[..n])
    ensures n == |s| || !IsDigit(s[n])
  {
    if |s| > 0 && IsDigit(s[0]) then
      var n := 1 + DigitRun(s[1..]);
      assert forall k | 1 <= k < n :: s[..n][k] == s[1..][..n - 1][k - 1];
      n
    else 0
  }

  /** The length of the run of whitespace at the start of `s` (greedy `\s*`). */
  function SpaceRun(s: string): (n: nat)
    ensures n <= |s| && AllWhitespace(s[..n])
    ensures n == |s| || !IsWhitespace(s[n])
  {
    if |s| > 0 && IsWhitespace(s[0]) then
      var n := 1 + SpaceRun(s[1..]);
      assert forall k | 1 <= k < n :: s[..n][k] == s[1..][..n - 1][k - 1];
      n
    else 0
  }

  /** A decimal read from the start of a string: its exact value and how many characters it took. */
  datatype Number = Number(value: real, length: nat)

  /** The exact value of a decimal written as its whole digits and its fraction digits. */
  function DecimalValue(whole: string, fraction: string): real
    requires AllDigits(whole) && AllDigits(fraction)
  {
    DigitsValue(whole) as real + DigitsValue(fraction) as real / Pow10(|fraction|) as real
  }

  /**
   * The greedy match of `^\d+(\.\d+)?` on `s`: the whole digit run, then a
   * point and a second digit run when both are there. `parseFloat` of the
   * matched text is taken as its exact decimal value.
   */
  function LeadingNumber(s: string): (r: Option<Number>)
    ensures r.None? <==> (|s| == 0 || !IsDigit(s[0]))
    ensures r.Some? ==> 0 < r.value.length <= |s| && r.value.value >= 0.0
    ensures r.Some? ==> r.value.length == |s| || !IsDigit(s[r.value.length])
  {
    var i := DigitRun(s);
    if i == 0 then None
    else
      var f := if i < |s| && s[i] == '.' then DigitRun(s[i + 1..]) else 0;
      if f > 0 then
        Some(Number(DecimalValue(s[..i], s[i + 1..][..f]), i + 1 + f))
      else Some(Number(DigitsValue(s[..i]) as real, i))
  }

  /** A leading decimal and what is left after it and the whitespace that follows it. */
  datatype Scan = Scan(value: real, rest: string)

  /**
   * `^(\d+(\.\d+)?)\s*` matched greedily: the number and the remaining text.
   * Both the quantity and the weight patterns begin this way; what each then
   * demands of the rest decides whether the whole pattern matches.
   */
  function NumberThenRest(s: string): (r: Option<Scan>)
    ensures r.None? <==> (|s| == 0 || !IsDigit(s[0]))
    ensures r.Some? ==> r.value.value >= 0.0 && |r.value.rest| < |s| && r.value.rest == s[|s| - |r.value.rest|..]
    ensures r.Some? ==> r.value.rest == [] || !IsWhitespace(r.value.rest[0])
  {
    match LeadingNumber(s)
    case None => None
    case Some(n) =>
      var w := SpaceRun(s[n.length..]);
      assert s[n.length..][w..] == s[n.length + w..];
      Some(Scan(n.value, s[n.length + w..]))
  }

  /** A run of digits followed by a non-digit is read exactly as far as the digits go. */
  lemma {:induction false} DigitRunOfDigits(d: string, rest: string)
    requires AllDigits(d)
    requires rest == [] || !IsDigit(rest[0])
    ensures DigitRun(d + rest) == |d|
  {
    if |d| > 0 {
      assert (d + rest)[1..] == d[1..] + rest;
      DigitRunOfDigits(d[1..], rest);
    } else {
      assert d + rest == rest;
    }
  }

  /** `n.toString()` followed by anything that is not a digit or a point reads back as `n`. */
  lemma NumberOfWhole(n: nat, rest: string)
    requires rest == [] || (!IsDigit(rest[0]) && rest[0] != '.')
    ensures LeadingNumber(NatToString(n) + rest) == Some(Number(n as real, |NatToString(n)|))
  {
    var d := NatToString(n);
    DigitRunOfDigits(d, rest);
    assert (d + rest)[..|d|] == d;
    NatToStringRoundTrip(n);
  }

  /** When the number at the start of `s` ends where `tail` begins, the scan leaves `tail` less its spaces. */
  lemma ScanAt(s: string, len: nat, value: real, tail: string)
    requires LeadingNumber(s) == Some(Number(value, len))
    requires len <= |s| && s[len..] == tail
    ensures NumberThenRest(s) == Some(Scan(value, tail[SpaceRun(tail)..]))
  {
    var w := SpaceRun(tail);
    assert s[len + w..] == tail[w..];
  }

  /** Whatever follows a whole number is what the number scan leaves, less its leading spaces. */
  lemma ScanOfWhole(n: nat, tail: string)
    requires tail == [] || (!IsDigit(tail[0]) && tail[0] != '.')
    ensures NumberThenRest(NatToString(n) + tail) == Some(Scan(n as real, tail[SpaceRun(tail)..]))
  {
    var d := NatToString(n);
    var s := d + tail;
    NumberOfWhole(n, tail);
    ScanAt(s, |d|, n as real, tail);
  }

  /** A single space before text that does not start with whitespace is a run of one. */
  lemma SpaceRunOfOne(u: string)
    requires u == [] || !IsWhitespace(u[0])
    ensures SpaceRun(" " + u) == 1 && (" " + u)[1..] == u
  {
    assert (" " + u)[1..] == u;
  }

  /** The text `toFixed(1)` gives for a non-negative number that is `t` tenths. */
  function FormatTenths(t: nat): (s: string)
    ensures |s| >= 3 && s[|s| - 2] == '.' && IsDigit(s[|s| - 1])
  {
    NatToString(t / 10) + "." + [DigitChar(t % 10)]
  }

  lemma TenthsSplit(t: nat)
    ensures (t / 10) as real + (t % 10) as real / 10.0 == t as real / 10.0
  {
    assert t == (t / 10) * 10 + t % 10;
  }

  /**
   * Digits, a point, more digits and then a non-digit: the scan takes both
   * digit runs and the point between them.
   */
  lemma NumberOfDecimal(d: string, f: string, rest: string, s: string)
    requires |d| > 0 && AllDigits(d) && |f| > 0 && AllDigits(f)
    requires rest == [] || !IsDigit(rest[0])
    requires s == d + (['.'] + (f + rest))
    ensures LeadingNumber(s) == Some(Number(DecimalValue(d, f), |d| + 1 + |f|))
  {
    DecimalRuns(d, f, rest, s);
    DecimalPieces(d, f, rest, s);
  }

  lemma DecimalRuns(d: string, f: string, rest: string, s: string)
    requires |d| > 0 && AllDigits(d) && AllDigits(f)
    requires rest == [] || !IsDigit(rest[0])
    requires s == d + (['.'] + (f + rest))
    ensures DigitRun(s) == |d| && s[|d|] == '.' && DigitRun(s[|d| + 1..]) == |f|
  {
    DigitRunOfDigits(d, ['.'] + (f + rest));
    assert s[|d| + 1..] == f + rest;
    DigitRunOfDigits(f, rest);
  }

  lemma DecimalPieces(d: string, f: string, rest: string, s: string)
    requires s == d + (['.'] + (f + rest))
    ensures s[..|d|] == d && s[|d| + 1..][..|f|] == f
  {
    assert s[|d| + 1..] == f + rest;
  }

  /** A number printed with one decimal, followed by anything but a digit, reads back as that number. */
  lemma NumberOfTenths(t: nat, rest: string)
    requires rest == [] || !IsDigit(rest[0])
    ensures LeadingNumber(FormatTenths(t) + rest) == Some(Number(t as real / 10.0, |FormatTenths(t)|))
  {
    var d := NatToString(t / 10);
    var c := DigitChar(t % 10);
    TenthsText(t, rest);
    NumberOfDecimal(d, [c], rest, FormatTenths(t) + rest);
    TenthsValue(t);
  }

  /** The digits `toFixed(1)` prints stand for the number of tenths printed. */
  lemma TenthsValue(t: nat)
    ensures DecimalValue(NatToString(t / 10), [DigitChar(t % 10)]) == t as real / 10.0
  {
    NatToStringRoundTrip(t / 10);
    OneDigitValue(DigitChar(t % 10));
    TenthsSplit(t);
  }

  lemma TenthsText(t: nat, rest: string)
    ensures FormatTenths(t) + rest == NatToString(t / 10) + (['.'] + ([DigitChar(t % 10)] + rest))
  {
  }

  lemma OneDigitValue(c: char)
    requires IsDigit(c)
    ensures DigitsValue([c]) == DigitValue(c)
  {
    assert [c][..0] == [];
  }

  /** Whatever follows a one-decimal number is what the number scan leaves, less its leading spaces. */
  lemma ScanOfTenths(t: nat, tail: string, s: string)
    requires tail == [] || !IsDigit(tail[0])
    requires s == FormatTenths(t) + tail
    ensures NumberThenRest(s) == Some(Scan(t as real / 10.0, tail[SpaceRun(tail)..]))
  {
    var f := FormatTenths(t);
    NumberOfTenths(t, tail);
    ScanAt(s, |f|, t as real / 10.0, tail);
  }

  /** A one-decimal number, a space and a unit scan as that number and that unit. */
  lemma ScanOfTenthsUnit(t: nat, unit: string, s: string)
    requires unit == [] || !IsWhitespace(unit[0])
    requires s == FormatTenths(t) + " " + unit
    ensures NumberThenRest(s) == Some(Scan(t as real / 10.0, unit))
  {
    assert s == FormatTenths(t) + (" " + unit);
    ScanOfTenths(t, " " + unit, s);
    SpaceRunOfOne(unit);
  }

  // ---------------------------------------------------------------------------
  // Rounding
  // ---------------------------------------------------------------------------

  /** `Math.round(x)`: the nearest whole number, halves rounded up. */
  function JsRound(x: real): (r: int)
    ensures x - 0.5 < r as real <= x + 0.5
  {
    (x + 0.5).Floor
  }

}
