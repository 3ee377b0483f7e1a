// Indonesian tax numbers (NPWP).

module Npwp {
  import opened Options
  import opened Texts

  datatype NpwpError = InvalidLength | NonNumeric | InvalidTaxpayerType | InvalidChecksum | InvalidKPP | InvalidNIK

  /** The digits of a string, in order. */
  function Clean(raw: string): string {
    if raw == [] then []
    else Clean(raw[..|raw| - 1]) + (if IsDigit(raw[|raw| - 1]) then [raw[|raw| - 1]] else [])
  }

  predicate AllDigits(s: string) {
    forall i | 0 <= i < |s| :: IsDigit(s[i])
  }

  method CleanNPWP(raw: string) returns (cleaned: string)
    ensures cleaned == Clean(raw)
  {
    cleaned := "";
    for i := 0 to |raw|
      invariant cleaned == Clean(raw[..i])
    {
      assert raw[..i + 1][..i] == raw[..i];
      if '0' <= raw[i] <= '9' {
        cleaned := cleaned + [raw[i]];
      }
    }
    assert raw[..|raw|] == raw;
  }

  lemma {:induction false} CleanGivesDigits(raw: string)
    ensures AllDigits(Clean(raw))
  {
    if raw != [] {
      CleanGivesDigits(raw[..|raw| - 1]);
    }
  }

  lemma {:induction false} CleanKeepsDigits(s: string)
    requires AllDigits(s)
    ensures Clean(s) == s
  {
    if s != [] {
      CleanKeepsDigits(s[..|s| - 1]);
      assert s == s[..|s| - 1] + [s[|s| - 1]];
    }
  }

  lemma {:induction false} CleanOfConcat(s: string, t: string)
    ensures Clean(s + t) == Clean(s) + Clean(t)
    decreases |t|
  {
    if t == [] {
      assert s + t == s;
    } else {
      var front := t[..|t| - 1];
      assert (s + t)[..|s + t| - 1] == s + front;
      CleanOfConcat(s, front);
    }
  }

  function Format15(cleaned: string): string {
    if |cleaned| != 15 then cleaned
    else cleaned[0..2] + "." + cleaned[2..5] + "." + cleaned[5..8] + "." + cleaned[8..9] + "-" + cleaned[9..12] + "." + cleaned[12..15]
  }

  lemma SeparatorsVanish(s: string, separator: char, part: string)
    requires AllDigits(part) && !IsDigit(separator)
    ensures Clean(s + [separator] + part) == Clean(s) + part
  {
    CleanKeepsDigits(part);
    CleanOfConcat(s + [separator], part);
    assert (s + [separator])[..|s|] == s;
    assert Clean(s + [separator]) == Clean(s);
  }

  /** Cleaning undoes the standard formatting. */
  lemma CleanAfterFormat(s: string)
    requires |s| == 15 && AllDigits(s)
    ensures Clean(Format15(s)) == s
  {
    CleanKeepsDigits(s[0..2]);
    var a := s[0..2] + ['.'] + s[2..5];
    SeparatorsVanish(s[0..2], '.', s[2..5]);
    var b := a + ['.'] + s[5..8];
    SeparatorsVanish(a, '.', s[5..8]);
    var c := b + ['.'] + s[8..9];
    SeparatorsVanish(b, '.', s[8..9]);
    var d := c + ['-'] + s[9..12];
    SeparatorsVanish(c, '-', s[9..12]);
    SeparatorsVanish(d, '.', s[12..15]);
    assert Format15(s) == d + ['.'] + s[12..15];
    assert s[0..2] + s[2..5] + s[5..8] + s[8..9] + s[9..12] + s[12..15] == s;
  }

  // ---- The check digit ----

  function Digit(ch: char): int {
    (ch as int) - ('0' as int)
  }

  /** Every second digit is doubled, and nine is taken off a two-digit product. */
  function Term(digit: int, i: nat): int {
    var prod := if i % 2 == 0 then digit else 2 * digit;
    if prod > 9 then prod - 9 else prod
  }

  function TermSum(s: string, n: nat): int
    requires n <= |s|
  {
    if n == 0 then 0 else TermSum(s, n - 1) + Term(Digit(s[n - 1]), n - 1)
  }

  function CheckDigitOf(first8: string): int
    requires |first8| == 8
  {
    (10 - TermSum(first8, 8) % 10) % 10
  }

  method CalculateNPWPCheckDigit(first8: string) returns (digit: int, error: Option<NpwpError>)
    ensures error == if |first8| != 8 then Some(InvalidLength) else if !AllDigits(first8) then Some(NonNumeric) else None
    ensures digit == if error.None? then CheckDigitOf(first8) else -1
    ensures error.None? ==> 0 <= digit <= 9
  {
    if |first8| != 8 {
      return -1, Some(InvalidLength);
    }
    var weights := [1, 2, 1, 2, 1, 2, 1, 2];
    var sum := 0;
    for i := 0 to 8
      invariant sum == TermSum(first8, i) && sum >= 0
      invariant forall k | 0 <= k < i :: IsDigit(first8[k])
    {
      var b := first8[i];
      if b < '0' || b > '9' {
        return -1, Some(NonNumeric);
      }
      var prod := Digit(b) * weights[i];
      if prod > 9 {
        prod := prod - 9;
      }
      sum := sum + prod;
    }
    return (10 - sum % 10) % 10, None;
  }

  lemma {:induction false} TermSumReplaced(s: string, i: nat, ch: char, n: nat)
    requires i < |s| && n <= |s|
    ensures TermSum(s[i := ch], n) - TermSum(s, n) == if i < n then Term(Digit(ch), i) - Term(Digit(s[i]), i) else 0
  {
    if n > 0 {
      TermSumReplaced(s, i, ch, n - 1);
    }
  }

  lemma CloseSumsDiffer(x: int, y: int)
    requires -10 < x - y < 10
    ensures (10 - x % 10) % 10 == (10 - y % 10) % 10 <==> x == y
  {
    assert x % 10 == y % 10 ==> x - y == 10 * (x / 10 - y / 10);
  }

  /** Replacing one of the eight digits always changes the check digit. */
  lemma ReplacementDetected(s: string, i: nat, ch: char)
    requires |s| == 8 && AllDigits(s) && i < 8 && IsDigit(ch)
    ensures CheckDigitOf(s[i := ch]) == CheckDigitOf(s) <==> ch == s[i]
  {
    TermSumReplaced(s, i, ch, 8);
    TermsAreDistinct(Digit(ch), Digit(s[i]), i);
    CloseSumsDiffer(TermSum(s[i := ch], 8), TermSum(s, 8));
  }

  lemma TermsAreDistinct(x: int, y: int, i: nat)
    requires 0 <= x <= 9 && 0 <= y <= 9
    ensures 0 <= Term(x, i) <= 9 && 0 <= Term(y, i) <= 9
    ensures Term(x, i) == Term(y, i) <==> x == y
  {
  }

  function Swapped(s: string, i: nat): string
    requires i + 1 < |s|
  {
    s[i := s[i + 1]][i + 1 := s[i]]
  }

  lemma SwappedTerms(x: int, y: int, i: nat)
    requires 0 <= x <= 9 && 0 <= y <= 9
    ensures
      var change := Term(y, i) + Term(x, i + 1) - Term(x, i) - Term(y, i + 1);
      -10 < change < 10 && (change == 0 <==> x == y || (x == 0 && y == 9) || (x == 9 && y == 0))
  {
  }

  /** Swapping two neighbours changes the check digit unless they are equal or a 0 and a 9. */
  lemma SwapDetected(s: string, i: nat)
    requires |s| == 8 && AllDigits(s) && i + 1 < 8
    ensures CheckDigitOf(Swapped(s, i)) == CheckDigitOf(s)
      <==> s[i] == s[i + 1] || (s[i] == '0' && s[i + 1] == '9') || (s[i] == '9' && s[i + 1] == '0')
  {
    TermSumReplaced(s, i, s[i + 1], 8);
    TermSumReplaced(s[i := s[i + 1]], i + 1, s[i], 8);
    SwappedTerms(Digit(s[i]), Digit(s[i + 1]), i);
    CloseSumsDiffer(TermSum(Swapped(s, i), 8), TermSum(s, 8));
  }

  // ---- The validators ----

  /** `None` means valid. */
  function Validate15(cleaned: string): Option<NpwpError> {
    if |cleaned| != 15 then Some(InvalidLength)
    else if !AllDigits(cleaned) then Some(NonNumeric)
    else if cleaned[0] == '0' && cleaned[1] == '0' then Some(InvalidTaxpayerType)
    else if Digit(cleaned[8]) != CheckDigitOf(cleaned[..8]) then Some(InvalidChecksum)
    else if cleaned[9..12] == "000" then Some(InvalidKPP)
    else None
  }

  /** `validNIK` decides on the 16-digit numbers of individuals. */
  function Validate16(cleaned: string, validNIK: string -> bool): Option<NpwpError> {
    if |cleaned| != 16 then Some(InvalidLength)
    else if !AllDigits(cleaned) then Some(NonNumeric)
    else if cleaned[0] == '0' then Validate15(cleaned[1..])
    else if validNIK(cleaned) then None else Some(InvalidNIK)
  }

  /** The result for the cleaned number; the source returns that number beside it. */
  function Validate(raw: string, validNIK: string -> bool): Option<NpwpError> {
    var cleaned := Clean(raw);
    if |cleaned| == 15 then Validate15(cleaned)
    else if |cleaned| == 16 then Validate16(cleaned, validNIK)
    else Some(InvalidLength)
  }

  /** Validation looks at the digits alone: a number and its cleaned form fare alike. */
  lemma CleanedFaresAlike(raw: string, validNIK: string -> bool)
    ensures Validate(Clean(raw), validNIK) == Validate(raw, validNIK)
    ensures Clean(Clean(raw)) == Clean(raw)
  {
    CleanGivesDigits(raw);
    CleanKeepsDigits(Clean(raw));
  }

  /** In a valid 15-digit number, misreading any of the first nine digits is always rejected. */
  lemma MisreadDigitRejected(s: string, i: nat, digit: char)
    requires Validate15(s) == None && i <= 8 && IsDigit(digit) && digit != s[i]
    ensures Validate15(s[i := digit]) != None
  {
    var changed := s[i := digit];
    if i < 8 {
      assert changed[..8] == s[..8][i := digit];
      ReplacementDetected(s[..8], i, digit);
    } else {
      assert changed[..8] == s[..8];
    }
  }
}
