// Which tax numbers are valid, told digit by digit.

module NpwpLaws {
  import opened Options
  import opened Texts
  import opened Npwp

  /** What a digit adds: on odd positions it is doubled, and the digits of the product are added up. */
  function Contribution(digit: char, i: nat): int {
    var d := digit as int - 48;
    if i % 2 == 0 then d else if d <= 4 then 2 * d else 2 * d - 9
  }

  /** Eight zeros have the check digit 0. */
  lemma ZerosAddNothing()
    ensures CheckDigitOf("00000000") == 0
  {
    assert TermSum("00000000", 4) == 0;
  }

  /**
   * The check digit makes up the sum of what each digit adds to a multiple of ten. With zeros adding nothing
   * this determines it for every number.
   */
  lemma EachDigitAdds(s: string, i: nat)
    requires |s| == 8 && AllDigits(s) && i < 8
    ensures (CheckDigitOf(s) + Contribution(s[i], i)) % 10 == CheckDigitOf(s[i := '0'])
    ensures 0 <= CheckDigitOf(s) <= 9
  {
    TermSumReplaced(s, i, '0', 8);
    assert Term(Digit(s[i]), i) == Contribution(s[i], i) && Term(Digit('0'), i) == 0;
    Complements(TermSum(s[i := '0'], 8), Contribution(s[i], i));
  }

  lemma Complements(x: int, y: int)
    ensures ((10 - (x + y) % 10) % 10 + y) % 10 == (10 - x % 10) % 10
  {
  }

  /** `d` written as a digit. */
  function Written(d: int): char
    requires 0 <= d <= 9
  {
    (d + 48) as char
  }

  /**
   * Eight digits that do not begin with 00, a tax office other than 000 and any branch make a valid number with
   * exactly one check digit, the one that is calculated; with 00 or 000 there is none.
   */
  lemma ExactlyOneCheckDigit(first8: string, digit: char, office: string, branch: string)
    requires |first8| == 8 && |office| == 3 && |branch| == 3
    requires AllDigits(first8) && AllDigits(office) && AllDigits(branch) && IsDigit(digit)
    ensures 0 <= CheckDigitOf(first8) <= 9
    ensures Validate15(first8 + [digit] + office + branch) == None
      <==> first8[..2] != "00" && office != "000" && digit == Written(CheckDigitOf(first8))
  {
    var s := first8 + [digit] + office + branch;
    assert s[..8] == first8 && s[9..12] == office && s[8] == digit && s[0] == first8[0] && s[1] == first8[1];
    assert first8[..2] == [first8[0], first8[1]];
    assert AllDigits(s);
  }

  /** Anything but 15 digits is no 15-digit number. */
  lemma OnlyFifteenDigits(s: string)
    requires |s| != 15 || !AllDigits(s)
    ensures Validate15(s) == Some(if |s| != 15 then InvalidLength else NonNumeric)
  {
  }

  /** What is wrong with 15 digits: the type comes before the check digit, and that before the tax office. */
  lemma FirstComplaint(first8: string, digit: char, office: string, branch: string)
    requires |first8| == 8 && |office| == 3 && |branch| == 3
    requires AllDigits(first8) && AllDigits(office) && AllDigits(branch) && IsDigit(digit)
    requires 0 <= CheckDigitOf(first8) <= 9
    ensures
      var error := Validate15(first8 + [digit] + office + branch);
      && (first8[..2] == "00" ==> error == Some(InvalidTaxpayerType))
      && (first8[..2] != "00" && digit != Written(CheckDigitOf(first8)) ==> error == Some(InvalidChecksum))
      && (first8[..2] != "00" && digit == Written(CheckDigitOf(first8)) && office == "000" ==> error == Some(InvalidKPP))
  {
    var s := first8 + [digit] + office + branch;
    assert s[..8] == first8 && s[9..12] == office && s[8] == digit && s[0] == first8[0] && s[1] == first8[1];
    assert first8[..2] == [first8[0], first8[1]];
    assert AllDigits(s);
  }

  /**
   * The digits of any text decide: 15 are a number of their own, 16 are one behind a leading zero and an
   * individual's identity number otherwise, and any other count is none.
   */
  lemma DigitsDecide(raw: string, validNIK: string -> bool)
    ensures
      var digits, error := Clean(raw), Validate(raw, validNIK);
      && (|digits| == 15 ==> error == Validate15(digits))
      && (|digits| == 16 && digits[0] == '0' ==> error == Validate15(digits[1..]))
      && (|digits| == 16 && digits[0] != '0' ==> error == if validNIK(digits) then None else Some(InvalidNIK))
      && (|digits| != 15 && |digits| != 16 ==> error == Some(InvalidLength))
  {
    CleanGivesDigits(raw);
  }

  /** The standard form: two, three, three and one digits with points between, a hyphen, and three and three with a point. */
  lemma FormatIs(s: string)
    requires |s| == 15 && AllDigits(s)
    ensures
      var f := Format15(s);
      && |f| == 20 && f[12] == '-'
      && (forall i | 0 <= i < 20 && !IsDigit(f[i]) :: i in {2, 6, 10, 12, 16})
      && f[2] == f[6] == f[10] == f[16] == '.'
  {
  }
}
