// Machine-readable zone check digits (ICAO Doc 9303 Part 3, section 4.9) and the TD3 passport layout
// (Part 4, section 4.2.2). Lines are ASCII.

module Mrz {
  import opened Options
  import opened Texts

  function Value(ch: char): nat {
    if '0' <= ch <= '9' then (ch as int) - ('0' as int)
    else if 'A' <= ch <= 'Z' then (ch as int) - ('A' as int) + 10
    else 0
  }

  /** The weights 7, 3, 1 repeat along the field. */
  function Weighted(value: nat, i: nat): nat {
    if i % 3 == 0 then 7 * value else if i % 3 == 1 then 3 * value else value
  }

  /** The weighted sum of the first `n` characters. */
  function SumOf(data: string, n: nat): nat
    requires n <= |data|
  {
    if n == 0 then 0 else SumOf(data, n - 1) + Weighted(Value(data[n - 1]), n - 1)
  }

  function CheckDigit(data: string): char {
    ((SumOf(data, |data|) % 10) + ('0' as int)) as char
  }

  method CalculateMRZCheckDigit(data: string) returns (digit: char)
    ensures digit == CheckDigit(data)
  {
    var weights := [7, 3, 1];
    var sum := 0;
    for i := 0 to |data|
      invariant sum == SumOf(data, i)
    {
      var ch := data[i];
      var val := 0;
      if '0' <= ch <= '9' {
        val := (ch as int) - ('0' as int);
      } else if 'A' <= ch <= 'Z' {
        val := (ch as int) - ('A' as int) + 10;
      }
      sum := sum + val * weights[i % 3];
    }
    return ((sum % 10) + ('0' as int)) as char;
  }

  // ---- The strength of one check digit ----

  lemma {:induction false} SumOfReplaced(data: string, i: nat, ch: char, n: nat)
    requires i < |data| && n <= |data|
    ensures SumOf(data[i := ch], n) - SumOf(data, n)
         == if i < n then Weighted(Value(ch), i) - Weighted(Value(data[i]), i) else 0
  {
    if n > 0 {
      SumOfReplaced(data, i, ch, n - 1);
    }
  }

  lemma WeightsAreUnits(x: nat, y: nat, i: nat)
    ensures (Weighted(x, i) - Weighted(y, i)) % 10 == 0 <==> (x - y) % 10 == 0
  {
    SevenAndThreeAreUnits(x - y);
  }

  lemma MultipleOfTen(t: int, d: int)
    requires d == 10 * t
    ensures d % 10 == 0 && d % 5 == 0
  {
  }

  lemma SevenAndThreeAreUnits(d: int)
    ensures (7 * d) % 10 == 0 <==> d % 10 == 0
    ensures (3 * d) % 10 == 0 <==> d % 10 == 0
  {
    if (7 * d) % 10 == 0 {
      MultipleOfTen(3 * (7 * d / 10) - 2 * d, d);
    }
    if (3 * d) % 10 == 0 {
      MultipleOfTen(7 * (3 * d / 10) - 2 * d, d);
    }
    if d % 10 == 0 {
      MultipleOfTen(7 * (d / 10), 7 * d);
      MultipleOfTen(3 * (d / 10), 3 * d);
    }
  }

  lemma SameDigit(x: int, y: int)
    ensures x % 10 == y % 10 <==> (x - y) % 10 == 0
  {
    var p, q := x / 10, y / 10;
    if x % 10 == y % 10 {
      MultipleOfTen(p - q, x - y);
    }
    if (x - y) % 10 == 0 {
      var k := (x - y) / 10;
      assert x % 10 - y % 10 == 10 * (k - p + q);
    }
  }

  lemma SameModuloFive(x: int, y: int)
    ensures x % 5 == y % 5 <==> (2 * x - 2 * y) % 10 == 0
    ensures x % 5 == y % 5 <==> (4 * x - 4 * y) % 10 == 0
    ensures x % 5 == y % 5 <==> (6 * y - 6 * x) % 10 == 0
  {
    var p, q := x / 5, y / 5;
    if x % 5 == y % 5 {
      MultipleOfTen(p - q, 2 * x - 2 * y);
      MultipleOfTen(2 * (p - q), 4 * x - 4 * y);
      MultipleOfTen(-3 * (p - q), 6 * y - 6 * x);
    }
    if (2 * x - 2 * y) % 10 == 0 {
      var k := (2 * x - 2 * y) / 10;
      assert x % 5 - y % 5 == 5 * (k - p + q);
    }
    if (4 * x - 4 * y) % 10 == 0 {
      var k := (4 * x - 4 * y) / 10;
      assert x % 5 - y % 5 == 5 * (x - y - 2 * k - p + q);
    }
    if (6 * y - 6 * x) % 10 == 0 {
      var k := (6 * y - 6 * x) / 10;
      assert x % 5 - y % 5 == 5 * (y - x - 2 * k - p + q);
    }
  }

  /** Replacing one character leaves the check digit as it is exactly when the values agree modulo 10. */
  lemma ReplacementDetected(data: string, i: nat, ch: char)
    requires i < |data|
    ensures CheckDigit(data[i := ch]) == CheckDigit(data) <==> Value(ch) % 10 == Value(data[i]) % 10
  {
    SumOfReplaced(data, i, ch, |data|);
    WeightsAreUnits(Value(ch), Value(data[i]), i);
    SameDigit(SumOf(data[i := ch], |data|), SumOf(data, |data|));
    SameDigit(Value(ch), Value(data[i]));
  }

  function Swapped(data: string, i: nat): string
    requires i + 1 < |data|
  {
    data[i := data[i + 1]][i + 1 := data[i]]
  }

  lemma WeightDifferences(x: nat, y: nat, i: nat)
    ensures (Weighted(y, i) + Weighted(x, i + 1) - Weighted(x, i) - Weighted(y, i + 1)) % 10 == 0 <==> x % 5 == y % 5
  {
    var d := Weighted(y, i) + Weighted(x, i + 1) - Weighted(x, i) - Weighted(y, i + 1);
    assert d == if i % 3 == 0 then 4 * y - 4 * x else if i % 3 == 1 then 2 * y - 2 * x else 6 * x - 6 * y by {
      assert (i + 1) % 3 == if i % 3 == 2 then 0 else i % 3 + 1;
    }
    SameModuloFive(y, x);
  }

  lemma SumOfSwapped(data: string, i: nat)
    requires i + 1 < |data|
    ensures
      var x, y := Value(data[i]), Value(data[i + 1]);
      SumOf(Swapped(data, i), |data|) - SumOf(data, |data|)
      == Weighted(y, i) + Weighted(x, i + 1) - Weighted(x, i) - Weighted(y, i + 1)
  {
    SumOfReplaced(data, i, data[i + 1], |data|);
    SumOfReplaced(data[i := data[i + 1]], i + 1, data[i], |data|);
  }

  /** Swapping two neighbours leaves the check digit as it is exactly when their values agree modulo 5. */
  lemma SwapDetected(data: string, i: nat)
    requires i + 1 < |data|
    ensures CheckDigit(Swapped(data, i)) == CheckDigit(data) <==> Value(data[i]) % 5 == Value(data[i + 1]) % 5
  {
    SumOfSwapped(data, i);
    WeightDifferences(Value(data[i]), Value(data[i + 1]), i);
    SameDigit(SumOf(Swapped(data, i), |data|), SumOf(data, |data|));
  }

  // ---- TD3 ----

  const LINE_LENGTH := 44

  datatype Date = Date(year: int, month: int, day: int)

  function TwoDigits(s: string): nat
    requires |s| == 2
  {
    Value(s[0]) * 10 + Value(s[1])
  }

  /** `None` stands for every parse error; the century depends on the current year. */
  function ParseMRZDate(yymmdd: string, isExpiry: bool, currentYear: nat): Option<Date> {
    if |yymmdd| != 6 || (exists i | 0 <= i < 6 :: !IsDigit(yymmdd[i])) then None
    else
      var yy, mm, dd := TwoDigits(yymmdd[0..2]), TwoDigits(yymmdd[2..4]), TwoDigits(yymmdd[4..6]);
      if mm < 1 || mm > 12 || dd < 1 || dd > 31 then None
      else
        var century := currentYear / 100 * 100;
        var year :=
          if isExpiry then (if century + yy < currentYear - 30 then century + yy + 100 else century + yy)
          else if yy > currentYear % 100 then century - 100 + yy else century + yy;
        Some(Date(year, mm, dd))
  }

  function Normalize(s: string): string {
    Upper(Trim(s))
  }

  predicate AllFillers(s: string) {
    forall i | 0 <= i < |s| :: s[i] == '<'
  }

  function CompositePayload(line: string): string
    requires |line| == LINE_LENGTH
  {
    line[0..10] + line[13..20] + line[21..43]
  }

  predicate OptionalValid(line: string)
    requires |line| == LINE_LENGTH
  {
    if AllFillers(line[28..42]) then line[42] == '<' || line[42] == '0' else line[42] == CheckDigit(line[28..42])
  }

  /** The checks on a normalised second line. */
  predicate AcceptsLine2(line: string, currentYear: nat)
    requires |line| == LINE_LENGTH
  {
    && line[9] == CheckDigit(line[0..9])
    && line[19] == CheckDigit(line[13..19]) && ParseMRZDate(line[13..19], false, currentYear).Some?
    && line[20] in {'M', 'F', '<'}
    && line[27] == CheckDigit(line[21..27]) && ParseMRZDate(line[21..27], true, currentYear).Some?
    && OptionalValid(line)
    && line[43] == CheckDigit(CompositePayload(line))
  }

  predicate Accepts(line1: string, line2: string, currentYear: nat) {
    var l1, l2 := Normalize(line1), Normalize(line2);
    |l1| == LINE_LENGTH && |l2| == LINE_LENGTH && l1[0] == 'P' && AcceptsLine2(l2, currentYear)
  }

  /** Replacing a digit replaces it in the normalised line, after the blanks that are trimmed off. */
  lemma NormalizeReplaced(s: string, p: nat, digit: char)
    requires p < |s| && IsDigit(s[p]) && IsDigit(digit)
    ensures Leading(s) <= p < Leading(s) + |Normalize(s)| && Normalize(s)[p - Leading(s)] == s[p]
    ensures Normalize(s[p := digit]) == Normalize(s)[p - Leading(s) := digit]
  {
    TrimReplaced(s, p, digit);
    assert UpperChar(digit) == digit && UpperChar(s[p]) == s[p];
  }

  /** Positions whose character the composite check digit covers, besides its own position. */
  predicate Covered(i: nat) {
    i <= 9 || 13 <= i <= 19 || 21 <= i <= 42
  }

  /** Where a covered position of the line stands in the composite payload. */
  function CompositeIndex(i: nat): nat
    requires Covered(i)
  {
    if i <= 9 then i else if i <= 19 then i - 3 else i - 4
  }

  lemma CompositeReplaced(line: string, i: nat, ch: char)
    requires |line| == LINE_LENGTH && Covered(i)
    ensures CompositeIndex(i) < |CompositePayload(line)|
    ensures CompositePayload(line)[CompositeIndex(i)] == line[i]
    ensures CompositePayload(line[i := ch]) == CompositePayload(line)[CompositeIndex(i) := ch]
  {
  }

  /**
   * In an accepted second line, replacing one covered character by one whose value differs modulo 10,
   * or the final check digit by any other character, is always rejected.
   */
  lemma ReplacementRejected(line: string, i: nat, ch: char, currentYear: nat)
    requires |line| == LINE_LENGTH && AcceptsLine2(line, currentYear)
    requires (Covered(i) && Value(ch) % 10 != Value(line[i]) % 10) || (i == 43 && ch != line[43])
    ensures !AcceptsLine2(line[i := ch], currentYear)
  {
    var changed := line[i := ch];
    if i == 43 {
      assert CompositePayload(changed) == CompositePayload(line);
    } else {
      CompositeReplaced(line, i, ch);
      ReplacementDetected(CompositePayload(line), CompositeIndex(i), ch);
      assert changed[43] == line[43];
    }
  }

  /**
   * Hence a misread digit at positions 0-9, 13-19 or 21-43 of an accepted line, counted after any blanks
   * in front, never goes unnoticed.
   */
  lemma MisreadDigitRejected(line1: string, line2: string, p: nat, digit: char, currentYear: nat)
    requires Accepts(line1, line2, currentYear)
    requires p < |line2| && IsDigit(line2[p]) && IsDigit(digit) && digit != line2[p]
    requires Leading(line2) <= p && (Covered(p - Leading(line2)) || p - Leading(line2) == 43)
    ensures !Accepts(line1, line2[p := digit], currentYear)
  {
    NormalizeReplaced(line2, p, digit);
    DigitsDiffer(digit, line2[p]);
    ReplacementRejected(Normalize(line2), p - Leading(line2), digit, currentYear);
  }

  lemma DigitsDiffer(x: char, y: char)
    requires IsDigit(x) && IsDigit(y) && x != y
    ensures Value(x) % 10 != Value(y) % 10
  {
  }

  /** Changing a document-number character and nothing else touches only the two digits that cover it. */
  lemma DocumentNumberReplaced(line: string, i: nat, ch: char, currentYear: nat)
    requires |line| == LINE_LENGTH && i < 9 && AcceptsLine2(line, currentYear)
    ensures AcceptsLine2(line[i := ch], currentYear) <==> Value(ch) % 10 == Value(line[i]) % 10
  {
    var changed := line[i := ch];
    CompositeReplaced(line, i, ch);
    ReplacementDetected(CompositePayload(line), CompositeIndex(i), ch);
    ReplacementDetected(line[0..9], i, ch);
    assert changed[0..9] == line[0..9][i := ch];
    assert changed[13..19] == line[13..19] && changed[21..27] == line[21..27] && changed[28..42] == line[28..42];
  }

  /** Swapping two neighbours of the document number goes unnoticed exactly when their values agree modulo 5. */
  lemma DocumentNumberSwapped(line: string, i: nat, currentYear: nat)
    requires |line| == LINE_LENGTH && i + 1 < 9 && AcceptsLine2(line, currentYear)
    ensures AcceptsLine2(Swapped(line, i), currentYear) <==> Value(line[i]) % 5 == Value(line[i + 1]) % 5
  {
    var changed := Swapped(line, i);
    SwapDetected(line[0..9], i);
    SwapDetected(CompositePayload(line), i);
    assert changed[0..9] == Swapped(line[0..9], i);
    assert CompositePayload(changed) == Swapped(CompositePayload(line), i);
    assert changed[13..19] == line[13..19] && changed[21..27] == line[21..27] && changed[28..42] == line[28..42];
  }

  // ---- The validator ----

  datatype Verdict = BadLength | BadDocumentCode | Checked(number: bool, dob: bool, sex: bool, expiry: bool, optional: bool, composite: bool)
  {
    predicate IsValid() {
      Checked? && number && dob && sex && expiry && optional && composite
    }
  }

  /** What each flag says about a normalised second line. */
  function Flags(line: string, currentYear: nat): Verdict
    requires |line| == LINE_LENGTH
  {
    Checked(
      line[9] == CheckDigit(line[0..9]),
      line[19] == CheckDigit(line[13..19]) && ParseMRZDate(line[13..19], false, currentYear).Some?,
      line[20] in {'M', 'F', '<'},
      line[27] == CheckDigit(line[21..27]) && ParseMRZDate(line[21..27], true, currentYear).Some?,
      OptionalValid(line),
      line[43] == CheckDigit(CompositePayload(line)))
  }

  /** The source computes each flag on its own; the document is accepted when all hold. */
  method ValidateMRZTD3(line1: string, line2: string, currentYear: nat) returns (verdict: Verdict)
    ensures verdict.IsValid() <==> Accepts(line1, line2, currentYear)
    ensures verdict.BadLength? <==> |Normalize(line1)| != LINE_LENGTH || |Normalize(line2)| != LINE_LENGTH
    ensures verdict.BadDocumentCode? <==> !verdict.BadLength? && Normalize(line1)[0] != 'P'
    ensures verdict.Checked? ==> verdict == Flags(Normalize(line2), currentYear)
  {
    var l1, l2 := Normalize(line1), Normalize(line2);
    if |l1| != 44 || |l2| != 44 {
      return BadLength;
    }
    if l1[0] != 'P' {
      return BadDocumentCode;
    }
    var expected := CalculateMRZCheckDigit(l2[0..9]);
    var numberValid := l2[9] == expected;
    expected := CalculateMRZCheckDigit(l2[13..19]);
    var dobValid := l2[19] == expected && ParseMRZDate(l2[13..19], false, currentYear).Some?;
    var sexValid := l2[20] == 'M' || l2[20] == 'F' || l2[20] == '<';
    expected := CalculateMRZCheckDigit(l2[21..27]);
    var expiryValid := l2[27] == expected && ParseMRZDate(l2[21..27], true, currentYear).Some?;
    expected := CalculateMRZCheckDigit(l2[28..42]);
    var optionalValid := l2[42] == expected;
    if AllFillers(l2[28..42]) {
      optionalValid := l2[42] == '<' || l2[42] == '0';
    }
    expected := CalculateMRZCheckDigit(l2[0..10] + l2[13..20] + l2[21..43]);
    var compositeValid := l2[43] == expected;
    return Checked(numberValid, dobValid, sexValid, expiryValid, optionalValid, compositeValid);
  }
}
