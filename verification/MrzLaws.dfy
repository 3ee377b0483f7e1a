// What each character and each position of a machine-readable zone contributes (ICAO Doc 9303 Part 3,
// section 4.9, and Part 4, section 4.2.2).

module MrzLaws {
  import opened Options
  import opened Texts
  import opened Mrz

  /** Digits stand for themselves, letters for 10 to 35, and a filler or anything else for nothing. */
  function Worth(ch: char): nat {
    if '0' <= ch <= '9' then ch as int - 48 else if 'A' <= ch <= 'Z' then ch as int - 55 else 0
  }

  /** The check digit as a number. */
  function Number(digit: char): int {
    digit as int - 48
  }

  /** A field of fillers has the check digit 0. */
  lemma {:induction false} FillersAddNothing(data: string, n: nat)
    requires n <= |data| && forall i | 0 <= i < |data| :: data[i] == '<'
    ensures SumOf(data, n) == 0 && CheckDigit(data[..n]) == '0'
    decreases n
  {
    if n > 0 {
      FillersAddNothing(data, n - 1);
    }
    SumOfPrefix(data[..n], data, n);
  }

  lemma {:induction false} SumOfPrefix(s: string, t: string, n: nat)
    requires n <= |s| && n <= |t| && s[..n] == t[..n]
    ensures SumOf(s, n) == SumOf(t, n)
    decreases n
  {
    if n > 0 {
      assert s[..n - 1] == s[..n][..n - 1] && t[..n - 1] == t[..n][..n - 1];
      assert s[n - 1] == s[..n][n - 1] && t[n - 1] == t[..n][n - 1];
      SumOfPrefix(s, t, n - 1);
    }
  }

  /**
   * Each character adds its worth to the check digit of the rest, seven, three or one times as its position
   * tells, modulo 10. With fillers adding nothing this determines the check digit of every field.
   */
  lemma EachCharacterAdds(data: string, i: nat)
    requires i < |data|
    ensures
      var weight := [7, 3, 1][i % 3];
      Number(CheckDigit(data)) == (Number(CheckDigit(data[i := '<'])) + weight * Worth(data[i])) % 10
    ensures 0 <= Number(CheckDigit(data)) <= 9
  {
    var weight := [7, 3, 1][i % 3];
    SumOfReplaced(data, i, '<', |data|);
    assert Weighted(Value(data[i]), i) == weight * Worth(data[i]);
    RemaindersAdd(SumOf(data[i := '<'], |data|), weight * Worth(data[i]));
  }

  lemma RemaindersAdd(x: nat, y: nat)
    ensures (x + y) % 10 == (x % 10 + y) % 10
  {
    assert x == x / 10 * 10 + x % 10;
    SameDigit(x + y, x % 10 + y);
  }

  // ---- Dates ----

  /**
   * A date is accepted when it is six digits with a month and a day in range. A birth year is the latest with
   * those last two digits that is not in the future; an expiry year the one in the current century, or in the
   * next when that is more than 30 years ago.
   */
  lemma DatesAre(yymmdd: string, isExpiry: bool, currentYear: nat)
    ensures
      var parsed := ParseMRZDate(yymmdd, isExpiry, currentYear);
      && (parsed.Some? <==>
            && |yymmdd| == 6 && (forall i | 0 <= i < 6 :: '0' <= yymmdd[i] <= '9')
            && 1 <= Worth(yymmdd[2]) * 10 + Worth(yymmdd[3]) <= 12 && 1 <= Worth(yymmdd[4]) * 10 + Worth(yymmdd[5]) <= 31)
      && (parsed.Some? ==>
            var date := parsed.value;
            && date.month == Worth(yymmdd[2]) * 10 + Worth(yymmdd[3]) && date.day == Worth(yymmdd[4]) * 10 + Worth(yymmdd[5])
            && date.year % 100 == Worth(yymmdd[0]) * 10 + Worth(yymmdd[1])
            && (!isExpiry ==> currentYear - 100 < date.year <= currentYear)
            && (isExpiry ==>
                  if date.year / 100 == currentYear / 100 then date.year >= currentYear - 30
                  else date.year / 100 == currentYear / 100 + 1 && date.year - 100 < currentYear - 30))
  {
    if ParseMRZDate(yymmdd, isExpiry, currentYear).Some? {
      var yy := TwoDigits(yymmdd[0..2]);
      assert yy == Worth(yymmdd[0]) * 10 + Worth(yymmdd[1]) && 0 <= yy < 100;
      YearsOfCentury(currentYear / 100, yy);
      YearsOfCentury(currentYear / 100 + 1, yy);
      YearsOfCentury(currentYear / 100 - 1, yy);
    }
  }

  lemma YearsOfCentury(century: int, yy: nat)
    requires yy < 100
    ensures (century * 100 + yy) % 100 == yy && (century * 100 + yy) / 100 == century
  {
  }

  // ---- What the other positions of an accepted line may hold ----

  /** The sex marker can be changed to M, F or a filler, and to nothing else. */
  lemma SexMarkerReplaced(line: string, ch: char, currentYear: nat)
    requires |line| == 44 && AcceptsLine2(line, currentYear)
    ensures AcceptsLine2(line[20 := ch], currentYear) <==> ch == 'M' || ch == 'F' || ch == '<'
  {
    var changed := line[20 := ch];
    assert CompositePayload(changed) == CompositePayload(line);
    assert changed[0..9] == line[0..9] && changed[13..19] == line[13..19] && changed[21..27] == line[21..27]
        && changed[28..42] == line[28..42];
  }

  /** No check covers the nationality. */
  lemma NationalityReplaced(line: string, i: nat, ch: char, currentYear: nat)
    requires |line| == 44 && 10 <= i <= 12
    ensures AcceptsLine2(line[i := ch], currentYear) <==> AcceptsLine2(line, currentYear)
  {
    var changed := line[i := ch];
    assert CompositePayload(changed) == CompositePayload(line);
    assert changed[0..9] == line[0..9] && changed[13..19] == line[13..19] && changed[21..27] == line[21..27]
        && changed[28..42] == line[28..42];
  }

  /** An unused personal number is accepted with a filler or a zero for its check digit, and with nothing else. */
  lemma UnusedPersonalNumber(line: string, ch: char, currentYear: nat)
    requires |line| == 44 && AcceptsLine2(line, currentYear) && forall i | 28 <= i < 42 :: line[i] == '<'
    ensures AcceptsLine2(line[42 := ch], currentYear) <==> ch == '<' || ch == '0'
  {
    var changed := line[42 := ch];
    CompositeReplaced(line, 42, ch);
    ReplacementDetected(CompositePayload(line), CompositeIndex(42), ch);
    assert changed[0..9] == line[0..9] && changed[13..19] == line[13..19] && changed[21..27] == line[21..27]
        && changed[28..42] == line[28..42];
    assert forall i | 0 <= i < 14 :: line[28..42][i] == line[28 + i];
    assert AllFillers(line[28..42]);
  }

  /** Of the first line only its length and a leading P matter. */
  lemma FirstLineMatters(line1: string, other: string, line2: string, currentYear: nat)
    requires Accepts(line1, line2, currentYear)
    ensures Accepts(other, line2, currentYear) <==> |Upper(Trim(other))| == 44 && Upper(Trim(other))[0] == 'P'
  {
  }

  /** Each flag of the verdict depends on its own field alone, and all of them together accept the line. */
  lemma FlagsAreLocal(line: string, other: string, currentYear: nat)
    requires |line| == 44 && |other| == 44
    ensures
      var flags, flags' := Flags(line, currentYear), Flags(other, currentYear);
      && flags.Checked? && flags'.Checked? && (flags.IsValid() <==> AcceptsLine2(line, currentYear))
      && (line[0..10] == other[0..10] ==> flags.number == flags'.number)
      && (line[13..20] == other[13..20] ==> flags.dob == flags'.dob)
      && (line[20] == other[20] ==> flags.sex == flags'.sex)
      && (line[21..28] == other[21..28] ==> flags.expiry == flags'.expiry)
      && (line[28..43] == other[28..43] ==> flags.optional == flags'.optional)
      && (line[0..10] == other[0..10] && line[13..20] == other[13..20] && line[21..44] == other[21..44] ==>
            flags.composite == flags'.composite)
  {
    SliceWithDigit(line, other, 0, 9);
    SliceWithDigit(line, other, 13, 19);
    SliceWithDigit(line, other, 21, 27);
    SliceWithDigit(line, other, 28, 42);
    SliceWithDigit(line, other, 21, 43);
  }

  /** A field together with its check digit. */
  lemma SliceWithDigit(line: string, other: string, from: nat, to: nat)
    requires from <= to < |line| && to < |other|
    ensures line[from..to + 1] == other[from..to + 1] <==> line[from..to] == other[from..to] && line[to] == other[to]
  {
    var s, t := line[from..to + 1], other[from..to + 1];
    assert s == line[from..to] + [line[to]] && t == other[from..to] + [other[to]];
    assert s[..to - from] == line[from..to] && t[..to - from] == other[from..to];
    assert s[to - from] == line[to] && t[to - from] == other[to];
  }
}
