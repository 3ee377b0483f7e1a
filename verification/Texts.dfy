// String helpers of the validators, on ASCII text.

module Texts {

  predicate IsDigit(ch: char) {
    '0' <= ch <= '9'
  }

  predicate IsSpace(ch: char) {
    ch in {' ', '\t', '\n', '\r', 11 as char, 12 as char}
  }

  function TrimLeft(s: string): string {
    if s != [] && IsSpace(s[0]) then TrimLeft(s[1..]) else s
  }

  function TrimRight(s: string): string {
    if s != [] && IsSpace(s[|s| - 1]) then TrimRight(s[..|s| - 1]) else s
  }

  function Trim(s: string): string {
    TrimRight(TrimLeft(s))
  }

  predicate Trimmed(s: string) {
    s == [] || (!IsSpace(s[0]) && !IsSpace(s[|s| - 1]))
  }

  lemma {:induction false} TrimLeftStarts(s: string)
    ensures var t := TrimLeft(s); t == [] || !IsSpace(t[0])
  {
    if s != [] && IsSpace(s[0]) {
      TrimLeftStarts(s[1..]);
    }
  }

  lemma {:induction false} TrimRightEnds(s: string)
    ensures var t := TrimRight(s); t <= s && (t == [] || !IsSpace(t[|t| - 1]))
  {
    if s != [] && IsSpace(s[|s| - 1]) {
      TrimRightEnds(s[..|s| - 1]);
    }
  }

  /** Trimming trims, and trimming again changes nothing. */
  lemma TrimIsIdempotent(s: string)
    ensures Trimmed(Trim(s)) && Trim(Trim(s)) == Trim(s)
  {
    TrimLeftStarts(s);
    TrimRightEnds(TrimLeft(s));
  }

  /** How many characters are trimmed off the front. */
  function Leading(s: string): nat {
    if s != [] && IsSpace(s[0]) then 1 + Leading(s[1..]) else 0
  }

  lemma {:induction false} TrimLeftReplaced(s: string, p: nat, ch: char)
    requires p < |s| && !IsSpace(s[p]) && !IsSpace(ch)
    ensures Leading(s) <= p && |TrimLeft(s)| == |s| - Leading(s) && TrimLeft(s)[p - Leading(s)] == s[p]
    ensures TrimLeft(s[p := ch]) == TrimLeft(s)[p - Leading(s) := ch]
  {
    if IsSpace(s[0]) {
      TrimLeftReplaced(s[1..], p - 1, ch);
      assert s[p := ch][1..] == s[1..][p - 1 := ch];
    }
  }

  lemma {:induction false} TrimRightReplaced(s: string, p: nat, ch: char)
    requires p < |s| && !IsSpace(s[p]) && !IsSpace(ch)
    ensures p < |TrimRight(s)| && TrimRight(s)[p] == s[p]
    ensures TrimRight(s[p := ch]) == TrimRight(s)[p := ch]
  {
    if IsSpace(s[|s| - 1]) {
      TrimRightReplaced(s[..|s| - 1], p, ch);
      assert s[p := ch][..|s| - 1] == s[..|s| - 1][p := ch];
    }
  }

  /** Replacing a character that is not a space by another replaces it in the trimmed string. */
  lemma TrimReplaced(s: string, p: nat, ch: char)
    requires p < |s| && !IsSpace(s[p]) && !IsSpace(ch)
    ensures Leading(s) <= p < Leading(s) + |Trim(s)| && Trim(s)[p - Leading(s)] == s[p]
    ensures Trim(s[p := ch]) == Trim(s)[p - Leading(s) := ch]
  {
    TrimLeftReplaced(s, p, ch);
    TrimRightReplaced(TrimLeft(s), p - Leading(s), ch);
  }

  function UpperChar(ch: char): char {
    if 'a' <= ch <= 'z' then ((ch as int) - 32) as char else ch
  }

  function Upper(s: string): (u: string)
    ensures |u| == |s|
  {
    seq(|s|, i requires 0 <= i < |s| => UpperChar(s[i]))
  }

  /** Upper-casing a trimmed string leaves nothing to trim or to upper-case. */
  lemma UpperTrimIsIdempotent(s: string)
    ensures var u := Upper(Trim(s)); Upper(Trim(u)) == u
  {
    TrimIsIdempotent(s);
    var u := Upper(Trim(s));
    assert Trimmed(u);
    assert Trim(u) == u;
    assert Upper(u) == u;
  }

  /** Nothing but blanks. */
  predicate Blank(s: string) {
    forall i | 0 <= i < |s| :: s[i] in {' ', '\t', '\n', '\r', 11 as char, 12 as char}
  }

  lemma {:induction false} TrimLeftDropsBlanks(a: string, s: string)
    requires Blank(a) && (s == [] || !Blank(s[..1]))
    ensures TrimLeft(a + s) == s
    decreases |a|
  {
    if a != [] {
      assert (a + s)[1..] == a[1..] + s;
      TrimLeftDropsBlanks(a[1..], s);
    } else {
      assert a + s == s;
      assert s != [] ==> s[..1][0] == s[0];
    }
  }

  lemma {:induction false} TrimRightDropsBlanks(s: string, b: string)
    requires Blank(b) && (s == [] || !Blank(s[|s| - 1..]))
    ensures TrimRight(s + b) == s
    decreases |b|
  {
    if b != [] {
      assert (s + b)[..|s + b| - 1] == s + b[..|b| - 1];
      TrimRightDropsBlanks(s, b[..|b| - 1]);
    } else {
      assert s + b == s;
      assert s != [] ==> s[|s| - 1..][0] == s[|s| - 1];
    }
  }

  /** Trimming takes off the blanks around a text, and nothing of the text. */
  lemma TrimDropsBlanks(a: string, s: string, b: string)
    requires Blank(a) && Blank(b) && (s == [] || (!Blank(s[..1]) && !Blank(s[|s| - 1..])))
    ensures Trim(a + s + b) == s
  {
    if s == [] {
      assert a + s + b == (a + b) + [];
      TrimLeftDropsBlanks(a + b, []);
    } else {
      assert a + s + b == a + (s + b) && (s + b)[..1] == s[..1];
      TrimLeftDropsBlanks(a, s + b);
      TrimRightDropsBlanks(s, b);
    }
  }

  /** Upper-casing changes the letters from a to z to those from A to Z, in order, and nothing else. */
  lemma UpperChangesLetters(s: string, i: nat)
    requires i < |s|
    ensures 'a' <= s[i] <= 'z' ==> 'A' <= Upper(s)[i] <= 'Z' && Upper(s)[i] - 'A' == s[i] - 'a'
    ensures !('a' <= s[i] <= 'z') ==> Upper(s)[i] == s[i]
  {
  }
}
