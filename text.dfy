/** The string operations the downloader borrows from Python: `str()` of an
    integer, the substring test `pat in s`, and `str.lower()`. */
module Text {

  predicate IsDigit(c: char) {
    '0' <= c <= '9'
  }

  function DigitChar(d: nat): (c: char)
    requires d < 10
    ensures IsDigit(c)
  {
    ('0' as int + d) as char
  }

  /** Decimal digits of a natural number, most significant first. */
  function NatToDecimal(n: nat): (s: string)
    ensures |s| >= 1
    ensures forall i :: 0 <= i < |s| ==> IsDigit(s[i])
    ensures n >= 10 <==> |s| >= 2
    decreases n
  {
    if n < 10 then [DigitChar(n)] else NatToDecimal(n / 10) + [DigitChar(n % 10)]
  }

  /** The number a string of decimal digits denotes, most significant first. */
  function DigitsValue(s: string): int
    decreases |s|
  {
    if s == [] then 0 else 10 * DigitsValue(s[..|s| - 1]) + (s[|s| - 1] as int - '0' as int)
  }

  /** Reading back the digits gives the number. */
  lemma {:induction false} NatToDecimalValue(n: nat)
    ensures DigitsValue(NatToDecimal(n)) == n
    decreases n
  {
    var s := NatToDecimal(n);
    if n >= 10 {
      NatToDecimalValue(n / 10);
      assert s[..|s| - 1] == NatToDecimal(n / 10);
    }
  }

  /** Python's `str(i)` for an `int`: a minus sign, then the digits of |i|. */
  function IntToDecimal(i: int): (s: string)
    ensures |s| >= 1
    ensures forall k :: 1 <= k < |s| ==> IsDigit(s[k])
    ensures (i < 0) <==> s[0] == '-'
    ensures i >= 0 ==> IsDigit(s[0])
  {
    if i < 0 then "-" + NatToDecimal(-i) else NatToDecimal(i)
  }

  /** `str(i)` denotes i: the digits after an optional minus sign read back as |i|. */
  lemma IntToDecimalValue(i: int)
    ensures i < 0 ==> DigitsValue(IntToDecimal(i)[1..]) == -i
    ensures i >= 0 ==> DigitsValue(IntToDecimal(i)) == i
  {
    NatToDecimalValue(if i < 0 then -i else i);
    if i < 0 {
      assert IntToDecimal(i)[1..] == NatToDecimal(-i);
    }
  }

  lemma {:induction false} NatToDecimalInjective(a: nat, b: nat)
    requires NatToDecimal(a) == NatToDecimal(b)
    ensures a == b
    decreases a
  {
    if a >= 10 && b >= 10 {
      var sa, sb := NatToDecimal(a / 10), NatToDecimal(b / 10);
      assert NatToDecimal(a) == sa + [DigitChar(a % 10)];
      assert NatToDecimal(b) == sb + [DigitChar(b % 10)];
      assert |sa| == |sb|;
      assert sa == NatToDecimal(a)[..|sa|];
      assert sb == NatToDecimal(b)[..|sb|];
      NatToDecimalInjective(a / 10, b / 10);
      assert DigitChar(a % 10) == NatToDecimal(a)[|sa|] == DigitChar(b % 10);
    }
  }

  /** Distinct integers print differently, so tile coordinates can be
      recovered from a path. */
  lemma IntToDecimalInjective(a: int, b: int)
    requires IntToDecimal(a) == IntToDecimal(b)
    ensures a == b
  {
    if a < 0 {
      assert IntToDecimal(a)[1..] == NatToDecimal(-a);
      assert IntToDecimal(b)[1..] == NatToDecimal(-b);
      NatToDecimalInjective(-a, -b);
    } else {
      NatToDecimalInjective(a, b);
    }
  }

  /** `pat` occurs in `s` starting at position i. */
  predicate OccursAt(s: string, pat: string, i: int) {
    0 <= i && i + |pat| <= |s| && s[i..i + |pat|] == pat
  }

  /** Python's `pat in s` on strings. */
  function Contains(s: string, pat: string): bool
    decreases |s|
  {
    |pat| <= |s| && (s[..|pat|] == pat || (|s| > 0 && Contains(s[1..], pat)))
  }

  /** An occurrence past the first position is an occurrence in the tail. */
  lemma OccursInTail(s: string, pat: string, i: int)
    requires |s| > 0 && i > 0
    ensures OccursAt(s, pat, i) <==> OccursAt(s[1..], pat, i - 1)
  {
    if i + |pat| <= |s| {
      assert s[1..][i - 1..i - 1 + |pat|] == s[i..i + |pat|];
    }
  }

  /** The recursive test agrees with the textbook definition of a substring. */
  lemma {:induction false} ContainsIffOccurs(s: string, pat: string)
    ensures Contains(s, pat) <==> exists i :: OccursAt(s, pat, i)
    decreases |s|
  {
    if |pat| <= |s| && s[..|pat|] != pat && |s| > 0 {
      ContainsIffOccurs(s[1..], pat);
      if Contains(s[1..], pat) {
        var i :| OccursAt(s[1..], pat, i);
        OccursInTail(s, pat, i + 1);
      } else {
        forall i | 0 <= i ensures !OccursAt(s, pat, i) {
          if i == 0 {
            assert s[0..|pat|] == s[..|pat|];
          } else {
            OccursInTail(s, pat, i);
          }
        }
      }
    } else if |pat| <= |s| && s[..|pat|] == pat {
      assert OccursAt(s, pat, 0);
    }
  }

  /** A pattern whose first character never occurs in `s` is not a substring of it. */
  lemma NotContainedWithoutFirstChar(s: string, pat: string)
    requires |pat| > 0
    requires forall k :: 0 <= k < |s| ==> s[k] != pat[0]
    ensures !Contains(s, pat)
  {
    ContainsIffOccurs(s, pat);
  }

  /** A string is contained in anything it prefixes. */
  lemma PrefixContained(pat: string, rest: string)
    ensures Contains(pat + rest, pat)
  {
    assert (pat + rest)[..|pat|] == pat;
  }

  /** `str.lower()` on one character, for the Latin and Cyrillic capitals. */
  function LowerChar(c: char): char {
    if 'A' <= c <= 'Z' then (c as int + 32) as char
    else if 'А' <= c <= 'Я' then (c as int + 32) as char      // А..Я
    else if 'Ѐ' <= c <= 'Џ' then (c as int + 80) as char      // Ѐ..Џ, Ё among them
    else c
  }

  function Lower(s: string): string {
    seq(|s|, i requires 0 <= i < |s| => LowerChar(s[i]))
  }
}
