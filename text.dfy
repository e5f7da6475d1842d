/**
 * The string operations the application relies on, over ASCII: Python's
 * `str.lower()` and `str.capitalize()`, the regular-expression class `\w`,
 * a case-insensitive substring test (the `icontains` lookup) and the decimal
 * rendering of an integer that an f-string performs.
 */
module Text {
  import opened Common

  function Lower(c: char): (r: char)
    ensures !('A' <= r <= 'Z')
  {
    if 'A' <= c <= 'Z' then (c as int + 32) as char else c
  }

  function Upper(c: char): (r: char)
    ensures !('a' <= r <= 'z')
  {
    if 'a' <= c <= 'z' then (c as int - 32) as char else c
  }

  /** Python's `str.lower()`. */
  function LowerStr(s: string): (r: string)
    ensures |r| == |s|
    ensures forall k :: 0 <= k < |s| ==> r[k] == Lower(s[k])
  {
    seq(|s|, k requires 0 <= k < |s| => Lower(s[k]))
  }

  /** Python's `str.capitalize()`: the first character upper-cased, the rest lower-cased. */
  function Capitalize(s: string): (r: string)
  {
    if s == [] then [] else [Upper(s[0])] + LowerStr(s[1..])
  }

  /** Capitalizing keeps the length, leaves no lower-case letter in front and no upper-case one after it. */
  lemma CapitalizeShape(s: string)
    ensures |Capitalize(s)| == |s|
    ensures |s| > 0 ==> !('a' <= Capitalize(s)[0] <= 'z')
    ensures forall k :: 0 < k < |s| ==> !('A' <= Capitalize(s)[k] <= 'Z')
  {
  }

  lemma LowerOfUpper(c: char)
    ensures Lower(Upper(c)) == Lower(c)
  {
  }

  lemma LowerTwice(c: char)
    ensures Lower(Lower(c)) == Lower(c)
  {
  }

  lemma UpperOfLower(c: char)
    ensures Upper(Upper(c)) == Upper(c)
  {
  }

  /** Past the first position, a capitalized string holds the lower-cased characters. */
  lemma CapitalizeTail(s: string, k: int)
    requires 0 < k < |s|
    ensures Capitalize(s)[k] == Lower(s[k])
  {
    var tail := s[1..];
    var t := LowerStr(tail);
    assert Capitalize(s) == [Upper(s[0])] + t;
    assert tail[k - 1] == s[k];
  }

  /** Capitalizing changes letter case only: both sides agree once lower-cased. */
  lemma CapitalizeSameLetters(s: string)
    ensures LowerStr(Capitalize(s)) == LowerStr(s)
  {
    if s != [] {
      var c := Capitalize(s);
      var lc := LowerStr(c);
      var ls := LowerStr(s);
      forall k | 0 <= k < |s| ensures lc[k] == ls[k] {
        if k == 0 {
          LowerOfUpper(s[0]);
        } else {
          CapitalizeTail(s, k);
          LowerTwice(s[k]);
        }
      }
    }
  }

  /** Capitalizing twice is capitalizing once. */
  lemma CapitalizeIdempotent(s: string)
    ensures Capitalize(Capitalize(s)) == Capitalize(s)
  {
    if s != [] {
      var c := Capitalize(s);
      var cc := Capitalize(c);
      forall k | 0 <= k < |s| ensures cc[k] == c[k] {
        if k == 0 {
          UpperOfLower(s[0]);
        } else {
          CapitalizeTail(s, k);
          CapitalizeTail(c, k);
          LowerTwice(s[k]);
        }
      }
    }
  }

  /** A character of the regular-expression class `\w` (ASCII letters, digits, underscore). */
  predicate IsWordChar(c: char)
  {
    'a' <= c <= 'z' || 'A' <= c <= 'Z' || '0' <= c <= '9' || c == '_'
  }

  /** `needle` occurs in `hay` at offset `k`. */
  predicate OccursAt(hay: string, needle: string, k: int)
  {
    0 <= k && k + |needle| <= |hay| && hay[k..k + |needle|] == needle
  }

  /** SQL `LIKE '%needle%'`. */
  predicate Contains(hay: string, needle: string)
  {
    exists k :: 0 <= k <= |hay| - |needle| && OccursAt(hay, needle, k)
  }

  /** The `icontains` lookup, with case folding over ASCII. */
  predicate ContainsIgnoringCase(hay: string, needle: string)
  {
    Contains(LowerStr(hay), LowerStr(needle))
  }

  // ---------------------------------------------------------------------
  // Decimal rendering of integers, as `f'{n}'` prints them.

  predicate IsDigit(c: char)
  {
    '0' <= c <= '9'
  }

  function DigitChar(d: int): (c: char)
    requires 0 <= d < 10
    ensures IsDigit(c)
  {
    ('0' as int + d) as char
  }

  /** The decimal digits of `n`, most significant first, without leading zeros. */
  function NatToString(n: nat): (r: string)
    ensures |r| > 0
    ensures forall c :: c in r ==> IsDigit(c)
    ensures r[0] == '0' ==> n == 0
  {
    if n < 10 then [DigitChar(n)] else NatToString(n / 10) + [DigitChar(n % 10)]
  }

  /** Python's `str(n)` for an int: a minus sign for negative numbers, then the digits. */
  function IntToString(n: int): (r: string)
  {
    if n < 0 then "-" + NatToString(-n) else NatToString(n)
  }

  /** The number a string of decimal digits denotes. */
  function DigitsValue(s: string): nat
    requires forall c :: c in s ==> IsDigit(c)
  {
    if s == [] then 0
    else
      assert s[|s| - 1] in s && IsDigit(s[|s| - 1]);
      var d := s[|s| - 1] as int - '0' as int;
      assert d >= 0;
      DigitsValue(s[..|s| - 1]) * 10 + d
  }

  /** Reads back an optional minus sign followed by at least one digit. */
  function ParseInt(s: string): Option<int>
  {
    if |s| > 1 && s[0] == '-' && forall c :: c in s[1..] ==> IsDigit(c) then Some(0 - DigitsValue(s[1..]))
    else if |s| > 0 && forall c :: c in s ==> IsDigit(c) then Some(DigitsValue(s))
    else None
  }

  lemma {:induction false} NatToStringValue(n: nat)
    ensures DigitsValue(NatToString(n)) == n
  {
    if n >= 10 {
      NatToStringValue(n / 10);
      var s := NatToString(n);
      assert s[..|s| - 1] == NatToString(n / 10);
    }
  }

  lemma ParseNegative(digits: string)
    requires |digits| > 0 && forall c :: c in digits ==> IsDigit(c)
    ensures ParseInt("-" + digits) == Some(0 - DigitsValue(digits))
  {
    var s := "-" + digits;
    assert s[1..] == digits;
  }

  lemma ParseDigits(digits: string)
    requires |digits| > 0 && forall c :: c in digits ==> IsDigit(c)
    ensures ParseInt(digits) == Some(DigitsValue(digits))
  {
    assert digits[0] in digits;
  }

  /** The rendered amount reads back as the same integer, so distinct amounts render differently. */
  lemma IntToStringRoundTrip(n: int)
    ensures ParseInt(IntToString(n)) == Some(n)
  {
    if n < 0 {
      NatToStringValue(-n);
      ParseNegative(NatToString(-n));
    } else {
      NatToStringValue(n);
      ParseDigits(NatToString(n));
    }
  }
}
