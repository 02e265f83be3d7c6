/** Text as Java's `String.valueOf` and `String.format("%d")` produce it:
    the decimal rendering of an integer, its inverse, and the two substring
    relations used to talk about diagnostic strings. */
module Strings {

  import opened Nullable

  predicate IsDigit(ch: char)
  {
    '0' <= ch <= '9'
  }

  function DigitChar(d: nat): (ch: char)
    requires d < 10
    ensures IsDigit(ch)
  {
    ('0' as int + d) as char
  }

  function DigitValue(ch: char): nat
  {
    if IsDigit(ch) then ch as int - '0' as int else 0
  }

  /** The digits of a non-negative number, most significant first, without
      leading zeros. */
  function NatDigits(n: nat): (s: string)
    ensures |s| >= 1
    ensures forall i :: 0 <= i < |s| ==> IsDigit(s[i])
    decreases n
  {
    if n < 10 then [DigitChar(n)] else NatDigits(n / 10) + [DigitChar(n % 10)]
  }

  /** `String.valueOf(n)` for a Java `int` or `long`, and what `%d` prints
      (locale digits are not modelled). */
  function DecimalString(n: int): string
  {
    if n < 0 then "-" + NatDigits(-n) else NatDigits(n)
  }

  function ParseNat(s: string): nat
  {
    if s == [] then 0 else 10 * ParseNat(s[..|s| - 1]) + DigitValue(s[|s| - 1])
  }

  function ParseDecimal(s: string): int
  {
    if |s| > 0 && s[0] == '-' then -(ParseNat(s[1..]) as int) else ParseNat(s)
  }

  /** `String.valueOf(Object)` of a possibly-null string: null prints as "null". */
  function ValueOf(s: Option<string>): (r: string)
    ensures s.Some? ==> r == s.value
    ensures s.None? ==> r == "null"
  {
    match s
    case Some(v) => v
    case None => "null"
  }

  lemma {:induction false} ParseNatDigits(n: nat)
    ensures ParseNat(NatDigits(n)) == n
    decreases n
  {
    var s := NatDigits(n);
    if n >= 10 {
      ParseNatDigits(n / 10);
      assert s[..|s| - 1] == NatDigits(n / 10);
    }
  }

  /** The decimal rendering loses nothing: parsing it gives the number back. */
  lemma DecimalRoundTrip(n: int)
    ensures ParseDecimal(DecimalString(n)) == n
  {
    if n < 0 {
      ParseNatDigits(-n);
      assert ("-" + NatDigits(-n))[1..] == NatDigits(-n);
    } else {
      ParseNatDigits(n);
      assert IsDigit(NatDigits(n)[0]);
    }
  }

  /** Two numbers with the same rendering are the same number. */
  lemma DecimalInjective(a: int, b: int)
    requires DecimalString(a) == DecimalString(b)
    ensures a == b
  {
    DecimalRoundTrip(a);
    DecimalRoundTrip(b);
  }

  predicate StartsWith(s: string, prefix: string)
  {
    |prefix| <= |s| && s[..|prefix|] == prefix
  }

  /** `t` occurs in `s` starting at index `i`. */
  predicate OccursAt(s: string, t: string, i: int)
  {
    0 <= i <= |s| - |t| && s[i..i + |t|] == t
  }

  ghost predicate Contains(s: string, t: string)
  {
    exists i :: OccursAt(s, t, i)
  }

  lemma StartsWithConcat(p: string, s: string)
    ensures StartsWith(p + s, p)
  {
    assert (p + s)[..|p|] == p;
  }

  lemma StartsWithContains(s: string, t: string)
    requires StartsWith(s, t)
    ensures Contains(s, t)
  {
    assert OccursAt(s, t, 0);
  }

  lemma OccursAtStart(p: string, s: string)
    ensures OccursAt(p + s, p, 0)
  {
    assert (p + s)[0..|p|] == p;
  }

  /** An occurrence stays where it is when text is appended. */
  lemma OccursAtExtend(s: string, t: string, i: int, u: string)
    requires OccursAt(s, t, i)
    ensures OccursAt(s + u, t, i)
  {
    assert (s + u)[i..i + |t|] == s[i..i + |t|];
  }

  /** Text found after a prefix is still found in the longer string. */
  lemma ContainsAfter(p: string, s: string, t: string)
    requires Contains(s, t)
    ensures Contains(p + s, t)
  {
    var i :| OccursAt(s, t, i);
    var j := |p| + i;
    assert (p + s)[j..j + |t|] == s[i..i + |t|];
    assert OccursAt(p + s, t, j);
  }
}
