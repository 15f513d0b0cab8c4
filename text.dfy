/**
 * String helpers shared by the quiz modules: JavaScript's `String.prototype.includes`
 * and the decimal rendering of a number inside a template literal.
 */
module Text {

  /** `s.includes(sub)`: `sub` occurs as a contiguous block of `s`. */
  predicate Contains(s: string, sub: string)
  {
    exists i | 0 <= i <= |s| - |sub| :: OccursAt(s, sub, i)
  }

  /** `sub` occurs in `s` starting at index `i`. */
  predicate OccursAt(s: string, sub: string, i: int)
  {
    0 <= i <= |s| - |sub| && s[i..i + |sub|] == sub
  }

  /** A string that holds no occurrence of the character `c`. */
  predicate Lacks(s: string, c: char)
  {
    forall k | 0 <= k < |s| :: s[k] != c
  }

  /** A character missing from two strings is missing from their concatenation. */
  lemma LacksConcat(a: string, b: string, c: char)
    requires Lacks(a, c) && Lacks(b, c)
    ensures Lacks(a + b, c)
  {
    forall k | 0 <= k < |a + b| ensures (a + b)[k] != c {
      if k >= |a| {
        assert (a + b)[k] == b[k - |a|];
      }
    }
  }

  /** A needle holding a character that the haystack lacks cannot occur in it. */
  lemma NotContainsByChar(s: string, sub: string, k: nat)
    requires k < |sub| && Lacks(s, sub[k])
    ensures !Contains(s, sub)
  {
    forall i | 0 <= i <= |s| - |sub|
      ensures !OccursAt(s, sub, i)
    {
      assert s[i..i + |sub|][k] != sub[k];
    }
  }

  /** Every string contains itself and occurs at the front of any extension. */
  lemma ContainsPrefix(s: string, t: string)
    ensures Contains(s + t, s)
  {
    assert OccursAt(s + t, s, 0);
  }

  /** An occurrence inside a block stays an occurrence once text is added on either side. */
  lemma ContainsWithin(a: string, s: string, b: string, sub: string)
    requires Contains(s, sub)
    ensures Contains(a + s + b, sub)
  {
    var i :| 0 <= i <= |s| - |sub| && OccursAt(s, sub, i);
    assert s[i..i + |sub|] == sub;
    var j := |a| + i;
    assert (a + s + b)[j..j + |sub|] == s[i..i + |sub|];
    assert OccursAt(a + s + b, sub, j);
  }

  function DigitChar(d: nat): (c: char)
    requires d < 10
    ensures '0' <= c <= '9'
  {
    "0123456789"[d]
  }

  function DigitValue(c: char): nat
  {
    if '0' <= c <= '9' then (c as int - '0' as int) else 0
  }

  predicate IsDigits(s: string)
  {
    forall k | 0 <= k < |s| :: '0' <= s[k] <= '9'
  }

  /**
   * `${n}` for a non-negative integer below 10^21: its shortest decimal form
   * (JavaScript switches to exponent form, `1e+21`, from 10^21 up).
   */
  function Decimal(n: nat): (s: string)
    ensures |s| > 0 && IsDigits(s)
    ensures |s| > 1 ==> s[0] != '0'
    decreases n
  {
    if n < 10 then [DigitChar(n)] else Decimal(n / 10) + [DigitChar(n % 10)]
  }

  /** Reads a string of digits back as a number, most significant digit first. */
  function DecimalValue(s: string): nat
  {
    if s == [] then 0 else DecimalValue(s[..|s| - 1]) * 10 + DigitValue(s[|s| - 1])
  }

  lemma DigitRoundTrip(d: nat)
    requires d < 10
    ensures DigitValue(DigitChar(d)) == d
  {
    match d
    case 0 => case 1 => case 2 => case 3 => case 4 =>
    case 5 => case 6 => case 7 => case 8 => case 9 =>
  }

  /** The decimal text of `n` reads back as `n`. */
  lemma {:induction false} DecimalRoundTrip(n: nat)
    ensures DecimalValue(Decimal(n)) == n
    decreases n
  {
    var s := Decimal(n);
    if n < 10 {
      DigitRoundTrip(n);
      assert s[..|s| - 1] == [];
    } else {
      DecimalRoundTrip(n / 10);
      DigitRoundTrip(n % 10);
      assert s[..|s| - 1] == Decimal(n / 10);
    }
  }

  /** A digit string never holds `c` unless `c` is a digit. */
  lemma DigitsLack(s: string, c: char)
    requires IsDigits(s) && !('0' <= c <= '9')
    ensures Lacks(s, c)
  {
  }
}
