/**
 * Text helpers standing for the Python string operations the commands use:
 * `str.isdigit`, `int(...)` on a digit string, `str(n)` and `str.lower`,
 * all restricted to ASCII.
 */
module Text {

  predicate IsDigitChar(c: char) {
    '0' <= c <= '9'
  }

  /** Python's `str.isdigit` on ASCII text: non-empty and every character a digit. */
  predicate IsDigits(s: string) {
    |s| > 0 && forall i :: 0 <= i < |s| ==> IsDigitChar(s[i])
  }

  function DigitChar(d: nat): (c: char)
    requires d < 10
    ensures IsDigitChar(c)
  {
    ('0' as int + d) as char
  }

  function DigitValue(c: char): (d: nat)
    requires IsDigitChar(c)
    ensures d < 10 && DigitChar(d) == c
  {
    c as int - '0' as int
  }

  /** `int(s)` for a string of decimal digits (leading zeros allowed, as in Python). */
  function ValueOf(s: string): (v: nat)
    requires forall i :: 0 <= i < |s| ==> IsDigitChar(s[i])
    ensures |s| > 0 && s[0] == '0' ==> v == ValueOf(s[1..])
    decreases |s|
  {
    if |s| == 0 then 0
    else
      assert |s| > 1 ==> s[..|s| - 1][1..] == s[1..][..|s[1..]| - 1];
      10 * ValueOf(s[..|s| - 1]) + DigitValue(s[|s| - 1])
  }

  /** `isdigit` holds of "007" and "7", not of "", "1a" or "-1". */
  lemma IsDigitsExamples()
    ensures IsDigits("007") && IsDigits("7")
    ensures !IsDigits("") && !IsDigits("1a") && !IsDigits("-1")
  {
    assert forall i :: 0 <= i < |"007"| ==> IsDigitChar("007"[i]);
    assert !IsDigitChar("1a"[1]);
    assert !IsDigitChar("-1"[0]);
  }

  /** `str(n)` for a non-negative integer: its decimal digits, without leading zeros. */
  function Decimal(n: nat): (s: string)
    ensures IsDigits(s)
    ensures s[0] == '0' <==> n == 0
    decreases n
  {
    if n < 10 then [DigitChar(n)] else Decimal(n / 10) + [DigitChar(n % 10)]
  }

  /** Reading back what `Decimal` writes gives the number again. */
  lemma {:induction false} ValueOfDecimal(n: nat)
    ensures ValueOf(Decimal(n)) == n
    decreases n
  {
    if n >= 10 {
      var s := Decimal(n);
      assert s[..|s| - 1] == Decimal(n / 10);
      ValueOfDecimal(n / 10);
    }
  }

  /** Distinct numbers have distinct decimal renderings. */
  lemma DecimalInjective(a: nat, b: nat)
    ensures Decimal(a) == Decimal(b) ==> a == b
  {
    ValueOfDecimal(a);
    ValueOfDecimal(b);
  }

  function LowerChar(c: char): char {
    if 'A' <= c <= 'Z' then (c as int + 32) as char else c
  }

  /** `str.lower` on ASCII text: same length, every upper-case letter replaced by its lower-case form. */
  function Lower(s: string): (r: string)
    ensures |r| == |s|
    ensures forall i :: 0 <= i < |s| ==> !('A' <= r[i] <= 'Z')
    ensures forall i :: 0 <= i < |s| ==> (s[i] == r[i] || ('A' <= s[i] <= 'Z' && r[i] as int == s[i] as int + 32))
  {
    seq(|s|, i requires 0 <= i < |s| => LowerChar(s[i]))
  }

  /** Lower-casing twice is lower-casing once. */
  lemma LowerIdempotent(s: string)
    ensures Lower(Lower(s)) == Lower(s)
  {
    var l := Lower(s);
    assert forall i :: 0 <= i < |l| ==> LowerChar(l[i]) == l[i];
  }
}
