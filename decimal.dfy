/**
 * Decimal rendering of non-negative integers, as JavaScript's number-to-string
 * conversion produces it for integers (`Date.now() + ''`, `${date.getDate()}`),
 * and the reading back that serves as its specification.
 */
module Decimal {

  predicate IsDigit(c: char) {
    '0' <= c <= '9'
  }

  predicate AllDigits(s: string) {
    forall i :: 0 <= i < |s| ==> IsDigit(s[i])
  }

  function Digit(d: nat): (c: char)
    requires d < 10
    ensures IsDigit(c) && DigitValue(c) == d
  {
    (d + '0' as int) as char
  }

  function DigitValue(c: char): nat
    requires IsDigit(c)
  {
    c as int - '0' as int
  }

  function Pow10(k: nat): (p: nat)
    ensures p >= 1
  {
    if k == 0 then 1 else 10 * Pow10(k - 1)
  }

  /** The shortest decimal numeral of `n`: digits only, no leading zero. */
  function DecimalString(n: nat): (s: string)
    ensures |s| >= 1 && AllDigits(s)
    ensures |s| > 1 ==> s[0] != '0'
    decreases n
  {
    if n < 10 then [Digit(n)] else DecimalString(n / 10) + [Digit(n % 10)]
  }

  /** The value of a string of decimal digits (the empty string reads as 0). */
  function ParseDecimal(s: string): nat
    requires AllDigits(s)
  {
    if s == [] then 0 else 10 * ParseDecimal(s[..|s| - 1]) + DigitValue(s[|s| - 1])
  }

  /** Reading back a rendered numeral gives the number. */
  lemma {:induction false} ParseDecimalString(n: nat)
    ensures ParseDecimal(DecimalString(n)) == n
    decreases n
  {
    if n >= 10 {
      var s := DecimalString(n);
      assert s[..|s| - 1] == DecimalString(n / 10);
      ParseDecimalString(n / 10);
    }
  }

  /** A numeral of `n` has exactly as many digits as `n` needs. */
  lemma {:induction false} DecimalStringLength(n: nat)
    ensures Pow10(|DecimalString(n)|) > n
    ensures |DecimalString(n)| > 1 ==> n >= Pow10(|DecimalString(n)| - 1)
    decreases n
  {
    if n >= 10 {
      DecimalStringLength(n / 10);
    }
  }

  /** A numeral as `DecimalString` writes it: digits, and no leading zero unless it is "0". */
  predicate Canonical(s: string) {
    |s| >= 1 && AllDigits(s) && (|s| > 1 ==> s[0] != '0')
  }

  /** A numeral with a non-zero leading digit reads as a positive number. */
  lemma {:induction false} LeadingDigitPositive(s: string)
    requires |s| >= 1 && AllDigits(s) && s[0] != '0'
    ensures ParseDecimal(s) >= 1
    decreases |s|
  {
    if |s| > 1 {
      var p := s[..|s| - 1];
      assert p[0] == s[0];
      LeadingDigitPositive(p);
    }
  }

  /** A canonical numeral is the rendering of the number it reads as. */
  lemma {:induction false} CanonicalNumeral(s: string)
    requires Canonical(s)
    ensures DecimalString(ParseDecimal(s)) == s
    decreases |s|
  {
    var c := s[|s| - 1];
    var d := DigitValue(c);
    assert Digit(d) == c;
    if |s| > 1 {
      var p := s[..|s| - 1];
      assert p[0] == s[0];
      LeadingDigitPositive(p);
      CanonicalNumeral(p);
      var n := ParseDecimal(s);
      assert n == 10 * ParseDecimal(p) + d;
      DivModOfShifted(ParseDecimal(p), d);
      assert s == p + [c];
    }
  }

  lemma DivModOfShifted(a: nat, d: nat)
    requires d < 10
    ensures (10 * a + d) / 10 == a && (10 * a + d) % 10 == d
  {
  }

  /**
   * `s.slice(-k)`: the last `k` characters, or all of `s` when it is shorter.
   * JavaScript reads `-0` as `0`, so `slice(-0)` is all of `s` as well.
   */
  function SliceLast(s: string, k: nat): (r: string)
    ensures |r| <= |s| && r == s[|s| - |r|..]
    ensures k == 0 || |s| <= k ==> r == s
    ensures 1 <= k <= |s| ==> |r| == k
  {
    var start := if k >= 1 && |s| >= k then |s| - k else 0;
    s[start..]
  }

  lemma ModOfShifted(a: nat, d: nat, m: nat)
    requires d < 10 && m >= 1
    ensures (10 * a + d) % (10 * m) == 10 * (a % m) + d
  {
    var q, r := a / m, a % m;
    assert a == q * m + r;
    assert 10 * a + d == q * (10 * m) + (10 * r + d);
    assert 0 <= 10 * r + d < 10 * m;
    ModUnique(10 * a + d, 10 * m, q, 10 * r + d);
  }

  lemma ModUnique(x: int, m: int, q: int, r: int)
    requires m > 0 && 0 <= r < m && x == q * m + r
    ensures x % m == r
  {
    var q', r' := x / m, x % m;
    assert (q - q') * m == r' - r;
    if q - q' >= 1 {
      MulAtLeast(q - q', m);
    } else if q - q' <= -1 {
      MulAtLeast(q' - q, m);
    }
  }

  lemma MulAtLeast(d: int, m: int)
    requires d >= 1 && m > 0
    ensures d * m >= m
  {
  }

  /** The last `k` digits of a numeral read as the number modulo 10^k. */
  lemma {:induction false} SuffixValue(s: string, k: nat)
    requires AllDigits(s) && k <= |s|
    ensures ParseDecimal(s[|s| - k..]) == ParseDecimal(s) % Pow10(k)
    decreases k
  {
    if k == 0 {
      assert s[|s|..] == [];
    } else {
      var p := s[..|s| - 1];
      var c := s[|s| - 1];
      var t := s[|s| - k..];
      assert t[..|t| - 1] == p[|p| - (k - 1)..];
      assert t[|t| - 1] == c;
      SuffixValue(p, k - 1);
      ModOfShifted(ParseDecimal(p), DigitValue(c), Pow10(k - 1));
    }
  }
}
