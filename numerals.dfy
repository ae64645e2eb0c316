/** Decimal numerals of natural numbers. */
module Numerals {

  /** The decimal numeral of `n`, as `'%d' % n` and `str(n)` write it. */
  function Decimal(n: nat): (s: string)
    ensures |s| > 0
    ensures forall i | 0 <= i < |s| :: '0' <= s[i] <= '9'
  {
    var digit := ['0' + (n % 10) as char];
    if n < 10 then digit else Decimal(n / 10) + digit
  }

  /** Reads a string of decimal digits back. */
  function ParseDecimal(s: string): int
  {
    if s == [] then 0 else 10 * ParseDecimal(s[..|s| - 1]) + (s[|s| - 1] as int - '0' as int)
  }

  /** Decimal numerals read back as the number they show. */
  lemma {:induction false} DecimalRoundTrip(n: nat)
    ensures ParseDecimal(Decimal(n)) == n
  {
    var s := Decimal(n);
    if n >= 10 {
      DecimalRoundTrip(n / 10);
      assert s[..|s| - 1] == Decimal(n / 10);
    }
  }

  /** Numbers from 1000 to 9999 have four digits. */
  lemma FourDigits(n: nat)
    requires 1000 <= n <= 9999
    ensures |Decimal(n)| == 4
  {
    var m := n / 10;
    assert 100 <= m <= 999;
    assert |Decimal(m / 10 / 10)| == 1;
    assert |Decimal(m / 10)| == 2;
    assert |Decimal(m)| == 3;
  }
}
