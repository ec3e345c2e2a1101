/**
 * Decimal rendering of numbers, as JavaScript's `String(n)` and template
 * literals print a non-negative integer.
 */
module NumberFormat {

  function DigitChar(d: nat): (c: char)
    requires d < 10
    ensures '0' <= c <= '9'
  {
    ('0' as int + d) as char
  }

  /** The decimal digits of `n`, most significant first, without leading zeros. */
  function Decimal(n: nat): (s: string)
    ensures |s| >= 1
    ensures forall k :: 0 <= k < |s| ==> '0' <= s[k] <= '9'
    ensures |s| > 1 ==> s[0] != '0'
  {
    if n < 10 then [DigitChar(n)] else Decimal(n / 10) + [DigitChar(n % 10)]
  }

  /** The value of a string of decimal digits. */
  function ParseDecimal(s: string): nat
    requires forall k :: 0 <= k < |s| ==> '0' <= s[k] <= '9'
  {
    if s == [] then 0
    else ParseDecimal(s[..|s| - 1]) * 10 + (s[|s| - 1] as int - '0' as int)
  }

  /** The printed digits read back as the number printed. */
  lemma {:induction false} ParseDecimalOfDecimal(n: nat)
    ensures ParseDecimal(Decimal(n)) == n
  {
    if n >= 10 {
      var s := Decimal(n);
      assert s[..|s| - 1] == Decimal(n / 10);
      ParseDecimalOfDecimal(n / 10);
    }
  }

  /**
   * `x.toFixed(1)` for `x = tenths / 10`, once the number has been rounded
   * to tenths: the integer part, a dot, and exactly one more digit.
   */
  function FixedOne(tenths: nat): (s: string)
    ensures |s| >= 3 && s[|s| - 2] == '.'
    ensures s[..|s| - 2] == Decimal(tenths / 10)
    ensures s[|s| - 1] == DigitChar(tenths % 10)
  {
    Decimal(tenths / 10) + "." + [DigitChar(tenths % 10)]
  }

  /** The printed figure reads back as the number of tenths it was printed from. */
  lemma FixedOneReadsBack(tenths: nat)
    ensures var s := FixedOne(tenths);
      ParseDecimal(s[..|s| - 2]) * 10 + (s[|s| - 1] as int - '0' as int) == tenths
  {
    ParseDecimalOfDecimal(tenths / 10);
  }
}
