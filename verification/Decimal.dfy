/** Decimal numerals: writing an integer, and reading one back the way strtol does. */
module Decimal {
  import opened Wrappers

  const INT_MIN: int := -0x8000_0000
  const INT_MAX: int := 0x7fff_ffff

  function Digit(d: int): char
    requires 0 <= d < 10
  {
    '0' + d as char
  }

  predicate IsDigit(c: char) {
    '0' <= c <= '9'
  }

  function DigitValue(c: char): nat
    requires IsDigit(c)
  {
    (c as int) - ('0' as int)
  }

  predicate AllDigits(s: string) {
    forall i :: 0 <= i < |s| ==> IsDigit(s[i])
  }

  /** The value of a string of digits. */
  function Value(s: string): nat
    requires AllDigits(s)
  {
    if s == "" then 0 else Value(s[..|s| - 1]) * 10 + DigitValue(s[|s| - 1])
  }

  /** The numeral of n, without leading zeros. */
  function Numeral(n: nat): (s: string)
    ensures |s| > 0 && AllDigits(s)
    decreases n
  {
    if n < 10 then [Digit(n)] else Numeral(n / 10) + [Digit(n % 10)]
  }

  function SignedNumeral(n: int): string {
    if n < 0 then "-" + Numeral(-n) else Numeral(n)
  }

  lemma {:induction false} ValueOfNumeral(n: nat)
    ensures Value(Numeral(n)) == n
  {
    if n < 10 {
      assert [Digit(n)][..0] == "";
    } else {
      ValueOfNumeral(n / 10);
      assert Numeral(n)[..|Numeral(n)| - 1] == Numeral(n / 10);
    }
  }

  function Pow10(k: nat): (p: nat)
    ensures p >= 1
  {
    if k == 0 then 1 else 10 * Pow10(k - 1)
  }

  /** A numeral has at most k digits exactly when its number is below 10^k. */
  lemma {:induction false} NumeralLength(n: nat, k: nat)
    requires k > 0
    ensures |Numeral(n)| <= k <==> n < Pow10(k)
  {
    if n >= 10 && k > 1 {
      NumeralLength(n / 10, k - 1);
    }
  }

  // ----- Reading, as std::stoi does: blanks, one sign, as many digits as there are -----

  predicate IsBlank(c: char) {
    c == ' ' || '\t' <= c <= '\r'
  }

  function SkipBlanks(s: string): string {
    if s != "" && IsBlank(s[0]) then SkipBlanks(s[1..]) else s
  }

  function DigitCount(s: string): (n: nat)
    ensures n <= |s| && AllDigits(s[..n])
  {
    if s == "" || !IsDigit(s[0]) then 0
    else
      var n := DigitCount(s[1..]);
      assert s[..n + 1] == [s[0]] + s[1..][..n];
      n + 1
  }

  /** None is std::invalid_argument (no digits) or std::out_of_range (not an int). */
  function ReadDigits(s: string, negative: bool): Option<int> {
    var n := DigitCount(s);
    var value: int := if negative then 0 - Value(s[..n]) else Value(s[..n]);
    if n == 0 || value < INT_MIN || value > INT_MAX then None else Some(value)
  }

  function Stoi(text: string): Option<int> {
    var s := SkipBlanks(text);
    if s != "" && s[0] == '-' then ReadDigits(s[1..], true)
    else if s != "" && s[0] == '+' then ReadDigits(s[1..], false)
    else ReadDigits(s, false)
  }

  lemma {:induction false} DigitCountOfDigits(s: string)
    requires AllDigits(s)
    ensures DigitCount(s) == |s|
  {
    if s != "" {
      DigitCountOfDigits(s[1..]);
    }
  }

  lemma ReadDigitsOfNumeral(n: nat, negative: bool)
    requires if negative then INT_MIN + n <= 0 else n <= INT_MAX
    ensures ReadDigits(Numeral(n), negative) == Some(if negative then 0 - n else n)
  {
    var digits := Numeral(n);
    DigitCountOfDigits(digits);
    assert digits[..|digits|] == digits;
    ValueOfNumeral(n);
  }

  /** Every int survives being written and read back. */
  lemma StoiOfNumeral(n: int)
    requires INT_MIN <= n <= INT_MAX
    ensures Stoi(SignedNumeral(n)) == Some(n)
  {
    if n < 0 {
      ReadDigitsOfNumeral(-n, true);
      assert SignedNumeral(n)[1..] == Numeral(-n);
    } else {
      ReadDigitsOfNumeral(n, false);
      assert IsDigit(Numeral(n)[0]);
    }
  }
}
