/** Decimal and hexadecimal digits, and the numbers they write. */
module Numerals {
  import opened Utf8

  predicate IsDigit(ch: int) {
    0x30 <= ch <= 0x39
  }

  predicate AllDigits(s: Bytes) {
    forall k | 0 <= k < |s| :: IsDigit(s[k])
  }

  /** The value of a hexadecimal digit, in either case. */
  function HexValue(ch: int): Option<int> {
    if 0x30 <= ch <= 0x39 then Some(ch - 0x30)
    else if 0x61 <= ch <= 0x66 then Some(ch - 0x61 + 10)
    else if 0x41 <= ch <= 0x46 then Some(ch - 0x41 + 10)
    else None
  }

  function Natural(digits: Bytes): int {
    if digits == [] then 0 else Natural(digits[..|digits| - 1]) * 10 + (digits[|digits| - 1] as int - 0x30)
  }

  function Digit(n: int): Byte
    requires 0 <= n < 10
  {
    0x30 + n
  }

  /** The decimal digits of a number. */
  function Numeral(n: nat): Bytes {
    if n < 10 then [Digit(n)] else Numeral(n / 10) + [Digit(n % 10)]
  }

  /** They write the number again, without a leading zero. */
  lemma {:induction false} NumeralIsExact(n: nat)
    ensures var s := Numeral(n);
            s != [] && AllDigits(s) && Natural(s) == n && (s[0] == 0x30 ==> n == 0 && |s| == 1)
  {
    if n < 10 {
      assert Numeral(n)[..0] == [];
      assert Natural([]) == 0;
    } else {
      NumeralIsExact(n / 10);
      var s := Numeral(n / 10);
      assert Numeral(n) == s + [Digit(n % 10)];
      assert (s + [Digit(n % 10)])[..|s|] == s;
    }
  }
}
