/** Decimal digits and the numbers they stand for. */
module Decimals {

  predicate IsDigit(c: char) {
    '0' <= c <= '9'
  }

  predicate AllDigits(s: string) {
    forall i :: 0 <= i < |s| ==> IsDigit(s[i])
  }

  function DigitValue(c: char): nat
    requires IsDigit(c)
  {
    c as int - '0' as int
  }

  function DigitChar(d: nat): (c: char)
    requires d < 10
    ensures IsDigit(c) && DigitValue(c) == d
  {
    (d + '0' as int) as char
  }

  function Decimal(n: nat): (s: string)
    ensures s != "" && AllDigits(s)
  {
    if n < 10 then [DigitChar(n)] else Decimal(n / 10) + [DigitChar(n % 10)]
  }

  function DecimalValue(s: string): nat
    requires AllDigits(s)
  {
    if s == "" then 0 else DecimalValue(s[..|s| - 1]) * 10 + DigitValue(s[|s| - 1])
  }

  lemma DigitsCount()
    ensures DecimalValue("9876543210") == 9876543210
  {
    var s := "9876543210";
    assert s[..9] == "987654321" && s[..9][..8] == "98765432" && s[..9][..8][..7] == "9876543";
    assert "9876543"[..6] == "987654" && "987654"[..5] == "98765" && "98765"[..4] == "9876";
    assert "9876"[..3] == "987" && "987"[..2] == "98" && "98"[..1] == "9" && "9"[..0] == "";
    assert DecimalValue("9876") == 9876;
    assert DecimalValue("9876543") == 9876543;
  }

  lemma {:induction false} DecimalRoundTrip(n: nat)
    ensures DecimalValue(Decimal(n)) == n
  {
    if 10 <= n {
      DecimalRoundTrip(n / 10);
      assert Decimal(n)[..|Decimal(n)| - 1] == Decimal(n / 10);
    }
  }
}
