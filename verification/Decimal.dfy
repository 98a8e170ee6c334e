/** Decimal numerals as strings: Python's str and int on non-negative integers. */
module Decimal {
  function DigitChar(d: nat): char
    requires d < 10
  {
    (d + '0' as int) as char
  }

  predicate IsDigit(c: char) {
    '0' <= c <= '9'
  }

  function DigitValue(c: char): (d: nat)
    requires IsDigit(c)
    ensures d < 10 && DigitChar(d) == c
  {
    c as int - '0' as int
  }

  /** Non-empty and made of ASCII digits only. */
  predicate IsDigits(s: string) {
    s != [] && forall c <- s :: IsDigit(c)
  }

  function Digits(n: nat): string {
    if n < 10 then [DigitChar(n)] else Digits(n / 10) + [DigitChar(n % 10)]
  }

  function Number(s: string): nat
    requires IsDigits(s)
  {
    if |s| == 1 then DigitValue(s[0])
    else 10 * Number(s[..|s| - 1]) + DigitValue(s[|s| - 1])
  }

  lemma {:induction false} NumberOfDigits(n: nat)
    ensures IsDigits(Digits(n)) && Number(Digits(n)) == n
    ensures Digits(n)[0] == '0' ==> n == 0
  {
    if n >= 10 {
      NumberOfDigits(n / 10);
      var init := Digits(n / 10);
      assert Digits(n)[..|init|] == init;
    }
  }

  /** Exactly the numerals without superfluous leading zeros are reproduced. */
  lemma {:induction false} DigitsOfNumber(s: string)
    requires IsDigits(s)
    ensures Digits(Number(s)) == s <==> s[0] != '0' || |s| == 1
  {
    NumberOfDigits(Number(s));
    if |s| > 1 {
      var init, last := s[..|s| - 1], s[|s| - 1];
      assert s == init + [last];
      DigitsOfNumber(init);
      var n, d := Number(init), DigitValue(last);
      assert Number(s) == 10 * n + d;
      if s[0] != '0' {
        Positive(init);
        assert Number(s) / 10 == n && Number(s) % 10 == d;
      }
    }
  }

  lemma {:induction false} Positive(s: string)
    requires IsDigits(s) && s[0] != '0'
    ensures Number(s) > 0
  {
    if |s| > 1 {
      assert IsDigits(s[..|s| - 1]);
      Positive(s[..|s| - 1]);
    }
  }

  lemma DigitsInjective(a: nat, b: nat)
    requires Digits(a) == Digits(b)
    ensures a == b
  {
    NumberOfDigits(a);
    NumberOfDigits(b);
  }
}
