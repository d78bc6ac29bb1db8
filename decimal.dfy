/**
 * `String.format`'s `%d` and `%02d` conversions with ASCII digits, and
 * Java's truncating `/` and `%` on integers.
 */
module Decimal {
  /** Java `a / b`: the quotient rounded toward zero. */
  function JavaDiv(a: int, b: int): (q: int)
    requires b > 0
    ensures a >= 0 ==> q == a / b
    ensures a < 0 ==> q == -((-a) / b)
  {
    if a >= 0 then a / b else -((-a) / b)
  }

  /** Java `a % b`: the remainder takes the sign of `a`. */
  function JavaRem(a: int, b: int): (r: int)
    requires b > 0
    ensures a == JavaDiv(a, b) * b + r
    ensures a >= 0 ==> 0 <= r < b
    ensures a < 0 ==> -b < r <= 0
  {
    a - JavaDiv(a, b) * b
  }

  predicate IsDigit(c: char) { '0' as int <= c as int <= '9' as int }

  function DigitChar(d: int): (c: char)
    requires 0 <= d < 10
    ensures IsDigit(c) && c as int - '0' as int == d
  {
    ['0', '1', '2', '3', '4', '5', '6', '7', '8', '9'][d]
  }

  /** The decimal digits of `n`, without leading zeros. */
  function NatText(n: nat): (s: string)
    ensures |s| >= 1
    ensures n < 10 ==> |s| == 1
    ensures 10 <= n < 100 ==> |s| == 2
    ensures forall i :: 0 <= i < |s| ==> IsDigit(s[i])
  {
    if n < 10 then [DigitChar(n)] else NatText(n / 10) + [DigitChar(n % 10)]
  }

  /** The number a string of digits spells. */
  function ParseNat(s: string): nat
    requires forall i :: 0 <= i < |s| ==> IsDigit(s[i])
  {
    if s == [] then 0
    else
      assert IsDigit(s[|s| - 1]);
      ParseNat(s[..|s| - 1]) * 10 + (s[|s| - 1] as int - '0' as int)
  }

  lemma {:induction false} ParseNatText(n: nat)
    ensures ParseNat(NatText(n)) == n
  {
    if n >= 10 {
      var s := NatText(n);
      assert s[..|s| - 1] == NatText(n / 10);
      ParseNatText(n / 10);
    }
  }

  /** `%d`. */
  function IntText(n: int): (s: string)
    ensures n >= 0 ==> s == NatText(n)
    ensures n < 0 ==> s == "-" + NatText(-n)
  {
    if n < 0 then "-" + NatText(-n) else NatText(n)
  }

  /** `%d` reads back: a non-negative number as its digits, a negative one as a minus sign and the digits of its magnitude. */
  lemma IntTextReadsBack(n: int)
    ensures n >= 0 ==> ParseNat(IntText(n)) == n
    ensures n < 0 ==> IntText(n)[0] == '-' && IntText(n)[1..] == NatText(-n) && ParseNat(IntText(n)[1..]) == -n
  {
    if n < 0 {
      assert IntText(n)[1..] == NatText(-n);
      ParseNatText(-n);
    } else {
      ParseNatText(n);
    }
  }

  /** `%02d`: at least two characters, zero-padded on the left. */
  function Pad2(n: int): (s: string)
    ensures 0 <= n < 100 ==> |s| == 2 && forall i :: 0 <= i < 2 ==> IsDigit(s[i])
  {
    if 0 <= n < 10 then "0" + IntText(n) else IntText(n)
  }

  /** Two padded digits read back as the number they pad. */
  lemma ParsePad2(n: int)
    requires 0 <= n < 100
    ensures ParseNat(Pad2(n)) == n
  {
    var s := Pad2(n);
    if n < 10 {
      assert s[..1] == "0";
      assert ParseNat(s[..1]) == ParseNat([]) * 10 + 0;
    } else {
      ParseNatText(n);
    }
  }
}
