/** Whole numbers as `JSON.stringify` and template strings print them. */
module Decimals {
  import opened JsonText

  function DigitChar(d: int): char
    requires 0 <= d < 10
  {
    '0' + d as char
  }

  function NatText(n: nat): (s: string)
    ensures Digits(s) && (s[0] == '0' <==> n == 0) && (n == 0 ==> |s| == 1)
  {
    if n < 10 then [DigitChar(n)] else NatText(n / 10) + [DigitChar(n % 10)]
  }

  lemma NatTextIsUnsigned(n: nat)
    ensures Unsigned(NatText(n))
  {
    var s := NatText(n);
    assert s[..|s|] == s && s[|s|..] == "" && s[|s|..][..0] == "" && s[|s|..][0..] == "";
    assert IntPart(s[..|s|]) && Frac(s[|s|..][..0]) && Exp(s[|s|..][0..]);
    assert FracExp(s[|s|..]);
  }

  function IntText(n: int): (s: string)
    ensures Numeral(s) && s != "" && (s[0] == '-' <==> n < 0)
  {
    NatTextIsUnsigned(if n < 0 then -n else n);
    assert n < 0 ==> ("-" + NatText(-n))[1..] == NatText(-n);
    if n < 0 then "-" + NatText(-n) else NatText(n)
  }

  // ----- and what such a text denotes

  function Place(c: char): int
  {
    match c
    case '0' => 0
    case '1' => 1
    case '2' => 2
    case '3' => 3
    case '4' => 4
    case '5' => 5
    case '6' => 6
    case '7' => 7
    case '8' => 8
    case _ => 9
  }

  function ValueOf(s: string): int
  {
    if s == "" then 0 else 10 * ValueOf(s[..|s| - 1]) + Place(s[|s| - 1])
  }

  function SignedValueOf(s: string): int
  {
    if s != "" && s[0] == '-' then -ValueOf(s[1..]) else ValueOf(s)
  }

  lemma {:induction false} NatTextDenotes(n: nat)
    ensures ValueOf(NatText(n)) == n
  {
    DigitDenotes(n % 10);
    if n < 10 {
      assert [DigitChar(n)][..0] == "";
    } else {
      var s := NatText(n / 10);
      NatTextDenotes(n / 10);
      assert NatText(n)[..|s|] == s && NatText(n)[|s|] == DigitChar(n % 10);
    }
  }

  lemma DigitDenotes(d: int)
    requires 0 <= d < 10
    ensures Place(DigitChar(d)) == d
  {
  }

  /** The text of a number denotes it. */
  lemma IntTextDenotes(n: int)
    ensures SignedValueOf(IntText(n)) == n
  {
    NatTextDenotes(if n < 0 then -n else n);
    assert n < 0 ==> IntText(n)[1..] == NatText(-n);
  }

  lemma IntTextInjective(m: int, n: int)
    requires IntText(m) == IntText(n)
    ensures m == n
  {
    IntTextDenotes(m);
    IntTextDenotes(n);
  }

  /** Digits without a leading zero. */
  predicate NoLeadingZero(k: string)
  {
    Digits(k) && (k[0] == '0' ==> |k| == 1)
  }

  lemma NextDigit(v: nat, d: nat)
    requires v >= 1 && d < 10
    ensures NatText(10 * v + d) == NatText(v) + [DigitChar(d)]
  {
    assert (10 * v + d) / 10 == v && (10 * v + d) % 10 == d;
  }

  /** Such a text is that of the number it denotes. */
  lemma {:induction false} CanonicalIsText(k: string)
    requires NoLeadingZero(k)
    ensures ValueOf(k) >= 0 && NatText(ValueOf(k)) == k
  {
    hide Place, DigitChar, NatText;
    var n := |k| - 1;
    LastDigit(k[n]);
    assert k == k[..n] + [k[n]];
    if n == 0 {
      assert k[..0] == "";
      OneDigit(Place(k[0]));
    } else {
      CanonicalIsText(k[..n]);
      NextDigit(ValueOf(k[..n]), Place(k[n]));
    }
  }

  lemma OneDigit(d: nat)
    requires d < 10
    ensures NatText(d) == [DigitChar(d)]
  {
  }

  lemma LastDigit(c: char)
    requires Digit(c)
    ensures 0 <= Place(c) < 10 && DigitChar(Place(c)) == c
  {
  }
}
