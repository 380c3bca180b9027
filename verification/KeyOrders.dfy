/** The order of an object's keys in canonical JSON, said in terms of numbers and of
    UTF-16 code units. */
module KeyOrders {
  import opened JsonText
  import opened CanonicalJson
  import opened Decimals

  // ----- by code units

  /** The UTF-16 encoding of a string. */
  function CodeUnits(s: string): seq<int>
  {
    if s == "" then [] else UnitsOf(s[0] as int) + CodeUnits(s[1..])
  }

  function UnitsOf(n: int): (u: seq<int>)
    ensures u != []
  {
    if n < 0x1_0000 then [n] else [0xD800 + (n - 0x1_0000) / 0x400, 0xDC00 + (n - 0x1_0000) % 0x400]
  }

  /** `u` is a proper prefix of `v` or is less where they first differ. */
  ghost predicate SeqLess(u: seq<int>, v: seq<int>)
  {
    u != v && exists n: nat :: FirstDifference(u, v, n) && (n == |u| || (n < |v| && u[n] < v[n]))
  }

  predicate FirstDifference(u: seq<int>, v: seq<int>, n: nat)
  {
    n <= |u| && n <= |v| && u[..n] == v[..n] && (n < |u| && n < |v| ==> u[n] != v[n])
  }

  lemma FirstDifferenceDecides(u: seq<int>, v: seq<int>, n: nat)
    requires FirstDifference(u, v, n)
    ensures SeqLess(u, v) <==> u != v && (n == |u| || (n < |v| && u[n] < v[n]))
  {
    forall m: nat | FirstDifference(u, v, m)
      ensures m == n
    {
      assert forall i :: 0 <= i < m ==> u[..m][i] == u[i] && v[..m][i] == v[i];
      assert forall i :: 0 <= i < n ==> u[..n][i] == u[i] && v[..n][i] == v[i];
    }
  }

  lemma {:induction false} SamePrefix(p: seq<int>, u: seq<int>, v: seq<int>)
    ensures SeqLess(p + u, p + v) <==> SeqLess(u, v)
  {
    var n := Difference(u, v);
    FirstDifferenceDecides(u, v, n);
    var a, b := p + u, p + v;
    assert a[..|p| + n] == p + u[..n] && b[..|p| + n] == p + v[..n];
    assert a[|p|..] == u && b[|p|..] == v;
    FirstDifferenceDecides(a, b, |p| + n);
  }

  function Difference(u: seq<int>, v: seq<int>): (n: nat)
    ensures FirstDifference(u, v, n)
  {
    if u == [] || v == [] || u[0] != v[0] then 0
    else
      var n := 1 + Difference(u[1..], v[1..]);
      assert u[..n] == [u[0]] + u[1..][..n - 1] && v[..n] == [v[0]] + v[1..][..n - 1];
      n
  }

  /** The order of `CanonicalJson` on strings is that of their code units. */
  lemma {:induction false} CodeUnitOrderIsSeqLess(a: string, b: string)
    ensures CodeUnitLess(a, b) <==> SeqLess(CodeUnits(a), CodeUnits(b))
  {
    var u, v := CodeUnits(a), CodeUnits(b);
    if a == "" || b == "" {
      FirstDifferenceDecides(u, v, 0);
    } else if a[0] == b[0] {
      CodeUnitOrderIsSeqLess(a[1..], b[1..]);
      SamePrefix(UnitsOf(a[0] as int), CodeUnits(a[1..]), CodeUnits(b[1..]));
    } else {
      FirstCharacterDecides(a, b);
    }
  }

  lemma FirstCharacterDecides(a: string, b: string)
    requires a != "" && b != "" && a[0] != b[0]
    ensures SeqLess(CodeUnits(a), CodeUnits(b)) <==> Utf16Rank(a[0]) < Utf16Rank(b[0])
  {
    var u, v, m, n := CodeUnits(a), CodeUnits(b), a[0] as int, b[0] as int;
    if m >= 0x1_0000 && n >= 0x1_0000 && (m - 0x1_0000) / 0x400 == (n - 0x1_0000) / 0x400 {
      assert u[..1] == v[..1];
      FirstDifferenceDecides(u, v, 1);
    } else {
      FirstDifferenceDecides(u, v, 0);
    }
  }

  // ----- by number

  /** An array index of ECMAScript: the text of a number below 2^32 - 1. */
  ghost predicate IsIndex(k: string)
  {
    exists n: nat :: n < 4294967295 && k == NatText(n)
  }

  lemma {:induction false} LessThenLess(p: string, q: string, x: char, y: char)
    requires |p| == |q| && (CodeUnitLess(p, q) || (p == q && '0' <= x < y <= '9'))
    ensures CodeUnitLess(p + [x], q + [y])
  {
    if p != "" {
      assert (p + [x])[1..] == p[1..] + [x] && (q + [y])[1..] == q[1..] + [y];
      if p[0] == q[0] { LessThenLess(p[1..], q[1..], x, y); }
    }
  }

  lemma {:induction false} TextOrder(m: nat, n: nat)
    requires m < n
    ensures |NatText(m)| < |NatText(n)| || (|NatText(m)| == |NatText(n)| && CodeUnitLess(NatText(m), NatText(n)))
  {
    if n < 10 {
      assert [DigitChar(m)] == "" + [DigitChar(m)] && [DigitChar(n)] == "" + [DigitChar(n)];
      LessThenLess("", "", DigitChar(m), DigitChar(n));
    } else if m >= 10 {
      var p, q := NatText(m / 10), NatText(n / 10);
      if m / 10 < n / 10 { TextOrder(m / 10, n / 10); }
      if |p| == |q| { LessThenLess(p, q, DigitChar(m % 10), DigitChar(n % 10)); }
    }
  }

  lemma LastIndex()
    ensures NatText(4294967294) == "4294967294"
  {
    hide Digits;
    assert NatText(42) == "42" && NatText(429) == "429" && NatText(4294) == "4294" && NatText(42949) == "42949";
    assert NatText(429496) == "429496" && NatText(4294967) == "4294967" && NatText(42949672) == "42949672";
    assert NatText(429496729) == "429496729";
  }

  lemma IndexIff(k: string)
    ensures ArrayIndex(k) <==> IsIndex(k)
  {
    LastIndex();
    if NoLeadingZero(k) {
      CanonicalIsText(k);
      IndexByValue(k, ValueOf(k));
    }
    if IsIndex(k) {
      var n: nat :| n < 4294967295 && k == NatText(n);
      IndexByValue(k, n);
    }
  }

  lemma IndexByValue(k: string, n: nat)
    requires k == NatText(n)
    ensures ArrayIndex(k) <==> n < 4294967295
  {
    hide NatText, CodeUnitLess;
    var last := NatText(4294967294);
    LastIndex();
    CodeUnitOrder(k, last, last);
    if n < 4294967294 { TextOrder(n, 4294967294); }
    if n > 4294967294 { TextOrder(4294967294, n); }
  }

  lemma IndicesByNumber(m: nat, n: nat)
    requires m < 4294967295 && n < 4294967295
    ensures KeyLess(NatText(m), NatText(n)) <==> m < n
  {
    var a, b := NatText(m), NatText(n);
    IndexByValue(a, m);
    IndexByValue(b, n);
    hide ArrayIndex, NatText;
    CodeUnitOrder(a, b, b);
    if m < n { TextOrder(m, n); }
    if n < m { TextOrder(n, m); }
  }

  ghost predicate NumberLess(a: string, b: string)
  {
    exists m: nat, n: nat :: m < n && a == NatText(m) && b == NatText(n)
  }

  lemma NumbersLess(m: nat, n: nat)
    ensures NumberLess(NatText(m), NatText(n)) <==> m < n
  {
    hide NatText;
    forall i: nat, j: nat | i < j && NatText(m) == NatText(i) && NatText(n) == NatText(j)
      ensures m == i && n == j
    {
      NatTextDenotes(m);
      NatTextDenotes(n);
      NatTextDenotes(i);
      NatTextDenotes(j);
    }
  }

  /** Keys are ordered as JavaScript enumerates them: array indices first, by number, then
      the others by their code units. */
  lemma KeysAreEnumerated(a: string, b: string)
    ensures KeyLess(a, b) <==>
            if IsIndex(a) && IsIndex(b) then NumberLess(a, b)
            else if IsIndex(a) || IsIndex(b) then IsIndex(a)
            else SeqLess(CodeUnits(a), CodeUnits(b))
  {
    hide ArrayIndex, CodeUnitLess, SeqLess, NumberLess, NatText;
    IndexIff(a);
    IndexIff(b);
    CodeUnitOrderIsSeqLess(a, b);
    if IsIndex(a) && IsIndex(b) {
      var m: nat :| m < 4294967295 && a == NatText(m);
      var n: nat :| n < 4294967295 && b == NatText(n);
      IndicesByNumber(m, n);
      NumbersLess(m, n);
    }
  }
}
