/** Decimal numerals as they appear inside names and keys. */
module Decimals {

  predicate IsDigit(c: char) { '0' <= c <= '9' }

  function Digit(n: nat): (c: char)
    requires n < 10
    ensures IsDigit(c)
  {
    "0123456789"[n]
  }

  function Digits(n: nat): (s: string)
    ensures |s| >= 1 && forall i :: 0 <= i < |s| ==> IsDigit(s[i])
  {
    if n < 10 then [Digit(n)] else Digits(n / 10) + [Digit(n % 10)]
  }

  lemma {:induction false} DigitsInjective(a: nat, b: nat)
    requires Digits(a) == Digits(b)
    ensures a == b
    decreases a
  {
    var s, t := Digits(a), Digits(b);
    assert s[|s| - 1] == t[|t| - 1];
    assert a % 10 == b % 10;
    assert a >= 10 <==> |s| >= 2;
    assert b >= 10 <==> |t| >= 2;
    if a >= 10 {
      assert s[..|s| - 1] == Digits(a / 10) && t[..|t| - 1] == Digits(b / 10);
      DigitsInjective(a / 10, b / 10);
    }
  }

  function Pow10(k: nat): nat { if k == 0 then 1 else 10 * Pow10(k - 1) }

  lemma {:induction false} DigitsLength(n: nat, k: nat)
    requires k >= 1
    ensures |Digits(n)| <= k <==> n < Pow10(k)
    decreases k
  {
    if k == 1 {
      assert Pow10(1) == 10;
    } else if n < 10 {
      DigitsLength(n, k - 1);
    } else {
      DigitsLength(n / 10, k - 1);
      assert n < 10 * Pow10(k - 1) <==> n / 10 < Pow10(k - 1);
    }
  }

  /** Whatever stands before, a separator that is no digit marks where a numeral begins. */
  lemma {:induction false} NumeralSplits(a: string, b: string, sep: char, m: string, n: string)
    requires !IsDigit(sep) && a + [sep] + m == b + [sep] + n
    requires (forall i :: 0 <= i < |m| ==> IsDigit(m[i])) && (forall i :: 0 <= i < |n| ==> IsDigit(n[i]))
    ensures a == b && m == n
    decreases |m|
  {
    var s, t := a + [sep] + m, b + [sep] + n;
    assert s[|s| - 1] == t[|t| - 1];
    if m == [] {
      assert s[|s| - 1] == sep;
      assert n == [];
      assert a == s[..|s| - 1] == b;
    } else {
      assert s[|s| - 1] == m[|m| - 1];
      assert n != [];
      var m1, n1 := m[..|m| - 1], n[..|n| - 1];
      assert a + [sep] + m1 == s[..|s| - 1] == t[..|t| - 1] == b + [sep] + n1;
      NumeralSplits(a, b, sep, m1, n1);
      assert m == m1 + [m[|m| - 1]] && n == n1 + [n[|n| - 1]];
    }
  }

  lemma NumberedNamesDiffer(a: string, b: string, sep: char, i: nat, j: nat)
    requires !IsDigit(sep) && a + [sep] + Digits(i) == b + [sep] + Digits(j)
    ensures a == b && i == j
  {
    NumeralSplits(a, b, sep, Digits(i), Digits(j));
    DigitsInjective(i, j);
  }
}
