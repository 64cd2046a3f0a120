/** Decimal text of integers, and unique splitting of text at a separator. */
module Text {

  predicate IsDigit(c: char) {
    '0' <= c <= '9'
  }

  predicate AllDigits(s: string) {
    forall i :: 0 <= i < |s| ==> IsDigit(s[i])
  }

  function DigitChar(d: nat): char
    requires d < 10
  {
    '0' + d as char
  }

  function DigitValue(c: char): nat
    requires IsDigit(c)
  {
    (c as int) - ('0' as int)
  }

  /** `n.toString()` of a natural number. */
  function Digits(n: nat): (s: string)
    ensures |s| > 0 && AllDigits(s)
  {
    if n < 10 then [DigitChar(n)] else Digits(n / 10) + [DigitChar(n % 10)]
  }

  /** The natural number a string of digits denotes. */
  function Number(s: string): nat
    requires AllDigits(s)
  {
    if s == [] then 0 else 10 * Number(s[..|s| - 1]) + DigitValue(s[|s| - 1])
  }

  lemma {:induction false} NumberOfDigits(n: nat)
    ensures Number(Digits(n)) == n
    ensures n > 0 ==> Digits(n)[0] != '0'
  {
    if n >= 10 {
      NumberOfDigits(n / 10);
      var s := Digits(n);
      assert s[..|s| - 1] == Digits(n / 10);
    } else {
      assert Digits(n)[..0] == [];
    }
  }

  function IntText(n: int): (s: string)
    ensures |s| > 0
    ensures forall i :: 0 <= i < |s| ==> IsDigit(s[i]) || s[i] == '-'
  {
    if n < 0 then ['-'] + Digits(-n) else Digits(n)
  }

  lemma SignShown(a: int)
    ensures (IntText(a)[0] == '-') <==> a < 0
    ensures a < 0 ==> IntText(a)[1..] == Digits(-a)
  {
  }

  lemma IntTextInjective(a: int, b: int)
    requires IntText(a) == IntText(b)
    ensures a == b
  {
    NumberOfDigits(if a < 0 then -a else a);
    NumberOfDigits(if b < 0 then -b else b);
    SignShown(a);
    SignShown(b);
  }

  /** Text cut at the first occurrence of a separator is cut in one way only. */
  lemma SplitUnique(a: string, b: string, c: char, a': string, b': string)
    requires c !in a && c !in a' && a + [c] + b == a' + [c] + b'
    ensures a == a' && b == b'
  {
    var t := a + [c] + b;
    assert t[|a|] == c && t[|a'|] == c;
    assert forall i :: 0 <= i < |a| ==> t[i] == a[i] != c;
    assert forall i :: 0 <= i < |a'| ==> t[i] == a'[i] != c;
    assert a == t[..|a|] && a' == t[..|a|];
    assert b == t[|a| + 1..] && b' == t[|a| + 1..];
  }

  /** Text cut at the last occurrence of a separator is cut in one way only. */
  lemma LastSplitUnique(a: string, b: string, c: char, a': string, b': string)
    requires c !in b && c !in b' && a + [c] + b == a' + [c] + b'
    ensures a == a' && b == b'
  {
    var t := a + [c] + b;
    var t' := a' + [c] + b';
    NoneAfter(a, b, c, |a'|);
    NoneAfter(a', b', c, |a|);
    assert t[|a|] == c && t'[|a'|] == c;
    assert a == t[..|a|] && a' == t'[..|a'|];
    assert b == t[|a| + 1..] && b' == t'[|a'| + 1..];
  }

  lemma NoneAfter(a: string, b: string, c: char, i: nat)
    requires c !in b
    ensures |a| < i < |a + [c] + b| ==> (a + [c] + b)[i] != c
  {
    if |a| < i < |a + [c] + b| {
      assert (a + [c] + b)[i] == b[i - |a| - 1];
    }
  }

  lemma DigitsInjective(m: nat, n: nat)
    requires Digits(m) == Digits(n)
    ensures m == n
  {
    NumberOfDigits(m);
    NumberOfDigits(n);
  }
}
