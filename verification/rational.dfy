/** Exact rationals, kept in lowest terms with a positive denominator (src/logic.js, class Rat). */
module Rational {
  import opened Integers

  datatype Ratio = Ratio(n: int, d: int)

  ghost predicate Lowest(r: Ratio) {
    r.d > 0 && Coprime(r.n, r.d)
  }

  type Rat = r: Ratio | Lowest(r) witness Ratio(0, 1)

  /** The numerical value a numerator and denominator stand for. */
  ghost function Quotient(n: int, d: int): real
    requires d != 0
  {
    n as real / d as real
  }

  ghost function Val(r: Ratio): real
    requires r.d != 0
  {
    Quotient(r.n, r.d)
  }

  // ---- the greatest common divisor, as a loop -----------------------------------------------

  /** Euclid by repeated remainder on absolute values. */
  method GcdLoop(a: int, b: int) returns (x: int)
    ensures x == Gcd(Abs(a), Abs(b))
  {
    x := Abs(a);
    var y: int := Abs(b);
    while y != 0
      invariant x >= 0 && y >= 0
      invariant Gcd(x, y) == Gcd(Abs(a), Abs(b))
      decreases y
    {
      QuotRem(x, y);
      x, y := y, Rem(x, y);
    }
  }

  // ---- construction ---------------------------------------------------------------------------

  /** `new Rat(n, d)`: the sign moves to the numerator and both are divided by their gcd. The
      constructor throws on a zero denominator, which no caller here can pass. */
  function Make(n: int, d: int): (r: Rat)
    requires d != 0
    ensures Val(r) == Quotient(n, d)
  {
    var (n1, d1) := if d < 0 then (-n, -d) else (n, d);
    var g := Gcd(Abs(n1), d1);
    GcdPositive(n1, d1);
    Reduced(n1, d1, g);
    Ratio(n1 / g, d1 / g)
  }

  lemma GcdPositive(n: int, d: int)
    requires d > 0
    ensures Gcd(Abs(n), d) > 0
    ensures Divides(Gcd(Abs(n), d), n) && Divides(Gcd(Abs(n), d), d)
  {
    EgcdCorrect(Abs(n), d);
    var g := Gcd(Abs(n), d);
    DividesLinear(g, Abs(n), d, -1, 0);
  }

  lemma ReduceExact(n: int, g: int)
    requires g > 0 && Divides(g, n)
    ensures n == (n / g) * g
  {
    DividesMod(g, n);
  }

  lemma Reduced(n: int, d: int, g: int)
    requires d > 0 && g == Gcd(Abs(n), d)
    ensures g > 0 && d / g > 0 && Coprime(n / g, d / g)
    ensures Quotient(n / g, d / g) == Quotient(n, d) == Quotient(-n, -d)
  {
    GcdPositive(n, d);
    ReduceExact(n, g);
    ReduceExact(d, g);
    ReducedBy(n, d, n / g, d / g, g);
  }

  lemma ReducedBy(n: int, d: int, n': int, d': int, g: int)
    requires d > 0 && g > 0 && n == n' * g && d == d' * g && g == Gcd(Abs(n), d)
    ensures d' > 0 && Coprime(n', d')
    ensures Quotient(n', d') == Quotient(n, d) == Quotient(-n, -d)
  {
    PositiveFactor(d', g);
    ReducedCoprime(n, n', d', g);
    SameQuotient(n', d', n, d, g);
    SignedProduct(n', g);
    SignedProduct(d', g);
    SameQuotient(n', d', -n, -d, -g);
  }

  lemma PositiveFactor(k: int, g: int)
    requires g > 0 && k * g > 0
    ensures k > 0
  {
  }

  lemma ReducedCoprime(n: int, n': int, d': int, g: int)
    requires g > 0 && n == n' * g && g == Gcd(Abs(n), d' * g)
    ensures Coprime(n', d')
  {
    var x, y := BezoutOf(Abs(n), d' * g);
    var s := if n < 0 then -1 else 1;
    SignedTerm(n, n', g, s, x);
    CancelFactor(n', d', g, s * x, y);
    CombinationCoprime(n', d', s * x, y);
  }

  lemma BezoutOf(a: int, b: int) returns (x: int, y: int)
    ensures a * x + b * y == Gcd(a, b)
  {
    EgcdCorrect(a, b);
    x, y := Egcd(a, b).x, Egcd(a, b).y;
  }

  lemma SignedTerm(n: int, n': int, g: int, s: int, x: int)
    requires n == n' * g
    ensures (s * n) * x == (n' * g) * (s * x)
  {
    assert (s * n) * x == n * (s * x);
  }

  lemma CancelFactor(n: int, d: int, g: int, x: int, y: int)
    requires g > 0 && (n * g) * x + (d * g) * y == g
    ensures n * x + d * y == 1
  {
    assert (n * g) * x + (d * g) * y == g * (n * x + d * y);
    var t := n * x + d * y;
    assert g * (t - 1) == 0;
  }

  lemma SameQuotient(n': int, d': int, n: int, d: int, g: int)
    requires g != 0 && d' != 0 && d != 0 && n == n' * g && d == d' * g
    ensures Quotient(n', d') == Quotient(n, d)
  {
    var x, y, h := n' as real, d' as real, g as real;
    assert n as real == x * h && d as real == y * h;
    CancelReal(x, y, h);
  }

  lemma CancelReal(x: real, y: real, h: real)
    requires y != 0.0 && h != 0.0
    ensures y * h != 0.0 && (x * h) / (y * h) == x / y
  {
    var q := x / y;
    assert q * y == x;
    assert q * (y * h) == x * h;
  }

  /** Lowest terms are canonical: two reduced fractions of equal value are the same fraction. The
      solver compares atoms by their printed form, which is sound because of this. */
  lemma Canonical(a: Rat, b: Rat)
    requires Val(a) == Val(b)
    ensures a == b
  {
    CrossMultiply(a, b);
    CanonicalStep(a.n, a.d, b.n, b.d);
    CanonicalStep(b.n, b.d, a.n, a.d);
    DividesBound(a.d, b.d);
    DividesBound(b.d, a.d);
    assert a.d == b.d;
    assert (a.n - b.n) * a.d == 0;
  }

  lemma CrossMultiply(a: Ratio, b: Ratio)
    requires a.d > 0 && b.d > 0 && Val(a) == Val(b)
    ensures a.n * b.d == b.n * a.d
  {
    var v := Val(a);
    var an, ad, bn, bd := a.n as real, a.d as real, b.n as real, b.d as real;
    assert an == v * ad && bn == v * bd;
    assert an * bd == bn * ad;
    assert (a.n * b.d) as real == (b.n * a.d) as real;
  }

  lemma CanonicalStep(n1: int, d1: int, n2: int, d2: int)
    requires n1 * d2 == n2 * d1 && Coprime(n1, d1)
    ensures Divides(d1, d2)
  {
    CoprimeSymmetric(n1, d1);
    DividesBy(d1, n1 * d2, n2);
    EuclidLemma(d1, n1, d2);
  }

  // ---- arithmetic -------------------------------------------------------------------------------

  function Zero(): (r: Rat)
    ensures Val(r) == 0.0
  {
    Make(0, 1)
  }

  function One(): (r: Rat)
    ensures Val(r) == 1.0
  {
    Make(1, 1)
  }

  function Add(a: Rat, b: Rat): (r: Rat)
    ensures Val(r) == Val(a) + Val(b)
  {
    SumQuotient(a.n, a.d, b.n, b.d);
    Make(a.n * b.d + b.n * a.d, a.d * b.d)
  }

  function Neg(a: Rat): (r: Rat)
    ensures Val(r) == -Val(a)
  {
    NegQuotient(a.n, a.d);
    Make(-a.n, a.d)
  }

  function Sub(a: Rat, b: Rat): (r: Rat)
    ensures Val(r) == Val(a) - Val(b)
  {
    DifferenceQuotient(a.n, a.d, b.n, b.d);
    Make(a.n * b.d - b.n * a.d, a.d * b.d)
  }

  function Mul(a: Rat, b: Rat): (r: Rat)
    ensures Val(r) == Val(a) * Val(b)
  {
    ProductQuotient(a.n, a.d, b.n, b.d);
    Make(a.n * b.n, a.d * b.d)
  }

  /** Division throws on zero; every call in the solver and the verifier guards it. */
  function Div(a: Rat, b: Rat): (r: Rat)
    requires b.n != 0
    ensures Val(b) != 0.0 && Val(r) == Val(a) / Val(b)
  {
    DivisionQuotient(a.n, a.d, b.n, b.d);
    Make(a.n * b.d, a.d * b.n)
  }

  /** The sign of the numerator is the sign of the value. */
  function Sign(a: Rat): (s: int)
    ensures -1 <= s <= 1
    ensures (s < 0 <==> Val(a) < 0.0) && (s > 0 <==> Val(a) > 0.0)
  {
    SignOfQuotient(a.n, a.d);
    if a.n < 0 then -1 else if a.n > 0 then 1 else 0
  }

  function IsZero(a: Rat): (b: bool)
    ensures b <==> Val(a) == 0.0
  {
    SignOfQuotient(a.n, a.d);
    a.n == 0
  }

  lemma SignOfQuotient(n: int, d: int)
    requires d > 0
    ensures (n < 0 <==> Quotient(n, d) < 0.0) && (n > 0 <==> Quotient(n, d) > 0.0)
  {
    var q := Quotient(n, d);
    assert q * d as real == n as real;
  }

  lemma SumQuotient(n1: int, d1: int, n2: int, d2: int)
    requires d1 != 0 && d2 != 0
    ensures d1 * d2 != 0 && Quotient(n1 * d2 + n2 * d1, d1 * d2) == Quotient(n1, d1) + Quotient(n2, d2)
  {
    var p, q := Quotient(n1, d1), Quotient(n2, d2);
    var a, b, c, d := n1 as real, d1 as real, n2 as real, d2 as real;
    assert a == p * b && c == q * d;
    assert (n1 * d2 + n2 * d1) as real == a * d + c * b == (p + q) * (b * d);
    assert (d1 * d2) as real == b * d;
  }

  lemma NegQuotient(n: int, d: int)
    requires d != 0
    ensures Quotient(-n, d) == -Quotient(n, d)
  {
  }

  lemma DifferenceQuotient(n1: int, d1: int, n2: int, d2: int)
    requires d1 != 0 && d2 != 0
    ensures d1 * d2 != 0 && Quotient(n1 * d2 - n2 * d1, d1 * d2) == Quotient(n1, d1) - Quotient(n2, d2)
  {
    SumQuotient(n1, d1, -n2, d2);
    NegQuotient(n2, d2);
    assert n1 * d2 + -n2 * d1 == n1 * d2 - n2 * d1;
  }

  lemma ProductQuotient(n1: int, d1: int, n2: int, d2: int)
    requires d1 != 0 && d2 != 0
    ensures d1 * d2 != 0 && Quotient(n1 * n2, d1 * d2) == Quotient(n1, d1) * Quotient(n2, d2)
  {
    var p, q := Quotient(n1, d1), Quotient(n2, d2);
    var a, b, c, d := n1 as real, d1 as real, n2 as real, d2 as real;
    assert a == p * b && c == q * d;
    assert (n1 * n2) as real == a * c == (p * q) * (b * d);
    assert (d1 * d2) as real == b * d;
  }

  lemma DivisionQuotient(n1: int, d1: int, n2: int, d2: int)
    requires d1 != 0 && d2 != 0 && n2 != 0
    ensures d1 * n2 != 0 && Quotient(n2, d2) != 0.0
    ensures Quotient(n1 * d2, d1 * n2) == Quotient(n1, d1) / Quotient(n2, d2)
  {
    var p, q := Quotient(n1, d1), Quotient(n2, d2);
    var a, b, c, d := n1 as real, d1 as real, n2 as real, d2 as real;
    assert a == p * b && c == q * d;
    assert q != 0.0;
    var r := p / q;
    assert r * q == p;
    assert (n1 * d2) as real == a * d == (r * q) * b * d == r * (b * c);
    assert (d1 * n2) as real == b * c;
  }

  /** A real number some fraction equals. */
  ghost predicate IsRational(x: real) {
    exists r: Ratio :: r.d != 0 && Val(r) == x
  }

  ghost function RatOf(x: real): (r: Rat)
    requires IsRational(x)
    ensures Val(r) == x
  {
    var n: int, d: int :| d != 0 && Quotient(n, d) == x;
    Make(n, d)
  }

  lemma RatIsRational(r: Rat)
    ensures IsRational(Val(r))
  {
  }
}
