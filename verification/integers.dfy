/** BigInt arithmetic as JavaScript defines it, and the divisibility theory the solver and the
    cryptography both stand on. JavaScript division truncates toward zero, so the remainder takes
    the sign of the dividend; `Quot` and `Rem` are those operators. */
module Integers {

  function Abs(a: int): nat {
    if a < 0 then -a else a
  }

  function Min(a: int, b: int): int {
    if a <= b then a else b
  }

  function Max(a: int, b: int): int {
    if a >= b then a else b
  }

  function Quot(a: int, b: int): int
    requires b != 0
  {
    var q := Abs(a) / Abs(b);
    if (a < 0) == (b < 0) then q else -q
  }

  function Rem(a: int, b: int): int
    requires b != 0
  {
    var r := Abs(a) % Abs(b);
    if a < 0 then -r else r
  }

  lemma SignedProduct(b: int, q: int)
    ensures b * -q == -(b * q)
  {
  }

  /** Truncated division: the quotient and remainder rebuild the dividend, the remainder is smaller
      than the divisor and never has the opposite sign to the dividend. */
  lemma QuotRem(a: int, b: int)
    requires b != 0
    ensures a == b * Quot(a, b) + Rem(a, b)
    ensures Abs(Rem(a, b)) < Abs(b)
    ensures (a >= 0 ==> Rem(a, b) >= 0) && (a <= 0 ==> Rem(a, b) <= 0)
  {
    var x, y := Abs(a), Abs(b);
    assert x == y * (x / y) + x % y;
    SignedProduct(b, x / y);
  }

  // ---- divisibility ------------------------------------------------------------------------

  ghost predicate Times(n: int, k: int, d: int) {
    n == k * d
  }

  ghost predicate Divides(d: int, n: int) {
    exists k :: Times(n, k, d)
  }

  ghost function Cofactor(d: int, n: int): (k: int)
    requires Divides(d, n)
    ensures n == k * d
  {
    var k :| Times(n, k, d);
    k
  }

  lemma DividesBy(d: int, n: int, k: int)
    requires n == k * d
    ensures Divides(d, n)
  {
    assert Times(n, k, d);
  }

  lemma DividesLinear(d: int, a: int, b: int, x: int, y: int)
    requires Divides(d, a) && Divides(d, b)
    ensures Divides(d, x * a + y * b)
  {
    var i, j := Cofactor(d, a), Cofactor(d, b);
    calc {
      (x * i + y * j) * d;
      (x * i) * d + (y * j) * d;
      x * (i * d) + y * (j * d);
      x * a + y * b;
    }
    DividesBy(d, x * a + y * b, x * i + y * j);
  }

  lemma DividesCombination(d: int, a: int, b: int, x: int, y: int, g: int)
    requires Divides(d, a) && Divides(d, b) && g == a * x + b * y
    ensures Divides(d, g)
  {
    DividesLinear(d, a, b, x, y);
    assert g == x * a + y * b;
  }

  lemma DividesBound(d: int, n: int)
    requires Divides(d, n) && n != 0
    ensures d != 0 && Abs(d) <= Abs(n)
  {
    ProductBound(Cofactor(d, n), d);
  }

  lemma ProductBound(k: int, d: int)
    requires k != 0
    ensures Abs(d) <= Abs(k * d)
  {
    if k > 0 {
      assert d >= 0 ==> k * d >= d;
      assert d < 0 ==> k * d <= d;
    } else {
      assert d >= 0 ==> k * d <= -d;
      assert d < 0 ==> k * d >= -d;
    }
  }

  lemma DividesMod(d: int, n: int)
    requires d > 0
    ensures Divides(d, n) <==> n % d == 0
  {
    if n % d == 0 {
      DividesBy(d, n, n / d);
    }
    if Divides(d, n) {
      var k := Cofactor(d, n);
      var q := n / d;
      assert n == d * q + n % d;
      assert (k - q) * d == n % d;
      if k != q {
        ProductBound(k - q, d);
      }
    }
  }

  // ---- the greatest common divisor -----------------------------------------------------------

  function Gcd(a: int, b: int): int
    decreases Abs(b)
  {
    if b == 0 then a else
      QuotRem(a, b);
      Gcd(b, Rem(a, b))
  }

  datatype Bezout = Bezout(g: int, x: int, y: int)

  function Egcd(a: int, b: int): Bezout
    decreases Abs(b)
  {
    if b == 0 then Bezout(a, 1, 0) else
      QuotRem(a, b);
      var r := Egcd(b, Rem(a, b));
      Bezout(r.g, r.y, r.x - Quot(a, b) * r.y)
  }

  lemma EgcdStep(a: int, b: int, q: int, m: int, x: int, y: int)
    requires a == b * q + m
    ensures a * y + b * (x - q * y) == b * x + m * y
  {
    assert b * (q * y) == (b * q) * y;
  }

  /** Extended Euclid computes the same divisor as Euclid, writes it as a combination of the two
      arguments, and that divisor divides both. */
  lemma {:induction false} EgcdCorrect(a: int, b: int)
    ensures var r := Egcd(a, b);
      r.g == Gcd(a, b) && r.g == a * r.x + b * r.y && Divides(r.g, a) && Divides(r.g, b)
      && (a >= 0 && b >= 0 ==> r.g >= 0) && (a != 0 || b != 0 ==> r.g != 0)
    decreases Abs(b)
  {
    if b == 0 {
      DividesBy(a, a, 1);
      DividesBy(a, 0, 0);
    } else {
      QuotRem(a, b);
      var q, m := Quot(a, b), Rem(a, b);
      EgcdCorrect(b, m);
      var r := Egcd(b, m);
      EgcdStep(a, b, q, m, r.x, r.y);
      DividesLinear(r.g, b, m, q, 1);
    }
  }

  /** Every common divisor divides the greatest one. */
  lemma CommonDivisor(d: int, a: int, b: int)
    requires Divides(d, a) && Divides(d, b)
    ensures Divides(d, Gcd(a, b))
  {
    EgcdCorrect(a, b);
    var r := Egcd(a, b);
    DividesCombination(d, a, b, r.x, r.y, r.g);
  }

  ghost predicate Coprime(a: int, b: int) {
    Abs(Gcd(a, b)) == 1
  }

  /** Coprimality is a combination equal to one. */
  lemma CoprimeCombination(a: int, b: int) returns (x: int, y: int)
    requires Coprime(a, b)
    ensures a * x + b * y == 1
  {
    EgcdCorrect(a, b);
    var r := Egcd(a, b);
    if r.g == 1 {
      x, y := r.x, r.y;
    } else {
      x, y := -r.x, -r.y;
      assert a * (-r.x) == -(a * r.x) && b * (-r.y) == -(b * r.y);
    }
  }

  lemma CombinationCoprime(a: int, b: int, x: int, y: int)
    requires a * x + b * y == 1
    ensures Coprime(a, b)
  {
    EgcdCorrect(a, b);
    var g := Gcd(a, b);
    DividesLinear(g, a, b, x, y);
    assert x * a + y * b == 1;
    DividesBound(g, 1);
  }

  /** Euclid's lemma: a number coprime to one factor of a multiple divides the other factor. */
  lemma EuclidLemma(d: int, a: int, b: int)
    requires Coprime(d, a) && Divides(d, a * b)
    ensures Divides(d, b)
  {
    var x, y := CoprimeCombination(d, a);
    DividesBy(d, d * b, b);
    DividesLinear(d, d * b, a * b, x, y);
    EuclidStep(d, a, b, x, y);
  }

  lemma EuclidStep(d: int, a: int, b: int, x: int, y: int)
    requires d * x + a * y == 1
    ensures x * (d * b) + y * (a * b) == b
  {
    calc {
      x * (d * b) + y * (a * b);
      (d * x) * b + (a * y) * b;
      (d * x + a * y) * b;
    }
  }

  /** Two coprime divisors divide jointly. */
  lemma CoprimeProduct(p: int, q: int, n: int)
    requires Coprime(p, q) && Divides(p, n) && Divides(q, n)
    ensures Divides(p * q, n)
  {
    var k := Cofactor(q, n);
    assert q * k == n;
    EuclidLemma(p, q, k);
    var j := Cofactor(p, k);
    MulAssoc(j, p, q);
    DividesBy(p * q, n, j);
  }

  lemma CoprimeSymmetric(a: int, b: int)
    requires Coprime(a, b)
    ensures Coprime(b, a)
  {
    var x, y := CoprimeCombination(a, b);
    CombinationCoprime(b, a, y, x);
  }

  /** A number coprime to two others is coprime to their product. */
  lemma CoprimeTimes(a: int, b: int, c: int)
    requires Coprime(a, c) && Coprime(b, c)
    ensures Coprime(a * b, c)
  {
    var x, y := CoprimeCombination(a, c);
    var u, v := CoprimeCombination(b, c);
    CoprimeTimesStep(a, b, c, x, y, u, v);
    CombinationCoprime(a * b, c, x * u, a * x * v + y);
  }

  lemma CoprimeTimesStep(a: int, b: int, c: int, x: int, y: int, u: int, v: int)
    requires a * x + c * y == 1 && b * u + c * v == 1
    ensures (a * b) * (x * u) + c * (a * x * v + y) == 1
  {
    var t := a * x;
    assert (a * b) * (x * u) == t * (b * u);
    assert t * (b * u) == t * (1 - c * v) == t - c * (t * v);
    assert c * (t * v + y) == c * (t * v) + c * y;
  }

  lemma MulAssoc(a: int, b: int, c: int)
    ensures (a * b) * c == a * (b * c)
  {
  }
}
