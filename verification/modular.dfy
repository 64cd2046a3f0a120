/** Arithmetic modulo a number: congruence, powers, square-and-multiply, inverses. */
module Modular {
  import opened Integers

  // ---- congruence -------------------------------------------------------------------------------------

  ghost predicate Cong(a: int, b: int, m: int) {
    Divides(m, a - b)
  }

  lemma CongRefl(a: int, m: int)
    ensures Cong(a, a, m)
  {
    DividesBy(m, a - a, 0);
  }

  lemma CongSym(a: int, b: int, m: int)
    requires Cong(a, b, m)
    ensures Cong(b, a, m)
  {
    var k := Cofactor(m, a - b);
    SignedProduct(m, k);
    DividesBy(m, b - a, -k);
  }

  lemma CongTrans(a: int, b: int, c: int, m: int)
    requires Cong(a, b, m) && Cong(b, c, m)
    ensures Cong(a, c, m)
  {
    DividesLinear(m, a - b, b - c, 1, 1);
  }

  lemma CongAdd(a: int, b: int, c: int, d: int, m: int)
    requires Cong(a, b, m) && Cong(c, d, m)
    ensures Cong(a + c, b + d, m)
  {
    DividesLinear(m, a - b, c - d, 1, 1);
  }

  lemma CongMul(a: int, b: int, c: int, d: int, m: int)
    requires Cong(a, b, m) && Cong(c, d, m)
    ensures Cong(a * c, b * d, m)
  {
    DividesLinear(m, a - b, c - d, c, b);
    assert c * (a - b) + b * (c - d) == a * c - b * d;
  }

  /** A difference that is visibly a multiple. */
  lemma CongBy(a: int, b: int, k: int, m: int)
    requires a - b == k * m
    ensures Cong(a, b, m)
  {
    DividesBy(m, a - b, k);
  }

  lemma CongMod(a: int, m: int)
    requires m > 0
    ensures Cong(a % m, a, m) && 0 <= a % m < m
  {
    assert a == m * (a / m) + a % m;
    SignedProduct(m, a / m);
    CongBy(a % m, a, -(a / m), m);
  }

  lemma CongUnique(a: int, b: int, m: int)
    requires Cong(a, b, m) && 0 <= a < m && 0 <= b < m
    ensures a == b
  {
    if a != b { DividesBound(m, a - b); }
  }

  lemma CongExact(a: int, b: int, m: int)
    requires m > 0 && Cong(a, b, m)
    ensures a % m == b % m
  {
    CongMod(a, m);
    CongMod(b, m);
    CongSym(b % m, b, m);
    CongTrans(a % m, a, b, m);
    CongTrans(a % m, b, b % m, m);
    CongUnique(a % m, b % m, m);
  }

  /** A unit may be cancelled. */
  lemma CongCancel(k: int, a: int, b: int, m: int)
    requires Coprime(m, k) && Cong(k * a, k * b, m)
    ensures Cong(a, b, m)
  {
    assert k * a - k * b == k * (a - b);
    EuclidLemma(m, k, a - b);
  }

  // ---- powers -----------------------------------------------------------------------------------------

  function Pow(b: int, e: nat): int {
    if e == 0 then 1 else b * Pow(b, e - 1)
  }

  lemma {:induction false} PowAdd(b: int, m: nat, n: nat)
    ensures Pow(b, m + n) == Pow(b, m) * Pow(b, n)
    decreases m
  {
    if m > 0 {
      PowAdd(b, m - 1, n);
      MulAssoc(b, Pow(b, m - 1), Pow(b, n));
    }
  }

  lemma {:induction false} PowProduct(a: int, b: int, e: nat)
    ensures Pow(a * b, e) == Pow(a, e) * Pow(b, e)
    decreases e
  {
    if e > 0 {
      PowProduct(a, b, e - 1);
      Regroup(a, b, Pow(a, e - 1), Pow(b, e - 1));
    }
  }

  lemma Regroup(a: int, b: int, c: int, d: int)
    ensures (a * b) * (c * d) == (a * c) * (b * d)
  {
    calc {
      (a * b) * (c * d);
      a * (b * (c * d));
      a * (c * (b * d));
      (a * c) * (b * d);
    }
  }

  lemma {:induction false} PowPow(b: int, m: nat, n: nat)
    ensures Pow(Pow(b, m), n) == Pow(b, m * n)
    decreases n
  {
    if n == 0 {
      assert m * n == 0;
    } else {
      PowPow(b, m, n - 1);
      assert m * n == m + m * (n - 1);
      PowAdd(b, m, m * (n - 1));
    }
  }

  lemma {:induction false} PowOne(e: nat)
    ensures Pow(1, e) == 1
    decreases e
  {
    if e > 0 { PowOne(e - 1); }
  }

  lemma {:induction false} PowSquare(b: int, e: nat)
    ensures Pow(b, 2 * e) == Pow(b * b, e)
    decreases e
  {
    if e > 0 {
      PowSquare(b, e - 1);
      assert Pow(b, 2 * e) == b * Pow(b, 2 * e - 1) == b * (b * Pow(b, 2 * (e - 1)));
      MulAssoc(b, b, Pow(b, 2 * (e - 1)));
    }
  }

  lemma {:induction false} CongPow(a: int, b: int, e: nat, m: int)
    requires Cong(a, b, m)
    ensures Cong(Pow(a, e), Pow(b, e), m)
    decreases e
  {
    if e == 0 {
      CongRefl(1, m);
    } else {
      CongPow(a, b, e - 1, m);
      CongMul(a, b, Pow(a, e - 1), Pow(b, e - 1), m);
    }
  }

  // ---- operations ---------------------------------------------------------------------------------------

  /** The remainder brought into 0..m - 1, as the code spells it with a truncating operator. */
  function Wrap(a: int, m: int): (r: int)
    requires m > 0
  {
    QuotRem(a, m);
    Rem(Rem(a, m) + m, m)
  }

  lemma WrapIsMod(a: int, m: int)
    requires m > 0
    ensures Wrap(a, m) == a % m
  {
    QuotRem(a, m);
    var r := Rem(a, m);
    QuotRem(r + m, m);
    SignedProduct(m, Quot(a, m));
    CongBy(r, a, -Quot(a, m), m);
    var q := Quot(r + m, m);
    assert Wrap(a, m) - r == (1 - q) * m by { assert (1 - q) * m == m - m * q; }
    CongBy(Wrap(a, m), r, 1 - q, m);
    CongTrans(Wrap(a, m), r, a, m);
    CongMod(a, m);
    CongSym(a % m, a, m);
    CongTrans(Wrap(a, m), a, a % m, m);
    CongUnique(Wrap(a, m), a % m, m);
  }

  /** Square and multiply. A negative exponent runs no pass at all. */
  method ModPow(base: int, exp: int, mod: int) returns (r: int)
    requires mod > 0
    ensures exp >= 0 ==> r == Pow(base, exp) % mod
    ensures exp < 0 ==> r == 1 % mod
  {
    hide Pow, Cong, Wrap;
    if mod == 1 { return 0; }
    r := 1;
    var b := Wrap(base, mod);
    ghost var goal := if exp >= 0 then Pow(base, exp) else 0;
    var e := exp;
    if exp >= 0 { PassesStart(base, exp, mod); }
    while e > 0
      invariant 0 <= r < mod && (exp >= 0 ==> e >= 0) && (exp < 0 ==> e == exp && r == 1)
      invariant exp >= 0 ==> Cong(Scaled(r, b, e), goal, mod)
    {
      PassKeeps(r, b, e, mod);
      CongTrans(Scaled(Next(r, b, e, mod), Product(b, b, mod), e / 2), Scaled(r, b, e), goal, mod);
      if e % 2 == 1 { r := Product(r, b, mod); }
      b := Product(b, b, mod);
      e := e / 2;
    }
    if exp >= 0 { PassesEnd(r, b, goal, mod); }
  }

  function Product(a: int, b: int, mod: int): (r: int)
    requires mod > 0
    ensures 0 <= r < mod
  {
    a * b % mod
  }

  function Next(r: int, b: int, e: nat, mod: int): int
    requires mod > 0
  {
    if e % 2 == 1 then Product(r, b, mod) else r
  }

  function Scaled(r: int, b: int, e: nat): int {
    r * Pow(b, e)
  }

  lemma PassesStart(base: int, exp: nat, mod: int)
    requires mod > 0
    ensures Cong(Scaled(1, Wrap(base, mod), exp), Pow(base, exp), mod)
  {
    WrapIsMod(base, mod);
    CongMod(base, mod);
    CongPow(Wrap(base, mod), base, exp, mod);
  }

  lemma PassesEnd(r: int, b: int, goal: int, mod: int)
    requires 0 <= r < mod && Cong(Scaled(r, b, 0), goal, mod)
    ensures r == goal % mod
  {
    CongExact(r, goal, mod);
  }

  /** One pass leaves `result * base ^ exponent` where it was, modulo the modulus. */
  lemma PassKeeps(r: int, b: int, e: nat, mod: int)
    requires mod > 0 && e > 0
    ensures Cong(Scaled(Next(r, b, e, mod), Product(b, b, mod), e / 2), Scaled(r, b, e), mod)
  {
    var h := e / 2;
    CongMod(b * b, mod);
    CongPow(b * b % mod, b * b, h, mod);
    PowSquare(b, h);
    if e % 2 == 1 {
      CongMod(r * b, mod);
      CongMul(r * b % mod, r * b, Pow(b * b % mod, h), Pow(b * b, h), mod);
      assert Pow(b, e) == b * Pow(b, 2 * h);
      MulAssoc(r, b, Pow(b, 2 * h));
    } else {
      CongRefl(r, mod);
      CongMul(r, r, Pow(b * b % mod, h), Pow(b * b, h), mod);
    }
  }

  datatype Inverse = Inverse(value: int) | NoInverse

  /** The inverse, when there is one. */
  function ModInv(a: int, m: int): Inverse
    requires m > 0
  {
    var r := Egcd(Wrap(a, m), m);
    if r.g != 1 then NoInverse else Inverse(Wrap(r.x, m))
  }

  /** An inverse is found exactly when the number is coprime to the modulus, and it is one. */
  lemma ModInvCorrect(a: int, m: int)
    requires m > 0
    ensures ModInv(a, m).Inverse? <==> Coprime(a, m)
    ensures ModInv(a, m).Inverse? ==> 0 <= ModInv(a, m).value < m && Cong(a * ModInv(a, m).value, 1, m)
  {
    hide Wrap, Egcd, Cong, Coprime;
    WrapIsMod(a, m);
    CongMod(a, m);
    CoprimeMod(a, m);
    var r := Egcd(Wrap(a, m), m);
    WrapIsMod(r.x, m);
    EgcdUnit(a % m, m);
    if r.g == 1 {
      CongMod(r.x, m);
      InverseBy(a, m, a % m, r.x, r.y);
    }
  }

  lemma EgcdUnit(w: int, m: int)
    requires w >= 0 && m > 0
    ensures Egcd(w, m).g == 1 <==> Coprime(w, m)
    ensures Egcd(w, m).g == 1 ==> w * Egcd(w, m).x + m * Egcd(w, m).y == 1
  {
    hide Egcd;
    EgcdCorrect(w, m);
  }

  lemma InverseBy(a: int, m: int, w: int, x: int, y: int)
    requires m > 0 && Cong(w, a, m) && w * x + m * y == 1
    ensures Cong(a * (x % m), 1, m)
  {
    hide Cong;
    CongMod(x, m);
    Rewritten(w, x, m, y);
    CongBy(w * x, 1, -y, m);
    CongSym(w, a, m);
    CongMul(a, w, x % m, x, m);
    CongTrans(a * (x % m), w * x, 1, m);
  }

  lemma Rewritten(w: int, x: int, m: int, y: int)
    requires w * x + m * y == 1
    ensures w * x - 1 == -y * m
  {
  }

  lemma CoprimeMod(a: int, m: int)
    requires m > 0
    ensures Coprime(a % m, m) <==> Coprime(a, m)
  {
    var q := a / m;
    assert a == m * q + a % m;
    if Coprime(a % m, m) {
      var x, y := CoprimeCombination(a % m, m);
      Shifted(a, m, q, a % m, x, y);
      CombinationCoprime(a, m, x, y - q * x);
    }
    if Coprime(a, m) {
      var x, y := CoprimeCombination(a, m);
      Unshifted(a, m, q, a % m, x, y);
      CombinationCoprime(a % m, m, x, y + q * x);
    }
  }

  lemma Shifted(a: int, m: int, q: int, w: int, x: int, y: int)
    requires a == m * q + w && w * x + m * y == 1
    ensures a * x + m * (y - q * x) == 1
  {
    assert a * x == (m * q) * x + w * x;
    MulAssoc(m, q, x);
    assert m * (y - q * x) == m * y - m * (q * x);
  }

  lemma Unshifted(a: int, m: int, q: int, w: int, x: int, y: int)
    requires a == m * q + w && a * x + m * y == 1
    ensures w * x + m * (y + q * x) == 1
  {
    assert a * x == (m * q) * x + w * x;
    MulAssoc(m, q, x);
    assert m * (y + q * x) == m * y + m * (q * x);
  }

  function Lcm(a: int, b: int): int
    requires a != 0
  {
    EgcdCorrect(a, b);
    Quot(a, Gcd(a, b)) * b
  }

  /** The least common multiple is a multiple of both, and divides every other. */
  lemma LcmCorrect(a: int, b: int, n: int)
    requires a > 0 && b > 0
    ensures Divides(a, Lcm(a, b)) && Divides(b, Lcm(a, b)) && Lcm(a, b) > 0
    ensures Divides(a, n) && Divides(b, n) ==> Divides(Lcm(a, b), n)
  {
    EgcdCorrect(a, b);
    var g := Gcd(a, b);
    var i, j := Cofactor(g, a), Cofactor(g, b);
    QuotOfMultiple(a, g, i);
    assert Lcm(a, b) == i * b;
    Positive(i, g, a);
    Positive(j, g, b);
    DividesBy(b, i * b, i);
    MulAssoc(i, j, g);
    Exchange(i, j, g);
    DividesBy(a, i * b, j);
    if Divides(a, n) && Divides(b, n) {
      var k, l := Cofactor(a, n), Cofactor(b, n);
      // n = k i g = l j g, and i, j are coprime
      CoprimeParts(a, b, g, i, j);
      MulAssoc(k, i, g);
      MulAssoc(l, j, g);
      assert (k * i) * g == (l * j) * g;
      SameFactor(k * i, l * j, g);
      DividesBy(i, l * j, k);
      assert l * j == j * l;
      EuclidLemma(i, j, l);
      var t := Cofactor(i, l);
      MulAssoc(t, i, b);
      DividesBy(i * b, n, t);
    }
  }

  lemma Exchange(i: int, j: int, g: int)
    ensures i * (j * g) == j * (i * g)
  {
  }

  lemma SameFactor(x: int, y: int, g: int)
    requires g != 0 && x * g == y * g
    ensures x == y
  {
    assert (x - y) * g == 0;
  }

  lemma Positive(i: int, g: int, a: int)
    requires a == i * g && a > 0 && g > 0
    ensures i > 0
  {
    NotPositive(i, g);
  }

  lemma NotPositive(i: int, g: int)
    ensures i <= 0 && g > 0 ==> i * g <= 0
  {
  }

  lemma QuotOfMultiple(a: int, g: int, i: int)
    requires g > 0 && a > 0 && a == i * g
    ensures Quot(a, g) == i
  {
    QuotRem(a, g);
    assert (i - Quot(a, g)) * g == Rem(a, g);
    if i != Quot(a, g) { ProductBound(i - Quot(a, g), g); }
  }

  lemma CoprimeParts(a: int, b: int, g: int, i: int, j: int)
    requires a == i * g && b == j * g && g > 0 && g == Gcd(a, b)
    ensures Coprime(i, j)
  {
    EgcdCorrect(a, b);
    var r := Egcd(a, b);
    hide *;
    CommonFactor(i, j, g, r.x, r.y);
    SameFactor(1, i * r.x + j * r.y, g);
    CombinationCoprime(i, j, r.x, r.y);
  }

  lemma CommonFactor(i: int, j: int, g: int, x: int, y: int)
    ensures (i * g) * x + (j * g) * y == (i * x + j * y) * g
  {
  }
}
