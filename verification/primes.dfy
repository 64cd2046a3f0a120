/** Fermat's little theorem, proved from the binomial theorem, and the Miller-Rabin test, which never
    rejects a prime. */
module Primes {
  import opened Integers
  import opened Modular

  ghost predicate Prime(p: int) {
    p >= 2 && forall k :: 1 < k < p ==> !Divides(k, p)
  }

  lemma PrimeDivisor(p: int, d: int)
    requires Prime(p) && d > 0 && Divides(d, p)
    ensures d == 1 || d == p
  {
    DividesBound(d, p);
  }

  lemma PrimeCoprime(p: int, a: int)
    requires Prime(p) && !Divides(p, a)
    ensures Coprime(p, a)
  {
    EgcdCorrect(p, a);
    var g := Gcd(p, a);
    var d := Abs(g);
    DividesAbs(g, p);
    PrimeDivisor(p, d);
    if d == p {
      DividesAbs(g, a);
    }
  }

  lemma DividesAbs(g: int, n: int)
    requires Divides(g, n)
    ensures Divides(Abs(g), n)
  {
    var k := Cofactor(g, n);
    if g < 0 {
      assert (-k) * (-g) == k * g;
      DividesBy(-g, n, -k);
    }
  }

  lemma SmallCoprime(p: int, a: int)
    requires Prime(p) && 0 < a < p
    ensures Coprime(p, a)
  {
    if Divides(p, a) { DividesBound(p, a); }
    PrimeCoprime(p, a);
  }

  /** A prime that divides a product divides a factor. */
  lemma PrimeSplits(p: int, a: int, b: int)
    requires Prime(p) && Divides(p, a * b)
    ensures Divides(p, a) || Divides(p, b)
  {
    if !Divides(p, a) {
      PrimeCoprime(p, a);
      EuclidLemma(p, a, b);
    }
  }

  // ---- binomial coefficients ---------------------------------------------------------------------------

  function Choose(n: nat, k: nat): nat {
    if k == 0 then 1 else if n == 0 then 0 else Choose(n - 1, k - 1) + Choose(n - 1, k)
  }

  lemma {:induction false} ChooseNone(n: nat, k: nat)
    requires k > n
    ensures Choose(n, k) == 0
    decreases n
  {
    if n > 0 {
      ChooseNone(n - 1, k - 1);
      ChooseNone(n - 1, k);
    }
  }

  lemma {:induction false} ChooseAll(n: nat)
    ensures Choose(n, n) == 1
    decreases n
  {
    if n > 0 {
      ChooseAll(n - 1);
      ChooseNone(n - 1, n);
    }
  }

  lemma {:induction false} Absorb(n: nat, k: nat)
    requires n > 0 && k > 0
    ensures k * Choose(n, k) == n * Choose(n - 1, k - 1)
    decreases n
  {
    if n == 1 {
      if k > 1 { ChooseNone(1, k); ChooseNone(0, k - 1); } else { assert Choose(0, 0) == 1 && Choose(0, 1) == 0; }
    } else if k == 1 {
      Absorb(n - 1, 1);
      assert Choose(n - 1, 0) == 1 && Choose(n - 2, 0) == 1;
    } else {
      var x, y, z := Choose(n - 1, k - 1), Choose(n - 1, k), Choose(n - 2, k - 1);
      Absorb(n - 1, k - 1);
      Absorb(n - 1, k);
      AbsorbStep(n, k, x, y, Choose(n - 2, k - 2), z);
    }
  }

  lemma AbsorbStep(n: nat, k: nat, x: nat, y: nat, w: nat, z: nat)
    requires (k - 1) * x == (n - 1) * w && k * y == (n - 1) * z && x == w + z
    ensures k * (x + y) == n * x
  {
    assert k * (x + y) == (k - 1) * x + x + k * y;
    assert (n - 1) * w + (n - 1) * z == (n - 1) * (w + z);
  }

  lemma PrimeDividesChoose(p: nat, k: nat)
    requires Prime(p) && 0 < k < p
    ensures Divides(p, Choose(p, k))
  {
    Absorb(p, k);
    DividesBy(p, k * Choose(p, k), Choose(p - 1, k - 1));
    SmallCoprime(p, k);
    EuclidLemma(p, k, Choose(p, k));
  }

  // ---- the binomial theorem ------------------------------------------------------------------------------

  /** The terms of (1 + a)^n up to a^k. */
  function Terms(n: nat, a: int, k: nat): int {
    Choose(n, k) * Pow(a, k) + if k == 0 then 0 else Terms(n, a, k - 1)
  }

  lemma {:induction false} TermsPascal(n: nat, a: int, k: nat)
    requires k > 0
    ensures Terms(n + 1, a, k) == Terms(n, a, k) + a * Terms(n, a, k - 1)
    decreases k
  {
    PascalStep(n, a, k);
    if k == 1 {
      assert Terms(n + 1, a, 0) == 1 && Terms(n, a, 0) == 1;
    } else {
      TermsPascal(n, a, k - 1);
      Distribute(a, Choose(n, k - 1) * Pow(a, k - 1), Terms(n, a, k - 2));
    }
  }

  lemma Distribute(a: int, x: int, y: int)
    ensures a * (x + y) == a * x + a * y
  {
  }

  lemma PascalStep(n: nat, a: int, k: nat)
    requires k > 0
    ensures Choose(n + 1, k) * Pow(a, k) == Choose(n, k) * Pow(a, k) + a * (Choose(n, k - 1) * Pow(a, k - 1))
  {
    var x, y, z := Choose(n, k - 1), Choose(n, k), Pow(a, k - 1);
    assert Pow(a, k) == a * z;
    PascalAlgebra(a, x, y, z);
  }

  lemma PascalAlgebra(a: int, x: int, y: int, z: int)
    ensures (x + y) * (a * z) == y * (a * z) + a * (x * z)
  {
  }

  lemma {:induction false} Binomial(n: nat, a: int)
    ensures Pow(1 + a, n) == Terms(n, a, n)
    decreases n
  {
    if n > 0 {
      var m := n - 1;
      Binomial(m, a);
      TermsPascal(m, a, n);
      ChooseNone(m, n);
      assert Terms(m, a, n) == 0 * Pow(a, n) + Terms(m, a, m);
      assert (1 + a) * Terms(m, a, m) == Terms(m, a, m) + a * Terms(m, a, m);
    }
  }

  lemma {:induction false} MiddleTerms(p: nat, a: int, k: nat)
    requires Prime(p) && k < p
    ensures Cong(Terms(p, a, k), 1, p)
    decreases k
  {
    if k == 0 {
      assert Terms(p, a, 0) == 1;
      CongRefl(1, p);
    } else {
      MiddleTerms(p, a, k - 1);
      PrimeDividesChoose(p, k);
      var c := Cofactor(p, Choose(p, k));
      CommuteOut(c, p, Pow(a, k));
      CongBy(Choose(p, k) * Pow(a, k), 0, c * Pow(a, k), p);
      CongAdd(Choose(p, k) * Pow(a, k), 0, Terms(p, a, k - 1), 1, p);
    }
  }

  lemma CommuteOut(c: int, p: int, x: int)
    ensures (c * p) * x == (c * x) * p
  {
  }

  /** (1 + a)^p is 1 + a^p modulo a prime. */
  lemma Dream(p: nat, a: int)
    requires Prime(p)
    ensures Cong(Pow(1 + a, p), 1 + Pow(a, p), p)
  {
    Binomial(p, a);
    MiddleTerms(p, a, p - 1);
    ChooseAll(p);
    CongRefl(Pow(a, p), p);
    CongAdd(Pow(a, p), Pow(a, p), Terms(p, a, p - 1), 1, p);
  }

  // ---- Fermat's little theorem -----------------------------------------------------------------------------

  lemma {:induction false} FermatNat(p: nat, a: nat)
    requires Prime(p)
    ensures Cong(Pow(a, p), a, p)
    decreases a
  {
    if a == 0 {
      assert Pow(0, p) == 0;
      CongRefl(0, p);
    } else {
      var b := a - 1;
      FermatNat(p, b);
      Dream(p, b);
      CongRefl(1, p);
      CongAdd(1, 1, Pow(b, p), b, p);
      CongTrans(Pow(a, p), 1 + Pow(b, p), a, p);
    }
  }

  /** A number the prime does not divide, raised to p - 1, is 1 modulo p. */
  lemma Fermat(p: nat, a: int)
    requires Prime(p) && !Divides(p, a)
    ensures Cong(Pow(a, p - 1), 1, p)
  {
    var b := a % p;
    CongMod(a, p);
    FermatNat(p, b);
    CongPow(b, a, p, p);
    CongSym(Pow(b, p), Pow(a, p), p);
    CongTrans(Pow(a, p), Pow(b, p), b, p);
    CongTrans(Pow(a, p), b, a, p);
    assert Pow(a, p) == a * Pow(a, p - 1) && a == a * 1;
    PrimeCoprime(p, a);
    CongCancel(a, Pow(a, p - 1), 1, p);
  }

  /** Modulo a prime only 1 and -1 square to 1. */
  lemma RootsOfOne(p: nat, x: int)
    requires Prime(p) && 0 <= x < p && Cong(x * x, 1, p)
    ensures x == 1 || x == p - 1
  {
    assert (x - 1) * (x + 1) == x * x - 1;
    PrimeSplits(p, x - 1, x + 1);
    if Divides(p, x - 1) {
      CongUnique(x, 1, p);
    } else {
      var k := Cofactor(p, x + 1);
      assert x - (p - 1) == (k - 1) * p;
      CongBy(x, p - 1, k - 1, p);
      CongUnique(x, p - 1, p);
    }
  }
}
