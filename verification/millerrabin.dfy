/** The Miller-Rabin test: what a round accepts, and that it accepts every prime whatever base is drawn. */
module MillerRabin {
  import opened Integers
  import opened Modular
  import opened Primes

  function SmallPrimes(): seq<int> {
    [2, 3, 5, 7, 11, 13, 17, 19, 23, 29, 31, 37, 41, 43, 47,
     53, 59, 61, 67, 71, 73, 79, 83, 89, 97, 101, 103, 107, 109, 113]
  }

  lemma SmallRange()
    ensures forall p :: p in SmallPrimes() ==> 2 <= p <= 113
  {
  }

  /** d doubled j times. */
  function Doubled(d: nat, j: nat): nat {
    if j == 0 then d else 2 * Doubled(d, j - 1)
  }

  ghost predicate Odd(d: nat) {
    d % 2 == 1
  }

  /** The base leads to 1 at once, or to -1 at one of the squarings before the last. */
  ghost predicate Strong(n: int, d: nat, r: nat, a: int)
    requires n > 0
  {
    Pow(a, d) % n == 1 || exists j: nat :: j < r && Pow(a, Doubled(d, j)) % n == n - 1
  }

  /** Trial division lets the number through. */
  ghost predicate Undivided(n: int, primes: seq<int>) {
    forall p :: p in primes ==> n % Positive(p) != 0
  }

  function Positive(p: int): int {
    if p > 0 then p else 1
  }

  lemma PowDoubled(a: int, d: nat, j: nat)
    ensures Pow(a, Doubled(d, j + 1)) == Pow(a, Doubled(d, j)) * Pow(a, Doubled(d, j))
  {
    PowAdd(a, Doubled(d, j), Doubled(d, j));
  }

  /** Going back from a 1: each square root of 1 is 1 again, until one is -1. */
  lemma {:induction false} BackFromOne(n: nat, d: nat, j: nat, a: int)
    requires Prime(n) && Cong(Pow(a, Doubled(d, j)), 1, n)
    ensures Strong(n, d, j, a)
    decreases j
  {
    if j == 0 {
      CongExact(Pow(a, d), 1, n);
    } else {
      hide Pow, Doubled;
      var y := Pow(a, Doubled(d, j - 1));
      PowDoubled(a, d, j - 1);
      RootMod(n, y);
      if y % n == 1 {
        CongMod(y, n);
        CongSym(y % n, y, n);
        BackFromOne(n, d, j - 1, a);
      }
    }
  }

  lemma RootMod(n: nat, y: int)
    requires Prime(n) && Cong(y * y, 1, n)
    ensures y % n == 1 || y % n == n - 1
  {
    CongMod(y, n);
    CongMul(y % n, y, y % n, y, n);
    CongTrans((y % n) * (y % n), y * y, 1, n);
    RootsOfOne(n, y % n);
  }

  /** Every round accepts a prime. */
  lemma PrimeIsStrong(n: nat, d: nat, r: nat, a: int)
    requires Prime(n) && Doubled(d, r) == n - 1 && !Divides(n, a)
    ensures Strong(n, d, r, a)
  {
    Fermat(n, a);
    BackFromOne(n, d, r, a);
  }

  method SplitTwos(m: nat) returns (d: nat, r: nat)
    requires m > 0
    ensures Doubled(d, r) == m && Odd(d)
  {
    d, r := m, 0;
    while d % 2 == 0
      invariant d > 0 && Doubled(d, r) == m
      decreases d
    {
      HalfDoubled(d / 2, r);
      d, r := d / 2, r + 1;
    }
  }

  lemma {:induction false} HalfDoubled(h: nat, r: nat)
    ensures Doubled(2 * h, r) == Doubled(h, r + 1)
    decreases r
  {
    if r > 0 { HalfDoubled(h, r - 1); }
  }

  /** One round: the base raised to d, then squared up to r - 1 times in search of -1. */
  method Round(n: int, d: nat, r: nat, a: int) returns (ok: bool)
    requires n > 2 && r > 0
    ensures ok <==> Strong(n, d, r, a)
  {
    hide Pow;
    var x := ModPow(a, d, n);
    if x == 1 { return true; }
    if x == n - 1 {
      assert Pow(a, Doubled(d, 0)) % n == n - 1;
      return true;
    }
    for j := 1 to r
      invariant x == Pow(a, Doubled(d, j - 1)) % n
      invariant forall i: nat :: i < j ==> Pow(a, Doubled(d, i)) % n != n - 1
    {
      PowDoubled(a, d, j - 1);
      SquareMod(Pow(a, Doubled(d, j - 1)), n);
      x := (x * x) % n;
      if x == n - 1 { return true; }
    }
    return false;
  }

  lemma SquareMod(y: int, n: int)
    requires n > 0
    ensures ((y % n) * (y % n)) % n == (y * y) % n
  {
    CongMod(y, n);
    CongMul(y % n, y, y % n, y, n);
    CongExact((y % n) * (y % n), y * y, n);
  }

  /** `bases` is what the rounds draw: at least 2, and below n - 3. */
  method IsProbablePrime(n: int, bases: seq<int>) returns (result: bool)
    requires n > 113 ==> forall a :: a in bases ==> 2 <= a < n - 3
    ensures n <= 113 ==> (result <==> Prime(n))
    ensures Prime(n) ==> result
    ensures n !in SmallPrimes() && !Undivided(n, SmallPrimes()) ==> !result
    ensures n > 113 && Undivided(n, SmallPrimes()) ==>
      exists d: nat, r: nat :: Doubled(d, r) == n - 1 && Odd(d) && (result <==> forall a :: a in bases ==> Strong(n, d, r, a))
  {
    hide SmallPrimes, Undivided, Strong, Doubled;
    if n <= 113 { SmallExact(n); }
    if n < 2 { return false; }
    SmallRange();
    var verdict := TrialDivision(n, SmallPrimes());
    if verdict != Go { return verdict == Listed; }
    if n <= 113 {
      SmallDivisors(n);
      SmallCovered(n);
      assert false;
    }
    assert n % 2 != 0 by { SmallDivisors(n); }
    result := Rounds(n, bases);
  }

  datatype Verdict = Listed | Divided | Go

  method TrialDivision(n: int, primes: seq<int>) returns (v: Verdict)
    requires n >= 2 && forall p :: p in primes ==> p >= 2
    ensures v == Listed ==> n in primes
    ensures v == Divided ==> !Undivided(n, primes) && !Prime(n)
    ensures v == Go ==> n !in primes && Undivided(n, primes)
  {
    for k := 0 to |primes|
      invariant forall i :: 0 <= i < k ==> primes[i] != n && n % Positive(primes[i]) != 0
    {
      var p := primes[k];
      assert p in primes;
      if n == p { return Listed; }
      if n % p == 0 {
        ProperDivisor(n, p);
        return Divided;
      }
    }
    v := Go;
  }

  lemma ProperDivisor(n: int, p: int)
    requires n >= 2 && p >= 2 && p != n && n % p == 0
    ensures !Prime(n)
  {
    DividesMod(p, n);
    DividesBound(p, n);
  }

  lemma SmallDivisors(n: int)
    requires Undivided(n, SmallPrimes())
    ensures n % 2 != 0 && n % 3 != 0 && n % 5 != 0 && n % 7 != 0
  {
    assert 2 in SmallPrimes() && 3 in SmallPrimes() && 5 in SmallPrimes() && 7 in SmallPrimes();
    assert Positive(2) == 2 && Positive(3) == 3 && Positive(5) == 5 && Positive(7) == 7;
  }

  /** Below 127 nothing but the listed primes gets past 2, 3, 5 and 7. */
  lemma SmallCovered(n: int)
    requires 2 <= n <= 113 && n % 2 != 0 && n % 3 != 0 && n % 5 != 0 && n % 7 != 0
    ensures n in SmallPrimes()
  {
    if n < 58 { LowCovered(n); } else { HighCovered(n); }
  }

  lemma LowCovered(n: int)
    requires 2 <= n < 58 && n % 2 != 0 && n % 3 != 0 && n % 5 != 0 && n % 7 != 0
    ensures n in SmallPrimes()
  {
  }

  lemma HighCovered(n: int)
    requires 58 <= n <= 113 && n % 2 != 0 && n % 3 != 0 && n % 5 != 0 && n % 7 != 0
    ensures n in SmallPrimes()
  {
  }

  // ---- the list is the primes up to 113 ----------------------------------------------------------------

  lemma MultipleOf(f: int, g: int)
    requires 2 <= f <= 10
    ensures f * g % 2 == 0 || f * g % 3 == 0 || f * g % 5 == 0 || f * g % 7 == 0
  {
    var p := if f % 2 == 0 then 2 else if f % 3 == 0 then 3 else if f == 5 then 5 else 7;
    Factored(p, f / p, g);
    assert f == p * (f / p);
  }

  lemma Factored(p: int, h: int, g: int)
    requires p > 0
    ensures p * h * g % p == 0
  {
    Regrouped(p, h, g);
    DividesBy(p, p * h * g, h * g);
    DividesMod(p, p * h * g);
  }

  lemma Regrouped(p: int, h: int, g: int)
    ensures p * h * g == h * g * p
  {
  }

  lemma OneIsSmall(k: int, e: int)
    requires k > 1 && e > 1 && k * e < 121
    ensures k <= 10 || e <= 10
  {
    if k > 10 && e > 10 { Elevens(k, e); }
  }

  lemma Elevens(k: int, e: int)
    requires k >= 11 && e >= 11
    ensures k * e >= 121
  {
    assert (k - 11) * (e - 11) >= 0;
  }

  lemma CofactorAbove(k: int, n: int)
    requires 1 < k < n && Divides(k, n)
    ensures Cofactor(k, n) > 1 && n == Cofactor(k, n) * k >= 2 * k
  {
    AboveOne(Cofactor(k, n), k);
  }

  lemma AboveOne(e: int, k: int)
    requires k > 0 && e * k > k
    ensures e > 1
  {
  }

  /** A proper factor of a number below 121 is divided by 2, 3, 5 or 7, or its cofactor is. */
  lemma SmallFactor(n: int, k: int)
    requires 1 < k < n < 121 && Divides(k, n)
    ensures n % 2 == 0 || n % 3 == 0 || n % 5 == 0 || n % 7 == 0
  {
    var e := Cofactor(k, n);
    CofactorAbove(k, n);
    OneIsSmall(k, e);
    if k <= 10 { MultipleOf(k, e); } else { MultipleOf(e, k); }
  }

  lemma TinyPrime(n: int)
    requires n == 2 || n == 3 || n == 5 || n == 7
    ensures Prime(n)
  {
    forall k | 1 < k < n ensures !Divides(k, n) {
      DividesMod(k, n);
      assert k == 2 || k == 3 || k == 4 || k == 5 || k == 6;
    }
  }

  predicate Lower(p: int) {
    p == 11 || p == 13 || p == 17 || p == 19 || p == 23 || p == 29 || p == 31
    || p == 37 || p == 41 || p == 43 || p == 47 || p == 53
  }

  predicate Upper(p: int) {
    p == 59 || p == 61 || p == 67 || p == 71 || p == 73 || p == 79 || p == 83
    || p == 89 || p == 97 || p == 101 || p == 103 || p == 107 || p == 109 || p == 113
  }

  lemma ListedOneOf(p: int)
    requires p in SmallPrimes()
    ensures p == 2 || p == 3 || p == 5 || p == 7 || Lower(p) || Upper(p)
  {
  }

  lemma LowerUndivided(p: int)
    requires Lower(p) || Upper(p)
    ensures p % 2 != 0 && p % 3 != 0 && p % 5 != 0 && p % 7 != 0
  {
  }

  /** The list holds every prime up to 113 and nothing else. */
  lemma SmallExact(n: int)
    requires n <= 113
    ensures n in SmallPrimes() <==> Prime(n)
  {
    hide SmallPrimes;
    SmallRange();
    if n in SmallPrimes() {
      ListedOneOf(n);
      if n == 2 || n == 3 || n == 5 || n == 7 {
        TinyPrime(n);
      } else {
        LowerUndivided(n);
        forall k | 1 < k < n ensures !Divides(k, n) {
          if Divides(k, n) {
            SmallFactor(n, k);
            assert false;
          }
        }
      }
    } else if Prime(n) {
      PrimeUndivided(n);
      SmallCovered(n);
      assert false;
    }
  }

  lemma PrimeUndivided(n: int)
    requires Prime(n) && n !in SmallPrimes()
    ensures n % 2 != 0 && n % 3 != 0 && n % 5 != 0 && n % 7 != 0
  {
    assert 2 in SmallPrimes() && 3 in SmallPrimes() && 5 in SmallPrimes() && 7 in SmallPrimes();
    hide SmallPrimes;
    if n % 2 == 0 { ProperDivisor(n, 2); }
    if n % 3 == 0 { ProperDivisor(n, 3); }
    if n % 5 == 0 { ProperDivisor(n, 5); }
    if n % 7 == 0 { ProperDivisor(n, 7); }
  }

  // ---- every base at once decides ------------------------------------------------------------------------

  /** A number that shares a factor with n is no base n passes for. */
  lemma FactorIsWitness(n: int, d: nat, r: nat, p: int)
    requires n > 1 && p > 1 && Divides(p, n) && d > 0
    ensures !Strong(n, d, r, p)
  {
    hide Pow, Doubled;
    FactorRemains(n, d, p);
    forall j: nat ensures Pow(p, Doubled(d, j)) % n != n - 1 {
      DoubledPositive(d, j);
      FactorRemains(n, Doubled(d, j), p);
    }
  }

  lemma {:induction false} DoubledPositive(d: nat, j: nat)
    requires d > 0
    ensures Doubled(d, j) > 0
  {
    if j > 0 { DoubledPositive(d, j - 1); }
  }

  lemma FactorRemains(n: int, e: nat, p: int)
    requires n > 1 && p > 1 && Divides(p, n) && e > 0
    ensures Pow(p, e) % n != 1 && Pow(p, e) % n != n - 1
  {
    var x := Pow(p, e);
    var q := x / n;
    assert x == n * q + x % n;
    DividesBy(p, x, Pow(p, e - 1));
    DividesLinear(p, x, n, 1, -q);
    assert 1 * x + -q * n == x % n by { Exchange(n, q); }
    assert Divides(p, x % n);
    if x % n == 1 {
      DividesBound(p, 1);
    }
    if x % n == n - 1 {
      DividesLinear(p, n, n - 1, 1, -1);
      DividesBound(p, 1);
    }
  }

  lemma Exchange(n: int, q: int)
    ensures -q * n == -(n * q)
  {
  }

  /** The test has no composite it passes on every draw: a number above 113 is prime exactly when the round
      accepts it for every base there is to draw. */
  lemma PrimeIffEveryBase(n: int, d: nat, r: nat)
    requires n > 113 && Doubled(d, r) == n - 1 && d > 0
    ensures Prime(n) <==> forall a :: 2 <= a < n - 3 ==> Strong(n, d, r, a)
  {
    hide Strong, Doubled;
    if Prime(n) {
      forall a | 2 <= a < n - 3 ensures Strong(n, d, r, a) { RoundKeeps(n, d, r, a); }
    } else {
      var k :| 1 < k < n && Divides(k, n);
      FactorIsWitness(n, d, r, k);
      ProperIsFar(n, k);
    }
  }

  lemma ProperIsFar(n: int, k: int)
    requires n > 113 && 1 < k < n && Divides(k, n)
    ensures k < n - 3
  {
    CofactorAbove(k, n);
  }

  method Rounds(n: int, bases: seq<int>) returns (result: bool)
    requires n > 113 && n % 2 != 0 && forall a :: a in bases ==> 2 <= a < n - 3
    ensures Prime(n) ==> result
    ensures exists d: nat, r: nat :: Doubled(d, r) == n - 1 && Odd(d) && (result <==> forall a :: a in bases ==> Strong(n, d, r, a))
  {
    hide Pow, Strong;
    var d, r := SplitTwos(n - 1);
    assert r > 0;
    for i := 0 to |bases|
      invariant forall a :: a in bases[..i] ==> Strong(n, d, r, a)
    {
      assert bases[i] in bases && bases[..i + 1] == bases[..i] + [bases[i]];
      if Prime(n) { RoundKeeps(n, d, r, bases[i]); }
      var ok := Round(n, d, r, bases[i]);
      if !ok { return false; }
    }
    assert bases[..|bases|] == bases;
    result := true;
  }

  lemma RoundKeeps(n: int, d: nat, r: nat, a: int)
    requires Prime(n) && Doubled(d, r) == n - 1 && 2 <= a < n - 3
    ensures Strong(n, d, r, a)
  {
    if Divides(n, a) { DividesBound(n, a); }
    PrimeIsStrong(n, d, r, a);
  }
}
