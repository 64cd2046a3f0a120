/** Paillier encryption with g = n + 1: whatever unit blinds it, a ciphertext carries its plaintext, the
    operations on ciphertexts carry sums and products, and decryption gives back what is carried. */
module Paillier {
  import opened Integers
  import opened Modular
  import opened Primes

  datatype Option<T> = None | Some(value: T)

  datatype Key = Key(n: int, nn: int, lambda: int, mu: int)

  /** The key of two distinct primes; none when lambda has no inverse modulo n. */
  function KeyOf(p: int, q: int): Option<Key>
    requires p > 1 && q > 1
  {
    PositiveProduct(p, q);
    var n := p * q;
    var lambda := Lcm(p - 1, q - 1);
    match ModInv(lambda % n, n)
    case NoInverse => None
    case Inverse(mu) => Some(Key(n, n * n, lambda, mu))
  }

  lemma PositiveProduct(p: int, q: int)
    requires p > 1 && q > 1
    ensures p * q > 1 && (p * q) * (p * q) > p * q
  {
    assert p * q >= 2 * q;
    var n := p * q;
    assert n * n >= 2 * n;
  }

  function ModExp(b: int, e: int, m: int): int
    requires m > 0
  {
    if e < 0 then 1 % m else Pow(b, e) % m
  }

  // ---- plaintexts ------------------------------------------------------------------------------------

  /** Negatives are kept in the upper half. */
  function EncodePlain(m: int, n: int): int
    requires n > 0
  {
    if m < 0 then Wrap(m, n) else Rem(m, n)
  }

  function DecodePlain(m: int, n: int): int {
    if m > n / 2 then m - n else m
  }

  lemma RemOfNat(a: int, m: int)
    requires a >= 0 && m > 0
    ensures Rem(a, m) == a % m
  {
  }

  lemma EncodeIsMod(m: int, n: int)
    requires n > 0
    ensures EncodePlain(m, n) == m % n
  {
    if m < 0 { WrapIsMod(m, n); } else { RemOfNat(m, n); }
  }

  /** Decoding undoes encoding on everything that fits in half the modulus, and nothing else. */
  lemma DecodeEncode(m: int, n: int)
    requires n > 1
    ensures DecodePlain(EncodePlain(m, n), n) == m <==> -((n - 1) / 2) <= m <= n / 2
  {
    EncodeIsMod(m, n);
    CongMod(m, n);
    var e := m % n;
    var k := Cofactor(n, e - m);
    if -((n - 1) / 2) <= m <= n / 2 {
      if m >= 0 {
        assert e == m by { CongRefl(m, n); CongUnique(e, m, n); }
      } else {
        CongBy(m + n, m, 1, n);
        CongSym(m + n, m, n);
        CongTrans(e, m, m + n, n);
        CongUnique(e, m + n, n);
      }
    }
  }

  // ---- operations ---------------------------------------------------------------------------------------

  /** (1 + n)^m modulo n squared, without the power. */
  function Plain(m: int, key: Key): int
    requires key.n > 0 && key.nn > 0
  {
    (1 + (EncodePlain(m, key.n) * key.n) % key.nn) % key.nn
  }

  function Encrypt(key: Key, m: int, r: int): int
    requires key.n > 0 && key.nn > 0
  {
    (Plain(m, key) * ModExp(r, key.n, key.nn)) % key.nn
  }

  function Decrypt(key: Key, c: int): int
    requires key.n > 0 && key.nn > 0
  {
    var u := ModExp(c, key.lambda, key.nn);
    var l := Quot(u - 1, key.n);
    DecodePlain(Rem(l * key.mu, key.n), key.n)
  }

  function HeAdd(key: Key, a: int, b: int): int
    requires key.nn > 0
  {
    (a * b) % key.nn
  }

  function HeAddPlain(key: Key, c: int, m: int): int
    requires key.n > 0 && key.nn > 0
  {
    (c * Plain(m, key)) % key.nn
  }

  function HeMulPlain(key: Key, c: int, k: int): int
    requires key.n > 0 && key.nn > 0
  {
    ModExp(c, EncodePlain(k, key.n), key.nn)
  }

  // ---- keys ------------------------------------------------------------------------------------------------

  /** What makes a key work: blinding vanishes under lambda, and mu undoes lambda. */
  ghost predicate Works(key: Key) {
    && key.n > 1 && key.nn == key.n * key.n && key.nn > key.n && key.lambda > 0
    && Cong(key.lambda * key.mu, 1, key.n) && 0 <= key.mu < key.n
    && forall r :: Coprime(r, key.n) ==> Cong(Pow(r, key.lambda), 1, key.n)
  }

  /** A power whose exponent is a multiple of p - 1. */
  lemma FermatMultiple(p: nat, r: int, e: nat)
    requires Prime(p) && !Divides(p, r) && Divides(p - 1, e) && e > 0
    ensures Cong(Pow(r, e), 1, p)
  {
    var k := Cofactor(p - 1, e);
    NonNegative(k, p - 1, e);
    assert e == (p - 1) * k;
    Fermat(p, r);
    PowPow(r, p - 1, k);
    CongPow(Pow(r, p - 1), 1, k, p);
    PowOne(k);
  }

  lemma NonNegative(k: int, d: int, e: int)
    requires e == k * d && e > 0 && d > 0
    ensures k > 0
  {
    NotPositive(k, d);
  }

  lemma UnitOfFactor(p: int, q: int, r: int)
    requires Prime(p) && Coprime(r, p * q)
    ensures !Divides(p, r)
  {
    if Divides(p, r) {
      DividesBy(p, p * q, q);
      CommonDivisor(p, r, p * q);
      DividesBound(p, Gcd(r, p * q));
    }
  }

  /** Two distinct primes make a working key whenever they make a key at all. */
  lemma KeyWorks(p: int, q: int)
    requires Prime(p) && Prime(q) && p != q && KeyOf(p, q).Some?
    ensures Works(KeyOf(p, q).value)
  {
    var key := KeyOf(p, q).value;
    var n, lambda := p * q, Lcm(p - 1, q - 1);
    PositiveProduct(p, q);
    LcmCorrect(p - 1, q - 1, 0);
    ModInvCorrect(lambda % n, n);
    CongMod(lambda, n);
    CongRefl(key.mu, n);
    CongSym(lambda % n, lambda, n);
    CongMul(lambda, lambda % n, key.mu, key.mu, n);
    CongTrans(lambda * key.mu, (lambda % n) * key.mu, 1, n);
    forall r | Coprime(r, n) ensures Cong(Pow(r, lambda), 1, n) {
      UnitVanishes(p, q, r, lambda);
    }
  }

  lemma UnitVanishes(p: int, q: int, r: int, lambda: nat)
    requires Prime(p) && Prime(q) && p != q && lambda > 0 && Divides(p - 1, lambda) && Divides(q - 1, lambda)
    requires Coprime(r, p * q)
    ensures Cong(Pow(r, lambda), 1, p * q)
  {
    assert p * q == q * p;
    UnitOfFactor(p, q, r);
    UnitOfFactor(q, p, r);
    FermatMultiple(p, r, lambda);
    FermatMultiple(q, r, lambda);
    if Divides(p, q) { PrimeDivisor(q, p); }
    PrimeCoprime(p, q);
    CoprimeProduct(p, q, Pow(r, lambda) - 1);
  }

  // ---- what a ciphertext carries ------------------------------------------------------------------------------

  /** The ciphertext is (1 + m n) r^n modulo n squared for some unit r. */
  ghost predicate Carries(key: Key, c: int, m: int) {
    exists r: int :: CarriesWith(key, c, m, r)
  }

  ghost predicate CarriesWith(key: Key, c: int, m: int, r: int) {
    key.n > 0 && Coprime(r, key.n) && Cong(c, (1 + m * key.n) * Pow(r, key.n), key.nn)
  }

  lemma OnePlus(a: int, b: int, n: int)
    ensures Cong((1 + a * n) * (1 + b * n), 1 + (a + b) * n, n * n)
  {
    OnePlusAlgebra(a, b, n);
    CongBy((1 + a * n) * (1 + b * n), 1 + (a + b) * n, a * b, n * n);
  }

  lemma OnePlusAlgebra(a: int, b: int, n: int)
    ensures (1 + a * n) * (1 + b * n) - (1 + (a + b) * n) == (a * b) * (n * n)
  {
    var x, y := a * n, b * n;
    assert (1 + x) * (1 + y) == 1 + x + y + x * y;
    assert (a + b) * n == x + y;
    assert x * y == (a * b) * (n * n) by { Regroup(a, n, b, n); }
  }

  /** (1 + a n)^k is 1 + k a n modulo n squared. */
  lemma {:induction false} OnePlusPow(a: int, n: int, k: nat)
    ensures Cong(Pow(1 + a * n, k), 1 + (k * a) * n, n * n)
    decreases k
  {
    if k == 0 {
      assert 1 + (0 * a) * n == 1;
      CongRefl(1, n * n);
    } else {
      OnePlusPow(a, n, k - 1);
      CongRefl(1 + a * n, n * n);
      CongMul(1 + a * n, 1 + a * n, Pow(1 + a * n, k - 1), 1 + ((k - 1) * a) * n, n * n);
      OnePlus(a, (k - 1) * a, n);
      assert a + (k - 1) * a == k * a;
      CongTrans(Pow(1 + a * n, k), (1 + a * n) * (1 + ((k - 1) * a) * n), 1 + (k * a) * n, n * n);
    }
  }

  /** Only the plaintext modulo n is carried. */
  lemma SamePlain(n: int, a: int, b: int)
    requires Cong(a, b, n)
    ensures Cong(1 + a * n, 1 + b * n, n * n)
  {
    var k := Cofactor(n, a - b);
    assert (a - b) * n == (k * n) * n;
    MulAssoc(k, n, n);
    assert (1 + a * n) - (1 + b * n) == (a - b) * n;
    CongBy(1 + a * n, 1 + b * n, k, n * n);
  }

  lemma PlainMeans(key: Key, m: int)
    requires Works(key)
    ensures Cong(Plain(m, key), 1 + m * key.n, key.nn)
  {
    var n, nn := key.n, key.nn;
    var e := EncodePlain(m, n);
    EncodeIsMod(m, n);
    CongMod(m, n);
    SamePlain(n, e, m);
    var t := (e * n) % nn;
    CongMod(e * n, nn);
    CongMod(1 + t, nn);
    CongRefl(1, nn);
    CongAdd(1, 1, t, e * n, nn);
    CongTrans(Plain(m, key), 1 + t, 1 + e * n, nn);
    CongTrans(Plain(m, key), 1 + e * n, 1 + m * n, nn);
  }

  /** Encryption carries the plaintext. */
  lemma EncryptCarries(key: Key, m: int, r: int)
    requires Works(key) && Coprime(r, key.n)
    ensures Carries(key, Encrypt(key, m, r), m)
  {
    Hidden(key, m, r);
  }

  /** The unit that hides it is the one drawn. */
  lemma Hidden(key: Key, m: int, r: int)
    requires Works(key) && Coprime(r, key.n)
    ensures CarriesWith(key, Encrypt(key, m, r), m, r) && 0 <= Encrypt(key, m, r) < key.nn
  {
    var nn := key.nn;
    PlainMeans(key, m);
    CongMod(Pow(r, key.n), nn);
    CongMul(Plain(m, key), 1 + m * key.n, ModExp(r, key.n, nn), Pow(r, key.n), nn);
    CongMod(Plain(m, key) * ModExp(r, key.n, nn), nn);
    CongTrans(Encrypt(key, m, r), Plain(m, key) * ModExp(r, key.n, nn), (1 + m * key.n) * Pow(r, key.n), nn);
    assert CarriesWith(key, Encrypt(key, m, r), m, r);
  }

  lemma CombineCarried(key: Key, a: int, b: int, x: int, y: int, r: int, t: int)
    requires Works(key) && CarriesWith(key, a, x, r) && CarriesWith(key, b, y, t)
    ensures CarriesWith(key, (a * b) % key.nn, x + y, r * t)
  {
    var n, nn := key.n, key.nn;
    var rn, tn := Pow(r, n), Pow(t, n);
    CoprimeTimes(r, t, n);
    CongMod(a * b, nn);
    CongMul(a, (1 + x * n) * rn, b, (1 + y * n) * tn, nn);
    Regroup(1 + x * n, rn, 1 + y * n, tn);
    PowProduct(r, t, n);
    OnePlus(x, y, n);
    CongRefl(rn * tn, nn);
    CongMul((1 + x * n) * (1 + y * n), 1 + (x + y) * n, rn * tn, rn * tn, nn);
    CongTrans((a * b) % nn, a * b, ((1 + x * n) * (1 + y * n)) * (rn * tn), nn);
    CongTrans((a * b) % nn, ((1 + x * n) * (1 + y * n)) * (rn * tn), (1 + (x + y) * n) * (rn * tn), nn);
  }

  lemma AddCarries(key: Key, a: int, b: int, x: int, y: int)
    requires Works(key) && Carries(key, a, x) && Carries(key, b, y)
    ensures Carries(key, HeAdd(key, a, b), x + y)
  {
    var r :| CarriesWith(key, a, x, r);
    var t :| CarriesWith(key, b, y, t);
    CombineCarried(key, a, b, x, y, r, t);
  }

  lemma OneIsUnit(n: int)
    requires n > 0
    ensures Coprime(1, n)
  {
    CombinationCoprime(1, n, 1, 0);
  }

  lemma AddPlainCarries(key: Key, c: int, x: int, m: int)
    requires Works(key) && Carries(key, c, x)
    ensures Carries(key, HeAddPlain(key, c, m), x + m)
  {
    var r :| CarriesWith(key, c, x, r);
    PlainMeans(key, m);
    OneIsUnit(key.n);
    PowOne(key.n);
    assert CarriesWith(key, Plain(m, key), m, 1);
    CombineCarried(key, c, Plain(m, key), x, m, r, 1);
  }

  lemma PowerCarried(key: Key, c: int, x: int, k: nat, r: int)
    requires Works(key) && CarriesWith(key, c, x, r)
    ensures Cong(Pow(c, k), (1 + (k * x) * key.n) * Pow(Pow(r, k), key.n), key.nn)
  {
    var n, nn := key.n, key.nn;
    CongPow(c, (1 + x * n) * Pow(r, n), k, nn);
    PowProduct(1 + x * n, Pow(r, n), k);
    OnePlusPow(x, n, k);
    PowPow(r, n, k);
    PowPow(r, k, n);
    assert n * k == k * n;
    CongRefl(Pow(Pow(r, k), n), nn);
    CongMul(Pow(1 + x * n, k), 1 + (k * x) * n, Pow(Pow(r, k), n), Pow(Pow(r, k), n), nn);
    CongTrans(Pow(c, k), Pow(1 + x * n, k) * Pow(Pow(r, k), n), (1 + (k * x) * n) * Pow(Pow(r, k), n), nn);
  }

  lemma {:induction false} UnitPow(r: int, n: int, k: nat)
    requires n > 0 && Coprime(r, n)
    ensures Coprime(Pow(r, k), n)
    decreases k
  {
    if k == 0 {
      OneIsUnit(n);
    } else {
      UnitPow(r, n, k - 1);
      CoprimeTimes(r, Pow(r, k - 1), n);
    }
  }

  lemma MulCarries(key: Key, c: int, x: int, k: int)
    requires Works(key) && Carries(key, c, x)
    ensures Carries(key, HeMulPlain(key, c, k), x * k)
  {
    var r :| CarriesWith(key, c, x, r);
    var n, nn := key.n, key.nn;
    var e := EncodePlain(k, n);
    EncodeIsMod(k, n);
    CongMod(k, n);
    PowerCarried(key, c, x, e, r);
    UnitPow(r, n, e);
    CongRefl(x, n);
    CongMul(e, k, x, x, n);
    assert k * x == x * k;
    SamePlain(n, e * x, x * k);
    var blind := Pow(Pow(r, e), n);
    CongRefl(blind, nn);
    CongMul(1 + (e * x) * n, 1 + (x * k) * n, blind, blind, nn);
    CongMod(Pow(c, e), nn);
    CongTrans(HeMulPlain(key, c, k), Pow(c, e), (1 + (e * x) * n) * blind, nn);
    CongTrans(HeMulPlain(key, c, k), (1 + (e * x) * n) * blind, (1 + (x * k) * n) * blind, nn);
    assert CarriesWith(key, HeMulPlain(key, c, k), x * k, Pow(r, e));
  }

  // ---- decryption ---------------------------------------------------------------------------------------------

  /** Raised to lambda, the blinding is 1 modulo n squared. */
  lemma BlindingVanishes(key: Key, r: int)
    requires Works(key) && Coprime(r, key.n)
    ensures Cong(Pow(Pow(r, key.lambda), key.n), 1, key.nn)
  {
    var n, nn := key.n, key.nn;
    var s := Pow(r, key.lambda);
    assert Cong(s, 1, n);
    var t := Cofactor(n, s - 1);
    assert s == 1 + t * n;
    OnePlusPow(t, n, n);
    assert (n * t) * n == t * (n * n) by { MulAssoc(t, n, n); }
    CongBy(1 + (n * t) * n, 1, t, nn);
    CongTrans(Pow(s, n), 1 + (n * t) * n, 1, nn);
  }

  /** Under lambda a ciphertext becomes 1 + n times what it carries times lambda. */
  lemma Unblinded(key: Key, c: int, x: int)
    requires Works(key) && Carries(key, c, x)
    ensures ModExp(c, key.lambda, key.nn) == 1 + key.n * ((key.lambda * x) % key.n)
  {
    var r :| CarriesWith(key, c, x, r);
    var n, nn, k := key.n, key.nn, key.lambda;
    PowerCarried(key, c, x, k, r);
    BlindingVanishes(key, r);
    var y := 1 + (k * x) * n;
    CongRefl(y, nn);
    CongMul(y, y, Pow(Pow(r, k), n), 1, nn);
    CongTrans(Pow(c, k), y * Pow(Pow(r, k), n), y * 1, nn);
    var m := (k * x) % n;
    CongMod(k * x, n);
    SamePlain(n, m, k * x);
    CongSym(1 + m * n, y, nn);
    CongTrans(Pow(c, k), y, 1 + m * n, nn);
    CongMod(Pow(c, k), nn);
    CongTrans(Pow(c, k) % nn, Pow(c, k), 1 + m * n, nn);
    InRange(m, n);
    CongUnique(Pow(c, k) % nn, 1 + m * n, nn);
  }

  lemma InRange(m: int, n: int)
    requires 0 <= m < n && n > 1
    ensures 0 <= 1 + m * n < n * n
  {
    hide *;
    MulOrder(0, m, n);
    MulOrder(m, n - 1, n);
    PredTimes(n);
  }

  lemma MulOrder(a: int, b: int, n: int)
    requires a <= b && n > 0
    ensures a * n <= b * n
  {
    assert (b - a) * n >= 0;
  }

  lemma PredTimes(n: int)
    ensures (n - 1) * n == n * n - n
  {
  }

  /** Decryption gives the carried plaintext, as the representative nearest zero. */
  lemma DecryptCarried(key: Key, c: int, x: int)
    requires Works(key) && Carries(key, c, x)
    ensures Decrypt(key, c) == DecodePlain(x % key.n, key.n)
  {
    hide Cong, ModExp, Quot, Rem, DecodePlain;
    var n := key.n;
    Unblinded(key, c, x);
    var m := (key.lambda * x) % n;
    CongMod(key.lambda * x, n);
    QuotExact(m, n);
    Unlocked(key.lambda, key.mu, x, n);
    NatProduct(m, key.mu);
    RemOfNat(m * key.mu, n);
    CongExact(m * key.mu, x, n);
  }

  lemma NatProduct(a: int, b: int)
    requires a >= 0 && b >= 0
    ensures a * b >= 0
  {
  }

  /** Multiplying by mu undoes multiplying by lambda. */
  lemma Unlocked(lambda: int, mu: int, x: int, n: int)
    requires n > 0 && Cong(lambda * mu, 1, n)
    ensures Cong(((lambda * x) % n) * mu, x, n)
  {
    hide Cong;
    CongMod(lambda * x, n);
    CongRefl(mu, n);
    CongMul((lambda * x) % n, lambda * x, mu, mu, n);
    Swap(lambda, x, mu);
    CongRefl(x, n);
    CongMul(lambda * mu, 1, x, x, n);
    CongTrans(((lambda * x) % n) * mu, (lambda * mu) * x, 1 * x, n);
  }

  lemma Swap(a: int, b: int, c: int)
    ensures (a * b) * c == (a * c) * b
  {
  }

  lemma QuotExact(m: int, n: int)
    requires m >= 0 && n > 0
    ensures Quot(n * m, n) == m
  {
    QuotRem(n * m, n);
    var d := m - Quot(n * m, n);
    assert d * n == Rem(n * m, n);
    if d != 0 { ProductBound(d, n); }
  }

  // ---- the promises ---------------------------------------------------------------------------------------------

  ghost predicate Fits(m: int, n: int) {
    -((n - 1) / 2) <= m <= (n - 1) / 2
  }

  lemma CarriedBack(key: Key, c: int, x: int)
    requires Works(key) && Carries(key, c, x) && Fits(x, key.n)
    ensures Decrypt(key, c) == x
  {
    DecryptCarried(key, c, x);
    EncodeIsMod(x, key.n);
    DecodeEncode(x, key.n);
  }

  /** Decryption undoes encryption, whatever unit blinded it. */
  // ---- blinding ---------------------------------------------------------------------------------------

  /** A unit is an inverse of a power of its n-th power: lambda times mu is 1 and so many n. */
  lemma UnitFromPower(key: Key, r: int) returns (k: nat)
    requires Works(key) && Coprime(r, key.n)
    ensures key.lambda * key.mu == 1 + key.n * k
    ensures Cong(r * Pow(Pow(r, key.n), k), 1, key.n)
  {
    var n, e := key.n, key.lambda * key.mu;
    NatProduct(key.lambda, key.mu);
    var c := Cofactor(n, e - 1);
    assert e - 1 == c * n;
    AtLeastOne(n, c, e);
    k := c;
    PowPow(r, key.lambda, key.mu);
    PowPow(r, n, k);
    CongPow(Pow(r, key.lambda), 1, key.mu, n);
    PowOne(key.mu);
    assert Pow(r, 1 + n * k) == r * Pow(r, n * k);
  }

  lemma AtLeastOne(n: int, c: int, e: int)
    requires n > 1 && e >= 0 && e - 1 == c * n
    ensures c >= 0
  {
  }

  /** Units that are not the same modulo n have different n-th powers. */
  lemma PowersApart(key: Key, r: int, t: int)
    requires Works(key) && Coprime(r, key.n) && Coprime(t, key.n) && Cong(Pow(r, key.n), Pow(t, key.n), key.n)
    ensures Cong(r, t, key.n)
  {
    hide Pow, Cong, Coprime;
    var n := key.n;
    var k := UnitFromPower(key, r);
    var l := UnitFromPower(key, t);
    hide Works;
    SameFactor(n, k, l);
    CongPow(Pow(r, n), Pow(t, n), k, n);
    InversesMeet(r, t, Pow(Pow(r, n), k), Pow(Pow(t, n), k), n);
  }

  lemma SameFactor(n: int, k: int, l: int)
    requires n > 0 && n * k == n * l
    ensures k == l
  {
    if k < l { Larger(n, k, l); }
    if l < k { Larger(n, l, k); }
  }

  lemma Larger(n: int, k: int, l: int)
    requires n > 0 && k < l
    ensures n * k < n * l
  {
    assert n * (l - k) > 0;
  }

  /** Two numbers with inverses that are the same are the same. */
  lemma InversesMeet(r: int, t: int, a: int, b: int, n: int)
    requires n > 0 && Cong(a, b, n) && Cong(r * a, 1, n) && Cong(t * b, 1, n)
    ensures Cong(r, t, n)
  {
    hide Cong;
    CongRefl(r * t, n);
    CongMul(r * t, r * t, a, b, n);
    CongRefl(t, n);
    CongRefl(r, n);
    CongMul(t, t, r * a, 1, n);
    CongMul(r, r, t * b, 1, n);
    Exchanged(r, t, a, b);
    CongSym(r * (t * b), r, n);
    CongSym(r * t * a, r * t * b, n);
    CongTrans(r, r * t * b, r * t * a, n);
    CongTrans(r, t * (r * a), t, n);
  }

  lemma Exchanged(r: int, t: int, a: int, b: int)
    ensures t * (r * a) == r * t * a && r * (t * b) == r * t * b && t * 1 == t && r * 1 == r
  {
  }

  /** From a congruence modulo n to one of n-th powers modulo its square. */
  lemma {:induction false} PowerGap(a: int, b: int, n: int, k: nat) returns (s: int)
    requires Cong(a, b, n)
    ensures Pow(a, k) == Pow(b, k) + (a - b) * s && Cong(b * s, k * Pow(b, k), n)
    decreases k
  {
    if k == 0 {
      s := 0;
      CongRefl(0, n);
    } else {
      var t := PowerGap(a, b, n, k - 1);
      s := Pow(b, k - 1) + a * t;
      GapStep(a, b, Pow(b, k - 1), t);
      CongRefl(b * t, n);
      CongMul(b * t, b * t, a, b, n);
      CongRefl(b, n);
      CongMul(b, b, b * t, (k - 1) * Pow(b, k - 1), n);
      CongRefl(b * Pow(b, k - 1), n);
      CongTrans(b * t * a, b * t * b, b * ((k - 1) * Pow(b, k - 1)), n);
      CongAdd(b * Pow(b, k - 1), b * Pow(b, k - 1), b * t * a, b * ((k - 1) * Pow(b, k - 1)), n);
      GapSum(a, b, Pow(b, k - 1), t, k);
    }
  }

  lemma GapStep(a: int, b: int, p: int, t: int)
    ensures a * (p + (a - b) * t) == b * p + (a - b) * (p + a * t)
  {
    var g := a - b;
    assert a * (p + g * t) == a * p + a * (g * t);
    assert g * (p + a * t) == g * p + g * (a * t);
    MulAssoc(a, g, t);
    MulAssoc(g, a, t);
  }

  lemma GapSum(a: int, b: int, p: int, t: int, k: nat)
    ensures b * (p + a * t) == b * p + b * t * a
    ensures k * (b * p) == b * p + b * ((k - 1) * p)
  {
  }

  lemma PowersLift(a: int, b: int, n: int)
    requires Cong(a, b, n) && Coprime(b, n) && n > 1
    ensures Cong(Pow(a, n), Pow(b, n), n * n)
  {
    var s := PowerGap(a, b, n, n);
    CongBy(n * Pow(b, n), 0, Pow(b, n), n);
    CongTrans(b * s, n * Pow(b, n), 0, n);
    assert Cong(b * s, b * 0, n);
    CoprimeSymmetric(b, n);
    CongCancel(b, s, 0, n);
    var c, d := Cofactor(n, a - b), Cofactor(n, s - 0);
    assert (a - b) * s == (c * n) * (d * n);
    Squares(c, d, n);
    CongBy(Pow(a, n), Pow(b, n), c * d, n * n);
  }

  lemma Squares(c: int, d: int, n: int)
    ensures (c * n) * (d * n) == (c * d) * (n * n)
  {
    Regroup(c, n, d, n);
  }

  lemma SameNumber(key: Key, m: int, m': int)
    requires Works(key) && key.n * ((key.lambda * m) % key.n) == key.n * ((key.lambda * m') % key.n)
    ensures Cong(m, m', key.n)
  {
    var n, a, b := key.n, key.lambda * m, key.lambda * m';
    Cancelled(n, a % n, b % n);
    SameRemainder(a, b, n);
    Unscaled(key.lambda, key.mu, m, n);
    Unscaled(key.lambda, key.mu, m', n);
    CongRefl(key.mu, n);
    CongMul(key.mu, key.mu, a, b, n);
    CongSym(key.mu * a, m, n);
    CongTrans(m, key.mu * a, key.mu * b, n);
    CongTrans(m, key.mu * b, m', n);
  }

  lemma Cancelled(n: int, x: int, y: int)
    requires n > 0 && n * x == n * y
    ensures x == y
  {
    assert n * (x - y) == 0;
  }

  lemma SameRemainder(a: int, b: int, n: int)
    requires n > 0 && a % n == b % n
    ensures Cong(a, b, n)
  {
    CongMod(a, n);
    CongMod(b, n);
    CongSym(a % n, a, n);
    CongTrans(a, a % n, b, n);
  }

  lemma Unscaled(lambda: int, mu: int, m: int, n: int)
    requires Cong(lambda * mu, 1, n)
    ensures Cong(mu * (lambda * m), m, n)
  {
    CongRefl(m, n);
    CongMul(lambda * mu, 1, m, m, n);
    Swapped(mu, lambda, m);
  }

  lemma Swapped(mu: int, lambda: int, m: int)
    ensures mu * (lambda * m) == lambda * mu * m && 1 * m == m
  {
  }

  lemma SameUnit(key: Key, c: int, m: int, m': int, r: int, t: int)
    requires Works(key) && CarriesWith(key, c, m, r) && CarriesWith(key, c, m', t)
    ensures Cong(r, t, key.n)
  {
    PowerModN(key, c, m, r);
    PowerModN(key, c, m', t);
    CongSym(c, Pow(r, key.n), key.n);
    CongTrans(Pow(r, key.n), c, Pow(t, key.n), key.n);
    PowersApart(key, r, t);
  }

  lemma PowerModN(key: Key, c: int, m: int, r: int)
    requires Works(key) && CarriesWith(key, c, m, r)
    ensures Cong(c, Pow(r, key.n), key.n)
  {
    var n, p := key.n, Pow(r, key.n);
    var k := Cofactor(key.nn, c - (1 + m * n) * p);
    assert c - (1 + m * n) * p == k * (n * n);
    ModN(c, m, n, p, k);
    CongBy(c, p, k * n + m * p, n);
  }

  lemma ModN(c: int, m: int, n: int, p: int, k: int)
    requires c - (1 + m * n) * p == k * (n * n)
    ensures c - p == (k * n + m * p) * n
  {
    assert (1 + m * n) * p == p + (m * n) * p;
    assert (m * n) * p == (m * p) * n;
    assert k * (n * n) == (k * n) * n;
  }

  /** Two ciphertexts are one exactly when they hide one number, modulo n, under one unit. So under different units
      one number is hidden differently. */
  lemma CiphertextsDiffer(key: Key, m: int, m': int, r: int, t: int)
    requires Works(key) && Coprime(r, key.n) && Coprime(t, key.n)
    ensures Encrypt(key, m, r) == Encrypt(key, m', t) <==> Cong(m, m', key.n) && Cong(r, t, key.n)
  {
    var n, nn := key.n, key.nn;
    var c, d := Encrypt(key, m, r), Encrypt(key, m', t);
    Hidden(key, m, r);
    Hidden(key, m', t);
    if c == d {
      assert CarriesWith(key, c, m, r) && CarriesWith(key, c, m', t);
      Unblinded(key, c, m);
      Unblinded(key, c, m');
      SameNumber(key, m, m');
      SameUnit(key, c, m, m', r, t);
    }
    if Cong(m, m', n) && Cong(r, t, n) {
      PowersLift(r, t, n);
      SamePlain(n, m, m');
      CongMul(1 + m * n, 1 + m' * n, Pow(r, n), Pow(t, n), nn);
      CongTrans(c, (1 + m * n) * Pow(r, n), (1 + m' * n) * Pow(t, n), nn);
      CongSym(d, (1 + m' * n) * Pow(t, n), nn);
      CongTrans(c, (1 + m' * n) * Pow(t, n), d, nn);
      CongUnique(c, d, nn);
    }
  }

  lemma RoundTrip(p: int, q: int, m: int, r: int)
    requires Prime(p) && Prime(q) && p != q && KeyOf(p, q).Some? && Coprime(r, p * q) && Fits(m, p * q)
    ensures var key := KeyOf(p, q).value; key.n > 0 && key.nn > 0 && Decrypt(key, Encrypt(key, m, r)) == m
  {
    KeyWorks(p, q);
    var key := KeyOf(p, q).value;
    EncryptCarries(key, m, r);
    CarriedBack(key, Encrypt(key, m, r), m);
  }

  /** Multiplying ciphertexts adds, multiplying by a plain one adds it, raising to a number multiplies by it,
      whenever the result fits. */
  lemma Homomorphic(key: Key, a: int, b: int, x: int, y: int, k: int)
    requires Works(key) && Carries(key, a, x) && Carries(key, b, y)
    ensures Fits(x + y, key.n) ==> Decrypt(key, HeAdd(key, a, b)) == x + y
    ensures Fits(x + k, key.n) ==> Decrypt(key, HeAddPlain(key, a, k)) == x + k
    ensures Fits(x * k, key.n) ==> Decrypt(key, HeMulPlain(key, a, k)) == x * k
  {
    AddCarries(key, a, b, x, y);
    AddPlainCarries(key, a, x, k);
    MulCarries(key, a, x, k);
    if Fits(x + y, key.n) { CarriedBack(key, HeAdd(key, a, b), x + y); }
    if Fits(x + k, key.n) { CarriedBack(key, HeAddPlain(key, a, k), x + k); }
    if Fits(x * k, key.n) { CarriedBack(key, HeMulPlain(key, a, k), x * k); }
  }
}
