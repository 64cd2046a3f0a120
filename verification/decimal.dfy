/** Exact decimals: a coefficient and a scale. Addition, subtraction and comparison are exact; multiplication
    is while the scales allow; division and rounding keep one guard digit, and what that costs is stated
    exactly. */
module Decimals {
  import opened Integers
  import opened Text

  /** A scale below zero counts tens, hundreds and so on. */
  datatype Decimal = Decimal(c: int, scale: int)

  datatype Result<T> = Ok(value: T) | Err(error: Kind)

  datatype Kind = ValueError | ZeroDivisionError

  const MAX_SCALE := 34

  function Pow10(n: nat): (r: int)
    ensures r > 0
  {
    if n == 0 then 1 else 10 * Pow10(n - 1)
  }

  lemma {:induction false} Pow10Add(m: nat, n: nat)
    ensures Pow10(m + n) == Pow10(m) * Pow10(n)
    decreases m
  {
    if m > 0 {
      Pow10Add(m - 1, n);
      MulAssoc(10, Pow10(m - 1), Pow10(n));
    }
  }

  /** The number a decimal stands for. */
  ghost function Value(d: Decimal): real {
    d.c as real / Ten(d.scale)
  }

  /** A power of ten, at either sign. */
  ghost function Ten(k: int): (r: real)
    ensures r > 0.0
  {
    if k >= 0 then Pow10(k) as real else 1.0 / Pow10(-k) as real
  }

  lemma TenNat(k: nat)
    ensures Ten(k) == Pow10(k) as real
  {
  }

  lemma TenNext(k: int)
    ensures Ten(k + 1) == 10.0 * Ten(k)
  {
    if k < 0 {
      assert Pow10(-k) == 10 * Pow10(-k - 1);
      TenthOf(Pow10(-k - 1) as real);
    }
  }

  lemma TenthOf(p: real)
    requires p > 0.0
    ensures 10.0 * (1.0 / (10.0 * p)) == 1.0 / p
  {
    var x := 1.0 / (10.0 * p);
    assert x * (10.0 * p) == 1.0;
    DivideOut(10.0 * x, p, 1.0);
  }

  lemma {:induction false} TenAdd(m: int, n: int)
    ensures Ten(m + n) == Ten(m) * Ten(n)
    decreases Abs(m)
  {
    hide Ten, Pow10;
    if m > 0 {
      TenAdd(m - 1, n);
      TenNext(m - 1);
      TenNext(m - 1 + n);
      Tens(Ten(m - 1), Ten(n));
    } else if m < 0 {
      TenAdd(m + 1, n);
      TenNext(m);
      TenNext(m + n);
      TenTimes(Ten(m), Ten(n), Ten(m + n));
    } else {
      TenNat(0);
      assert Pow10(0) == 1 by { NoPlaces(); }
    }
  }

  lemma NoPlaces()
    ensures Pow10(0) == 1
  {
  }

  lemma Tens(x: real, y: real)
    ensures 10.0 * (x * y) == (10.0 * x) * y
  {
  }

  lemma TenTimes(x: real, y: real, z: real)
    requires 10.0 * z == (10.0 * x) * y
    ensures z == x * y
  {
    Tens(x, y);
  }

  // ---- operations ----------------------------------------------------------------------------------------

  /** Both coefficients on the larger of the two scales. */
  function Align(a: Decimal, b: Decimal): (int, int, int) {
    var scale := if a.scale >= b.scale then a.scale else b.scale;
    if a.scale == b.scale then (a.c, b.c, scale)
    else (a.c * Pow10(scale - a.scale), b.c * Pow10(scale - b.scale), scale)
  }

  function Add(a: Decimal, b: Decimal): Decimal {
    var (x, y, scale) := Align(a, b);
    Decimal(x + y, scale)
  }

  function Sub(a: Decimal, b: Decimal): Decimal {
    var (x, y, scale) := Align(a, b);
    Decimal(x - y, scale)
  }

  function Compare(a: Decimal, b: Decimal): int {
    var (x, y, _) := Align(a, b);
    if x < y then -1 else if x > y then 1 else 0
  }

  /** Past the largest scale the product is labelled with that scale, and rescaling to the scale it is labelled
      with does nothing. */
  function Mul(a: Decimal, b: Decimal): Decimal {
    var scale := a.scale + b.scale;
    var product := Decimal(a.c * b.c, if scale <= MAX_SCALE then scale else MAX_SCALE);
    if scale > MAX_SCALE then Rescale(product, MAX_SCALE) else product
  }

  /** The scale of a quotient: the one asked for, or the larger of the two, and two places at least. */
  function Target(a: Decimal, b: Decimal, scale: Option<int>): int {
    if scale.Some? then scale.value else Max(Max(a.scale, b.scale), 2)
  }

  function Div(a: Decimal, b: Decimal, scale: Option<int>): Result<Decimal> {
    if b.c == 0 then Err(ZeroDivisionError) else
      var target := Target(a, b, scale);
      if target > MAX_SCALE then Err(ValueError) else
        var shift := target - a.scale + b.scale + 1;
        var numerator := if shift >= 0 then a.c * Pow10(shift) else Quot(a.c, Pow10(-shift));
        Ok(Decimal(RoundHalfEven(Quot(numerator, b.c)), target))
  }

  datatype Option<T> = None | Some(value: T)

  function Rescale(d: Decimal, scale: int): Decimal {
    if scale == d.scale then d
    else if scale > d.scale then Decimal(d.c * Pow10(scale - d.scale), scale)
    else Decimal(RoundHalfEven(Quot(d.c, Pow10(d.scale - scale - 1))), scale)
  }

  /** Drops the last digit, a 5 going to the even side. */
  function RoundHalfEven(q: int): int {
    var r: int := RoundUnsigned(Abs(q));
    if q < 0 then -r else r
  }

  function RoundUnsigned(v: nat): nat {
    var quotient, remainder := v / 10, v % 10;
    if remainder > 5 || (remainder == 5 && quotient % 2 == 1) then quotient + 1 else quotient
  }

  // ---- the exact ones --------------------------------------------------------------------------------------

  /** Moving to a larger scale moves the coefficient along. */
  lemma Scaled(d: Decimal, scale: int)
    requires scale >= d.scale
    ensures Value(d) * Ten(scale) == (d.c * Pow10(scale - d.scale)) as real
  {
    hide *;
    ValueIs(d);
    TenAdd(scale - d.scale, d.scale);
    TenNat(scale - d.scale);
    RealProduct(d.c, Pow10(scale - d.scale));
    ScaledAlgebra(d.c as real, Ten(d.scale), Pow10(scale - d.scale) as real, Ten(scale));
  }

  lemma ScaledAlgebra(c: real, p: real, k: real, kp: real)
    requires p > 0.0 && kp == k * p
    ensures (c / p) * kp == c * k
  {
    var v := c / p;
    assert v * p == c;
    assert v * (k * p) == k * (v * p);
  }

  lemma Aligned(a: Decimal, b: Decimal)
    ensures var (x, y, scale) := Align(a, b);
      && Value(a) * Ten(scale) == x as real && Value(b) * Ten(scale) == y as real
  {
    var (x, y, scale) := Align(a, b);
    Alone(a.c);
    Alone(b.c);
    hide Value, Pow10, Ten;
    Scaled(a, scale);
    Scaled(b, scale);
  }

  lemma Alone(c: int)
    ensures c * Pow10(0) == c
  {
  }

  lemma FromScaled(c: int, scale: int, v: real)
    requires v * Ten(scale) == c as real
    ensures Value(Decimal(c, scale)) == v
  {
    DivideOut(v, Ten(scale), c as real);
  }

  lemma DivideOut(v: real, p: real, c: real)
    requires p > 0.0 && v * p == c
    ensures c / p == v
  {
  }

  lemma AddExact(a: Decimal, b: Decimal)
    ensures Value(Add(a, b)) == Value(a) + Value(b) && Value(Sub(a, b)) == Value(a) - Value(b)
  {
    hide Value, Ten, Pow10, Align;
    Aligned(a, b);
    var (x, y, scale) := Align(a, b);
    var p := Ten(scale);
    Distribute(Value(a), Value(b), p);
    FromScaled(x + y, scale, Value(a) + Value(b));
    FromScaled(x - y, scale, Value(a) - Value(b));
  }

  lemma Distribute(a: real, b: real, p: real)
    ensures (a + b) * p == a * p + b * p && (a - b) * p == a * p - b * p
  {
  }

  /** Comparison is the order of the numbers, whatever the scales they are written at. */
  lemma CompareIsOrder(a: Decimal, b: Decimal)
    ensures Compare(a, b) == -1 <==> Value(a) < Value(b)
    ensures Compare(a, b) == 0 <==> Value(a) == Value(b)
    ensures Compare(a, b) == 1 <==> Value(a) > Value(b)
  {
    hide Value, Ten, Pow10, Align;
    Aligned(a, b);
    var (x, y, scale) := Align(a, b);
    SameOrder(Value(a), Value(b), Ten(scale));
    RealOrder(x, y);
  }

  lemma RealOrder(x: int, y: int)
    ensures x < y <==> x as real < y as real
    ensures x == y <==> x as real == y as real
  {
  }

  lemma SameOrder(a: real, b: real, p: real)
    requires p > 0.0
    ensures a < b <==> a * p < b * p
    ensures a == b <==> a * p == b * p
  {
    Distribute(a, b, p);
    if a < b { assert (b - a) * p > 0.0; }
    if a > b { assert (a - b) * p > 0.0; }
  }

  /** Multiplication is exact exactly when the scales add up to no more than the largest, or the product is
      zero; past that the coefficient is kept and the scale is not, and the value is too large by a power of
      ten. */
  lemma MulExact(a: Decimal, b: Decimal)
    ensures Value(Mul(a, b)) == Value(a) * Value(b) <==> a.scale + b.scale <= MAX_SCALE || a.c * b.c == 0
    ensures a.scale + b.scale > MAX_SCALE ==>
      Value(Mul(a, b)) == Value(a) * Value(b) * Pow10(a.scale + b.scale - MAX_SCALE) as real
  {
    hide Value, Pow10;
    var sum, c := a.scale + b.scale, a.c * b.c;
    ProductValue(a, b);
    if sum > MAX_SCALE {
      ValueAtScale(c, sum, MAX_SCALE);
      AtLeastTen(sum - MAX_SCALE);
      NotItself(Value(Decimal(c, sum)), Pow10(sum - MAX_SCALE) as real);
      ZeroValue(c, sum);
    }
  }

  lemma ProductValue(a: Decimal, b: Decimal)
    ensures Value(a) * Value(b) == Value(Decimal(a.c * b.c, a.scale + b.scale))
  {
    hide Ten;
    TenAdd(a.scale, b.scale);
    ProductOfQuotients(a.c as real, b.c as real, Ten(a.scale), Ten(b.scale));
    RealProduct(a.c, b.c);
  }

  lemma RealProduct(x: int, y: int)
    ensures (x * y) as real == (x as real) * (y as real)
  {
  }

  /** The same coefficient at a smaller scale is a larger number. */
  lemma ValueAtScale(c: int, scale: int, less: int)
    requires less <= scale
    ensures Value(Decimal(c, less)) == Value(Decimal(c, scale)) * Pow10(scale - less) as real
  {
    hide *;
    ValueIs(Decimal(c, less));
    ValueIs(Decimal(c, scale));
    TenAdd(scale - less, less);
    TenNat(scale - less);
    ShrinkScale(c as real, Pow10(scale - less) as real, Ten(less), Ten(scale));
  }

  lemma ProductOfQuotients(x: real, y: real, p: real, q: real)
    requires p > 0.0 && q > 0.0
    ensures (x / p) * (y / q) == (x * y) / (p * q)
  {
    var u, v := x / p, y / q;
    assert u * p == x && v * q == y;
    assert (u * v) * (p * q) == (u * p) * (v * q);
    DivideOut(u * v, p * q, x * y);
  }

  lemma ShrinkScale(c: real, k: real, p: real, kp: real)
    requires k > 0.0 && p > 0.0 && kp == k * p && kp > 0.0
    ensures c / p == (c / kp) * k
  {
    var v := c / kp;
    assert v * kp == c;
    assert (v * k) * p == v * (k * p);
    DivideOut(v * k, p, c);
  }

  lemma AtLeastTen(k: nat)
    requires k > 0
    ensures Pow10(k) >= 10
  {
  }

  lemma NotItself(v: real, k: real)
    requires k >= 10.0
    ensures v * k == v <==> v == 0.0
  {
    if v > 0.0 { assert v * k >= v * 10.0; }
    if v < 0.0 { assert v * k <= v * 10.0; }
  }

  lemma ZeroValue(c: int, scale: int)
    ensures Value(Decimal(c, scale)) == 0.0 <==> c == 0
  {
    hide Ten;
    var p := Ten(scale);
    var v := c as real / p;
    assert v * p == c as real;
  }

  // ---- rounding ------------------------------------------------------------------------------------------------

  /** n / m to the nearest whole number, a half going to the even side. */
  function HalfEven(n: int, m: int): int
    requires m > 0
  {
    var q, rem := Abs(n) / m, Abs(n) % m;
    var r := if 2 * rem > m || (2 * rem == m && q % 2 == 1) then q + 1 else q;
    if n < 0 then -r else r
  }

  /** Something was cut off below a guard digit of 5 that then went down to the even side. */
  predicate LostTie(v: nat, d: int)
    requires d > 0
  {
    v % d != 0 && (v / d) % 10 == 5 && (v / d / 10) % 2 == 0
  }

  lemma DivisionParts(v: nat, d: int)
    requires d > 0
    ensures var g := v / d;
      v / (10 * d) == g / 10 && v % (10 * d) == (g % 10) * d + v % d
  {
    var g, lost := v / d, v % d;
    assert v == d * g + lost;
    assert g == 10 * (g / 10) + g % 10;
    PartsAlgebra(v, d, g / 10, g % 10, lost);
    Uniquely(v, 10 * d, g / 10, (g % 10) * d + lost);
  }

  lemma PartsAlgebra(v: int, d: int, q: int, t: int, lost: int)
    requires v == d * (10 * q + t) + lost && 0 <= t < 10 && 0 <= lost < d
    ensures v == (10 * d) * q + (t * d + lost) && 0 <= t * d + lost < 10 * d
  {
    assert d * (10 * q + t) == (10 * d) * q + t * d;
    assert t * d <= 9 * d by { assert (9 - t) * d >= 0; }
  }

  lemma Uniquely(v: int, m: int, q: int, r: int)
    requires m > 0 && v == m * q + r && 0 <= r < m
    ensures v / m == q && v % m == r
  {
    var q', r' := v / m, v % m;
    FarApart(m, q - q');
    assert m * (q - q') == r' - r;
  }

  lemma FarApart(m: int, k: int)
    requires m > 0
    ensures k != 0 ==> m * k >= m || m * k <= -m
  {
  }

  /** Rounding with one guard digit agrees with rounding outright except in one case, and is never out by more
      than six tenths. */
  lemma GuardDigit(v: nat, d: int)
    requires d > 0
    ensures RoundUnsigned(v / d) == HalfEven(v, 10 * d) <==> !LostTie(v, d)
    ensures -6 * d < 10 * d * RoundUnsigned(v / d) - v < 6 * d
    ensures v % d == 0 ==> -5 * d <= 10 * d * RoundUnsigned(v / d) - v <= 5 * d
  {
    var g, lost := v / d, v % d;
    var q, t := g / 10, g % 10;
    DivisionParts(v, d);
    Whole(v, d);
    GuardCases(d, t, lost, q % 2 == 1);
    OneMore(d, q);
  }

  lemma Whole(v: nat, d: int)
    requires d > 0
    ensures v == 10 * d * (v / d / 10) + ((v / d % 10) * d + v % d)
  {
    var g, lost := v / d, v % d;
    assert v == d * g + lost;
    PartsAlgebra(v, d, g / 10, g % 10, lost);
  }

  lemma OneMore(d: int, q: int)
    ensures 10 * d * (q + 1) == 10 * d * q + 10 * d
  {
  }

  lemma GuardCases(d: int, t: nat, lost: nat, odd: bool)
    requires d > 0 && t < 10 && lost < d
    ensures var up := t > 5 || (t == 5 && odd);
      var outright := 2 * (t * d + lost) > 10 * d || (2 * (t * d + lost) == 10 * d && odd);
      && (up == outright <==> !(lost != 0 && t == 5 && !odd))
      && (up ==> 10 * d - (t * d + lost) < 6 * d && t * d + lost - 10 * d < 6 * d && 10 * d - (t * d + lost) <= 5 * d)
      && (!up ==> t * d + lost < 6 * d && (lost == 0 ==> t * d + lost <= 5 * d))
  {
    if t <= 4 {
      TimesAtMost(t, 4, d);
    } else if t == 5 {
      assert t * d == 5 * d;
    } else {
      TimesAtMost(6, t, d);
    }
    TimesAtMost(t, 9, d);
  }

  lemma TimesAtMost(a: int, b: int, d: int)
    requires a <= b && d > 0
    ensures a * d <= b * d
  {
    assert (b - a) * d >= 0;
  }

  /** Truncating twice is truncating once. */
  lemma QuotTwice(n: int, p: int, q: int)
    requires p > 0 && q != 0
    ensures Quot(Quot(n, p), q) == Quot(n, p * q)
  {
    var v, d := Abs(n), Abs(q);
    AbsProduct(p, q);
    SignOfProduct(p, q);
    TwiceUnsigned(v, p, d);
    QuotAbs(n, p * q);
    QuotAbs(n, p);
    QuotAbs(Quot(n, p), q);
    QuotSign(n, p);
    hide Quot;
  }

  lemma AbsProduct(p: int, q: int)
    requires p > 0
    ensures Abs(p * q) == p * Abs(q) && (q != 0 ==> p * q != 0)
  {
    if q > 0 { assert p * q > 0; } else if q < 0 { assert p * -q > 0; SignedProduct(p, q); }
  }

  lemma SignOfProduct(p: int, q: int)
    requires p > 0 && q != 0
    ensures p * q != 0 && (p * q < 0 <==> q < 0)
  {
    if q > 0 { assert p * q > 0; } else { assert p * -q > 0; SignedProduct(p, q); }
  }

  lemma QuotAbs(n: int, d: int)
    requires d != 0
    ensures Abs(Quot(n, d)) == Share(Abs(n), Abs(d))
    ensures var q: int := Share(Abs(n), Abs(d)); Quot(n, d) == if (n < 0) == (d < 0) then q else -q
  {
  }

  function Share(v: nat, d: nat): nat
    requires d > 0
  {
    v / d
  }

  lemma QuotSign(n: int, d: int)
    requires d > 0
    ensures Quot(n, d) != 0 ==> (Quot(n, d) < 0 <==> n < 0)
  {
    QuotAbs(n, d);
    hide Quot, Share;
  }

  lemma TwiceUnsigned(v: nat, p: int, d: int)
    requires p > 0 && d > 0
    ensures v / p / d == v / (p * d)
  {
    var a, r := v / p, v % p;
    var b, s := a / d, a % d;
    assert v == p * a + r && a == d * b + s;
    TwiceAlgebra(v, p, d, a, r, b, s);
    Uniquely(v, p * d, b, p * s + r);
  }

  lemma TwiceAlgebra(v: int, p: int, d: int, a: int, r: int, b: int, s: int)
    requires v == p * a + r && a == d * b + s && 0 <= r < p && 0 <= s < d
    ensures v == (p * d) * b + (p * s + r) && 0 <= p * s + r < p * d && p * d > 0
  {
    Spread(p, d * b, s);
    MulAssoc(p, d, b);
    TimesAtMost(s + 1, d, p);
    TimesAtMost(0, s, p);
    Spread(p, s, 1);
  }

  lemma Spread(p: int, x: int, y: int)
    ensures p * (x + y) == p * x + p * y && p * x == x * p && p * (x + y) == (x + y) * p
  {
  }

  /** What the quotient n / d, truncated and with its last digit rounded off, has to do with n / (10 d). */
  lemma RoundedQuotient(n: int, d: int)
    requires d != 0
    ensures var r := RoundHalfEven(Quot(n, d));
      && Abs(r) == RoundUnsigned(Share(Abs(n), Abs(d))) && (r != 0 ==> (r < 0 <==> (n < 0) != (d < 0)))
  {
    QuotAbs(n, d);
    hide Quot, Share;
  }

  /** The exact quotient, ten times over, as a fraction: what division rounds. */
  function Fraction(a: Decimal, b: Decimal, target: int): (int, int) {
    var shift := target - a.scale + b.scale + 1;
    (a.c * Up(shift), Up(-shift) * b.c)
  }

  function Up(shift: int): (r: int)
    ensures r > 0
  {
    if shift >= 0 then Pow10(shift) else 1
  }

  lemma DivIsRounded(a: Decimal, b: Decimal, scale: Option<int>)
    requires b.c != 0 && Target(a, b, scale) <= MAX_SCALE
    ensures var (n, d) := Fraction(a, b, Target(a, b, scale));
      d != 0 && Div(a, b, scale) == Ok(Decimal(RoundHalfEven(Quot(n, d)), Target(a, b, scale)))
  {
    var shift := Target(a, b, scale) - a.scale + b.scale + 1;
    assert Pow10(0) == 1;
    SignOfProduct(Up(-shift), b.c);
    if shift < 0 { QuotTwice(a.c, Pow10(-shift), b.c); }
  }

  /** Ten times the value of the exact quotient in units of the target's last place is n / d. */
  lemma FractionMeans(a: Decimal, b: Decimal, target: int)
    requires b.c != 0
    ensures var (n, d) := Fraction(a, b, target);
      d != 0 && Value(b) != 0.0
      && n as real / d as real == 10.0 * Ten(target) * (Value(a) / Value(b))
  {
    hide *;
    var shift := target - a.scale + b.scale + 1;
    ZeroValue(b.c, b.scale);
    ValueIs(a);
    ValueIs(b);
    FractionIs(a, b, target);
    ShiftBalances(a.scale, b.scale, target);
    var (n, d) := Fraction(a, b, target);
    FractionAlgebra(a.c as real, b.c as real, Ten(a.scale), Ten(b.scale), Ten(target), Up(shift) as real, Up(-shift) as real,
                    Value(a), Value(b), n as real, d as real);
  }

  lemma ValueIs(d: Decimal)
    ensures Value(d) == d.c as real / Ten(d.scale)
  {
  }

  lemma FractionIs(a: Decimal, b: Decimal, target: int)
    requires b.c != 0
    ensures var (n, d) := Fraction(a, b, target);
      var shift := target - a.scale + b.scale + 1;
      && d != 0 && n as real == (a.c as real) * (Up(shift) as real) && d as real == (Up(-shift) as real) * (b.c as real)
  {
    hide Up;
    var shift := target - a.scale + b.scale + 1;
    SignOfProduct(Up(-shift), b.c);
    RealProduct(a.c, Up(shift));
    RealProduct(Up(-shift), b.c);
  }

  /** The shift puts the numerator one digit beyond the target. */
  lemma ShiftBalances(sa: int, sb: int, target: int)
    ensures var shift := target - sa + sb + 1;
      (Up(shift) as real) * Ten(sa) == (Up(-shift) as real) * (10.0 * Ten(target) * Ten(sb))
  {
    hide *;
    var shift := target - sa + sb + 1;
    TenAdd(target, sb);
    TenNext(target + sb);
    Tens(Ten(target), Ten(sb));
    UpIs(shift);
    UpIs(-shift);
    if shift >= 0 {
      TenAdd(shift, sa);
    } else {
      TenAdd(-shift, target + sb + 1);
    }
  }

  lemma UpIs(shift: int)
    ensures shift >= 0 ==> Up(shift) as real == Ten(shift)
    ensures shift <= 0 ==> Up(shift) == 1
  {
  }

  lemma Pow10Next(n: nat)
    ensures Pow10(n + 1) == 10 * Pow10(n)
  {
  }

  lemma UpNone(shift: int)
    requires shift <= 0
    ensures Up(shift) == 1
  {
  }

  lemma FractionAlgebra(x: real, y: real, pa: real, pb: real, pt: real, up: real, down: real, u: real, v: real, n: real, d: real)
    requires pa > 0.0 && pb > 0.0 && pt > 0.0 && up > 0.0 && down > 0.0 && y != 0.0 && v != 0.0
    requires u == x / pa && v == y / pb && n == x * up && d == down * y
    requires up * pa == down * (10.0 * pt * pb)
    ensures d != 0.0 && n / d == 10.0 * pt * (u / v)
  {
    assert u * pa == x && v * pb == y;
    var w := u / v;
    assert w * v == u;
    NonZero(down, y);
    Rearranged(w, v, u, pa, pb, pt, up, down, x, y);
    DivideOutAny(10.0 * pt * w, d, n);
  }

  lemma NonZero(a: real, b: real)
    requires a > 0.0 && b != 0.0
    ensures a * b != 0.0
  {
  }

  lemma Rearranged(w: real, v: real, u: real, pa: real, pb: real, pt: real, up: real, down: real, x: real, y: real)
    requires w * v == u && u * pa == x && v * pb == y && up * pa == down * (10.0 * pt * pb)
    ensures (10.0 * pt * w) * (down * y) == x * up
  {
    var k := 10.0 * pt;
    calc {
      (k * w) * (down * y);
      (k * w) * (down * (v * pb));
      { Shuffle(k, w, down, v, pb); }
      (w * v) * (down * (k * pb));
      u * (up * pa);
      (u * pa) * up;
    }
  }

  lemma Shuffle(k: real, w: real, down: real, v: real, pb: real)
    ensures (k * w) * (down * (v * pb)) == (w * v) * (down * (k * pb))
  {
    var a := k * w;
    assert a * (down * (v * pb)) == (a * v) * (down * pb);
    assert a * v == (w * v) * k;
    assert ((w * v) * k) * (down * pb) == (w * v) * (down * (k * pb));
  }

  lemma DivideOutAny(v: real, p: real, c: real)
    requires p != 0.0 && v * p == c
    ensures c / p == v
  {
  }

  /** Two numbers at most so many tenths of the last place apart, at a scale. */
  ghost predicate Within(x: real, y: real, tenths: real, scale: int) {
    -tenths < 10.0 * Ten(scale) * (x - y) < tenths
  }

  /** What is known of the sizes is known of the signed numbers. */
  lemma SizesToValues(r: int, n: int, d: int)
    requires d != 0 && -6 * Abs(d) < 10 * Abs(d) * Abs(r) - Abs(n) < 6 * Abs(d)
    requires r != 0 ==> (r < 0 <==> (n < 0) != (d < 0))
    ensures -6.0 < 10.0 * r as real - n as real / d as real < 6.0
  {
    hide *;
    var q := n as real / d as real;
    var size := Abs(n) as real / Abs(d) as real;
    AbsPositive(d);
    Divided(n as real, d as real);
    Divided(Abs(n) as real, Abs(d) as real);
    TenTimesSize(Abs(d), Abs(r));
    SizesBound(Abs(d) as real, Abs(r) as real, Abs(n) as real, size);
    SignedSize(n, d, q, size);
    AbsIs(r);
  }

  lemma AbsPositive(d: int)
    requires d != 0
    ensures Abs(d) > 0
  {
  }

  lemma AbsIs(r: int)
    ensures Abs(r) == if r < 0 then -r else r
  {
  }

  lemma Divided(x: real, y: real)
    requires y != 0.0
    ensures (x / y) * y == x
  {
  }

  lemma TenTimesSize(u: int, v: int)
    ensures (10 * u * v) as real == 10.0 * u as real * v as real
  {
    RealProduct(10 * u, v);
    RealProduct(10, u);
  }

  lemma SizesBound(u: real, v: real, w: real, size: real)
    requires u > 0.0 && size * u == w && -6.0 * u < 10.0 * u * v - w < 6.0 * u
    ensures -6.0 < 10.0 * v - size < 6.0
  {
    var t := 10.0 * v - size;
    assert t * u == 10.0 * u * v - w;
    SmallerFactor(-6.0, t, u);
    SmallerFactor(t, 6.0, u);
  }

  lemma SmallerFactor(x: real, y: real, u: real)
    requires u > 0.0 && x * u < y * u
    ensures x < y
  {
    assert (y - x) * u > 0.0;
  }

  lemma SignedSize(n: int, d: int, q: real, size: real)
    requires d != 0 && q * d as real == n as real && size * Abs(d) as real == Abs(n) as real
    ensures q == if (n < 0) != (d < 0) then -size else size
  {
    hide *;
    AbsIs(n);
    AbsIs(d);
    var s := if (n < 0) != (d < 0) then -size else size;
    assert s * d as real == n as real;
    DivideOutAny(q, d as real, n as real);
    DivideOutAny(s, d as real, n as real);
  }

  /** A coefficient near a tenth of n / d makes a number near x, when n / d is ten times x in units of the
      last place. */
  lemma CloseEnough(r: Decimal, x: real, n: int, d: int)
    requires d != 0 && n as real / d as real == 10.0 * Ten(r.scale) * x
    requires -6 * Abs(d) < 10 * Abs(d) * Abs(r.c) - Abs(n) < 6 * Abs(d)
    requires r.c != 0 ==> (r.c < 0 <==> (n < 0) != (d < 0))
    ensures Within(Value(r), x, 6.0, r.scale)
  {
    hide *;
    SizesToValues(r.c, n, d);
    OwnUnits(r);
    UnitsApart(Ten(r.scale), Value(r), x, r.c as real, n as real / d as real);
    WithinIs(Value(r), x, 6.0, r.scale);
  }

  /** Division, at the scale asked for or the one it chooses: it fails exactly on zero and on a scale too large,
      and otherwise is within six tenths of the last place of the exact quotient, whatever the signs and the
      scales; exactly rounded half to even, unless a tail was cut off below a guard digit of 5 that went down. */
  lemma DivRounds(a: Decimal, b: Decimal, scale: Option<int>)
    ensures var target := Target(a, b, scale);
      var (n, d) := Fraction(a, b, target);
      && (Div(a, b, scale).Ok? <==> b.c != 0 && target <= MAX_SCALE)
      && (Div(a, b, scale).Ok? ==>
            var r := Div(a, b, scale).value;
            && r.scale == target && d != 0 && Value(b) != 0.0
            && Within(Value(r), Value(a) / Value(b), 6.0, target)
            && (r.c != 0 ==> (r.c < 0 <==> (n < 0) != (d < 0)))
            && (Abs(r.c) == HalfEven(Abs(n), 10 * Abs(d)) <==> !LostTie(Abs(n), Abs(d))))
  {
    if b.c != 0 && Target(a, b, scale) <= MAX_SCALE {
      var target := Target(a, b, scale);
      var (n, d) := Fraction(a, b, target);
      hide *;
      DivIsRounded(a, b, scale);
      FractionMeans(a, b, target);
      RoundedQuotient(n, d);
      GuardDigit(Abs(n), Abs(d));
      var r := Div(a, b, scale).value;
      CloseEnough(r, Value(a) / Value(b), n, d);
    } else {
      hide Fraction, Pow10, RoundHalfEven, Quot, Value, HalfEven, LostTie;
    }
  }

  /** A decimal counts its own last place. */
  lemma OwnUnits(d: Decimal)
    ensures Value(d) * Ten(d.scale) == d.c as real
  {
    hide Ten;
  }

  lemma UnitsApart(ten: real, x: real, y: real, c: real, q: real)
    requires x * ten == c && q == 10.0 * ten * y && -6.0 < 10.0 * c - q < 6.0
    ensures -6.0 < 10.0 * ten * (x - y) < 6.0
  {
    assert 10.0 * ten * (x - y) == 10.0 * (x * ten) - 10.0 * ten * y;
  }

  /** Rounding to a smaller scale, tens and hundreds included, likewise. */
  lemma RescaleRounds(x: Decimal, scale: int)
    requires scale < x.scale
    ensures var d := Pow10(x.scale - scale - 1);
      var r := Rescale(x, scale);
      && r.scale == scale && Within(Value(r), Value(x), 6.0, scale) && (r.c != 0 ==> (r.c < 0 <==> x.c < 0))
      && (r.c == HalfEven(x.c, 10 * d) <==> !LostTie(Abs(x.c), d))
  {
    hide *;
    var d := Pow10(x.scale - scale - 1);
    var r := Rescale(x, scale);
    RescaleParts(x, scale);
    DroppedDigits(x, scale);
    CloseEnough(r, Value(x), x.c, d);
  }

  lemma WithinIs(x: real, y: real, tenths: real, scale: int)
    ensures Within(x, y, tenths, scale) <==> -tenths < 10.0 * Ten(scale) * (x - y) < tenths
  {
    hide Ten;
  }

  lemma RescaleParts(x: Decimal, scale: int)
    requires scale < x.scale
    ensures var d := Pow10(x.scale - scale - 1);
      var r := Rescale(x, scale);
      && r.scale == scale && -6 * Abs(d) < 10 * Abs(d) * Abs(r.c) - Abs(x.c) < 6 * Abs(d)
      && (r.c != 0 ==> (r.c < 0 <==> (x.c < 0) != (d < 0))) && (r.c != 0 ==> (r.c < 0 <==> x.c < 0))
      && (r.c == HalfEven(x.c, 10 * d) <==> !LostTie(Abs(x.c), d))
  {
    var d := Pow10(x.scale - scale - 1);
    RoundedQuotient(x.c, d);
    GuardDigit(Abs(x.c), d);
  }

  lemma DroppedDigits(x: Decimal, scale: int)
    requires scale < x.scale
    ensures x.c as real / Pow10(x.scale - scale - 1) as real == 10.0 * Ten(scale) * Value(x)
  {
    hide Ten, Pow10, Value;
    var k := x.scale - scale - 1;
    OwnUnits(x);
    TenNat(k);
    TenNext(scale);
    TenAdd(k, scale + 1);
    DroppedAlgebra(Value(x), Ten(x.scale), Pow10(k) as real, 10.0 * Ten(scale), x.c as real);
  }

  lemma DroppedAlgebra(v: real, t: real, p: real, u: real, c: real)
    requires p > 0.0 && t == p * u && v * t == c
    ensures c / p == u * v
  {
    assert (u * v) * p == v * (p * u);
    DivideOut(u * v, p, c);
  }

  /** Rounding to a larger scale changes nothing. */
  lemma RescaleUpExact(x: Decimal, scale: int)
    requires scale >= x.scale
    ensures Value(Rescale(x, scale)) == Value(x) && Rescale(x, scale).scale == scale
  {
    NoPlaces();
    hide Value, Ten, Pow10;
    Scaled(x, scale);
    FromScaled(x.c * Pow10(scale - x.scale), scale, Value(x));
  }

  /** 0.251 rounded to one place comes out as 0.2. */
  lemma NotAlwaysHalfEven()
    ensures Rescale(Decimal(251, 3), 1) == Decimal(2, 1) && HalfEven(251, 100) == 3
  {
    assert Pow10(1) == 10 && Quot(251, 10) == 25;
  }
}
