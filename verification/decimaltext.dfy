/** Decimals as text: what the parser accepts and what it makes of it, and the printer it undoes. */
module DecimalText {
  import opened Integers
  import opened Text
  import opened Decimals

  // ---- reading -----------------------------------------------------------------------------------------

  /** White space and line ends, as trimming a string removes them. */
  predicate IsSpace(c: char) {
    var u := c as int;
    9 <= u <= 13 || u == 32 || u == 0xA0 || u == 0x1680 || 0x2000 <= u <= 0x200A || u == 0x2028 || u == 0x2029
    || u == 0x202F || u == 0x205F || u == 0x3000 || u == 0xFEFF
  }

  function Trim(s: string): string
    decreases |s|
  {
    if s == "" then s
    else if IsSpace(s[0]) then Trim(s[1..])
    else if IsSpace(s[|s| - 1]) then Trim(s[..|s| - 1])
    else s
  }

  /** Where the run of digits that starts at i ends. */
  function DigitsEnd(s: string, i: nat): (j: nat)
    requires i <= |s|
    ensures i <= j <= |s| && AllDigits(s[i..j]) && (j < |s| ==> !IsDigit(s[j]))
    decreases |s| - i
  {
    if i == |s| || !IsDigit(s[i]) then i else
      var j := DigitsEnd(s, i + 1);
      assert s[i..j] == [s[i]] + s[i + 1..j];
      j
  }

  datatype Parts = Parts(negative: bool, whole: string, frac: string, exponent: Option<int>) | NotANumber

  predicate IsSign(c: char) {
    c == '+' || c == '-'
  }

  /** A sign, digits, a point and digits, an exponent; all but some digit optional, and nothing else. */
  function Split(s: string): (p: Parts)
    ensures p.Parts? ==> AllDigits(p.whole) && AllDigits(p.frac)
  {
    var i := if s != "" && IsSign(s[0]) then 1 else 0;
    var j := DigitsEnd(s, i);
    var point := j < |s| && s[j] == '.';
    var k := if point then DigitsEnd(s, j + 1) else j;
    var whole, frac := s[i..j], if point then s[j + 1..k] else "";
    if whole == "" && frac == "" then NotANumber
    else if k == |s| then Parts(s[0] == '-', whole, frac, None)
    else if s[k] != 'e' && s[k] != 'E' then NotANumber
    else
      var m := if k + 1 < |s| && IsSign(s[k + 1]) then k + 2 else k + 1;
      var n := DigitsEnd(s, m);
      if m == n || n < |s| then NotANumber
      else
        var e: int := Number(s[m..n]);
        Parts(s[0] == '-', whole, frac, Some(if s[k + 1] == '-' then -e else e))
  }

  function Build(negative: bool, whole: string, frac: string, exponent: Option<int>): Result<Decimal>
    requires AllDigits(whole) && AllDigits(frac)
  {
    assert AllDigits((if whole == "" then "0" else whole) + frac);
    var scale, coefficient := |frac|, Number((if whole == "" then "0" else whole) + frac);
    var e := if exponent.Some? then exponent.value else 0;
    var c: int := if e > scale then coefficient * Pow10(e - scale) else coefficient;
    var scale' := if e > scale then 0 else scale - e;
    if scale' > MAX_SCALE then Err(ValueError) else Ok(Decimal(if negative then -c else c, scale'))
  }

  function Parse(text: string): Result<Decimal> {
    match Split(Trim(text))
    case NotANumber => Err(ValueError)
    case Parts(negative, whole, frac, exponent) => Build(negative, whole, frac, exponent)
  }

  // ---- writing ------------------------------------------------------------------------------------------

  function Zeros(n: nat): (s: string)
    ensures |s| == n && AllDigits(s)
  {
    seq(n, _ => '0')
  }

  /** The digits, with zeros in front if there are not more of them than places. */
  function Padded(v: nat, scale: nat): (s: string)
    ensures |s| > scale && AllDigits(s)
  {
    var digits := Digits(v);
    if |digits| <= scale then Zeros(scale + 1 - |digits|) + digits else digits
  }

  /** At a scale below zero all the digits stand before the point and none after it. */
  function Show(d: Decimal): string {
    var sign := if d.c < 0 then "-" else "";
    var v := if d.c < 0 then -d.c else d.c;
    if d.scale == 0 then sign + Digits(v)
    else if d.scale < 0 then sign + Digits(v) + "."
    else
      var digits := Padded(v, d.scale);
      var at := |digits| - d.scale;
      sign + digits[..at] + "." + digits[at..]
  }

  // ---- the parser undoes the printer -----------------------------------------------------------------------

  lemma {:induction false} NumberJoin(a: string, b: string)
    requires AllDigits(a) && AllDigits(b)
    ensures AllDigits(a + b) && Number(a + b) == Number(a) * Pow10(|b|) + Number(b)
    decreases |b|
  {
    if b == "" {
      assert a + b == a && Pow10(0) == 1;
    } else {
      var n := |b| - 1;
      NumberJoin(a, b[..n]);
      LastDigit(a + b);
      LastDigit(b);
      assert (a + b)[..|a + b| - 1] == a + b[..n];
      Pow10Next(n);
      hide Number, Pow10;
      StepDigit(Number(a), Pow10(n), Number(b[..n]), DigitValue(b[n]));
    }
  }

  lemma LastDigit(s: string)
    requires s != "" && AllDigits(s)
    ensures Number(s) == 10 * Number(s[..|s| - 1]) + DigitValue(s[|s| - 1])
  {
  }

  lemma StepDigit(x: int, p: int, y: int, d: int)
    ensures 10 * (x * p + y) + d == x * (10 * p) + (10 * y + d)
  {
  }

  lemma {:induction false} NumberZeros(n: nat)
    ensures Number(Zeros(n)) == 0
    decreases n
  {
    if n > 0 {
      assert Zeros(n)[..n - 1] == Zeros(n - 1);
      NumberZeros(n - 1);
    }
  }

  lemma PaddedNumber(v: nat, scale: nat)
    ensures Number(Padded(v, scale)) == v
  {
    hide Number, Digits, Pow10;
    NumberOfDigits(v);
    var digits := Digits(v);
    if |digits| <= scale {
      NumberJoin(Zeros(scale + 1 - |digits|), digits);
      NumberZeros(scale + 1 - |digits|);
    }
  }

  /** A run of digits is read whole, up to something that is not one. */
  lemma {:induction false} DigitsRead(a: string, ds: string, rest: string, i: nat)
    requires AllDigits(ds) && (rest != "" ==> !IsDigit(rest[0])) && i <= |ds|
    ensures DigitsEnd(a + ds + rest, |a| + i) == |a| + |ds|
    decreases |ds| - i
  {
    var s := a + ds + rest;
    if i < |ds| {
      assert s[|a| + i] == ds[i];
      DigitsRead(a, ds, rest, i + 1);
    } else if rest != "" {
      assert s[|a| + i] == rest[0];
    }
  }

  lemma NoTrim(s: string)
    requires s != "" && !IsSpace(s[0]) && !IsSpace(s[|s| - 1])
    ensures Trim(s) == s
  {
  }

  lemma SplitPlain(sign: string, whole: string, frac: string, point: bool)
    requires (sign == "" || sign == "-") && AllDigits(whole) && AllDigits(frac) && whole != "" && (!point ==> frac == "")
    ensures var s := sign + whole + (if point then "." + frac else "");
      Split(s) == Parts(sign == "-", whole, frac, None)
  {
    hide DigitsEnd, Number;
    var rest := if point then "." + frac else "";
    var s := sign + whole + rest;
    assert IsDigit(whole[0]);
    assert s[0] == if sign == "-" then '-' else whole[0];
    DigitsRead(sign, whole, rest, 0);
    var j := |sign| + |whole|;
    assert s[|sign|..j] == whole;
    if point {
      assert s[j] == '.';
      assert s == (sign + whole + ".") + frac + "";
      DigitsRead(sign + whole + ".", frac, "", 0);
      assert s[j + 1..|s|] == frac;
    }
  }

  lemma Edges(sign: string, whole: string, frac: string, point: bool)
    requires (sign == "" || sign == "-") && AllDigits(whole) && AllDigits(frac) && whole != "" && (!point ==> frac == "")
    ensures var s := sign + whole + (if point then "." + frac else "");
      s != "" && !IsSpace(s[0]) && !IsSpace(s[|s| - 1])
  {
    var s := sign + whole + (if point then "." + frac else "");
    assert IsDigit(whole[0]) && IsDigit(whole[|whole| - 1]);
    assert s[0] == if sign == "-" then '-' else whole[0];
    if !point {
      assert s[|s| - 1] == whole[|whole| - 1];
    } else if frac == "" {
      assert s[|s| - 1] == '.';
    } else {
      assert IsDigit(frac[|frac| - 1]) && s[|s| - 1] == frac[|frac| - 1];
    }
  }

  lemma ShowForm(d: Decimal) returns (sign: string, whole: string, frac: string)
    requires d.scale >= 0
    ensures sign == (if d.c < 0 then "-" else "") && whole != "" && AllDigits(whole) && AllDigits(frac) && |frac| == d.scale
    ensures AllDigits(whole + frac) && Number(whole + frac) == (if d.c < 0 then -d.c else d.c)
    ensures Show(d) == sign + whole + if d.scale > 0 then "." + frac else ""
  {
    hide Pow10, Number, Digits, Padded;
    sign := if d.c < 0 then "-" else "";
    var v: nat := if d.c < 0 then -d.c else d.c;
    if d.scale == 0 {
      NumberOfDigits(v);
      whole, frac := Digits(v), "";
      assert whole + frac == whole;
    } else {
      PaddedNumber(v, d.scale);
      var digits := Padded(v, d.scale);
      var at := |digits| - d.scale;
      whole, frac := digits[..at], digits[at..];
      assert digits == whole + frac;
    }
  }

  /** Printing and parsing gives back the same coefficient at the same scale exactly when the scale is one a
      decimal can be written at. Past the largest scale the text is refused; below zero the text has lost its
      zeros, and reads as a smaller number. */
  lemma ParseShow(d: Decimal)
    ensures Parse(Show(d)) == Ok(d) <==> 0 <= d.scale <= MAX_SCALE
    ensures d.scale > MAX_SCALE ==> Parse(Show(d)) == Err(ValueError)
    ensures d.scale < 0 ==> Parse(Show(d)) == Ok(Decimal(d.c, 0))
  {
    hide Split, Trim, Pow10, Number, Build, Show, AllDigits;
    var sign, whole, frac;
    if d.scale >= 0 {
      sign, whole, frac := ShowForm(d);
    } else {
      sign, whole, frac := ShowRound(d);
    }
    assert d.scale == 0 ==> frac == "";
    Edges(sign, whole, frac, d.scale != 0);
    NoTrim(Show(d));
    SplitPlain(sign, whole, frac, d.scale != 0);
    BuildPlain(d.c < 0, whole, frac);
  }

  lemma ShowRound(d: Decimal) returns (sign: string, whole: string, frac: string)
    requires d.scale < 0
    ensures sign == (if d.c < 0 then "-" else "") && whole != "" && AllDigits(whole) && AllDigits(frac) && frac == ""
    ensures AllDigits(whole + frac) && Number(whole + frac) == (if d.c < 0 then -d.c else d.c)
    ensures Show(d) == sign + whole + ("." + frac)
  {
    hide Pow10, Number, Digits;
    sign := if d.c < 0 then "-" else "";
    var v: nat := if d.c < 0 then -d.c else d.c;
    NumberOfDigits(v);
    whole, frac := Digits(v), "";
    assert whole + frac == whole && "." + frac == ".";
  }

  lemma BuildPlain(negative: bool, whole: string, frac: string)
    requires AllDigits(whole) && AllDigits(frac) && whole != ""
    ensures AllDigits(whole + frac)
    ensures var v: int := Number(whole + frac);
      Build(negative, whole, frac, None)
        == if |frac| > MAX_SCALE then Err(ValueError) else Ok(Decimal(if negative then -v else v, |frac|))
  {
    hide Number, Pow10;
  }

  // ---- parsing is exact --------------------------------------------------------------------------------------

  /** The number that digits with `scale` of them after the point, and an exponent, are written for. */
  ghost function Written(c: int, scale: nat, e: int): real {
    (c * Up(e)) as real / (Pow10(scale) * Up(-e)) as real
  }

  /** Whatever the exponent does to the coefficient and the scale, the number is the one written. */
  lemma BuildExact(negative: bool, whole: string, frac: string, exponent: Option<int>)
    requires AllDigits(whole) && AllDigits(frac)
    ensures AllDigits(whole + frac)
    ensures var r := Build(negative, whole, frac, exponent);
      var e := if exponent.Some? then exponent.value else 0;
      var v: int := Number(whole + frac);
      && (r.Err? <==> |frac| - e > MAX_SCALE)
      && (r.Ok? ==> Value(r.value) == Written(if negative then -v else v, |frac|, e))
  {
    hide Number, Pow10, Written, Value;
    var scale, e := |frac|, if exponent.Some? then exponent.value else 0;
    LeadingZero(whole, frac);
    var r := Build(negative, whole, frac, exponent);
    var v: int := Number(whole + frac);
    if r.Ok? {
      if e > scale { SignedProduct(Pow10(e - scale), v); }
      BuiltExact(if negative then -v else v, scale, e, r.value);
    }
  }

  lemma BuiltExact(c: int, scale: nat, e: int, d: Decimal)
    requires d.scale == (if e > scale then 0 else scale - e) && d.scale >= 0
    requires d.c == if e > scale then Pow10(e - scale) * c else c
    ensures Value(d) == Written(c, scale, e)
  {
    assert Pow10(0) == 1;
    TenNat(d.scale);
    hide Pow10, Ten;
    if e > scale {
      Pow10Add(e - scale, scale);
      UpNone(-e);
      Moved(c, Pow10(e - scale), Pow10(scale));
    } else if e >= 0 {
      Pow10Add(scale - e, e);
      UpNone(-e);
      Moved(c, Pow10(scale - e), Pow10(e));
    } else {
      Pow10Add(scale, -e);
      UpNone(e);
    }
    ProductPositive(Pow10(scale), Up(-e));
    CrossEqual(d.c, Pow10(d.scale), c * Up(e), Pow10(scale) * Up(-e));
  }

  lemma Moved(c: int, x: int, y: int)
    ensures (x * c) * (y * 1) == (c * (x * y)) * 1 && c * ((x * y) * 1) == (c * y) * x
  {
  }

  lemma ProductPositive(x: int, y: int)
    requires x > 0 && y > 0
    ensures x * y > 0
  {
  }

  lemma CrossEqual(x: int, y: int, x': int, y': int)
    requires y > 0 && y' > 0 && x * y' == x' * y
    ensures x as real / y as real == x' as real / y' as real
  {
    RealProduct(x, y');
    RealProduct(x', y);
    Crossed(x as real, y as real, x' as real, y' as real);
  }

  lemma Crossed(x: real, y: real, x': real, y': real)
    requires y > 0.0 && y' > 0.0 && x * y' == x' * y
    ensures x / y == x' / y'
  {
    var q := x' / y';
    assert q * y' == x';
    assert (q * y) * y' == x * y';
    Same(q * y, x, y');
    DivideOut(q, y, x);
  }

  lemma Same(a: real, b: real, k: real)
    requires k > 0.0 && a * k == b * k
    ensures a == b
  {
    assert (a - b) * k == 0.0;
  }

  lemma LeadingZero(whole: string, frac: string)
    requires AllDigits(whole) && AllDigits(frac) && AllDigits(whole + frac) && AllDigits((if whole == "" then "0" else whole) + frac)
    ensures Number((if whole == "" then "0" else whole) + frac) == Number(whole + frac)
  {
    hide Number, Pow10;
    if whole == "" {
      assert "" + frac == frac;
      ZeroInFront(frac);
    }
  }

  lemma ZeroInFront(frac: string)
    requires AllDigits(frac) && AllDigits("0" + frac)
    ensures Number("0" + frac) == Number(frac)
  {
    hide Number, Pow10;
    ZeroDigit();
    NumberJoin("0", frac);
    ZeroTimes(Number("0"), Pow10(|frac|));
  }

  lemma ZeroTimes(x: int, p: int)
    requires x == 0
    ensures x * p == 0
  {
  }

  lemma ZeroDigit()
    ensures Number("0") == 0
  {
    LastDigit("0");
    assert "0"[..0] == "" && Number("") == 0;
  }
}
