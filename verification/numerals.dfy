/** Which texts are decimals: exactly the numerals, with white space around them, each read as the number it is
    written for. */
module Numerals {
  import opened Text
  import opened Decimals
  import opened DecimalText

  /** `e` or `E`, a sign or none, digits. */
  datatype Power = Power(mark: char, sign: string, digits: string)

  /** A sign or none, digits, perhaps a point and digits, perhaps a power of ten. */
  datatype Numeral = Numeral(sign: string, whole: string, frac: Option<string>, power: Option<Power>)

  predicate SignText(s: string) {
    s == "" || s == "+" || s == "-"
  }

  predicate PowerFormed(p: Power) {
    (p.mark == 'e' || p.mark == 'E') && SignText(p.sign) && p.digits != "" && AllDigits(p.digits)
  }

  predicate Formed(n: Numeral) {
    && SignText(n.sign) && AllDigits(n.whole) && AllDigits(Places(n))
    && (n.whole != "" || Places(n) != "")
    && (n.power.Some? ==> PowerFormed(n.power.value))
  }

  /** The digits after the point. */
  function Places(n: Numeral): string {
    if n.frac.Some? then n.frac.value else ""
  }

  function PointText(frac: Option<string>): string {
    if frac.Some? then "." + frac.value else ""
  }

  function PowerText(power: Option<Power>): string {
    if power.Some? then [power.value.mark] + power.value.sign + power.value.digits else ""
  }

  function Spelled(n: Numeral): string {
    n.sign + n.whole + PointText(n.frac) + PowerText(n.power)
  }

  ghost function Exponent(n: Numeral): int
    requires Formed(n)
  {
    if n.power.None? then 0 else
      var e: int := Number(n.power.value.digits);
      if n.power.value.sign == "-" then -e else e
  }

  // ---- a numeral is split into its parts --------------------------------------------------------------

  /** Where the parts of its text end: the sign, the whole digits, the places. */
  function WholeStart(n: Numeral): nat {
    |n.sign|
  }

  function WholeEnd(n: Numeral): nat {
    |n.sign| + |n.whole|
  }

  function PlacesEnd(n: Numeral): nat {
    WholeEnd(n) + |PointText(n.frac)|
  }

  lemma WholeRead(n: Numeral)
    requires Formed(n)
    ensures var s, j := Spelled(n), WholeEnd(n);
      && j <= |s| && DigitsEnd(s, WholeStart(n)) == j && s[WholeStart(n)..j] == n.whole
      && ((j < |s| && s[j] == '.') <==> n.frac.Some?)
  {
    hide DigitsEnd, AllDigits, SignText, PowerFormed;
    var rest := PointText(n.frac) + PowerText(n.power);
    NotDigitFirst(n.frac, n.power);
    hide PointText, PowerText, IsDigit;
    Grouped(n.sign, n.whole, PointText(n.frac), PowerText(n.power));
    DigitsRead(n.sign, n.whole, rest, 0);
    Middle(n.sign, n.whole, rest);
    Behind(n.sign + n.whole, rest);
  }

  lemma Grouped(a: string, b: string, c: string, d: string)
    ensures a + b + c + d == a + b + (c + d)
  {
  }

  lemma Behind(a: string, b: string)
    ensures |a + b| == |a| + |b| && (b != "" ==> (a + b)[|a|] == b[0])
  {
  }

  lemma PlacesRead(n: Numeral)
    requires Formed(n) && n.frac.Some?
    ensures var s, j, k := Spelled(n), WholeEnd(n), PlacesEnd(n);
      j < k <= |s| && DigitsEnd(s, j + 1) == k && s[j + 1..k] == n.frac.value
  {
    hide DigitsEnd, AllDigits, PowerText, SignText;
    var front, rest := n.sign + n.whole + ".", PowerText(n.power);
    NotDigitFirst(None, n.power);
    assert "" + rest == rest;
    DigitsRead(front, n.frac.value, rest, 0);
    PointJoin(n.sign + n.whole, n.frac.value, rest);
    Middle(front, n.frac.value, rest);
  }

  lemma PointJoin(a: string, b: string, c: string)
    ensures a + ("." + b) + c == a + "." + b + c
  {
  }

  lemma Middle(a: string, b: string, c: string)
    ensures (a + b + c)[|a|..|a| + |b|] == b
  {
  }

  lemma PowerRead(n: Numeral)
    requires Formed(n) && n.power.Some?
    ensures var s, k, p := Spelled(n), PlacesEnd(n), n.power.value; var m := k + 1 + |p.sign|;
      && k + 1 < |s| && m < |s| && s[k] == p.mark && DigitsEnd(s, m) == |s| && s[m..] == p.digits
      && (IsSign(s[k + 1]) <==> p.sign != "") && (s[k + 1] == '-' <==> p.sign == "-")
  {
    hide DigitsEnd;
    var s, k, p := Spelled(n), PlacesEnd(n), n.power.value;
    var front := n.sign + n.whole + PointText(n.frac);
    var most := front + [p.mark] + p.sign;
    assert s == most + p.digits + "";
    DigitsRead(most, p.digits, "", 0);
    assert IsDigit(p.digits[0]);
    assert s[k] == p.mark;
    assert s[k + 1] == if p.sign == "" then p.digits[0] else p.sign[0];
    assert s[k + 1 + |p.sign|..] == p.digits;
  }

  lemma NoPowerEnds(n: Numeral)
    requires Formed(n)
    ensures |Spelled(n)| == PlacesEnd(n) + |PowerText(n.power)|
    ensures n.frac.None? ==> PlacesEnd(n) == WholeEnd(n)
  {
  }

  lemma SplitEnds(n: Numeral)
    requires Formed(n)
    ensures var p := Split(Spelled(n));
      && p.Parts? && p.negative == (n.sign == "-") && p.whole == n.whole && p.frac == Places(n)
      && (p.exponent.Some? <==> n.power.Some?) && (p.exponent.Some? ==> p.exponent.value == Exponent(n))
  {
    hide DigitsEnd, Number, Spelled, WholeEnd, PlacesEnd, IsDigit;
    var s, i := Spelled(n), |n.sign|;
    FirstChar(n);
    WholeRead(n);
    NoPowerEnds(n);
    assert i == if s != "" && IsSign(s[0]) then 1 else 0;
    if n.frac.Some? { PlacesRead(n); }
    if n.power.Some? {
      PowerRead(n);
      assert s[PlacesEnd(n) + 1 + |n.power.value.sign|..|s|] == n.power.value.digits;
    }
  }

  lemma FirstChar(n: Numeral)
    requires Formed(n)
    ensures var s := Spelled(n); s != "" && (IsSign(s[0]) <==> n.sign != "") && (s[0] == '-' <==> n.sign == "-")
  {
    var s := Spelled(n);
    if n.sign == "" {
      if n.whole != "" {
        assert IsDigit(n.whole[0]) && s[0] == n.whole[0];
      } else {
        assert s[0] == '.';
      }
    }
  }

  lemma NotDigitFirst(frac: Option<string>, power: Option<Power>)
    requires power.Some? ==> PowerFormed(power.value)
    ensures var rest := PointText(frac) + PowerText(power);
      && (rest != "" ==> !IsDigit(rest[0]))
      && ((rest != "" && rest[0] == '.') <==> frac.Some?)
  {
  }

  // ---- and whatever is split is a numeral ---------------------------------------------------------------

  lemma SignPart(s: string, i: nat, j: nat)
    requires i <= j <= |s| && j <= i + 1 && (j == i + 1 ==> IsSign(s[i]))
    ensures SignText(s[i..j])
  {
    if j == i + 1 { assert s[i..j] == [s[i]]; }
  }

  lemma PointPart(s: string, j: nat, k: nat)
    requires j < k <= |s| && s[j] == '.'
    ensures s[..k] == s[..j] + ("." + s[j + 1..k])
  {
  }

  lemma PowerPart(s: string, k: nat, m: nat)
    requires k < m <= |s|
    ensures s == s[..k] + ([s[k]] + s[k + 1..m] + s[m..])
  {
  }

  lemma WholePart(s: string, i: nat, j: nat)
    requires i <= j <= |s|
    ensures s[..i] + s[i..j] == s[..j]
  {
  }

  /** Where the scan has found the parts. */
  ghost predicate Scanned(s: string, i: nat, j: nat, k: nat, m: nat) {
    && i <= j <= k <= m <= |s| && i <= 1 && (i == 1 ==> IsSign(s[0])) && AllDigits(s[i..j])
    && (j < k ==> s[j] == '.' && AllDigits(s[j + 1..k]))
    && (i < j || j + 1 < k)
    && (k < |s| ==> PowerAt(s, k, m))
  }

  ghost predicate PowerAt(s: string, k: nat, m: nat) {
    && k < m < |s| && m <= k + 2 && (s[k] == 'e' || s[k] == 'E') && (m == k + 2 ==> IsSign(s[k + 1]))
    && AllDigits(s[m..])
  }

  lemma SplitScans(s: string) returns (i: nat, j: nat, k: nat, m: nat)
    requires Split(s).Parts?
    ensures Scanned(s, i, j, k, m)
  {
    hide Number, DigitsEnd, AllDigits, IsDigit, IsSign;
    i := if s != "" && IsSign(s[0]) then 1 else 0;
    j := DigitsEnd(s, i);
    var point := j < |s| && s[j] == '.';
    k := if point then DigitsEnd(s, j + 1) else j;
    m := k;
    if k < |s| {
      m := if k + 1 < |s| && IsSign(s[k + 1]) then k + 2 else k + 1;
      assert s[m..DigitsEnd(s, m)] == s[m..];
    }
  }

  lemma SplitIsNumeral(s: string) returns (n: Numeral)
    requires Split(s).Parts?
    ensures Formed(n) && Spelled(n) == s
  {
    hide Split, SignText, AllDigits, IsSign;
    var i, j, k, m := SplitScans(s);
    var frac := if j < k then Some(s[j + 1..k]) else None;
    SignPart(s, 0, i);
    WholePart(s, i, j);
    NoDigits();
    assert s[..k] == s[..i] + s[i..j] + PointText(frac) by { if j < k { PointPart(s, j, k); } else { assert s[..j] + "" == s[..k]; } }
    if k == |s| {
      n := Numeral(s[..i], s[i..j], frac, None);
      assert s[..k] == s && s + "" == s;
    } else {
      SignPart(s, k + 1, m);
      PowerPart(s, k, m);
      n := Numeral(s[..i], s[i..j], frac, Some(Power(s[k], s[k + 1..m], s[m..])));
    }
  }

  lemma NoDigits()
    ensures AllDigits("")
  {
  }

  // ---- white space around it ------------------------------------------------------------------------------

  predicate Blank(s: string) {
    forall i :: 0 <= i < |s| ==> IsSpace(s[i])
  }

  lemma {:induction false} TrimAround(l: string, s: string, r: string)
    requires Blank(l) && Blank(r) && s != "" && !IsSpace(s[0]) && !IsSpace(s[|s| - 1])
    ensures Trim(l + s + r) == s
    decreases |l| + |r|
  {
    hide IsSpace;
    var t := l + s + r;
    if l != "" {
      assert t[1..] == l[1..] + s + r && t[0] == l[0];
      TrimAround(l[1..], s, r);
    } else if r != "" {
      assert t[..|t| - 1] == l + s + r[..|r| - 1] && t[|t| - 1] == r[|r| - 1] && t[0] == s[0];
      TrimAround(l, s, r[..|r| - 1]);
    } else {
      assert t == s;
    }
  }

  lemma {:induction false} TrimParts(t: string) returns (l: string, r: string)
    ensures Blank(l) && Blank(r) && t == l + Trim(t) + r
    decreases |t|
  {
    hide IsSpace;
    l, r := "", "";
    if t != "" {
      if IsSpace(t[0]) {
        l, r := TrimParts(t[1..]);
        assert t == [t[0]] + t[1..];
        l := [t[0]] + l;
      } else if IsSpace(t[|t| - 1]) {
        l, r := TrimParts(t[..|t| - 1]);
        assert t == t[..|t| - 1] + [t[|t| - 1]];
        r := r + [t[|t| - 1]];
      }
    }
    assert t == l + Trim(t) + r;
  }

  lemma NumeralEdges(n: Numeral)
    requires Formed(n)
    ensures var s := Spelled(n); s != "" && !IsSpace(s[0]) && !IsSpace(s[|s| - 1])
  {
    var s := Spelled(n);
    FirstChar(n);
    if n.sign == "" && n.whole != "" { assert IsDigit(n.whole[0]) && s[0] == n.whole[0]; }
    if n.power.Some? {
      var ds := n.power.value.digits;
      assert IsDigit(ds[|ds| - 1]) && s[|s| - 1] == ds[|ds| - 1];
    } else if n.frac.Some? {
      var f := n.frac.value;
      if f != "" { assert IsDigit(f[|f| - 1]) && s[|s| - 1] == f[|f| - 1]; } else { assert s[|s| - 1] == '.'; }
    } else {
      assert IsDigit(n.whole[|n.whole| - 1]) && s[|s| - 1] == n.whole[|n.whole| - 1];
    }
  }

  // ---- what is parsed ----------------------------------------------------------------------------------------

  /** The number a numeral is written for. */
  ghost function Meant(n: Numeral): real
    requires Formed(n)
  {
    JoinDigits(n.whole, Places(n));
    var v: int := Number(n.whole + Places(n));
    Written(if n.sign == "-" then -v else v, |Places(n)|, Exponent(n))
  }

  lemma JoinDigits(a: string, b: string)
    requires AllDigits(a) && AllDigits(b)
    ensures AllDigits(a + b)
  {
  }

  /** A numeral, with white space around it, is parsed as the number it is written for, and refused exactly when
      that has more than 34 places. */
  lemma NumeralParsed(l: string, n: Numeral, r: string)
    requires Formed(n) && Blank(l) && Blank(r)
    ensures var d := Parse(l + Spelled(n) + r);
      && (d.Err? <==> |Places(n)| - Exponent(n) > MAX_SCALE)
      && (d.Ok? ==> Value(d.value) == Meant(n))
  {
    hide Split, Trim, Build, Spelled, Number, Value, Written, AllDigits, IsSpace, SignText, PowerFormed;
    NumeralEdges(n);
    TrimAround(l, Spelled(n), r);
    SplitEnds(n);
    var p := Split(Spelled(n));
    BuildExact(p.negative, p.whole, p.frac, p.exponent);
  }

  /** And nothing else is parsed. */
  lemma ParsedIsNumeral(text: string) returns (l: string, n: Numeral, r: string)
    requires Parse(text).Ok?
    ensures Formed(n) && Blank(l) && Blank(r) && text == l + Spelled(n) + r
  {
    hide Split, Trim, Build, Spelled, Blank, Formed;
    l, r := TrimParts(text);
    n := SplitIsNumeral(Trim(text));
  }
}
