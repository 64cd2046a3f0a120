/** What the smallest parts of a JSON text are worth, said without the reader's own functions: the hexadecimal
    digits of an escape in either case, and the number a numeral is written for. */
module JsonLexis {
  import opened Text
  import opened Decimals
  import opened DecimalText
  import opened Json
  import opened JsonReading
  import opened JsonRoundTrip
  import opened JsonGrammar
  import Numerals

  const LOWER := "0123456789abcdef"
  const UPPER := "0123456789ABCDEF"

  /** The digit of this value, in either case. */
  ghost predicate Digit(c: char, d: nat) {
    d < 16 && (LOWER[d] == c || UPPER[d] == c)
  }

  lemma DigitValue16(c: char, d: nat)
    requires Digit(c, d)
    ensures IsHex(c) && HexValue(c) == d
  {
  }

  lemma HexIsDigit(c: char)
    requires IsHex(c)
    ensures Digit(c, HexValue(c))
  {
    var d := HexValue(c);
    if d < 8 { LowDigits(c, d); } else { HighDigits(c, d); }
  }

  lemma LowDigits(c: char, d: nat)
    requires IsHex(c) && HexValue(c) == d < 8
    ensures Digit(c, d)
  {
  }

  lemma HighDigits(c: char, d: nat)
    requires IsHex(c) && 8 <= HexValue(c) == d
    ensures Digit(c, d)
  {
  }

  ghost function Unit(a: nat, b: nat, c: nat, d: nat): nat {
    a * 0x1000 + b * 0x100 + c * 0x10 + d
  }

  /** Four digits of these values, the most significant first. */
  ghost predicate Spells(hex: string, a: nat, b: nat, c: nat, d: nat) {
    |hex| == 4 && Digit(hex[0], a) && Digit(hex[1], b) && Digit(hex[2], c) && Digit(hex[3], d)
  }

  /** A unit written by its number, with letters in either case, is read as itself. */
  lemma FourMeans(hex: string, a: nat, b: nat, c: nat, d: nat)
    requires Spells(hex, a, b, c, d)
    ensures Unit(a, b, c, d) < 0x10000 && PieceFormed(Four(hex)) && PieceMeaning(Four(hex)) == UnitChar(Unit(a, b, c, d))
  {
    hide Digit;
    DigitValue16(hex[0], a);
    DigitValue16(hex[1], b);
    DigitValue16(hex[2], c);
    DigitValue16(hex[3], d);
    hide HexValue, UnitChar;
    assert forall k :: 0 <= k < 4 ==> IsHex(hex[k]);
    DigitBelow(hex[0], a);
    DigitBelow(hex[1], b);
    DigitBelow(hex[2], c);
    DigitBelow(hex[3], d);
    assert ((a * 16 + b) * 16 + c) * 16 + d == Unit(a, b, c, d);
  }

  lemma UnitIsItself(u: nat)
    requires u < 0xD800 || 0xE000 <= u < 0x10000
    ensures UnitChar(u) as int == u
  {
  }

  /** And four digits always write one. */
  lemma FourSpells(hex: string)
    requires PieceFormed(Four(hex))
    ensures Spells(hex, HexValue(hex[0]), HexValue(hex[1]), HexValue(hex[2]), HexValue(hex[3]))
  {
    hide Digit, HexValue;
    HexIsDigit(hex[0]);
    HexIsDigit(hex[1]);
    HexIsDigit(hex[2]);
    HexIsDigit(hex[3]);
  }

  lemma DigitBelow(c: char, d: nat)
    requires Digit(c, d)
    ensures d < 16
  {
  }

  // ---- numerals -----------------------------------------------------------------------------------------------

  ghost function SignedNumber(minus: bool, digits: string): int
    requires AllDigits(digits)
  {
    var n: int := Number(digits);
    if minus then -n else n
  }

  /** Digits alone are the integer they are written for, if a num keeps it, and otherwise their literal. */
  lemma IntegerMeans(minus: bool, whole: string)
    requires Proper(whole)
    ensures AllDigits(whole)
    ensures var n := SignedNumber(minus, whole);
      NumeralMeaning(minus, whole, None, None) == Some(if Safe(n) then Int(n) else Float(Sign(minus) + whole))
  {
    hide Number;
    NumeralIsInteger(minus, whole);
    assert IsDigit(whole[0]);
    if minus { assert (Sign(minus) + whole)[1..] == whole; } else { assert Sign(minus) + whole == whole; }
  }

  /** Digits and places are the decimal they are written for, with that many places, if there are at most 34. */
  lemma DecimalMeans(minus: bool, whole: string, frac: string)
    requires Proper(whole) && SomeDigitsIn(frac)
    ensures AllDigits(whole) && AllDigits(whole + frac)
    ensures var m := NumeralMeaning(minus, whole, Some(frac), None);
      && (m.None? <==> |frac| > MAX_SCALE)
      && (m.Some? ==> m.value.Dec? && Value(m.value.d) == DecimalText.Written(SignedNumber(minus, whole + frac), |frac|, 0))
  {
    hide Number, DecimalText.Written, Value, Numerals.Meant, Parse;
    var n := Numerals.Numeral(Sign(minus), whole, Some(frac), None);
    assert Numerals.Formed(n);
    Numerals.JoinDigits(whole, frac);
    Numerals.NumeralParsed("", n, "");
    MeantIs(n, minus, whole, frac);
    var literal := Spell(Numeral(minus, whole, Some(frac), None));
    assert Numerals.Spelled(n) == Sign(minus) + whole + ("." + frac) + "" == literal;
    assert "" + Numerals.Spelled(n) + "" == literal;
  }

  lemma MeantIs(n: Numerals.Numeral, minus: bool, whole: string, frac: string)
    requires AllDigits(whole + frac) && n == Numerals.Numeral(Sign(minus), whole, Some(frac), None) && Numerals.Formed(n)
    ensures Numerals.Meant(n) == DecimalText.Written(SignedNumber(minus, whole + frac), |frac|, 0) && Numerals.Exponent(n) == 0
  {
    hide Number, DecimalText.Written;
  }
}
