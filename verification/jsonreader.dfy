/** The reader as it runs: a place in the text that moves, and a depth that goes up and down. Each method is
    proved to read what the grammar says, and to fail where it says. */
module JsonReading {
  import opened Text
  import opened Decimals
  import opened DecimalText
  import opened Json

  datatype Outcome<T> = Returned(value: T) | Threw(at: nat) | ThrewDecimal

  lemma {:induction false} WsTwice(text: string, i: nat)
    ensures WsEnd(text, WsEnd(text, i)) == WsEnd(text, i)
    decreases |text| - i
  {
    if i < |text| && IsWs(text[i]) { WsTwice(text, i + 1); }
  }

  lemma ItemsSkip(text: string, i: nat, depth: nat, out: seq<Json>)
    ensures ReadItems(text, WsEnd(text, i), depth, out) == ReadItems(text, i, depth, out)
  {
    hide ReadValue, WsEnd;
    WsTwice(text, i);
  }

  lemma MembersSkip(text: string, i: nat, depth: nat, out: seq<Entry>)
    ensures ReadMembers(text, WsEnd(text, i), depth, out) == ReadMembers(text, i, depth, out)
  {
    hide ReadValue, ReadString, SetEntry, WsEnd;
    WsTwice(text, i);
  }

  class JsonReader {
    const text: string
    var i: nat
    var depth: nat

    constructor (text: string)
      ensures this.text == text && i == 0 && depth == 0
    {
      this.text := text;
      i, depth := 0, 0;
    }

    /** The method did what the grammar says: the value and the place after it, or the failure. */
    ghost predicate Did<T>(r: Outcome<T>, spec: Read<T>, depthBefore: nat)
      reads this
    {
      match spec
      case Got(v, j) => r == Returned(v) && i == j && depth == depthBefore
      case Bad(at) => r == Threw(at)
      case BadDecimal => r == ThrewDecimal
    }

    method Ws()
      modifies this`i
      ensures i == WsEnd(text, old(i))
    {
      while i < |text| && IsWs(text[i])
        invariant WsEnd(text, i) == WsEnd(text, old(i))
        decreases |text| - i
      {
        i := i + 1;
      }
    }

    method Literal(word: string, value: Json) returns (r: Outcome<Json>)
      modifies this`i
      ensures Did(r, ReadLiteral(text, old(i), word, value), depth)
    {
      if i + |word| <= |text| && text[i..i + |word|] == word {
        i := i + |word|;
        return Returned(value);
      }
      r := Threw(i);
    }

    /** Past the digits from here on. */
    method Digits()
      requires i <= |text|
      modifies this`i
      ensures i == DigitsEnd(text, old(i))
    {
      while i < |text| && IsDigit(text[i])
        invariant i <= |text| && DigitsEnd(text, i) == DigitsEnd(text, old(i))
        decreases |text| - i
      {
        i := i + 1;
      }
    }

    method Whole() returns (r: Outcome<()>)
      requires i < |text|
      modifies this`i
      ensures Did(r, WholeEnd(text, old(i)), depth)
    {
      hide DigitsEnd;
      if text[i] == '-' { i := i + 1; }
      if i < |text| && text[i] == '0' {
        i := i + 1;
        return Returned(());
      }
      r := Some();
    }

    /** At least one digit. */
    method Some() returns (r: Outcome<()>)
      modifies this`i
      ensures Did(r, SomeDigits(text, old(i)), depth)
    {
      hide DigitsEnd;
      if !(i < |text| && IsDigit(text[i])) { return Threw(i); }
      Digits();
      r := Returned(());
    }

    method Fraction() returns (r: Outcome<()>, fractional: bool)
      requires i <= |text|
      modifies this`i
      ensures Did(r, FractionEnd(text, old(i)), depth) && fractional == Is(text, old(i), '.')
    {
      r, fractional := Returned(()), false;
      if i < |text| && text[i] == '.' {
        fractional := true;
        i := i + 1;
        r := Some();
      }
    }

    method Exponent() returns (r: Outcome<()>, exponent: bool)
      requires i <= |text|
      modifies this`i
      ensures Did(r, ExponentEnd(text, old(i)), depth) && exponent == IsExponent(text, old(i))
    {
      r, exponent := Returned(()), false;
      if i < |text| && (text[i] == 'e' || text[i] == 'E') {
        exponent := true;
        i := i + 1;
        if i < |text| && (text[i] == '+' || text[i] == '-') { i := i + 1; }
        r := Some();
      }
    }

    method ReadNum() returns (r: Outcome<Json>)
      requires i < |text| && (text[i] == '-' || IsDigit(text[i]))
      modifies this`i
      ensures Did(r, ReadNumber(text, old(i)), depth)
    {
      hide WholeEnd, FractionEnd, ExponentEnd, IsExponent, Is, DecimalText.Parse, IntegerOf;
      var start := i;
      var whole := Whole();
      if whole.Threw? { return Threw(whole.at); }
      if whole.ThrewDecimal? { return ThrewDecimal; }
      ghost var j := i;
      var fraction, fractional := Fraction();
      if fraction.Threw? { return Threw(fraction.at); }
      if fraction.ThrewDecimal? { return ThrewDecimal; }
      var end, exponent := Exponent();
      if end.Threw? { return Threw(end.at); }
      if end.ThrewDecimal? { return ThrewDecimal; }
      var literal := text[start..i];
      if fractional && !exponent {
        var d := DecimalText.Parse(literal);
        r := if d.Ok? then Returned(Dec(d.value)) else ThrewDecimal;
      } else if !fractional && !exponent {
        NothingMore(text, j);
        IntegerLiteral(text, start, i);
        r := Returned(IntegerOf(literal));
      } else {
        r := Returned(Float(literal));
      }
    }

    method Escape() returns (r: Outcome<char>)
      requires i < |text| && text[i] == '\\'
      modifies this`i
      ensures Did(r, ReadEscape(text, old(i)), depth)
    {
      i := i + 1;
      if i >= |text| { return Threw(i + 1); }
      var c := text[i];
      i := i + 1;
      match c
      case '\"' => r := Returned('\"');
      case '\\' => r := Returned('\\');
      case '/' => r := Returned('/');
      case 'b' => r := Returned(8 as char);
      case 'f' => r := Returned(12 as char);
      case 'n' => r := Returned('\n');
      case 'r' => r := Returned('\r');
      case 't' => r := Returned('\t');
      case 'u' => r := Hex();
      case _ => r := Threw(i);
    }

    /** Four hexadecimal digits. */
    method Hex() returns (r: Outcome<char>)
      requires 2 <= i <= |text| && text[i - 1] == 'u'
      modifies this`i
      ensures Did(r, ReadEscape(text, old(i) - 2), depth)
    {
      if i + 4 <= |text| && IsHex(text[i]) && IsHex(text[i + 1]) && IsHex(text[i + 2]) && IsHex(text[i + 3]) {
        var u := ((HexValue(text[i]) * 16 + HexValue(text[i + 1])) * 16 + HexValue(text[i + 2])) * 16 + HexValue(text[i + 3]);
        i := i + 4;
        return Returned(UnitChar(u));
      }
      r := Threw(i);
    }

    method String() returns (r: Outcome<string>)
      requires i < |text|
      modifies this`i
      ensures Did(r, ReadString(text, old(i)), depth)
    {
      hide ReadEscape;
      var start := i;
      i := i + 1;
      var out := "";
      while true
        invariant i <= |text|
        invariant ReadChars(text, start, i, out) == ReadString(text, start)
        decreases |text| - i
      {
        if i >= |text| { return Threw(start); }
        var c := text[i];
        if c == '\"' {
          i := i + 1;
          return Returned(out);
        }
        if c == '\\' {
          var e := Escape();
          match e {
            case Returned(ch) => out := out + [ch];
            case Threw(at) => return Threw(at);
            case ThrewDecimal => return ThrewDecimal;
          }
        } else {
          if c as int < 0x20 { return Threw(i); }
          out := out + [c];
          i := i + 1;
        }
      }
    }

    method Value() returns (r: Outcome<Json>)
      modifies this
      ensures Did(r, ReadValue(text, old(i), old(depth)), old(depth))
      decreases |text| - i, 1
    {
      hide ReadNumber, ReadString, ReadMembers, ReadItems, WsEnd, ReadLiteral;
      if i >= |text| { return Threw(i); }
      var c := text[i];
      if c == '{' {
        r := Object();
      } else if c == '[' {
        r := Array();
      } else if c == '\"' {
        var s := String();
        r := match s case Returned(v) => Returned(Str(v)) case Threw(at) => Threw(at) case ThrewDecimal => ThrewDecimal;
      } else if c == 't' {
        r := Literal("true", Bool(true));
      } else if c == 'f' {
        r := Literal("false", Bool(false));
      } else if c == 'n' {
        r := Literal("null", Null);
      } else if c == '-' || IsDigit(c) {
        r := ReadNum();
      } else {
        r := Threw(i);
      }
    }

    method Array() returns (r: Outcome<Json>)
      requires i < |text| && text[i] == '['
      modifies this
      ensures Did(r, ReadValue(text, old(i), old(depth)), old(depth))
      decreases |text| - i, 0
    {
      hide ReadValue, ReadItems, WsEnd;
      ReadBracket(text, i, depth);
      depth := depth + 1;
      if depth > MAX_DEPTH { return Threw(i); }
      i := i + 1;
      ItemsSkip(text, i, depth, []);
      Ws();
      if i < |text| && text[i] == ']' {
        i, depth := i + 1, depth - 1;
        return Returned(Arr([]));
      }
      var out := [];
      while true
        invariant i > old(i) && depth == old(depth) + 1
        invariant ReadItems(text, i, depth, out) == ReadValue(text, old(i), old(depth))
        decreases |text| - i
      {
        ItemsUnfold(text, i, depth, out);
        Ws();
        var v := Value();
        match v
        case Threw(at) => return Threw(at);
        case ThrewDecimal => return ThrewDecimal;
        case Returned(x) =>
          Ws();
          if i < |text| && text[i] == ',' {
            out := out + [x];
            i := i + 1;
          } else if i < |text| && text[i] == ']' {
            i, depth := i + 1, depth - 1;
            return Returned(Arr(out + [x]));
          } else {
            return Threw(i);
          }
      }
    }

    method Object() returns (r: Outcome<Json>)
      requires i < |text| && text[i] == '{'
      modifies this
      ensures Did(r, ReadValue(text, old(i), old(depth)), old(depth))
      decreases |text| - i, 0
    {
      hide ReadValue, ReadMembers, MemberAt, WsEnd, ReadString, SetEntry;
      ReadBrace(text, i, depth);
      depth := depth + 1;
      if depth > MAX_DEPTH { return Threw(i); }
      i := i + 1;
      MembersSkip(text, i, depth, []);
      Ws();
      if i < |text| && text[i] == '}' {
        i, depth := i + 1, depth - 1;
        return Returned(Obj([]));
      }
      var out := [];
      while true
        invariant i > old(i) && depth == old(depth) + 1
        invariant ReadMembers(text, i, depth, out) == ReadValue(text, old(i), old(depth))
        decreases |text| - i
      {
        MembersUnfold(text, i, depth, out);
        MemberAhead(text, i, depth);
        var e := Member();
        if e.Threw? { return Threw(e.at); }
        if e.ThrewDecimal? { return ThrewDecimal; }
        out := SetEntry(out, e.value.key, e.value.value);
        Ws();
        if i < |text| && text[i] == ',' {
          i := i + 1;
        } else if i < |text| && text[i] == '}' {
          i, depth := i + 1, depth - 1;
          return Returned(Obj(out));
        } else {
          return Threw(i);
        }
      }
    }

    method Member() returns (r: Outcome<Entry>)
      modifies this
      ensures Did(r, MemberAt(text, old(i), old(depth)), old(depth))
      decreases |text| - i, 2
    {
      hide ReadValue, WsEnd, ReadString;
      Ws();
      if !(i < |text| && text[i] == '\"') { return Threw(i); }
      var s := String();
      if s.Threw? { return Threw(s.at); }
      if s.ThrewDecimal? { return ThrewDecimal; }
      Ws();
      if !(i < |text| && text[i] == ':') { return Threw(i); }
      i := i + 1;
      Ws();
      var v := Value();
      if v.Threw? { return Threw(v.at); }
      if v.ThrewDecimal? { return ThrewDecimal; }
      r := Returned(Entry(s.value, v.value));
    }

    /** A whole document. */
    method Parse() returns (r: Outcome<Json>)
      requires i == 0 && depth == 0
      modifies this
      ensures match ParseJson(text)
        case Got(v, _) => r == Returned(v)
        case Bad(at) => r == Threw(at)
        case BadDecimal => r == ThrewDecimal
    {
      hide ReadValue, WsEnd;
      Ws();
      r := Value();
      if !r.Returned? { return; }
      Ws();
      if i < |text| { return Threw(i); }
    }
  }

  lemma NothingMore(text: string, j: nat)
    requires j <= |text|
    ensures !Is(text, j, '.') ==> FractionEnd(text, j) == Got((), j)
    ensures !IsExponent(text, j) ==> ExponentEnd(text, j) == Got((), j)
  {
  }

  /** Without fraction and exponent the literal is the whole part. */
  lemma IntegerLiteral(text: string, start: nat, end: nat)
    requires start < |text| && (text[start] == '-' || IsDigit(text[start])) && WholeEnd(text, start).Got?
    requires end == WholeEnd(text, start).i
    ensures var s := text[start..end]; s != "" && AllDigits(s[1..]) && (s[0] == '-' || IsDigit(s[0]))
  {
    WholeIsInteger(text, start);
  }

  /** A key, a colon and a value. */
  function MemberAt(text: string, i: nat, depth: nat): Read<Entry> {
    var a := WsEnd(text, i);
    if !Is(text, a, '\"') then Bad(a) else
      match ReadString(text, a)
      case Bad(at) => Bad(at)
      case BadDecimal => BadDecimal
      case Got(key, b) =>
        var c := WsEnd(text, b);
        if !Is(text, c, ':') then Bad(c) else
          match ReadValue(text, WsEnd(text, c + 1), depth)
          case Bad(at) => Bad(at)
          case BadDecimal => BadDecimal
          case Got(v, j) => Got(Entry(key, v), j)
  }

  lemma MembersUnfold(text: string, i: nat, depth: nat, out: seq<Entry>)
    ensures ReadMembers(text, i, depth, out) ==
      match MemberAt(text, i, depth)
      case Bad(at) => Bad(at)
      case BadDecimal => BadDecimal
      case Got(e, j) =>
        var k := WsEnd(text, j);
        if Is(text, k, ',') then ReadMembers(text, k + 1, depth, SetEntry(out, e.key, e.value))
        else if Is(text, k, '}') then Got(Obj(SetEntry(out, e.key, e.value)), k + 1)
        else Bad(k)
  {
    hide WsEnd, ReadString, ReadValue, SetEntry;
  }

  lemma MemberAhead(text: string, i: nat, depth: nat)
    ensures MemberAt(text, i, depth).Got? ==> i < MemberAt(text, i, depth).i <= |text|
  {
    hide ReadString, ReadValue;
  }
}
