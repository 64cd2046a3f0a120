/** What the writer writes the reader reads back, exactly when it nests no deeper than the reader goes. */
module JsonRoundTrip {
  import opened Text
  import opened Decimals
  import opened DecimalText
  import opened Json

  // ---- text in place -----------------------------------------------------------------------------------

  lemma Cut(text: string, i: nat, a: string, b: string)
    requires StartsWith(text, i, a + b)
    ensures StartsWith(text, i, a) && StartsWith(text, i + |a|, b)
  {
    var s := text[i..i + |a + b|];
    assert (a + b)[..|a|] == a && (a + b)[|a|..] == b;
    assert text[i..i + |a|] == s[..|a|];
    assert text[i + |a|..i + |a| + |b|] == s[|a|..];
  }

  lemma CharAt(text: string, i: nat, s: string, k: nat)
    requires StartsWith(text, i, s) && k < |s|
    ensures i + k < |text| && text[i + k] == s[k]
  {
    assert text[i..i + |s|][k] == s[k];
  }

  /** What may follow a value that was written. */
  predicate Ends(text: string, i: nat) {
    i >= |text| || text[i] == ',' || text[i] == ']' || text[i] == '}' || text[i] == '\n'
  }

  lemma {:induction false} WsSkipped(text: string, i: nat, w: string)
    requires StartsWith(text, i, w) && forall k :: 0 <= k < |w| ==> IsWs(w[k])
    requires i + |w| < |text| ==> !IsWs(text[i + |w|])
    ensures WsEnd(text, i) == i + |w|
    decreases |w|
  {
    if w != "" {
      CharAt(text, i, w, 0);
      assert w == [w[0]] + w[1..];
      Cut(text, i, [w[0]], w[1..]);
      WsSkipped(text, i + 1, w[1..]);
    }
  }

  lemma MarginSkipped(text: string, i: nat, indent: nat, depth: nat)
    requires StartsWith(text, i, Margin(indent, depth))
    requires i + |Margin(indent, depth)| < |text| ==> !IsWs(text[i + |Margin(indent, depth)|])
    ensures WsEnd(text, i) == i + |Margin(indent, depth)|
  {
    WsSkipped(text, i, Margin(indent, depth));
  }

  // ---- strings --------------------------------------------------------------------------------------------

  lemma HexBack(n: nat)
    requires n < 16
    ensures IsHex(HexDigit(n)) && HexValue(HexDigit(n)) == n
  {
  }

  predicate Escaped(c: char) {
    c == '\"' || c == '\\' || c as int < 0x20
  }

  lemma EscapeBack(text: string, i: nat, c: char)
    requires Escaped(c) && StartsWith(text, i, QuoteChar(c))
    ensures i < |text| && text[i] == '\\' && ReadEscape(text, i) == Got(c, i + |QuoteChar(c)|)
  {
    var q := QuoteChar(c);
    CharAt(text, i, q, 0);
    CharAt(text, i, q, 1);
    if |q| > 2 {
      CharAt(text, i, q, 2);
      CharAt(text, i, q, 3);
      CharAt(text, i, q, 4);
      CharAt(text, i, q, 5);
      HexBack(c as int / 16);
      HexBack(c as int % 16);
    }
  }

  lemma {:induction false} CharsBack(s: string, text: string, start: nat, i: nat, out: string)
    requires StartsWith(text, i, QuoteChars(s) + ['\"'])
    ensures ReadChars(text, start, i, out) == Got(out + s, i + |QuoteChars(s)| + 1)
    decreases |s|
  {
    hide QuoteChar, ReadEscape;
    if s == "" {
      CharAt(text, i, ['\"'], 0);
      assert out + s == out;
    } else {
      var c, rest := s[0], s[1..];
      assert QuoteChars(s) + ['\"'] == QuoteChar(c) + (QuoteChars(rest) + ['\"']);
      Cut(text, i, QuoteChar(c), QuoteChars(rest) + ['\"']);
      assert (out + [c]) + rest == out + s;
      CharsBack(rest, text, start, i + |QuoteChar(c)|, out + [c]);
      if Escaped(c) {
        EscapeBack(text, i, c);
      } else {
        PlainChar(c);
        CharAt(text, i, [c], 0);
      }
    }
  }

  lemma PlainChar(c: char)
    requires !Escaped(c)
    ensures QuoteChar(c) == [c]
  {
  }

  lemma StringBack(s: string, text: string, i: nat)
    requires StartsWith(text, i, Quote(s))
    ensures i < |text| && text[i] == '\"' && ReadString(text, i) == Got(s, i + |Quote(s)|)
  {
    hide ReadChars, QuoteChars;
    assert Quote(s) == ['\"'] + (QuoteChars(s) + ['\"']);
    Cut(text, i, ['\"'], QuoteChars(s) + ['\"']);
    CharAt(text, i, ['\"'], 0);
    CharsBack(s, text, i, i + 1, "");
    assert "" + s == s;
  }

  // ---- numbers -----------------------------------------------------------------------------------------------

  lemma DigitsInPlace(text: string, i: nat, ds: string)
    requires StartsWith(text, i, ds) && AllDigits(ds) && !IsDigitAt(text, i + |ds|)
    ensures DigitsEnd(text, i) == i + |ds|
  {
    var rest := text[i + |ds|..];
    assert text == text[..i] + ds + rest;
    DigitsRead(text[..i], ds, rest, 0);
  }

  /** A whole part as it is written: no zero in front of another digit. */
  predicate Proper(whole: string) {
    whole != "" && AllDigits(whole) && (whole[0] == '0' ==> |whole| == 1)
  }

  lemma WholeBack(text: string, i: nat, sign: string, whole: string)
    requires (sign == "" || sign == "-") && Proper(whole) && StartsWith(text, i, sign + whole)
    requires !IsDigitAt(text, i + |sign| + |whole|)
    ensures i < |text| && (text[i] == '-' || IsDigit(text[i])) && WholeEnd(text, i) == Got((), i + |sign| + |whole|)
  {
    hide DigitsEnd;
    Cut(text, i, sign, whole);
    CharAt(text, i + |sign|, whole, 0);
    assert IsDigit(whole[0]);
    if sign == "-" { CharAt(text, i, sign, 0); }
    if whole[0] != '0' { DigitsInPlace(text, i + |sign|, whole); }
  }

  lemma DigitsProper(n: nat)
    ensures Proper(Digits(n))
  {
    NumberOfDigits(n);
  }

  lemma NotNumeral(text: string, i: nat)
    requires Ends(text, i)
    ensures !IsDigitAt(text, i) && !Is(text, i, '.') && !IsExponent(text, i)
  {
  }

  lemma IntBack(n: int, text: string, i: nat)
    requires StartsWith(text, i, IntText(n)) && Ends(text, i + |IntText(n)|)
    ensures i < |text| && (text[i] == '-' || IsDigit(text[i]))
    ensures ReadNumber(text, i) == Got(WholeAsRead(n), i + |IntText(n)|)
  {
    hide DigitsEnd, WholeEnd, Digits, Number;
    var sign := if n < 0 then "-" else "";
    var whole := Digits(if n < 0 then -n else n);
    DigitsProper(if n < 0 then -n else n);
    NumberOfDigits(if n < 0 then -n else n);
    assert IntText(n) == sign + whole;
    var e := i + |IntText(n)|;
    NotNumeral(text, e);
    WholeBack(text, i, sign, whole);
    assert text[i..e] == IntText(n);
    assert IsDigit(whole[0]);
    if n < 0 { assert IntText(n)[1..] == whole; } else { assert IntText(n) == whole && whole[0] != '-'; }
  }

  lemma DecBack(d: Decimal, text: string, i: nat)
    requires StartsWith(text, i, Show(d)) && Ends(text, i + |Show(d)|)
    ensures i < |text| && (text[i] == '-' || IsDigit(text[i]))
    ensures var r := ReadNumber(text, i);
      match AsRead(Dec(d))
      case Some(v) => r == Got(v, i + |Show(d)|)
      case None => !r.Got?
  {
    hide ReadNumber, Show;
    if d.scale == 0 {
      assert Show(d) == IntText(d.c) by { ShowWhole(d); }
      IntBack(d.c, text, i);
    } else if d.scale < 0 {
      PointLast(d, text, i);
    } else {
      FractionBack(d, text, i);
    }
  }

  lemma ShowWhole(d: Decimal)
    requires d.scale == 0
    ensures Show(d) == IntText(d.c)
  {
    hide Digits;
  }

  /** A point with nothing after it is refused. */
  lemma PointLast(d: Decimal, text: string, i: nat)
    requires d.scale < 0 && StartsWith(text, i, Show(d)) && Ends(text, i + |Show(d)|)
    ensures i < |text| && (text[i] == '-' || IsDigit(text[i])) && !ReadNumber(text, i).Got?
  {
    hide DigitsEnd, WholeEnd, Number, Parse, Show, Digits;
    var v: nat := if d.c < 0 then -d.c else d.c;
    var sign, whole := if d.c < 0 then "-" else "", Digits(v);
    DigitsProper(v);
    assert Show(d) == (sign + whole) + "." by { ShowPoint(d); }
    Cut(text, i, sign + whole, ".");
    CharAt(text, i + |sign + whole|, ".", 0);
    NotNumeral(text, i + |Show(d)|);
    WholeBack(text, i, sign, whole);
  }

  lemma ShowPoint(d: Decimal)
    requires d.scale < 0
    ensures Show(d) == ((if d.c < 0 then "-" else "") + Digits(if d.c < 0 then -d.c else d.c)) + "."
  {
    hide Digits;
  }

  lemma FractionBack(d: Decimal, text: string, i: nat)
    requires d.scale >= 1 && StartsWith(text, i, Show(d)) && Ends(text, i + |Show(d)|)
    ensures i < |text| && (text[i] == '-' || IsDigit(text[i]))
    ensures ReadNumber(text, i) == if d.scale <= MAX_SCALE then Got(Dec(d), i + |Show(d)|) else BadDecimal
  {
    hide DigitsEnd, WholeEnd, Number, Parse, Show, Digits, Padded, StartsWith, ReadNumber;
    var sign, whole, frac := ShowProper(d);
    var shown, j := Show(d), i + |sign + whole|;
    assert shown == (sign + whole) + ("." + frac);
    Cut(text, i, sign + whole, "." + frac);
    CharAt(text, j, "." + frac, 0);
    Cut(text, j, ".", frac);
    CharAt(text, j + 1, frac, 0);
    assert IsDigit(frac[0]);
    var e := i + |shown|;
    NotNumeral(text, e);
    WholeBack(text, i, sign, whole);
    DigitsInPlace(text, j + 1, frac);
    assert text[i..e] == shown by { Spelt(text, i, shown); }
    PointNumber(text, i, j, e);
    ParseShow(d);
  }

  lemma Spelt(text: string, i: nat, word: string)
    requires StartsWith(text, i, word)
    ensures i + |word| <= |text| && text[i..i + |word|] == word
  {
  }

  /** A number with a point and no exponent is what the decimal's parser says. */
  lemma PointNumber(text: string, i: nat, j: nat, e: nat)
    requires i < |text| && (text[i] == '-' || IsDigit(text[i])) && WholeEnd(text, i) == Got((), j)
    requires Is(text, j, '.') && IsDigitAt(text, j + 1) && DigitsEnd(text, j + 1) == e && i <= e <= |text| && !IsExponent(text, e)
    ensures ReadNumber(text, i) ==
      match Parse(text[i..e])
      case Ok(d) => Got(Dec(d), e)
      case Err(_) => BadDecimal
  {
    hide WholeEnd, DigitsEnd, Parse;
  }

  lemma ShowProper(d: Decimal) returns (sign: string, whole: string, frac: string)
    requires d.scale >= 1
    ensures (sign == "" || sign == "-") && Proper(whole) && AllDigits(frac) && frac != ""
    ensures Show(d) == sign + whole + ("." + frac)
  {
    hide Digits;
    sign := if d.c < 0 then "-" else "";
    var v: nat := if d.c < 0 then -d.c else d.c;
    DigitsProper(v);
    var digits := Padded(v, d.scale);
    var at := |digits| - d.scale;
    whole, frac := digits[..at], digits[at..];
    if |Digits(v)| <= d.scale {
      assert whole == digits[..1] && digits[0] == Zeros(d.scale + 1 - |Digits(v)|)[0] == '0';
    } else {
      assert whole[0] == Digits(v)[0];
    }
    assert Show(d) == sign + whole + ("." + frac);
  }

  // ---- what a written value looks like ----------------------------------------------------------------------------

  predicate Opens(w: string) {
    w != "" && !IsWs(w[0]) && w[0] != ']' && w[0] != '}'
  }

  lemma WriteOpens(v: Json, indent: nat, depth: nat)
    requires Exact(v) && Write(v, indent, depth).Text?
    ensures Opens(Write(v, indent, depth).text)
  {
    match v
    case Int(n) => assert IsDigit(IntText(n)[0]) || IntText(n)[0] == '-';
    case Dec(d) => ShowOpens(d);
    case _ =>
  }

  lemma ShowOpens(d: Decimal)
    ensures Opens(Show(d))
  {
    hide Show, Digits;
    if d.scale == 0 {
      ShowWhole(d);
      assert IsDigit(IntText(d.c)[0]) || IntText(d.c)[0] == '-' by { DigitsProper(if d.c < 0 then -d.c else d.c); }
    } else if d.scale < 0 {
      ShowPoint(d);
      DigitsProper(if d.c < 0 then -d.c else d.c);
    } else {
      var sign, whole, frac := ShowProper(d);
      assert IsDigit(whole[0]) && Show(d)[0] == if sign == "-" then '-' else whole[0];
    }
  }

  // ---- values --------------------------------------------------------------------------------------------------------

  /** Reading what was written gives what the text is read as, if it is read at all and does not nest too deep. */
  ghost predicate Back(v: Json, w: string, text: string, i: nat, depth: nat) {
    match AsRead(v)
    case Some(u) =>
      if depth + Depth(v) <= MAX_DEPTH then ReadValue(text, i, depth) == Got(u, i + |w|) else ReadValue(text, i, depth).Bad?
    case None => !ReadValue(text, i, depth).Got?
  }

  lemma {:induction false} ValueBack(v: Json, indent: nat, depth: nat, text: string, i: nat)
    requires Exact(v) && depth <= MAX_DEPTH && Write(v, indent, depth).Text?
    requires StartsWith(text, i, Write(v, indent, depth).text) && Ends(text, i + |Write(v, indent, depth).text|)
    ensures Back(v, Write(v, indent, depth).text, text, i, depth)
    decreases v, 0
  {
    hide ReadNumber, ReadString, WriteItems, WriteMembers, ReadItems, ReadMembers, Show, WholeAsRead;
    var w := Write(v, indent, depth).text;
    match v
    case Null => WordBack(text, i, w, depth);
    case Bool(_) => WordBack(text, i, w, depth);
    case Str(s) => StringBack(s, text, i);
    case Int(n) =>
      IntBack(n, text, i);
      NumeralStarts(text, i);
    case Dec(d) =>
      DecBack(d, text, i);
      NumeralStarts(text, i);
    case Arr(items) => ArrayBack(items, indent, depth, text, i);
    case Obj(entries) => ObjectBack(entries, indent, depth, text, i);
  }

  lemma WordBack(text: string, i: nat, word: string, depth: nat)
    requires (word == "null" || word == "true" || word == "false") && StartsWith(text, i, word)
    ensures ReadValue(text, i, depth) == Got(if word == "null" then Null else Bool(word == "true"), i + |word|)
  {
    CharAt(text, i, word, 0);
    if word == "null" {
      assert text[i] == 'n';
    } else if word == "true" {
      assert text[i] == 't';
    } else {
      assert text[i] == 'f';
    }
  }

  lemma NumeralStarts(text: string, i: nat)
    requires i < |text| && (text[i] == '-' || IsDigit(text[i]))
    ensures forall depth: nat :: ReadValue(text, i, depth) == ReadNumber(text, i)
  {
    hide ReadNumber;
  }

  lemma ArrayBack(items: seq<Json>, indent: nat, depth: nat, text: string, i: nat)
    requires Exact(Arr(items)) && depth <= MAX_DEPTH && Write(Arr(items), indent, depth).Text?
    requires StartsWith(text, i, Write(Arr(items), indent, depth).text)
    ensures Back(Arr(items), Write(Arr(items), indent, depth).text, text, i, depth)
    decreases items, 2
  {
    hide WriteItems, ReadItems, ReadValue, Margin, StartsWith, WsEnd, Exact, ItemsAsRead;
    var w := Write(Arr(items), indent, depth).text;
    CharAt(text, i, w, 0);
    ReadBracket(text, i, depth);
    if items == [] {
      CharAt(text, i, w, 1);
      Nothing(text, i + 1);
      assert DepthAll(items) == 0;
      NothingAsRead();
    } else {
      var inner, close := WriteItems(items, indent, depth + 1).text, Margin(indent, depth) + "]";
      assert w == "[" + (inner + close);
      Cut(text, i, "[", inner + close);
      if depth < MAX_DEPTH {
        Cut(text, i + 1, inner, close);
        ExactItems(items);
        ItemsOpen(items, indent, depth + 1, text, i + 1);
        if ItemsAsRead(items).Some? { assert [] + ItemsAsRead(items).value == ItemsAsRead(items).value; }
        ItemsBack(items, indent, depth + 1, depth, text, i + 1, []);
      }
    }
  }

  lemma ExactItems(items: seq<Json>)
    requires Exact(Arr(items))
    ensures forall k :: 0 <= k < |items| ==> Exact(items[k])
  {
  }

  /** After the bracket and the margin stands the first item. */
  lemma ItemsOpen(items: seq<Json>, indent: nat, depth: nat, text: string, i: nat)
    requires items != [] && Exact(items[0]) && WriteItems(items, indent, depth).Text?
    requires StartsWith(text, i, WriteItems(items, indent, depth).text)
    ensures !Is(text, WsEnd(text, i), ']')
    ensures var m := Margin(indent, depth);
      WsEnd(text, i) == i + |m| && StartsWith(text, i + |m|, Write(items[0], indent, depth).text)
  {
    hide *;
    var m, first, tail := ItemsForm(items, indent, depth);
    Cut(text, i, m, first + tail);
    Cut(text, i + |m|, first, tail);
    WriteOpens(items[0], indent, depth);
    FirstPlace(text, i, indent, depth, first);
  }

  lemma FirstPlace(text: string, i: nat, indent: nat, depth: nat, first: string)
    requires StartsWith(text, i, Margin(indent, depth)) && StartsWith(text, i + |Margin(indent, depth)|, first) && Opens(first)
    ensures WsEnd(text, i) == i + |Margin(indent, depth)|
    ensures !Is(text, WsEnd(text, i), ']') && !Is(text, WsEnd(text, i), '}')
  {
    hide Margin, StartsWith, WsEnd;
    CharAt(text, i + |Margin(indent, depth)|, first, 0);
    MarginSkipped(text, i, indent, depth);
  }

  lemma ItemsForm(items: seq<Json>, indent: nat, depth: nat) returns (m: string, first: string, tail: string)
    requires items != [] && WriteItems(items, indent, depth).Text?
    ensures Write(items[0], indent, depth) == Text(first) && m == Margin(indent, depth)
    ensures WriteItems(items[1..], indent, depth).Text?
    ensures tail == (if |items| == 1 then "" else "," + WriteItems(items[1..], indent, depth).text)
    ensures WriteItems(items, indent, depth).text == m + (first + tail)
  {
    hide Write, Margin;
    m, first := Margin(indent, depth), Write(items[0], indent, depth).text;
    tail := if |items| == 1 then "" else "," + WriteItems(items[1..], indent, depth).text;
    if |items| == 1 {
      assert items[1..] == [];
      assert m + first + "" + "" == m + (first + tail);
    } else {
      assert m + first + "," + WriteItems(items[1..], indent, depth).text == m + (first + tail);
    }
  }

  ghost predicate ItemsRead(items: seq<Json>, text: string, i: nat, depth: nat, out: seq<Json>, end: nat) {
    match ItemsAsRead(items)
    case Some(us) =>
      if depth + DepthAll(items) <= MAX_DEPTH then ReadItems(text, i, depth, out) == Got(Arr(out + us), end)
      else ReadItems(text, i, depth, out).Bad?
    case None => !ReadItems(text, i, depth, out).Got?
  }

  /** What stands in the list for an item that has been read. */
  function ReadTo(v: Json): Json {
    match AsRead(v)
    case Some(u) => u
    case None => Null
  }

  lemma {:induction false} ItemsBack(items: seq<Json>, indent: nat, depth: nat, outer: nat, text: string, i: nat, out: seq<Json>)
    requires items != [] && (forall k :: 0 <= k < |items| ==> Exact(items[k])) && depth <= MAX_DEPTH
    requires WriteItems(items, indent, depth).Text?
    requires StartsWith(text, i, WriteItems(items, indent, depth).text)
    requires StartsWith(text, i + |WriteItems(items, indent, depth).text|, Margin(indent, outer) + "]")
    ensures ItemsRead(items, text, i, depth, out, i + |WriteItems(items, indent, depth).text| + |Margin(indent, outer)| + 1)
    decreases items, 1
  {
    hide *;
    var d, first, tail := ItemParts(items, indent, depth, text, i);
    var e := d + |first|;
    Separated(|items| == 1, tail, WriteItems(items[1..], indent, depth).text, indent, outer, text, e);
    ValueBack(items[0], indent, depth, text, d);
    var end := i + |WriteItems(items, indent, depth).text| + |Margin(indent, outer)| + 1;
    if |items| > 1 {
      ItemsBack(items[1..], indent, depth, outer, text, e + 1, out + [ReadTo(items[0])]);
    }
    ItemsConclude(items, first, text, i, depth, out, d, end);
  }

  lemma FirstAsRead(items: seq<Json>, out: seq<Json>)
    requires items != []
    ensures var rest := ItemsAsRead(items[1..]);
      match ItemsAsRead(items)
      case None => AsRead(items[0]).None? || rest.None?
      case Some(us) =>
        && AsRead(items[0]) == Some(us[0]) && rest == Some(us[1..]) && |us| == |items|
        && (out + [ReadTo(items[0])]) + us[1..] == out + us && (|items| == 1 ==> out + [us[0]] == out + us)
    ensures |items| == 1 ==> ItemsAsRead(items[1..]).Some?
  {
    hide AsRead;
    if |items| == 1 { assert items[1..] == []; }
    if ItemsAsRead(items).Some? { OneAcross(out, ItemsAsRead(items).value); }
  }

  lemma FirstEntryAsRead(entries: seq<Entry>, out: seq<Entry>)
    requires entries != []
    ensures var rest := EntriesAsRead(entries[1..]);
      match EntriesAsRead(entries)
      case None => AsRead(entries[0].value).None? || rest.None?
      case Some(us) =>
        && AsRead(entries[0].value) == Some(us[0].value) && us[0].key == entries[0].key && rest == Some(us[1..]) && |us| == |entries|
        && (out + [EntryTo(entries[0])]) + us[1..] == out + us && (|entries| == 1 ==> out + [us[0]] == out + us)
    ensures |entries| == 1 ==> EntriesAsRead(entries[1..]).Some?
  {
    hide AsRead;
    if |entries| == 1 { assert entries[1..] == []; }
    if EntriesAsRead(entries).Some? { OneAcross(out, EntriesAsRead(entries).value); }
  }

  /** From the first item and the rest to all of them. */
  lemma ItemsConclude(items: seq<Json>, first: string, text: string, i: nat, depth: nat, out: seq<Json>, d: nat, end: nat)
    requires items != [] && WsEnd(text, i) == d && Back(items[0], first, text, d, depth)
    requires |items| == 1 ==> Is(text, WsEnd(text, d + |first|), ']') && end == WsEnd(text, d + |first|) + 1
    requires |items| > 1 ==> WsEnd(text, d + |first|) == d + |first| && Is(text, d + |first|, ',')
    requires |items| > 1 ==> ItemsRead(items[1..], text, d + |first| + 1, depth, out + [ReadTo(items[0])], end)
    ensures ItemsRead(items, text, i, depth, out, end)
  {
    hide ReadValue, ReadItems, WsEnd, Depth, DepthAll, AsRead, ItemsAsRead;
    ItemsUnfold(text, i, depth, out);
    DeeperItem(items);
    FirstAsRead(items, out);
  }

  lemma ItemParts(items: seq<Json>, indent: nat, depth: nat, text: string, i: nat)
    returns (d: nat, first: string, tail: string)
    requires items != [] && Exact(items[0]) && WriteItems(items, indent, depth).Text?
    requires StartsWith(text, i, WriteItems(items, indent, depth).text)
    ensures Write(items[0], indent, depth) == Text(first) && WriteItems(items[1..], indent, depth).Text?
    ensures tail == (if |items| == 1 then "" else "," + WriteItems(items[1..], indent, depth).text)
    ensures WsEnd(text, i) == d && StartsWith(text, d, first) && StartsWith(text, d + |first|, tail)
    ensures i + |WriteItems(items, indent, depth).text| == d + |first| + |tail|
  {
    hide Write, Margin, WriteItems, StartsWith, WsEnd;
    var m;
    m, first, tail := ItemsForm(items, indent, depth);
    ItemsOpen(items, indent, depth, text, i);
    ItemPlaces(text, i, m, first, tail);
    d := i + |m|;
  }

  lemma ItemPlaces(text: string, i: nat, m: string, first: string, tail: string)
    requires StartsWith(text, i, m + (first + tail))
    ensures StartsWith(text, i + |m|, first) && StartsWith(text, i + |m| + |first|, tail)
  {
    hide *;
    Cut(text, i, m, first + tail);
    Cut(text, i + |m|, first, tail);
  }

  lemma DeeperItem(items: seq<Json>)
    requires items != []
    ensures DepthAll(items) == Larger(Depth(items[0]), DepthAll(items[1..]))
    ensures |items| == 1 ==> DepthAll(items[1..]) == 0
  {
  }

  /** After an item comes a comma, or the margin and the bracket. */
  lemma AfterItem(last: bool, tail: string, indent: nat, outer: nat, text: string, e: nat)
    requires last <==> tail == ""
    requires !last ==> tail[0] == ',' && StartsWith(text, e, tail)
    requires last ==> StartsWith(text, e, Margin(indent, outer) + "]") || StartsWith(text, e, Margin(indent, outer) + "}")
    ensures Ends(text, e)
    ensures !last ==> WsEnd(text, e) == e && Is(text, e, ',') && StartsWith(text, e, "," + tail[1..])
    ensures last ==> var k := e + |Margin(indent, outer)|;
      WsEnd(text, e) == k && (StartsWith(text, e, Margin(indent, outer) + "]") ==> Is(text, k, ']'))
      && (StartsWith(text, e, Margin(indent, outer) + "}") ==> Is(text, k, '}'))
  {
    if last {
      var m := Margin(indent, outer);
      var c := if StartsWith(text, e, m + "]") then "]" else "}";
      Cut(text, e, m, c);
      CharAt(text, e + |m|, c, 0);
      MarginSkipped(text, e, indent, outer);
      if m != "" { CharAt(text, e, m, 0); }
    } else {
      assert tail == "," + tail[1..];
      CharAt(text, e, tail, 0);
    }
  }

  /** The comma leads to the rest. */
  lemma Separated(last: bool, tail: string, rest: string, indent: nat, outer: nat, text: string, e: nat)
    requires tail == if last then "" else "," + rest
    requires !last ==> StartsWith(text, e, tail)
    requires last ==> StartsWith(text, e, Margin(indent, outer) + "]") || StartsWith(text, e, Margin(indent, outer) + "}")
    ensures Ends(text, e)
    ensures !last ==> WsEnd(text, e) == e && Is(text, e, ',') && StartsWith(text, e + 1, rest) && |tail| == |rest| + 1
    ensures last ==> var k := e + |Margin(indent, outer)|;
      && WsEnd(text, e) == k && |tail| == 0
      && (StartsWith(text, e, Margin(indent, outer) + "]") ==> Is(text, k, ']'))
      && (StartsWith(text, e, Margin(indent, outer) + "}") ==> Is(text, k, '}'))
  {
    hide *;
    AfterItem(last, tail, indent, outer, text, e);
    if !last { Cut(text, e, ",", rest); }
  }

  // ---- maps

  lemma MembersForm(entries: seq<Entry>, indent: nat, depth: nat) returns (m: string, key: string, first: string, tail: string)
    requires entries != [] && WriteMembers(entries, indent, depth).Text?
    ensures Write(entries[0].value, indent, depth) == Text(first) && m == Margin(indent, depth) && key == Quote(entries[0].key)
    ensures WriteMembers(entries[1..], indent, depth).Text?
    ensures tail == (if |entries| == 1 then "" else "," + WriteMembers(entries[1..], indent, depth).text)
    ensures WriteMembers(entries, indent, depth).text == m + (key + (Colon(indent) + (first + tail)))
  {
    hide Write, Margin, Quote, Colon;
    m, first, key := Margin(indent, depth), Write(entries[0].value, indent, depth).text, Quote(entries[0].key);
    tail := if |entries| == 1 then "" else "," + WriteMembers(entries[1..], indent, depth).text;
    if |entries| == 1 { assert entries[1..] == []; }
    var rest := WriteMembers(entries[1..], indent, depth).text;
    assert m + key + Colon(indent) + first + (if |entries| == 1 then "" else ",") + rest
      == m + (key + (Colon(indent) + (first + tail)));
  }

  /** Where a member's parts stand: its key, its colon, its value and what comes after. */
  lemma MemberPlaces(name: string, indent: nat, depth: nat, first: string, tail: string, text: string, i: nat)
    returns (a: nat, b: nat, d: nat)
    requires Opens(first)
    requires StartsWith(text, i, Margin(indent, depth) + (Quote(name) + (Colon(indent) + (first + tail))))
    ensures a == i + |Margin(indent, depth)| && b == a + |Quote(name)| && d == b + |Colon(indent)|
    ensures WsEnd(text, i) == a && Is(text, a, '\"') && ReadString(text, a) == Got(name, b)
    ensures WsEnd(text, b) == b && Is(text, b, ':') && WsEnd(text, b + 1) == d
    ensures StartsWith(text, d, first) && StartsWith(text, d + |first|, tail)
  {
    hide *;
    var m, key, colon := Margin(indent, depth), Quote(name), Colon(indent);
    a := i + |m|;
    b := a + |key|;
    d := b + |colon|;
    Cut(text, i, m, key + (colon + (first + tail)));
    Cut(text, a, key, colon + (first + tail));
    Cut(text, b, colon, first + tail);
    Cut(text, d, first, tail);
    KeyPlace(text, i, indent, depth, name);
    ColonPlace(text, b, indent, d, first);
  }

  lemma KeyPlace(text: string, i: nat, indent: nat, depth: nat, name: string)
    requires StartsWith(text, i, Margin(indent, depth)) && StartsWith(text, i + |Margin(indent, depth)|, Quote(name))
    ensures var a := i + |Margin(indent, depth)|;
      WsEnd(text, i) == a && Is(text, a, '\"') && ReadString(text, a) == Got(name, a + |Quote(name)|)
  {
    hide Margin, Quote, ReadString;
    StringBack(name, text, i + |Margin(indent, depth)|);
    MarginSkipped(text, i, indent, depth);
  }

  lemma ColonPlace(text: string, b: nat, indent: nat, d: nat, first: string)
    requires StartsWith(text, b, Colon(indent)) && d == b + |Colon(indent)| && StartsWith(text, d, first) && Opens(first)
    ensures WsEnd(text, b) == b && Is(text, b, ':') && WsEnd(text, b + 1) == d
  {
    CharAt(text, b, Colon(indent), 0);
    CharAt(text, d, first, 0);
    ColonSkipped(text, b, indent, d);
  }

  /** Reading one member, its places known. */
  lemma ReadMember(text: string, i: nat, depth: nat, out: seq<Entry>, name: string, a: nat, b: nat, d: nat)
    requires WsEnd(text, i) == a && Is(text, a, '\"') && ReadString(text, a) == Got(name, b)
    requires WsEnd(text, b) == b && Is(text, b, ':') && WsEnd(text, b + 1) == d
    ensures ReadMembers(text, i, depth, out) ==
      match ReadValue(text, d, depth)
      case Bad(at) => Bad(at)
      case BadDecimal => BadDecimal
      case Got(v, j) =>
        var k := WsEnd(text, j);
        if Is(text, k, ',') then ReadMembers(text, k + 1, depth, SetEntry(out, name, v))
        else if Is(text, k, '}') then Got(Obj(SetEntry(out, name, v)), k + 1)
        else Bad(k)
  {
    hide ReadValue, ReadString, SetEntry, WsEnd;
  }

  lemma ColonSkipped(text: string, b: nat, indent: nat, d: nat)
    requires StartsWith(text, b, Colon(indent)) && d == b + |Colon(indent)| && d < |text| && !IsWs(text[d])
    ensures WsEnd(text, b + 1) == d
  {
    assert Colon(indent) == ":" + Colon(indent)[1..];
    Cut(text, b, ":", Colon(indent)[1..]);
    WsSkipped(text, b + 1, Colon(indent)[1..]);
  }

  lemma ObjectBack(entries: seq<Entry>, indent: nat, depth: nat, text: string, i: nat)
    requires Exact(Obj(entries)) && depth <= MAX_DEPTH && Write(Obj(entries), indent, depth).Text?
    requires StartsWith(text, i, Write(Obj(entries), indent, depth).text)
    ensures Back(Obj(entries), Write(Obj(entries), indent, depth).text, text, i, depth)
    decreases entries, 2
  {
    hide WriteMembers, ReadMembers, ReadValue, Margin, StartsWith, WsEnd, Exact, EntriesAsRead;
    var w := Write(Obj(entries), indent, depth).text;
    CharAt(text, i, w, 0);
    ReadBrace(text, i, depth);
    if entries == [] {
      CharAt(text, i, w, 1);
      Nothing(text, i + 1);
      assert DepthEntries(entries) == 0;
      NothingAsRead();
    } else {
      var inner, close := WriteMembers(entries, indent, depth + 1).text, Margin(indent, depth) + "}";
      assert w == "{" + (inner + close);
      Cut(text, i, "{", inner + close);
      if depth < MAX_DEPTH {
        Cut(text, i + 1, inner, close);
        ExactParts(entries);
        MembersOpen(entries, indent, depth + 1, text, i + 1);
        assert [] + entries == entries;
        if EntriesAsRead(entries).Some? { assert [] + EntriesAsRead(entries).value == EntriesAsRead(entries).value; }
        MembersBack(entries, indent, depth + 1, depth, text, i + 1, []);
      }
    }
  }

  lemma ExactParts(entries: seq<Entry>)
    requires Exact(Obj(entries))
    ensures DistinctKeys(entries) && EntriesExact(entries) && (entries != [] ==> Exact(entries[0].value))
  {
  }

  lemma NothingAsRead()
    ensures ItemsAsRead([]) == Some([]) && EntriesAsRead([]) == Some([])
  {
  }

  lemma Nothing(text: string, i: nat)
    requires i < |text| && !IsWs(text[i])
    ensures WsEnd(text, i) == i
  {
  }

  lemma MembersOpen(entries: seq<Entry>, indent: nat, depth: nat, text: string, i: nat)
    requires entries != [] && Exact(entries[0].value) && WriteMembers(entries, indent, depth).Text?
    requires StartsWith(text, i, WriteMembers(entries, indent, depth).text)
    ensures !Is(text, WsEnd(text, i), '}')
  {
    hide Write, Margin, WriteMembers, StartsWith, ReadString, Quote, Colon, WsEnd;
    var m, key, first, tail := MembersForm(entries, indent, depth);
    WriteOpens(entries[0].value, indent, depth);
    var a, b, d := MemberPlaces(entries[0].key, indent, depth, first, tail, text, i);
  }

  /** From i on stands the key, from b on the colon, and the value from d on. */
  ghost predicate KeyAt(key: string, text: string, i: nat, a: nat, b: nat, d: nat) {
    && WsEnd(text, i) == a && Is(text, a, '\"') && ReadString(text, a) == Got(key, b)
    && WsEnd(text, b) == b && Is(text, b, ':') && WsEnd(text, b + 1) == d
  }

  lemma MemberParts(entries: seq<Entry>, indent: nat, depth: nat, text: string, i: nat)
    returns (a: nat, b: nat, d: nat, first: string, tail: string)
    requires entries != [] && Exact(entries[0].value) && WriteMembers(entries, indent, depth).Text?
    requires StartsWith(text, i, WriteMembers(entries, indent, depth).text)
    ensures Write(entries[0].value, indent, depth) == Text(first) && WriteMembers(entries[1..], indent, depth).Text?
    ensures tail == (if |entries| == 1 then "" else "," + WriteMembers(entries[1..], indent, depth).text)
    ensures KeyAt(entries[0].key, text, i, a, b, d)
    ensures StartsWith(text, d, first) && StartsWith(text, d + |first|, tail)
    ensures i + |WriteMembers(entries, indent, depth).text| == d + |first| + |tail|
  {
    hide Write, Margin, WriteMembers, StartsWith, ReadString, Quote, Colon, WsEnd;
    var m, key;
    m, key, first, tail := MembersForm(entries, indent, depth);
    WriteOpens(entries[0].value, indent, depth);
    a, b, d := MemberPlaces(entries[0].key, indent, depth, first, tail, text, i);
  }

  ghost predicate MembersRead(entries: seq<Entry>, text: string, i: nat, depth: nat, out: seq<Entry>, end: nat) {
    match EntriesAsRead(entries)
    case Some(us) =>
      if depth + DepthEntries(entries) <= MAX_DEPTH then ReadMembers(text, i, depth, out) == Got(Obj(out + us), end)
      else ReadMembers(text, i, depth, out).Bad?
    case None => !ReadMembers(text, i, depth, out).Got?
  }

  function EntryTo(e: Entry): Entry {
    Entry(e.key, ReadTo(e.value))
  }

  lemma {:induction false} NewKey(out: seq<Entry>, key: string, value: Json)
    requires forall k :: 0 <= k < |out| ==> out[k].key != key
    ensures SetEntry(out, key, value) == out + [Entry(key, value)]
    decreases |out|
  {
    if out != [] { NewKey(out[1..], key, value); }
  }

  ghost predicate EntriesExact(entries: seq<Entry>) {
    forall k :: 0 <= k < |entries| ==> Exact(entries[k].value)
  }

  lemma ExactRest(entries: seq<Entry>)
    requires entries != [] && EntriesExact(entries)
    ensures Exact(entries[0].value) && EntriesExact(entries[1..])
  {
    hide Exact;
  }

  lemma {:induction false} MembersBack(entries: seq<Entry>, indent: nat, depth: nat, outer: nat, text: string, i: nat, out: seq<Entry>)
    requires entries != [] && EntriesExact(entries) && depth <= MAX_DEPTH
    requires DistinctKeys(out + entries)
    requires WriteMembers(entries, indent, depth).Text?
    requires StartsWith(text, i, WriteMembers(entries, indent, depth).text)
    requires StartsWith(text, i + |WriteMembers(entries, indent, depth).text|, Margin(indent, outer) + "}")
    ensures MembersRead(entries, text, i, depth, out, i + |WriteMembers(entries, indent, depth).text| + |Margin(indent, outer)| + 1)
    decreases entries, 1
  {
    hide *;
    var v, rest, more := entries[0].value, entries[1..], out + [EntryTo(entries[0])];
    ExactRest(entries);
    var a, b, d, first, tail := MemberParts(entries, indent, depth, text, i);
    var e := d + |first|;
    Separated(|entries| == 1, tail, WriteMembers(rest, indent, depth).text, indent, outer, text, e);
    ValueBack(v, indent, depth, text, d);
    var end := i + |WriteMembers(entries, indent, depth).text| + |Margin(indent, outer)| + 1;
    NewKeyHere(out, entries);
    if |entries| > 1 {
      assert rest != [];
      MembersBack(rest, indent, depth, outer, text, e + 1, more);
    }
    MembersConclude(entries, first, text, i, depth, out, a, b, d, end);
  }

  lemma MembersConclude(entries: seq<Entry>, first: string, text: string, i: nat, depth: nat, out: seq<Entry>,
                        a: nat, b: nat, d: nat, end: nat)
    requires entries != [] && Back(entries[0].value, first, text, d, depth) && KeyAt(entries[0].key, text, i, a, b, d)
    requires SetEntry(out, entries[0].key, ReadTo(entries[0].value)) == out + [EntryTo(entries[0])]
    requires |entries| == 1 ==> Is(text, WsEnd(text, d + |first|), '}') && end == WsEnd(text, d + |first|) + 1
    requires |entries| > 1 ==> WsEnd(text, d + |first|) == d + |first| && Is(text, d + |first|, ',')
    requires |entries| > 1 ==> MembersRead(entries[1..], text, d + |first| + 1, depth, out + [EntryTo(entries[0])], end)
    ensures MembersRead(entries, text, i, depth, out, end)
  {
    hide ReadValue, ReadMembers, ReadString, SetEntry, WsEnd, Depth, DepthEntries, AsRead, EntriesAsRead;
    ReadMember(text, i, depth, out, entries[0].key, a, b, d);
    DeeperOfTwo(entries);
    FirstEntryAsRead(entries, out);
  }

  lemma OneAcross<T>(out: seq<T>, more: seq<T>)
    requires more != []
    ensures (out + [more[0]]) + more[1..] == out + more
    ensures |more| == 1 ==> out + [more[0]] == out + more
  {
  }

  lemma DeeperOfTwo(entries: seq<Entry>)
    requires entries != []
    ensures DepthEntries(entries) == Larger(Depth(entries[0].value), DepthEntries(entries[1..]))
    ensures |entries| == 1 ==> DepthEntries(entries[1..]) == 0
  {
  }

  lemma NewKeyHere(out: seq<Entry>, entries: seq<Entry>)
    requires entries != [] && DistinctKeys(out + entries)
    ensures SetEntry(out, entries[0].key, ReadTo(entries[0].value)) == out + [EntryTo(entries[0])]
    ensures DistinctKeys((out + [EntryTo(entries[0])]) + entries[1..])
  {
    hide ReadTo;
    var all, more := out + entries, (out + [EntryTo(entries[0])]) + entries[1..];
    assert |more| == |all| && forall k :: 0 <= k < |all| ==> more[k].key == all[k].key;
    forall k | 0 <= k < |out| ensures out[k].key != entries[0].key {
      assert all[k] == out[k] && all[|out|] == entries[0];
    }
    NewKey(out, entries[0].key, ReadTo(entries[0].value));
  }

  // ---- documents -----------------------------------------------------------------------------------------------------

  lemma {:induction false} WriteWorks(v: Json, indent: nat, depth: nat)
    ensures Write(v, indent, depth).Text? <==> Depth(v) == 0 || depth + Depth(v) <= MAX_DEPTH + 1
    decreases v, 0
  {
    match v
    case Arr(items) => ItemsWork(items, indent, depth + 1);
    case Obj(entries) => MembersWork(entries, indent, depth + 1);
    case _ =>
  }

  lemma {:induction false} ItemsWork(items: seq<Json>, indent: nat, depth: nat)
    ensures WriteItems(items, indent, depth).Text? <==> DepthAll(items) == 0 || depth + DepthAll(items) <= MAX_DEPTH + 1
    decreases items, 0
  {
    if items != [] {
      WriteWorks(items[0], indent, depth);
      ItemsWork(items[1..], indent, depth);
    }
  }

  lemma {:induction false} MembersWork(entries: seq<Entry>, indent: nat, depth: nat)
    ensures WriteMembers(entries, indent, depth).Text? <==> DepthEntries(entries) == 0 || depth + DepthEntries(entries) <= MAX_DEPTH + 1
    decreases entries, 0
  {
    if entries != [] {
      WriteWorks(entries[0].value, indent, depth);
      MembersWork(entries[1..], indent, depth);
    }
  }

  // ---- which values survive ------------------------------------------------------------------------------------------

  lemma {:induction false} SurvivesIf(v: Json)
    requires Exact(v)
    ensures AsRead(v) == Some(v) <==> Faithful(v)
    decreases v, 0
  {
    match v
    case Arr(items) =>
      ItemsSurviveIf(items);
    case Obj(entries) =>
      EntriesSurviveIf(entries);
    case _ =>
  }

  lemma {:induction false} ItemsSurviveIf(items: seq<Json>)
    requires forall k :: 0 <= k < |items| ==> Exact(items[k])
    ensures ItemsAsRead(items) == Some(items) <==> forall k :: 0 <= k < |items| ==> Faithful(items[k])
    decreases items, 1
  {
    hide Faithful, Exact, AsRead;
    if items != [] {
      SurvivesIf(items[0]);
      ItemsSurviveIf(items[1..]);
      assert items == [items[0]] + items[1..];
      assert (forall k :: 0 <= k < |items| ==> Faithful(items[k])) <==>
        Faithful(items[0]) && forall k :: 0 <= k < |items[1..]| ==> Faithful(items[1..][k]) by { HeadAndTail(items); }
    }
  }

  lemma HeadAndTail(items: seq<Json>)
    requires items != []
    ensures (forall k :: 0 <= k < |items| ==> Faithful(items[k])) <==>
      Faithful(items[0]) && forall k :: 0 <= k < |items[1..]| ==> Faithful(items[1..][k])
  {
    hide Faithful;
    if Faithful(items[0]) && forall k :: 0 <= k < |items[1..]| ==> Faithful(items[1..][k]) {
      forall k | 0 <= k < |items| ensures Faithful(items[k]) {
        if k > 0 { assert items[k] == items[1..][k - 1]; }
      }
    }
  }

  lemma {:induction false} EntriesSurviveIf(entries: seq<Entry>)
    requires forall k :: 0 <= k < |entries| ==> Exact(entries[k].value)
    ensures EntriesAsRead(entries) == Some(entries) <==> forall k :: 0 <= k < |entries| ==> Faithful(entries[k].value)
    decreases entries, 1
  {
    hide Faithful, Exact, AsRead;
    if entries != [] {
      SurvivesIf(entries[0].value);
      EntriesSurviveIf(entries[1..]);
      assert entries == [entries[0]] + entries[1..];
      HeadAndTailEntries(entries);
    }
  }

  lemma HeadAndTailEntries(entries: seq<Entry>)
    requires entries != []
    ensures (forall k :: 0 <= k < |entries| ==> Faithful(entries[k].value)) <==>
      Faithful(entries[0].value) && forall k :: 0 <= k < |entries[1..]| ==> Faithful(entries[1..][k].value)
  {
    hide Faithful;
    if Faithful(entries[0].value) && forall k :: 0 <= k < |entries[1..]| ==> Faithful(entries[1..][k].value) {
      forall k | 0 <= k < |entries| ensures Faithful(entries[k].value) {
        if k > 0 { assert entries[k] == entries[1..][k - 1]; }
      }
    }
  }

  /** Whatever is written, with any indent, is read as what its text says, if that is something and it nests no
      deeper than the reader goes; the writer itself goes one level deeper, and what it writes there the reader
      refuses. */
  lemma WrittenIsRead(v: Json, indent: nat)
    requires Exact(v)
    ensures Write(v, indent, 0).Text? <==> Depth(v) <= MAX_DEPTH + 1
    ensures Depth(v) <= MAX_DEPTH + 1 ==>
      var w := Write(v, indent, 0).text;
      match AsRead(v)
      case Some(u) => if Depth(v) <= MAX_DEPTH then ParseJson(w) == Got(u, |w|) else ParseJson(w).Bad?
      case None => !ParseJson(w).Got?
  {
    hide Write, ReadValue, AsRead;
    WriteWorks(v, indent, 0);
    if Depth(v) <= MAX_DEPTH + 1 {
      var w := Write(v, indent, 0).text;
      assert w[0..0 + |w|] == w;
      WriteOpens(v, indent, 0);
      ValueBack(v, indent, 0, w, 0);
    }
  }

  /** And it is the value itself that is read exactly when its integers are those a num keeps, its decimals have
      1 to 34 places, and it nests at most as deep as the reader goes. */
  lemma RoundTrip(v: Json, indent: nat)
    requires Exact(v)
    ensures Write(v, indent, 0).Text? <==> Depth(v) <= MAX_DEPTH + 1
    ensures Depth(v) <= MAX_DEPTH + 1 ==>
      var w := Write(v, indent, 0).text;
      (ParseJson(w) == Got(v, |w|) <==> Faithful(v) && Depth(v) <= MAX_DEPTH)
    ensures Faithful(v) && Depth(v) == MAX_DEPTH + 1 ==> ParseJson(Write(v, indent, 0).text).Bad?
  {
    hide Write, AsRead, ParseJson, Faithful, Exact;
    WrittenIsRead(v, indent);
    SurvivesIf(v);
  }
}
