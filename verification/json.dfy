/** JSON: the reader, place by place, and the writer. A string is a sequence of 16-bit units, as JavaScript
    keeps it; each unit is one character here, half of a surrogate pair standing for itself past the end of
    the units (`UnitChar`), where a character of its own code has no place. */
module Json {
  import opened Text
  import opened Decimals
  import opened DecimalText

  /** `Float` is a number that is not kept exactly: an integer too large for that, or one with an exponent. */
  datatype Json =
    | Null
    | Bool(b: bool)
    | Int(n: int)
    | Float(literal: string)
    | Dec(d: Decimal)
    | Str(s: string)
    | Arr(items: seq<Json>)
    | Obj(entries: seq<Entry>)

  datatype Entry = Entry(key: string, value: Json)

  const MAX_DEPTH := 200

  const MAX_SAFE := 9007199254740991

  predicate Safe(n: int) {
    -MAX_SAFE <= n <= MAX_SAFE
  }

  // ---- reading -----------------------------------------------------------------------------------------

  /** What was read and where reading goes on; or where it failed. A decimal with too many digits is refused
      by the decimal's own parser. */
  datatype Read<T> = Got(value: T, i: nat) | Bad(at: nat) | BadDecimal

  predicate IsWs(c: char) {
    c == ' ' || c == '\t' || c == '\n' || c == '\r'
  }

  function WsEnd(text: string, i: nat): (j: nat)
    ensures i <= j && (i <= |text| ==> j <= |text|)
    ensures j < |text| ==> !IsWs(text[j])
    decreases |text| - i
  {
    if i < |text| && IsWs(text[i]) then WsEnd(text, i + 1) else i
  }

  predicate Is(text: string, i: nat, c: char) {
    i < |text| && text[i] == c
  }

  predicate IsDigitAt(text: string, i: nat) {
    i < |text| && IsDigit(text[i])
  }

  predicate StartsWith(text: string, i: nat, word: string) {
    i + |word| <= |text| && text[i..i + |word|] == word
  }

  function ReadLiteral(text: string, i: nat, word: string, value: Json): Read<Json> {
    if StartsWith(text, i, word) then Got(value, i + |word|) else Bad(i)
  }

  // ---- numbers

  /** The end of the whole part of a number, or where it fails. */
  function WholeEnd(text: string, i: nat): (r: Read<()>)
    requires i < |text|
    ensures r.Got? ==> i < r.i <= |text|
  {
    var a := if text[i] == '-' then i + 1 else i;
    if Is(text, a, '0') then Got((), a + 1)
    else if !IsDigitAt(text, a) then Bad(a)
    else Got((), DigitsEnd(text, a))
  }

  /** The end of the digits that must follow. */
  function SomeDigits(text: string, i: nat): (r: Read<()>)
    ensures r.Got? ==> i < r.i <= |text|
  {
    if IsDigitAt(text, i) then Got((), DigitsEnd(text, i)) else Bad(i)
  }

  function FractionEnd(text: string, i: nat): (r: Read<()>)
    requires i <= |text|
    ensures r.Got? ==> i <= r.i <= |text|
  {
    if Is(text, i, '.') then SomeDigits(text, i + 1) else Got((), i)
  }

  predicate IsExponent(text: string, i: nat) {
    Is(text, i, 'e') || Is(text, i, 'E')
  }

  function ExponentEnd(text: string, i: nat): (r: Read<()>)
    requires i <= |text|
    ensures r.Got? ==> i <= r.i <= |text|
  {
    if !IsExponent(text, i) then Got((), i)
    else SomeDigits(text, if Is(text, i + 1, '+') || Is(text, i + 1, '-') then i + 2 else i + 1)
  }

  /** The integer a literal without point or exponent is, if it is kept exactly. */
  function IntegerOf(literal: string): Json
    requires literal != "" && AllDigits(literal[1..]) && (literal[0] == '-' || IsDigit(literal[0]))
  {
    var v: int := if literal[0] == '-' then Number(literal[1..]) else Number(literal);
    var n := if literal[0] == '-' then -v else v;
    if Safe(n) then Int(n) else Float(literal)
  }

  function ReadNumber(text: string, i: nat): (r: Read<Json>)
    requires i < |text| && (text[i] == '-' || IsDigit(text[i]))
    ensures r.Got? ==> i < r.i <= |text|
  {
    match WholeEnd(text, i)
    case Bad(at) => Bad(at)
    case BadDecimal => BadDecimal
    case Got(_, j) =>
      match FractionEnd(text, j)
      case Bad(at) => Bad(at)
      case BadDecimal => BadDecimal
      case Got(_, k) =>
        match ExponentEnd(text, k)
        case Bad(at) => Bad(at)
        case BadDecimal => BadDecimal
        case Got(_, e) =>
          if Is(text, j, '.') && !IsExponent(text, k) then
            match Parse(text[i..e])
            case Ok(d) => Got(Dec(d), e)
            case Err(_) => BadDecimal
          else if !Is(text, j, '.') && !IsExponent(text, k) then
            WholeIsInteger(text, i);
            Got(IntegerOf(text[i..e]), e)
          else Got(Float(text[i..e]), e)
  }

  lemma WholeIsInteger(text: string, i: nat)
    requires i < |text| && (text[i] == '-' || IsDigit(text[i])) && WholeEnd(text, i).Got?
    ensures var s := text[i..WholeEnd(text, i).i];
      s != "" && AllDigits(s[1..]) && (s[0] == '-' || IsDigit(s[0]))
  {
  }

  // ---- strings

  predicate IsHex(c: char) {
    IsDigit(c) || 'a' <= c <= 'f' || 'A' <= c <= 'F'
  }

  function HexValue(c: char): nat
    requires IsHex(c)
  {
    if IsDigit(c) then c as int - '0' as int
    else if c >= 'a' then c as int - 'a' as int + 10
    else c as int - 'A' as int + 10
  }

  /** The character that stands for a unit. */
  function UnitChar(u: nat): char
    requires u < 0x10000
  {
    if 0xD800 <= u < 0xE000 then (u - 0xD800 + 0x10000) as char else u as char
  }

  lemma UnitsApart(u: nat, v: nat)
    requires u < 0x10000 && v < 0x10000 && u != v
    ensures UnitChar(u) != UnitChar(v)
  {
  }

  /** The unit an escape stands for, the backslash being at i. */
  function ReadEscape(text: string, i: nat): (r: Read<char>)
    requires i < |text|
    ensures r.Got? ==> i < r.i <= |text|
  {
    if i + 1 >= |text| then Bad(i + 2) else
      match text[i + 1]
      case '\"' => Got('\"', i + 2)
      case '\\' => Got('\\', i + 2)
      case '/' => Got('/', i + 2)
      case 'b' => Got(8 as char, i + 2)
      case 'f' => Got(12 as char, i + 2)
      case 'n' => Got('\n', i + 2)
      case 'r' => Got('\r', i + 2)
      case 't' => Got('\t', i + 2)
      case 'u' =>
        if i + 6 <= |text| && IsHex(text[i + 2]) && IsHex(text[i + 3]) && IsHex(text[i + 4]) && IsHex(text[i + 5]) then
          var u := ((HexValue(text[i + 2]) * 16 + HexValue(text[i + 3])) * 16 + HexValue(text[i + 4])) * 16 + HexValue(text[i + 5]);
          Got(UnitChar(u), i + 6)
        else Bad(i + 2)
      case _ => Bad(i + 2)
  }

  /** The rest of a string that started at `start`. */
  function ReadChars(text: string, start: nat, i: nat, out: string): (r: Read<string>)
    ensures r.Got? ==> i < r.i <= |text|
    decreases |text| - i
  {
    if i >= |text| then Bad(start)
    else if text[i] == '\"' then Got(out, i + 1)
    else if text[i] == '\\' then
      match ReadEscape(text, i)
      case Got(c, j) => ReadChars(text, start, j, out + [c])
      case Bad(at) => Bad(at)
      case BadDecimal => BadDecimal
    else if text[i] as int < 0x20 then Bad(i)
    else ReadChars(text, start, i + 1, out + [text[i]])
  }

  function ReadString(text: string, i: nat): (r: Read<string>)
    ensures r.Got? ==> i < r.i <= |text|
  {
    ReadChars(text, i, i + 1, "")
  }

  // ---- values

  /** A key that is there already keeps its place and takes the new value. */
  function SetEntry(entries: seq<Entry>, key: string, value: Json): seq<Entry> {
    if entries == [] then [Entry(key, value)]
    else if entries[0].key == key then [Entry(key, value)] + entries[1..]
    else [entries[0]] + SetEntry(entries[1..], key, value)
  }

  function ReadValue(text: string, i: nat, depth: nat): (r: Read<Json>)
    ensures r.Got? ==> i < r.i <= |text|
    decreases |text| - i, 1
  {
    if i >= |text| then Bad(i) else
      var c := text[i];
      if c == '{' then
        if depth >= MAX_DEPTH then Bad(i) else
          var j := WsEnd(text, i + 1);
          if Is(text, j, '}') then Got(Obj([]), j + 1) else ReadMembers(text, i + 1, depth + 1, [])
      else if c == '[' then
        if depth >= MAX_DEPTH then Bad(i) else
          var j := WsEnd(text, i + 1);
          if Is(text, j, ']') then Got(Arr([]), j + 1) else ReadItems(text, i + 1, depth + 1, [])
      else if c == '\"' then
        match ReadString(text, i)
        case Got(s, j) => Got(Str(s), j)
        case Bad(at) => Bad(at)
        case BadDecimal => BadDecimal
      else if c == 't' then ReadLiteral(text, i, "true", Bool(true))
      else if c == 'f' then ReadLiteral(text, i, "false", Bool(false))
      else if c == 'n' then ReadLiteral(text, i, "null", Null)
      else if c == '-' || IsDigit(c) then ReadNumber(text, i)
      else Bad(i)
  }

  /** The items of an array from i on, after those already read. */
  function ReadItems(text: string, i: nat, depth: nat, out: seq<Json>): (r: Read<Json>)
    ensures r.Got? ==> i < r.i <= |text|
    decreases |text| - i, 2
  {
    match ReadValue(text, WsEnd(text, i), depth)
    case Bad(at) => Bad(at)
    case BadDecimal => BadDecimal
    case Got(v, j) =>
      var k := WsEnd(text, j);
      if Is(text, k, ',') then ReadItems(text, k + 1, depth, out + [v])
      else if Is(text, k, ']') then Got(Arr(out + [v]), k + 1)
      else Bad(k)
  }

  function ReadMembers(text: string, i: nat, depth: nat, out: seq<Entry>): (r: Read<Json>)
    ensures r.Got? ==> i < r.i <= |text|
    decreases |text| - i, 2
  {
    var a := WsEnd(text, i);
    if !Is(text, a, '\"') then Bad(a) else
      match ReadString(text, a)
      case Bad(at) => Bad(at)
      case BadDecimal => BadDecimal
      case Got(key, b) =>
        var c := WsEnd(text, b);
        if !Is(text, c, ':') then Bad(c) else
          match ReadValue(text, WsEnd(text, c + 1), depth)
          case Bad(at) => Bad(at)
          case BadDecimal => BadDecimal
          case Got(v, j) =>
            var k := WsEnd(text, j);
            if Is(text, k, ',') then ReadMembers(text, k + 1, depth, SetEntry(out, key, v))
            else if Is(text, k, '}') then Got(Obj(SetEntry(out, key, v)), k + 1)
            else Bad(k)
  }

  function ParseJson(text: string): Read<Json> {
    match ReadValue(text, WsEnd(text, 0), 0)
    case Bad(at) => Bad(at)
    case BadDecimal => BadDecimal
    case Got(v, j) =>
      var k := WsEnd(text, j);
      if k < |text| then Bad(k) else Got(v, k)
  }

  // ---- one step of reading

  lemma ReadBracket(text: string, i: nat, depth: nat)
    requires i < |text| && text[i] == '['
    ensures ReadValue(text, i, depth) ==
      if depth >= MAX_DEPTH then Bad(i)
      else if Is(text, WsEnd(text, i + 1), ']') then Got(Arr([]), WsEnd(text, i + 1) + 1)
      else ReadItems(text, i + 1, depth + 1, [])
  {
    hide ReadItems, WsEnd;
  }

  lemma ReadBrace(text: string, i: nat, depth: nat)
    requires i < |text| && text[i] == '{'
    ensures ReadValue(text, i, depth) ==
      if depth >= MAX_DEPTH then Bad(i)
      else if Is(text, WsEnd(text, i + 1), '}') then Got(Obj([]), WsEnd(text, i + 1) + 1)
      else ReadMembers(text, i + 1, depth + 1, [])
  {
    hide ReadMembers, WsEnd;
  }

  /** Reading one item. */
  lemma ItemsUnfold(text: string, i: nat, depth: nat, out: seq<Json>)
    ensures ReadItems(text, i, depth, out) ==
      match ReadValue(text, WsEnd(text, i), depth)
      case Bad(at) => Bad(at)
      case BadDecimal => BadDecimal
      case Got(v, j) =>
        var k := WsEnd(text, j);
        if Is(text, k, ',') then ReadItems(text, k + 1, depth, out + [v])
        else if Is(text, k, ']') then Got(Arr(out + [v]), k + 1)
        else Bad(k)
  {
    hide ReadValue, WsEnd;
  }

  // ---- writing ---------------------------------------------------------------------------------------------

  function HexDigit(n: nat): char
    requires n < 16
  {
    if n < 10 then '0' + n as char else 'a' + (n - 10) as char
  }

  function QuoteChar(c: char): string {
    if c == '\"' then ['\\', '\"']
    else if c == '\\' then ['\\', '\\']
    else if c == 8 as char then "\\b"
    else if c == 12 as char then "\\f"
    else if c == '\n' then "\\n"
    else if c == '\r' then "\\r"
    else if c == '\t' then "\\t"
    else if c as int < 0x20 then "\\u00" + [HexDigit(c as int / 16), HexDigit(c as int % 16)]
    else [c]
  }

  function QuoteChars(s: string): string {
    if s == "" then "" else QuoteChar(s[0]) + QuoteChars(s[1..])
  }

  function Quote(s: string): string {
    ['\"'] + QuoteChars(s) + ['\"']
  }

  function Spaces(n: nat): string {
    seq(n, _ => ' ')
  }

  /** The line break and the margin, when there is an indent. */
  function Margin(indent: nat, depth: nat): string {
    if indent == 0 then "" else "\n" + Spaces(indent * depth)
  }

  function Colon(indent: nat): string {
    if indent == 0 then ":" else ": "
  }

  /** How deep lists and maps nest in it. */
  function Depth(v: Json): nat {
    match v
    case Arr(items) => 1 + DepthAll(items)
    case Obj(entries) => 1 + DepthEntries(entries)
    case _ => 0
  }

  function DepthAll(items: seq<Json>): nat {
    if items == [] then 0 else Larger(Depth(items[0]), DepthAll(items[1..]))
  }

  function DepthEntries(entries: seq<Entry>): nat {
    if entries == [] then 0 else Larger(Depth(entries[0].value), DepthEntries(entries[1..]))
  }

  function Larger(a: nat, b: nat): nat {
    if a >= b then a else b
  }

  datatype Written = Text(text: string) | TooDeep

  /** A list or map more than `MAX_DEPTH` deep inside others is refused. */
  function Write(v: Json, indent: nat, depth: nat): Written
    decreases v
  {
    match v
    case Null => Text("null")
    case Bool(b) => Text(if b then "true" else "false")
    case Str(s) => Text(Quote(s))
    case Int(n) => Text(IntText(n))
    case Float(literal) => Text(literal)
    case Dec(d) => Text(Show(d))
    case Arr(items) =>
      if depth > MAX_DEPTH then TooDeep
      else if items == [] then Text("[]")
      else
        var inner := WriteItems(items, indent, depth + 1);
        if inner.TooDeep? then TooDeep else Text("[" + inner.text + Margin(indent, depth) + "]")
    case Obj(entries) =>
      if depth > MAX_DEPTH then TooDeep
      else if entries == [] then Text("{}")
      else
        var inner := WriteMembers(entries, indent, depth + 1);
        if inner.TooDeep? then TooDeep else Text("{" + inner.text + Margin(indent, depth) + "}")
  }

  /** The items, each on its own margin, with commas between. */
  function WriteItems(items: seq<Json>, indent: nat, depth: nat): Written
    decreases items
  {
    if items == [] then Text("") else
      var first := Write(items[0], indent, depth);
      var rest := WriteItems(items[1..], indent, depth);
      if first.TooDeep? || rest.TooDeep? then TooDeep
      else Text(Margin(indent, depth) + first.text + (if |items| == 1 then "" else ",") + rest.text)
  }

  function WriteMembers(entries: seq<Entry>, indent: nat, depth: nat): Written
    decreases entries
  {
    if entries == [] then Text("") else
      var first := Write(entries[0].value, indent, depth);
      var rest := WriteMembers(entries[1..], indent, depth);
      if first.TooDeep? || rest.TooDeep? then TooDeep
      else Text(Margin(indent, depth) + Quote(entries[0].key) + Colon(indent) + first.text
                + (if |entries| == 1 then "" else ",") + rest.text)
  }

  /** The values whose text is their own: no inexact number, and no key twice. */
  ghost predicate Exact(v: Json) {
    match v
    case Float(_) => false
    case Arr(items) => forall k :: 0 <= k < |items| ==> Exact(items[k])
    case Obj(entries) => DistinctKeys(entries) && forall k :: 0 <= k < |entries| ==> Exact(entries[k].value)
    case _ => true
  }

  /** Those of them that survive: integers a num keeps and decimals with a point. */
  ghost predicate Faithful(v: Json) {
    match v
    case Int(n) => Safe(n)
    case Float(_) => false
    case Dec(d) => 1 <= d.scale <= MAX_SCALE
    case Arr(items) => forall k :: 0 <= k < |items| ==> Faithful(items[k])
    case Obj(entries) => DistinctKeys(entries) && forall k :: 0 <= k < |entries| ==> Faithful(entries[k].value)
    case _ => true
  }

  ghost predicate DistinctKeys(entries: seq<Entry>) {
    forall k, l :: 0 <= k < l < |entries| ==> entries[k].key != entries[l].key
  }

  /** What the text of a value is read as, if it is not refused. An integer too large for a num comes back as its
      literal, a decimal without places as an integer; one with more places than a decimal may have, or with a
      negative scale, whose text ends in the point, does not come back at all. */
  function AsRead(v: Json): Option<Json> {
    match v
    case Int(n) => Some(WholeAsRead(n))
    case Dec(d) =>
      if d.scale == 0 then Some(WholeAsRead(d.c)) else if 1 <= d.scale <= MAX_SCALE then Some(v) else None
    case Arr(items) =>
      var r := ItemsAsRead(items);
      if r.None? then None else Some(Arr(r.value))
    case Obj(entries) =>
      var r := EntriesAsRead(entries);
      if r.None? then None else Some(Obj(r.value))
    case _ => Some(v)
  }

  function WholeAsRead(n: int): Json {
    if Safe(n) then Int(n) else Float(IntText(n))
  }

  function ItemsAsRead(items: seq<Json>): (r: Option<seq<Json>>)
    ensures r.Some? ==> |r.value| == |items|
  {
    if items == [] then Some([]) else
      var first, rest := AsRead(items[0]), ItemsAsRead(items[1..]);
      if first.None? || rest.None? then None else Some([first.value] + rest.value)
  }

  function EntriesAsRead(entries: seq<Entry>): (r: Option<seq<Entry>>)
    ensures r.Some? ==> |r.value| == |entries|
  {
    if entries == [] then Some([]) else
      var first, rest := AsRead(entries[0].value), EntriesAsRead(entries[1..]);
      if first.None? || rest.None? then None else Some([Entry(entries[0].key, first.value)] + rest.value)
  }
}
