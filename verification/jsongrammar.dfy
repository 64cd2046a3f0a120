/** The grammar of RFC 8259, sections 2 to 7, as derivation trees: a tree spells a text and means a value.
    The reader accepts exactly the texts that some tree spells, within two limits of its own, and returns
    what the tree means. */
module JsonGrammar {
  import opened Text
  import opened Decimals
  import opened DecimalText
  import opened Json
  import opened JsonReading
  import opened JsonRoundTrip

  // ---- derivations -------------------------------------------------------------------------------------------

  datatype Exp = Exp(letter: char, sign: string, digits: string)

  /** A character as it is, after a backslash, or by its number. */
  datatype Piece = Plain(c: char) | Short(c: char) | Four(hex: string)

  datatype Tree =
    | Word(w: Json)
    | Numeral(minus: bool, whole: string, frac: Option<string>, exp: Option<Exp>)
    | Quoted(pieces: seq<Piece>)
    | Brackets(items: seq<Slot>, blank: string)
    | Braces(members: seq<Member>, blank: string)

  /** A value and the white space around it. */
  datatype Slot = Slot(before: string, tree: Tree, after: string)

  datatype Member = Member(before: string, key: seq<Piece>, between: string, slot: Slot)

  /** Space, tab, line feed, carriage return: the white space of section 2. */
  predicate IsBlank(c: char) {
    c as int == 0x20 || c as int == 0x09 || c as int == 0x0A || c as int == 0x0D
  }

  predicate Blank(w: string) {
    forall k :: 0 <= k < |w| ==> IsBlank(w[k])
  }

  predicate SomeDigitsIn(s: string) {
    s != "" && AllDigits(s)
  }

  predicate ExpFormed(e: Exp) {
    (e.letter == 'e' || e.letter == 'E') && (e.sign == "" || e.sign == "+" || e.sign == "-") && SomeDigitsIn(e.digits)
  }

  predicate IsShort(c: char) {
    c in "\"\\/bfnrt"
  }

  predicate PieceFormed(p: Piece) {
    match p
    case Plain(c) => c != '\"' && c != '\\' && c as int >= 0x20
    case Short(c) => IsShort(c)
    case Four(hex) => |hex| == 4 && forall k :: 0 <= k < 4 ==> IsHex(hex[k])
  }

  predicate PiecesFormed(ps: seq<Piece>) {
    forall k :: 0 <= k < |ps| ==> PieceFormed(ps[k])
  }

  predicate Formed(t: Tree)
    decreases t, 0
  {
    match t
    case Word(w) => w.Null? || w.Bool?
    case Numeral(_, whole, frac, exp) =>
      Proper(whole) && (frac.Some? ==> SomeDigitsIn(frac.value)) && (exp.Some? ==> ExpFormed(exp.value))
    case Quoted(pieces) => PiecesFormed(pieces)
    case Brackets(items, blank) => Blank(blank) && SlotsFormed(items)
    case Braces(members, blank) => Blank(blank) && MembersFormed(members)
  }

  predicate SlotFormed(s: Slot)
    decreases s, 0
  {
    Blank(s.before) && Formed(s.tree) && Blank(s.after)
  }

  predicate SlotsFormed(items: seq<Slot>)
    decreases items, 0
  {
    items == [] || (SlotFormed(items[0]) && SlotsFormed(items[1..]))
  }

  predicate MembersFormed(members: seq<Member>)
    decreases members, 0
  {
    members == [] ||
    (Blank(members[0].before) && PiecesFormed(members[0].key) && Blank(members[0].between)
     && SlotFormed(members[0].slot) && MembersFormed(members[1..]))
  }

  // ---- what a derivation spells ---------------------------------------------------------------------------------

  function SpellPiece(p: Piece): string {
    match p
    case Plain(c) => [c]
    case Short(c) => ['\\', c]
    case Four(hex) => "\\u" + hex
  }

  function SpellPieces(ps: seq<Piece>): string {
    if ps == [] then "" else SpellPiece(ps[0]) + SpellPieces(ps[1..])
  }

  function SpellKey(ps: seq<Piece>): string {
    ['\"'] + (SpellPieces(ps) + ['\"'])
  }

  function Sign(minus: bool): string {
    if minus then "-" else ""
  }

  function SpellFrac(frac: Option<string>): string {
    if frac.None? then "" else "." + frac.value
  }

  function SpellExp(exp: Option<Exp>): string {
    if exp.None? then "" else [exp.value.letter] + (exp.value.sign + exp.value.digits)
  }

  function Spell(t: Tree): string
    decreases t, 0
  {
    match t
    case Word(w) => if w.Null? then "null" else if w == Bool(true) then "true" else "false"
    case Numeral(minus, whole, frac, exp) => (Sign(minus) + whole) + (SpellFrac(frac) + SpellExp(exp))
    case Quoted(pieces) => SpellKey(pieces)
    case Brackets(items, blank) => "[" + ((if items == [] then blank else SpellSlots(items)) + "]")
    case Braces(members, blank) => "{" + ((if members == [] then blank else SpellMembers(members)) + "}")
  }

  function SpellSlot(s: Slot): string
    decreases s, 0
  {
    s.before + (Spell(s.tree) + s.after)
  }

  function SpellSlots(items: seq<Slot>): string
    decreases items, 0
  {
    if items == [] then "" else SpellSlot(items[0]) + (if |items| == 1 then "" else "," + SpellSlots(items[1..]))
  }

  function SpellMember(m: Member): string
    decreases m, 0
  {
    m.before + (SpellKey(m.key) + (m.between + (":" + SpellSlot(m.slot))))
  }

  function SpellMembers(members: seq<Member>): string
    decreases members, 0
  {
    if members == [] then "" else
      SpellMember(members[0]) + (if |members| == 1 then "" else "," + SpellMembers(members[1..]))
  }

  // ---- what it means ---------------------------------------------------------------------------------------------

  function ShortMeaning(c: char): char {
    if c == 'b' then 8 as char else if c == 'f' then 12 as char else if c == 'n' then '\n'
    else if c == 'r' then '\r' else if c == 't' then '\t' else c
  }

  function PieceMeaning(p: Piece): char
    requires PieceFormed(p)
  {
    match p
    case Plain(c) => c
    case Short(c) => ShortMeaning(c)
    case Four(hex) =>
      UnitChar(((HexValue(hex[0]) * 16 + HexValue(hex[1])) * 16 + HexValue(hex[2])) * 16 + HexValue(hex[3]))
  }

  function PiecesMeaning(ps: seq<Piece>): string
    requires PiecesFormed(ps)
  {
    if ps == [] then "" else [PieceMeaning(ps[0])] + PiecesMeaning(ps[1..])
  }

  /** A numeral with a fraction and no exponent is an exact decimal, if it has no more places than one may have. */
  function NumeralMeaning(minus: bool, whole: string, frac: Option<string>, exp: Option<Exp>): Option<Json>
    requires Proper(whole)
  {
    var literal := Spell(Numeral(minus, whole, frac, exp));
    if frac.Some? && exp.None? then
      match Parse(literal)
      case Ok(d) => Some(Dec(d))
      case Err(_) => None
    else if frac.None? && exp.None? then
      NumeralIsInteger(minus, whole);
      Some(IntegerOf(literal))
    else Some(Float(literal))
  }

  lemma NumeralIsInteger(minus: bool, whole: string)
    requires Proper(whole)
    ensures var s := Spell(Numeral(minus, whole, None, None));
      s == Sign(minus) + whole && s != "" && AllDigits(s[1..]) && (s[0] == '-' || IsDigit(s[0]))
  {
    var s := Spell(Numeral(minus, whole, None, None));
    assert s == Sign(minus) + whole;
    assert IsDigit(whole[0]);
    if minus { assert s[1..] == whole; } else { assert s == whole; }
  }

  /** None when some numeral has too many places. */
  function Meaning(t: Tree): Option<Json>
    requires Formed(t)
    decreases t, 0
  {
    match t
    case Word(w) => Some(w)
    case Numeral(minus, whole, frac, exp) => NumeralMeaning(minus, whole, frac, exp)
    case Quoted(pieces) => Some(Str(PiecesMeaning(pieces)))
    case Brackets(items, _) =>
      var vs := SlotsMeaning(items);
      if vs.None? then None else Some(Arr(vs.value))
    case Braces(members, _) =>
      var es := MembersMeaning(members, []);
      if es.None? then None else Some(Obj(es.value))
  }

  function SlotsMeaning(items: seq<Slot>): Option<seq<Json>>
    requires SlotsFormed(items)
    decreases items, 0
  {
    if items == [] then Some([]) else
      assert SlotFormed(items[0]);
      var v, vs := Meaning(items[0].tree), SlotsMeaning(items[1..]);
      if v.None? || vs.None? then None else Some([v.value] + vs.value)
  }

  /** Of equal keys the last one counts, in the place of the first. */
  function MembersMeaning(members: seq<Member>, out: seq<Entry>): Option<seq<Entry>>
    requires MembersFormed(members)
    decreases members, 0
  {
    if members == [] then Some(out) else
      assert SlotFormed(members[0].slot);
      var v := Meaning(members[0].slot.tree);
      if v.None? then None
      else MembersMeaning(members[1..], SetEntry(out, PiecesMeaning(members[0].key), v.value))
  }

  function Nest(t: Tree): nat
    decreases t, 0
  {
    match t
    case Brackets(items, _) => 1 + NestSlots(items)
    case Braces(members, _) => 1 + NestMembers(members)
    case _ => 0
  }

  function NestSlots(items: seq<Slot>): nat
    decreases items, 0
  {
    if items == [] then 0 else Larger(Nest(items[0].tree), NestSlots(items[1..]))
  }

  function NestMembers(members: seq<Member>): nat
    decreases members, 0
  {
    if members == [] then 0 else Larger(Nest(members[0].slot.tree), NestMembers(members[1..]))
  }

  // ---- whatever a tree spells is read as what it means ---------------------------------------------------------------

  /** What may follow a value. */
  predicate Follows(text: string, i: nat) {
    i >= |text| || IsWs(text[i]) || text[i] == ',' || text[i] == ']' || text[i] == '}'
  }

  lemma PieceRead(p: Piece, text: string, i: nat)
    requires PieceFormed(p) && !p.Plain? && StartsWith(text, i, SpellPiece(p))
    ensures i < |text| && text[i] == '\\' && ReadEscape(text, i) == Got(PieceMeaning(p), i + |SpellPiece(p)|)
  {
    var s := SpellPiece(p);
    CharAt(text, i, s, 0);
    CharAt(text, i, s, 1);
    if p.Four? {
      CharAt(text, i, s, 2);
      CharAt(text, i, s, 3);
      CharAt(text, i, s, 4);
      CharAt(text, i, s, 5);
    }
  }

  /** One step of the reader takes a piece as what it means. */
  lemma PieceTaken(p: Piece, text: string, start: nat, i: nat, out: string)
    requires PieceFormed(p) && StartsWith(text, i, SpellPiece(p))
    ensures ReadChars(text, start, i, out) == ReadChars(text, start, i + |SpellPiece(p)|, out + [PieceMeaning(p)])
  {
    hide PieceMeaning, ReadEscape, StartsWith;
    if p.Plain? {
      CharAt(text, i, SpellPiece(p), 0);
      PlainMeans(p);
    } else {
      PieceRead(p, text, i);
    }
  }

  lemma QuoteTaken(text: string, start: nat, i: nat, out: string)
    requires StartsWith(text, i, ['\"'])
    ensures ReadChars(text, start, i, out) == Got(out, i + 1)
  {
    CharAt(text, i, ['\"'], 0);
  }

  lemma {:induction false} PiecesRead(ps: seq<Piece>, text: string, start: nat, i: nat, out: string)
    requires PiecesFormed(ps) && StartsWith(text, i, SpellPieces(ps) + ['\"'])
    ensures ReadChars(text, start, i, out) == Got(out + PiecesMeaning(ps), i + |SpellPieces(ps)| + 1)
    decreases |ps|
  {
    hide PieceMeaning, SpellPiece, PieceFormed, ReadChars, StartsWith;
    if ps == [] {
      assert "" + ['\"'] == ['\"'];
      QuoteTaken(text, start, i, out);
      assert out + "" == out;
    } else {
      var p, rest := ps[0], ps[1..];
      assert PieceFormed(p);
      var first, more := SpellPiece(p), SpellPieces(rest) + ['\"'];
      assert SpellPieces(ps) + ['\"'] == first + more;
      Cut(text, i, first, more);
      PieceTaken(p, text, start, i, out);
      PiecesRead(rest, text, start, i + |first|, out + [PieceMeaning(p)]);
      assert (out + [PieceMeaning(p)]) + PiecesMeaning(rest) == out + PiecesMeaning(ps);
    }
  }

  lemma PlainMeans(p: Piece)
    requires PieceFormed(p) && p.Plain?
    ensures PieceMeaning(p) == p.c && p.c != '\"' && p.c != '\\' && p.c as int >= 0x20
  {
  }

  lemma KeyRead(ps: seq<Piece>, text: string, i: nat)
    requires PiecesFormed(ps) && StartsWith(text, i, SpellKey(ps))
    ensures i < |text| && text[i] == '\"' && ReadString(text, i) == Got(PiecesMeaning(ps), i + |SpellKey(ps)|)
  {
    hide ReadChars, SpellPieces, StartsWith, PiecesFormed;
    Cut(text, i, ['\"'], SpellPieces(ps) + ['\"']);
    CharAt(text, i, ['\"'], 0);
    PiecesRead(ps, text, i, i + 1, "");
    assert "" + PiecesMeaning(ps) == PiecesMeaning(ps);
  }

  // ---- numerals

  lemma FracRead(frac: Option<string>, text: string, i: nat)
    requires StartsWith(text, i, SpellFrac(frac)) && (frac.Some? ==> SomeDigitsIn(frac.value))
    requires var e := i + |SpellFrac(frac)|; !IsDigitAt(text, e) && (frac.None? ==> !Is(text, e, '.'))
    ensures i <= |text| && FractionEnd(text, i) == Got((), i + |SpellFrac(frac)|) && (Is(text, i, '.') <==> frac.Some?)
  {
    hide DigitsEnd, StartsWith;
    Spelt(text, i, SpellFrac(frac));
    if frac.Some? {
      Cut(text, i, ".", frac.value);
      CharAt(text, i, ".", 0);
      CharAt(text, i + 1, frac.value, 0);
      assert IsDigit(frac.value[0]);
      DigitsInPlace(text, i + 1, frac.value);
    }
  }

  function ExpSign(text: string, i: nat): string {
    if Is(text, i, '+') then "+" else if Is(text, i, '-') then "-" else ""
  }

  lemma ExpRead(exp: Option<Exp>, text: string, i: nat)
    requires StartsWith(text, i, SpellExp(exp)) && (exp.Some? ==> ExpFormed(exp.value))
    requires var e := i + |SpellExp(exp)|; !IsDigitAt(text, e) && (exp.None? ==> !IsExponent(text, e))
    ensures i <= |text| && ExponentEnd(text, i) == Got((), i + |SpellExp(exp)|) && (IsExponent(text, i) <==> exp.Some?)
  {
    hide DigitsEnd, StartsWith, IsDigitAt, ExponentEnd, SpellExp;
    Spelt(text, i, SpellExp(exp));
    if exp.Some? {
      SpeltExp(exp.value, text, i);
      ExpEndsAt(text, i, exp.value.sign, i + |SpellExp(exp)|);
    } else {
      NoExp(text, i);
    }
  }

  lemma NoExp(text: string, i: nat)
    requires i <= |text|
    ensures SpellExp(None) == "" && (!IsExponent(text, i) ==> ExponentEnd(text, i) == Got((), i))
  {
  }

  lemma SpeltExp(x: Exp, text: string, i: nat)
    requires ExpFormed(x) && StartsWith(text, i, SpellExp(Some(x))) && !IsDigitAt(text, i + |SpellExp(Some(x))|)
    ensures IsExponent(text, i) && ExpSign(text, i + 1) == x.sign
    ensures var at := i + 1 + |x.sign|; IsDigitAt(text, at) && DigitsEnd(text, at) == i + |SpellExp(Some(x))|
  {
    hide DigitsEnd, StartsWith;
    var at := i + 1 + |x.sign|;
    Cut(text, i, [x.letter], x.sign + x.digits);
    Cut(text, i + 1, x.sign, x.digits);
    CharAt(text, i, [x.letter], 0);
    CharAt(text, at, x.digits, 0);
    assert IsDigit(x.digits[0]);
    if x.sign != "" { CharAt(text, i + 1, x.sign, 0); }
    DigitsInPlace(text, at, x.digits);
  }

  lemma ExpEndsAt(text: string, i: nat, sign: string, e: nat)
    requires i <= |text| && IsExponent(text, i) && sign == ExpSign(text, i + 1)
    requires IsDigitAt(text, i + 1 + |sign|) && DigitsEnd(text, i + 1 + |sign|) == e
    ensures ExponentEnd(text, i) == Got((), e)
  {
    hide DigitsEnd;
  }

  lemma NumeralRead(t: Tree, text: string, i: nat)
    requires t.Numeral? && Formed(t) && StartsWith(text, i, Spell(t)) && Follows(text, i + |Spell(t)|)
    ensures i < |text| && (text[i] == '-' || IsDigit(text[i]))
    ensures Meaning(t).Some? ==> ReadNumber(text, i) == Got(Meaning(t).value, i + |Spell(t)|)
    ensures Meaning(t).None? ==> ReadNumber(text, i) == BadDecimal
  {
    hide WholeEnd, FractionEnd, ExponentEnd, StartsWith, Parse, IntegerOf, SpellFrac, SpellExp, IsExponent;
    var j, k := NumeralParts(t, text, i);
    Spelt(text, i, Spell(t));
    if t.frac.None? && t.exp.None? { NumeralIsInteger(t.minus, t.whole); }
  }

  /** Where the parts of a numeral end. */
  lemma NumeralParts(t: Tree, text: string, i: nat) returns (j: nat, k: nat)
    requires t.Numeral? && Formed(t) && StartsWith(text, i, Spell(t)) && Follows(text, i + |Spell(t)|)
    ensures i < |text| && (text[i] == '-' || IsDigit(text[i])) && j <= |text| && k <= |text|
    ensures WholeEnd(text, i) == Got((), j) && FractionEnd(text, j) == Got((), k)
    ensures ExponentEnd(text, k) == Got((), i + |Spell(t)|)
    ensures (Is(text, j, '.') <==> t.frac.Some?) && (IsExponent(text, k) <==> t.exp.Some?)
  {
    hide WholeEnd, FractionEnd, ExponentEnd, StartsWith;
    var sign, whole, frac, exp := Sign(t.minus), t.whole, SpellFrac(t.frac), SpellExp(t.exp);
    Cut(text, i, sign + whole, frac + exp);
    j := i + |sign + whole|;
    Cut(text, j, frac, exp);
    k := j + |frac|;
    AfterNumeral(text, i + |Spell(t)|);
    assert i + |Spell(t)| == k + |exp|;
    hide SpellFrac, SpellExp;
    NotDigits(t.frac, t.exp, text, j);
    WholeBack(text, i, sign, whole);
    FracRead(t.frac, text, j);
    ExpRead(t.exp, text, k);
  }

  lemma AfterNumeral(text: string, e: nat)
    requires Follows(text, e)
    ensures !IsDigitAt(text, e) && !Is(text, e, '.') && !IsExponent(text, e)
  {
  }

  /** A fraction and an exponent begin with no digit, and an exponent with no point. */
  lemma NotDigits(frac: Option<string>, exp: Option<Exp>, text: string, j: nat)
    requires (frac.Some? ==> SomeDigitsIn(frac.value)) && (exp.Some? ==> ExpFormed(exp.value))
    requires StartsWith(text, j, SpellFrac(frac)) && StartsWith(text, j + |SpellFrac(frac)|, SpellExp(exp))
    requires var e := j + |SpellFrac(frac)| + |SpellExp(exp)|; !IsDigitAt(text, e) && !Is(text, e, '.') && !IsExponent(text, e)
    ensures !IsDigitAt(text, j)
    ensures var k := j + |SpellFrac(frac)|; !IsDigitAt(text, k) && !Is(text, k, '.') && (exp.None? ==> !IsExponent(text, k))
    ensures var e := j + |SpellFrac(frac)| + |SpellExp(exp)|; !IsDigitAt(text, e)
  {
    if frac.Some? { CharAt(text, j, SpellFrac(frac), 0); }
    if exp.Some? { CharAt(text, j + |SpellFrac(frac)|, SpellExp(exp), 0); }
  }

  // ---- what a tree spells begins with no white space

  lemma SpellOpens(t: Tree)
    requires Formed(t)
    ensures Spell(t) != "" && !IsWs(Spell(t)[0]) && Spell(t)[0] != ']' && Spell(t)[0] != '}'
  {
    match t
    case Numeral(minus, whole, _, _) =>
      assert IsDigit(whole[0]) && Spell(t)[0] == if minus then '-' else whole[0];
    case _ =>
  }

  /** White space is skipped to whatever comes next. */
  lemma BlankSkipped(text: string, i: nat, w: string)
    requires Blank(w) && StartsWith(text, i, w) && (i + |w| < |text| ==> !IsWs(text[i + |w|]))
    ensures WsEnd(text, i) == i + |w|
  {
    WsSkipped(text, i, w);
  }

  /** Where a value stands between its white space, and what is next. */
  lemma SlotPlaces(s: Slot, text: string, i: nat, next: char)
    requires SlotFormed(s) && StartsWith(text, i, SpellSlot(s)) && Is(text, i + |SpellSlot(s)|, next)
    requires next == ',' || next == ']' || next == '}'
    ensures var a := i + |s.before|; var e := a + |Spell(s.tree)|;
      && WsEnd(text, i) == a && StartsWith(text, a, Spell(s.tree)) && Follows(text, e)
      && WsEnd(text, e) == i + |SpellSlot(s)| && !Is(text, a, ']') && !Is(text, a, '}')
  {
    hide Spell, Formed, StartsWith, WsEnd;
    var a, e := i + |s.before|, i + |s.before| + |Spell(s.tree)|;
    Cut(text, i, s.before, Spell(s.tree) + s.after);
    Cut(text, a, Spell(s.tree), s.after);
    SpellOpens(s.tree);
    CharAt(text, a, Spell(s.tree), 0);
    BlankSkipped(text, i, s.before);
    BlankSkipped(text, e, s.after);
    if s.after != "" { CharAt(text, e, s.after, 0); }
  }

  ghost predicate ReadsAs(t: Tree, text: string, i: nat, depth: nat)
    requires Formed(t)
  {
    if Meaning(t).Some? && depth + Nest(t) <= MAX_DEPTH
    then ReadValue(text, i, depth) == Got(Meaning(t).value, i + |Spell(t)|)
    else !ReadValue(text, i, depth).Got?
  }

  lemma {:induction false} TreeRead(t: Tree, text: string, i: nat, depth: nat)
    requires Formed(t) && StartsWith(text, i, Spell(t)) && Follows(text, i + |Spell(t)|) && depth <= MAX_DEPTH
    ensures ReadsAs(t, text, i, depth)
    decreases t, 0
  {
    hide ReadNumber, ReadString, SlotsFormed, MembersFormed, SpellKey, SpellSlots, SpellMembers, PiecesFormed;
    match t
    case Word(_) => WordBack(text, i, Spell(t), depth);
    case Numeral(_, _, _, _) =>
      NumeralRead(t, text, i);
      NumeralStarts(text, i);
    case Quoted(pieces) => KeyRead(pieces, text, i);
    case Brackets(items, blank) => BracketsRead(items, blank, text, i, depth);
    case Braces(members, blank) => BracesRead(members, blank, text, i, depth);
  }

  lemma BracketsRead(items: seq<Slot>, blank: string, text: string, i: nat, depth: nat)
    requires depth <= MAX_DEPTH && Formed(Brackets(items, blank)) && StartsWith(text, i, Spell(Brackets(items, blank)))
    ensures ReadsAs(Brackets(items, blank), text, i, depth)
    decreases items, 2
  {
    hide ReadValue, ReadItems, StartsWith, WsEnd, SpellSlots, SlotsFormed, SlotsMeaning, NestSlots;
    var inner := if items == [] then blank else SpellSlots(items);
    assert Spell(Brackets(items, blank)) == "[" + (inner + "]");
    Cut(text, i, "[", inner + "]");
    Cut(text, i + 1, inner, "]");
    CharAt(text, i, "[", 0);
    CharAt(text, i + 1 + |inner|, "]", 0);
    ReadBracket(text, i, depth);
    EmptySlots();
    if items == [] {
      BlankSkipped(text, i + 1, blank);
    } else if depth < MAX_DEPTH {
      SlotsOpen(items, text, i + 1);
      assert [] + items == items;
      SlotsRead(items, text, i + 1, depth + 1, []);
      if SlotsMeaning(items).Some? { assert [] + SlotsMeaning(items).value == SlotsMeaning(items).value; }
    }
  }

  lemma EmptySlots()
    ensures SlotsMeaning([]) == Some([]) && NestSlots([]) == 0
  {
  }

  /** The first item is no closing bracket. */
  lemma SlotsOpen(items: seq<Slot>, text: string, i: nat)
    requires items != [] && SlotsFormed(items) && StartsWith(text, i, SpellSlots(items)) && Is(text, i + |SpellSlots(items)|, ']')
    ensures !Is(text, WsEnd(text, i), ']')
  {
    hide StartsWith, WsEnd, SpellSlot, SlotFormed;
    var next := FirstSlot(items, text, i);
    SlotPlaces(items[0], text, i, next);
  }

  /** After an item comes a comma and the others, or the closing bracket. */
  lemma FirstSlot(items: seq<Slot>, text: string, i: nat) returns (next: char)
    requires items != [] && StartsWith(text, i, SpellSlots(items)) && Is(text, i + |SpellSlots(items)|, ']')
    ensures StartsWith(text, i, SpellSlot(items[0])) && Is(text, i + |SpellSlot(items[0])|, next)
    ensures next == if |items| == 1 then ']' else ','
    ensures var k := i + |SpellSlot(items[0])|;
      if |items| == 1 then i + |SpellSlots(items)| == k
      else StartsWith(text, k + 1, SpellSlots(items[1..])) && i + |SpellSlots(items)| == k + 1 + |SpellSlots(items[1..])|
  {
    hide StartsWith, SpellSlot;
    var first := SpellSlot(items[0]);
    if |items| == 1 {
      next := ']';
      assert SpellSlots(items) == first + "";
      assert first + "" == first;
    } else {
      next := ',';
      var rest := SpellSlots(items[1..]);
      Cut(text, i, first, "," + rest);
      Cut(text, i + |first|, ",", rest);
      CharAt(text, i + |first|, ",", 0);
    }
  }

  ghost predicate SlotsReadAs(items: seq<Slot>, text: string, i: nat, depth: nat, out: seq<Json>)
    requires SlotsFormed(items)
  {
    if SlotsMeaning(items).Some? && depth + NestSlots(items) <= MAX_DEPTH
    then ReadItems(text, i, depth, out) == Got(Arr(out + SlotsMeaning(items).value), i + |SpellSlots(items)| + 1)
    else !ReadItems(text, i, depth, out).Got?
  }

  lemma {:induction false} SlotsRead(items: seq<Slot>, text: string, i: nat, depth: nat, out: seq<Json>)
    requires items != [] && SlotsFormed(items) && depth <= MAX_DEPTH
    requires StartsWith(text, i, SpellSlots(items)) && Is(text, i + |SpellSlots(items)|, ']')
    ensures SlotsReadAs(items, text, i, depth, out)
    decreases items, 1
  {
    hide *;
    var s := items[0];
    var next := FirstSlot(items, text, i);
    var rest := items[1..];
    SlotsFirst(items);
    SlotPlaces(s, text, i, next);
    TreeRead(s.tree, text, i + |s.before|, depth);
    if |items| > 1 && Meaning(s.tree).Some? {
      NextIs(text, i + |SpellSlot(s)|, next);
      SlotsRead(rest, text, i + |SpellSlot(s)| + 1, depth, out + [Meaning(s.tree).value]);
    }
    SlotsConclude(items, text, i, depth, out, next);
  }

  lemma NextIs(text: string, k: nat, next: char)
    requires Is(text, k, next)
    ensures k < |text|
  {
  }

  lemma SlotsFirst(items: seq<Slot>)
    requires items != [] && SlotsFormed(items)
    ensures SlotFormed(items[0]) && SlotsFormed(items[1..]) && Formed(items[0].tree)
    ensures SpellSlot(items[0]) == items[0].before + (Spell(items[0].tree) + items[0].after)
    ensures NestSlots(items) == Larger(Nest(items[0].tree), NestSlots(items[1..]))
    ensures |items| == 1 ==> NestSlots(items[1..]) == 0 && SlotsMeaning(items[1..]) == Some([])
    ensures var v, vs := Meaning(items[0].tree), SlotsMeaning(items[1..]);
      SlotsMeaning(items) == if v.None? || vs.None? then None else Some([v.value] + vs.value)
  {
  }

  lemma SlotsConclude(items: seq<Slot>, text: string, i: nat, depth: nat, out: seq<Json>, next: char)
    requires items != [] && SlotsFormed(items) && next == (if |items| == 1 then ']' else ',')
    requires var s := items[0]; var a := i + |s.before|;
      && Formed(s.tree) && WsEnd(text, i) == a && ReadsAs(s.tree, text, a, depth)
      && WsEnd(text, a + |Spell(s.tree)|) == i + |SpellSlot(s)| && Is(text, i + |SpellSlot(s)|, next)
    requires |items| == 1 ==> |SpellSlots(items)| == |SpellSlot(items[0])|
    requires |items| > 1 ==> |SpellSlots(items)| == |SpellSlot(items[0])| + 1 + |SpellSlots(items[1..])|
    requires |items| > 1 && Meaning(items[0].tree).Some? ==>
      SlotsFormed(items[1..])
      && SlotsReadAs(items[1..], text, i + |SpellSlot(items[0])| + 1, depth, out + [Meaning(items[0].tree).value])
    ensures SlotsReadAs(items, text, i, depth, out)
  {
    hide ReadValue, ReadItems, WsEnd, SlotsFormed, Formed, Meaning, SlotsMeaning, Spell, SpellSlot, SpellSlots, Nest, NestSlots;
    ItemsUnfold(text, i, depth, out);
    SlotsFirst(items);
    var v, vs := Meaning(items[0].tree), SlotsMeaning(items[1..]);
    if v.Some? && vs.Some? {
      assert out + ([v.value] + vs.value) == (out + [v.value]) + vs.value;
      if |items| == 1 { assert out + ([v.value] + vs.value) == out + [v.value]; }
    }
  }

  // ---- members

  lemma BracesRead(members: seq<Member>, blank: string, text: string, i: nat, depth: nat)
    requires depth <= MAX_DEPTH && Formed(Braces(members, blank)) && StartsWith(text, i, Spell(Braces(members, blank)))
    ensures ReadsAs(Braces(members, blank), text, i, depth)
    decreases members, 2
  {
    hide ReadValue, ReadMembers, StartsWith, WsEnd, SpellMembers, MembersFormed, MembersMeaning, NestMembers, Blank;
    var inner := if members == [] then blank else SpellMembers(members);
    assert Spell(Braces(members, blank)) == "{" + (inner + "}");
    Cut(text, i, "{", inner + "}");
    Cut(text, i + 1, inner, "}");
    CharAt(text, i, "{", 0);
    CharAt(text, i + 1 + |inner|, "}", 0);
    ReadBrace(text, i, depth);
    EmptyMembers();
    if members == [] {
      BlankSkipped(text, i + 1, blank);
      EmptyBraces(blank);
    } else if depth < MAX_DEPTH {
      FirstKey(members, text, i + 1);
      MembersReadBack(members, text, i + 1, depth + 1, []);
    }
  }

  lemma EmptyBraces(blank: string)
    requires Formed(Braces([], blank))
    ensures Meaning(Braces([], blank)) == Some(Obj([])) && Nest(Braces([], blank)) == 1
    ensures |Spell(Braces([], blank))| == |blank| + 2
  {
  }

  lemma EmptyMembers()
    ensures forall out :: MembersMeaning([], out) == Some(out)
    ensures NestMembers([]) == 0
  {
  }

  lemma FirstKey(members: seq<Member>, text: string, i: nat)
    requires members != [] && MembersFormed(members) && StartsWith(text, i, SpellMembers(members))
    requires Is(text, i + |SpellMembers(members)|, '}')
    ensures !Is(text, WsEnd(text, i), '}')
  {
    hide StartsWith, WsEnd, SpellMember, MembersFormed;
    var next := FirstMember(members, text, i);
    MembersFirst(members);
    var a, b, c := MemberPlacesIn(members[0], text, i, next);
  }

  lemma FirstMember(members: seq<Member>, text: string, i: nat) returns (next: char)
    requires members != [] && StartsWith(text, i, SpellMembers(members)) && Is(text, i + |SpellMembers(members)|, '}')
    ensures StartsWith(text, i, SpellMember(members[0])) && Is(text, i + |SpellMember(members[0])|, next)
    ensures next == if |members| == 1 then '}' else ','
    ensures var k := i + |SpellMember(members[0])|;
      if |members| == 1 then i + |SpellMembers(members)| == k
      else StartsWith(text, k + 1, SpellMembers(members[1..])) && i + |SpellMembers(members)| == k + 1 + |SpellMembers(members[1..])|
  {
    hide StartsWith, SpellMember;
    var first := SpellMember(members[0]);
    if |members| == 1 {
      next := '}';
      assert SpellMembers(members) == first + "";
      assert first + "" == first;
    } else {
      next := ',';
      var rest := SpellMembers(members[1..]);
      Cut(text, i, first, "," + rest);
      Cut(text, i + |first|, ",", rest);
      CharAt(text, i + |first|, ",", 0);
    }
  }

  /** Where a member's key, colon and value stand. */
  lemma MemberPlacesIn(m: Member, text: string, i: nat, next: char) returns (a: nat, b: nat, c: nat)
    requires MemberFormed(m) && StartsWith(text, i, SpellMember(m)) && Is(text, i + |SpellMember(m)|, next)
    requires next == ',' || next == '}'
    ensures a == i + |m.before| && b == a + |SpellKey(m.key)| && c == b + |m.between|
    ensures WsEnd(text, i) == a && Is(text, a, '\"') && ReadString(text, a) == Got(PiecesMeaning(m.key), b)
    ensures WsEnd(text, b) == c && Is(text, c, ':')
    ensures StartsWith(text, c + 1, SpellSlot(m.slot)) && Is(text, c + 1 + |SpellSlot(m.slot)|, next)
    ensures i + |SpellMember(m)| == c + 1 + |SpellSlot(m.slot)|
  {
    hide StartsWith, WsEnd, SpellSlot, ReadString, SpellPieces, PiecesFormed, SlotFormed;
    var key, slot := SpellKey(m.key), SpellSlot(m.slot);
    a := i + |m.before|;
    b := a + |key|;
    c := b + |m.between|;
    Cut(text, i, m.before, key + (m.between + (":" + slot)));
    Cut(text, a, key, m.between + (":" + slot));
    Cut(text, b, m.between, ":" + slot);
    Cut(text, c, ":", slot);
    KeyRead(m.key, text, a);
    CharAt(text, c, ":", 0);
    BlankSkipped(text, i, m.before);
    BlankSkipped(text, b, m.between);
  }

  predicate MemberFormed(m: Member) {
    Blank(m.before) && PiecesFormed(m.key) && Blank(m.between) && SlotFormed(m.slot)
  }

  lemma MembersFirst(members: seq<Member>)
    requires members != [] && MembersFormed(members)
    ensures MemberFormed(members[0]) && MembersFormed(members[1..])
    ensures SlotFormed(members[0].slot) && Formed(members[0].slot.tree) && PiecesFormed(members[0].key)
    ensures NestMembers(members) == Larger(Nest(members[0].slot.tree), NestMembers(members[1..]))
    ensures |members| == 1 ==> NestMembers(members[1..]) == 0
    ensures Meaning(members[0].slot.tree).None? ==> forall out :: MembersMeaning(members, out) == None
    ensures var v, key := Meaning(members[0].slot.tree), PiecesMeaning(members[0].key);
      v.Some? ==> forall out :: MembersMeaning(members, out) == MembersMeaning(members[1..], SetEntry(out, key, v.value))
  {
  }

  ghost predicate MembersReadAs(members: seq<Member>, text: string, i: nat, depth: nat, out: seq<Entry>)
    requires MembersFormed(members)
  {
    if MembersMeaning(members, out).Some? && depth + NestMembers(members) <= MAX_DEPTH
    then ReadMembers(text, i, depth, out) == Got(Obj(MembersMeaning(members, out).value), i + |SpellMembers(members)| + 1)
    else !ReadMembers(text, i, depth, out).Got?
  }

  lemma {:induction false} MembersReadBack(members: seq<Member>, text: string, i: nat, depth: nat, out: seq<Entry>)
    requires members != [] && MembersFormed(members) && depth <= MAX_DEPTH
    requires StartsWith(text, i, SpellMembers(members)) && Is(text, i + |SpellMembers(members)|, '}')
    ensures MembersReadAs(members, text, i, depth, out)
    decreases members, 1
  {
    hide *;
    var m := members[0];
    var next := FirstMember(members, text, i);
    MembersFirst(members);
    var a, b, c := MemberPlacesIn(m, text, i, next);
    SlotPlaces(m.slot, text, c + 1, next);
    TreeRead(m.slot.tree, text, c + 1 + |m.slot.before|, depth);
    var v := Meaning(m.slot.tree);
    if |members| > 1 && v.Some? {
      NextIs(text, i + |SpellMember(m)|, next);
      MembersReadBack(members[1..], text, i + |SpellMember(m)| + 1, depth, SetEntry(out, PiecesMeaning(m.key), v.value));
    }
    MembersConcludeIn(members, text, i, depth, out, next, a, b, c);
  }

  lemma MembersConcludeIn(members: seq<Member>, text: string, i: nat, depth: nat, out: seq<Entry>, next: char,
                          a: nat, b: nat, c: nat)
    requires members != [] && MembersFormed(members) && MemberFormed(members[0]) && next == (if |members| == 1 then '}' else ',')
    requires var m := members[0]; var d := c + 1 + |m.slot.before|;
      && WsEnd(text, i) == a && Is(text, a, '\"') && ReadString(text, a) == Got(PiecesMeaning(m.key), b)
      && WsEnd(text, b) == c && Is(text, c, ':') && WsEnd(text, c + 1) == d && Formed(m.slot.tree)
      && ReadsAs(m.slot.tree, text, d, depth) && WsEnd(text, d + |Spell(m.slot.tree)|) == c + 1 + |SpellSlot(m.slot)|
      && Is(text, c + 1 + |SpellSlot(m.slot)|, next) && i + |SpellMember(m)| == c + 1 + |SpellSlot(m.slot)|
    requires |members| == 1 ==> |SpellMembers(members)| == |SpellMember(members[0])|
    requires |members| > 1 ==> |SpellMembers(members)| == |SpellMember(members[0])| + 1 + |SpellMembers(members[1..])|
    requires |members| > 1 && Meaning(members[0].slot.tree).Some? ==>
      MembersFormed(members[1..])
      && MembersReadAs(members[1..], text, i + |SpellMember(members[0])| + 1, depth,
                       SetEntry(out, PiecesMeaning(members[0].key), Meaning(members[0].slot.tree).value))
    ensures MembersReadAs(members, text, i, depth, out)
  {
    hide ReadValue, ReadMembers, ReadString, WsEnd, MembersFormed, Formed, Meaning, MembersMeaning, Spell, SpellSlot, SpellMember,
      SpellMembers, Nest, NestMembers, SetEntry, PiecesMeaning, PiecesFormed;
    MembersUnfold(text, i, depth, out);
    MembersFirst(members);
    EmptyMembers();
    if |members| == 1 { assert members[1..] == []; }
  }

  // ---- whatever is read some tree spells ---------------------------------------------------------------------------------

  lemma Paste(text: string, i: nat, a: string, b: string)
    requires StartsWith(text, i, a) && StartsWith(text, i + |a|, b)
    ensures StartsWith(text, i, a + b)
  {
    assert text[i..i + |a + b|] == text[i..i + |a|] + text[i + |a|..i + |a| + |b|];
  }

  lemma OneHere(text: string, i: nat, c: char)
    requires Is(text, i, c)
    ensures StartsWith(text, i, [c])
  {
  }

  lemma {:induction false} BlankDerived(text: string, i: nat) returns (w: string)
    requires i <= |text|
    ensures Blank(w) && StartsWith(text, i, w) && WsEnd(text, i) == i + |w|
    decreases |text| - i
  {
    if i < |text| && IsWs(text[i]) {
      var rest := BlankDerived(text, i + 1);
      w := [text[i]] + rest;
      Paste(text, i, [text[i]], rest);
    } else {
      w := "";
    }
  }

  lemma EscapeDerived(text: string, i: nat) returns (p: Piece)
    requires i < |text| && text[i] == '\\' && ReadEscape(text, i).Got?
    ensures PieceFormed(p) && !p.Plain? && StartsWith(text, i, SpellPiece(p))
    ensures ReadEscape(text, i) == Got(PieceMeaning(p), i + |SpellPiece(p)|)
  {
    if text[i + 1] == 'u' {
      p := Four(text[i + 2..i + 6]);
      assert text[i..i + 6] == ['\\', 'u'] + text[i + 2..i + 6];
    } else {
      p := Short(text[i + 1]);
      assert text[i..i + 2] == ['\\', text[i + 1]];
    }
    PieceRead(p, text, i);
  }

  /** The first piece of a string, and what is left to read after it. */
  lemma FirstPiece(text: string, start: nat, i: nat, out: string) returns (p: Piece)
    requires ReadChars(text, start, i, out).Got? && text[i] != '\"'
    ensures PieceFormed(p) && StartsWith(text, i, SpellPiece(p)) && |SpellPiece(p)| > 0 && i + |SpellPiece(p)| <= |text|
    ensures ReadChars(text, start, i, out) == ReadChars(text, start, i + |SpellPiece(p)|, out + [PieceMeaning(p)])
  {
    hide ReadEscape, PieceMeaning, StartsWith;
    if text[i] == '\\' {
      p := EscapeDerived(text, i);
    } else {
      p := Plain(text[i]);
      PlainMeans(p);
      OneHere(text, i, text[i]);
    }
  }

  lemma StartQuote(text: string, start: nat, i: nat, out: string)
    requires ReadChars(text, start, i, out).Got?
    ensures i < |text|
  {
  }

  lemma {:induction false} CharsDerived(text: string, start: nat, i: nat, out: string) returns (ps: seq<Piece>)
    requires ReadChars(text, start, i, out).Got?
    ensures PiecesFormed(ps) && StartsWith(text, i, SpellPieces(ps) + ['\"'])
    ensures ReadChars(text, start, i, out) == Got(out + PiecesMeaning(ps), i + |SpellPieces(ps)| + 1)
    decreases |text| - i
  {
    hide *;
    StartQuote(text, start, i, out);
    if text[i] == '\"' {
      ps := [];
      QuoteHere(text, i);
    } else {
      var p := FirstPiece(text, start, i, out);
      var rest := CharsDerived(text, start, i + |SpellPiece(p)|, out + [PieceMeaning(p)]);
      ps := [p] + rest;
      Paste(text, i, SpellPiece(p), SpellPieces(rest) + ['\"']);
      OneMorePiece(p, rest);
    }
    PiecesRead(ps, text, start, i, out);
  }

  lemma QuoteHere(text: string, i: nat)
    requires i < |text| && text[i] == '\"'
    ensures PiecesFormed([]) && StartsWith(text, i, SpellPieces([]) + ['\"'])
  {
    assert "" + ['\"'] == ['\"'];
    OneHere(text, i, '\"');
  }

  lemma OneMorePiece(p: Piece, rest: seq<Piece>)
    requires PieceFormed(p) && PiecesFormed(rest)
    ensures PiecesFormed([p] + rest)
    ensures SpellPieces([p] + rest) + ['\"'] == SpellPiece(p) + (SpellPieces(rest) + ['\"'])
  {
    hide PieceFormed, SpellPiece;
    assert ([p] + rest)[1..] == rest;
  }

  lemma KeyDerived(text: string, i: nat) returns (ps: seq<Piece>)
    requires Is(text, i, '\"') && ReadString(text, i).Got?
    ensures PiecesFormed(ps) && StartsWith(text, i, SpellKey(ps))
    ensures ReadString(text, i) == Got(PiecesMeaning(ps), i + |SpellKey(ps)|)
  {
    hide ReadChars, SpellPieces, StartsWith, PiecesFormed;
    ps := CharsDerived(text, i, i + 1, "");
    OneHere(text, i, '\"');
    Paste(text, i, ['\"'], SpellPieces(ps) + ['\"']);
    KeyRead(ps, text, i);
  }

  // ---- numerals

  lemma DigitsDerived(text: string, i: nat)
    requires IsDigitAt(text, i)
    ensures i < DigitsEnd(text, i) <= |text| && SomeDigitsIn(text[i..DigitsEnd(text, i)])
  {
  }

  lemma WholeDerived(text: string, i: nat) returns (minus: bool, whole: string)
    requires i < |text| && WholeEnd(text, i).Got?
    ensures Proper(whole) && StartsWith(text, i, Sign(minus) + whole) && WholeEnd(text, i).i == i + |Sign(minus) + whole|
  {
    hide DigitsEnd;
    minus := text[i] == '-';
    var a := if minus then i + 1 else i;
    if Is(text, a, '0') {
      whole := "0";
      assert whole == ['0'];
      OneHere(text, a, '0');
    } else {
      DigitsDerived(text, a);
      whole := text[a..DigitsEnd(text, a)];
    }
    assert StartsWith(text, i, Sign(minus));
    Paste(text, i, Sign(minus), whole);
  }

  lemma FracDerived(text: string, i: nat) returns (frac: Option<string>)
    requires i <= |text| && FractionEnd(text, i).Got?
    ensures (frac.Some? <==> Is(text, i, '.')) && (frac.Some? ==> SomeDigitsIn(frac.value))
    ensures StartsWith(text, i, SpellFrac(frac)) && FractionEnd(text, i).i == i + |SpellFrac(frac)|
  {
    hide DigitsEnd;
    if Is(text, i, '.') {
      DigitsDerived(text, i + 1);
      frac := Some(text[i + 1..DigitsEnd(text, i + 1)]);
      Paste(text, i, ".", frac.value);
    } else {
      frac := None;
    }
  }

  /** The letter, the sign and the digits of an exponent. */
  lemma ExpPlaces(text: string, i: nat, sign: string) returns (digits: string)
    requires IsExponent(text, i) && IsDigitAt(text, i + 1 + |sign|) && StartsWith(text, i + 1, sign)
    ensures SomeDigitsIn(digits) && StartsWith(text, i, [text[i]] + (sign + digits))
    ensures DigitsEnd(text, i + 1 + |sign|) == i + |[text[i]] + (sign + digits)|
  {
    hide DigitsEnd;
    var at := i + 1 + |sign|;
    DigitsDerived(text, at);
    digits := text[at..DigitsEnd(text, at)];
    assert StartsWith(text, at, digits);
    assert StartsWith(text, i, [text[i]]);
    hide StartsWith;
    Paste(text, i + 1, sign, digits);
    Paste(text, i, [text[i]], sign + digits);
  }

  lemma ExpUnfold(text: string, i: nat)
    requires i <= |text| && ExponentEnd(text, i).Got? && IsExponent(text, i)
    ensures var sign := ExpSign(text, i + 1); var at := i + 1 + |sign|;
      StartsWith(text, i + 1, sign) && IsDigitAt(text, at) && ExponentEnd(text, i).i == DigitsEnd(text, at)
  {
    hide DigitsEnd;
  }

  lemma ExpSpelt(text: string, i: nat, digits: string)
    requires IsExponent(text, i) && SomeDigitsIn(digits)
    ensures var e := Exp(text[i], ExpSign(text, i + 1), digits);
      ExpFormed(e) && SpellExp(Some(e)) == [text[i]] + (ExpSign(text, i + 1) + digits)
  {
  }

  lemma ExpDerived(text: string, i: nat) returns (exp: Option<Exp>)
    requires i <= |text| && ExponentEnd(text, i).Got?
    ensures (exp.Some? <==> IsExponent(text, i)) && (exp.Some? ==> ExpFormed(exp.value))
    ensures StartsWith(text, i, SpellExp(exp)) && ExponentEnd(text, i).i == i + |SpellExp(exp)|
  {
    if IsExponent(text, i) {
      hide *;
      ExpUnfold(text, i);
      var digits := ExpPlaces(text, i, ExpSign(text, i + 1));
      ExpSpelt(text, i, digits);
      exp := Some(Exp(text[i], ExpSign(text, i + 1), digits));
    } else {
      exp := None;
    }
  }

  lemma NumeralDerived(text: string, i: nat) returns (t: Tree)
    requires i < |text| && (text[i] == '-' || IsDigit(text[i])) && ReadNumber(text, i).Got?
    ensures t.Numeral? && Formed(t) && StartsWith(text, i, Spell(t)) && Meaning(t).Some?
    ensures ReadNumber(text, i) == Got(Meaning(t).value, i + |Spell(t)|)
  {
    hide *;
    NumberParts(text, i);
    var minus, whole := WholeDerived(text, i);
    var j := WholeEnd(text, i).i;
    var frac := FracDerived(text, j);
    var k := FractionEnd(text, j).i;
    var exp := ExpDerived(text, k);
    t := Numeral(minus, whole, frac, exp);
    Paste(text, j, SpellFrac(frac), SpellExp(exp));
    Paste(text, i, Sign(minus) + whole, SpellFrac(frac) + SpellExp(exp));
    NumeralSpelt(t);
    NumeralMeans(t, text, i, j, k);
  }

  lemma NumberParts(text: string, i: nat)
    requires i < |text| && (text[i] == '-' || IsDigit(text[i])) && ReadNumber(text, i).Got?
    ensures WholeEnd(text, i).Got? && WholeEnd(text, i).i <= |text|
    ensures var j := WholeEnd(text, i).i;
      && FractionEnd(text, j).Got? && FractionEnd(text, j).i <= |text| && ExponentEnd(text, FractionEnd(text, j).i).Got?
  {
    hide WholeEnd, FractionEnd, ExponentEnd, Parse, IntegerOf, IsExponent, Is;
  }

  lemma NumeralSpelt(t: Tree)
    requires t.Numeral? && Proper(t.whole) && (t.frac.Some? ==> SomeDigitsIn(t.frac.value)) && (t.exp.Some? ==> ExpFormed(t.exp.value))
    ensures Formed(t) && Spell(t) == (Sign(t.minus) + t.whole) + (SpellFrac(t.frac) + SpellExp(t.exp))
  {
  }

  lemma NumeralMeans(t: Tree, text: string, i: nat, j: nat, k: nat)
    requires t.Numeral? && Formed(t) && StartsWith(text, i, Spell(t))
    requires i < |text| && (text[i] == '-' || IsDigit(text[i])) && ReadNumber(text, i).Got?
    requires WholeEnd(text, i).Got? && WholeEnd(text, i).i == j <= |text|
    requires FractionEnd(text, j).Got? && FractionEnd(text, j).i == k <= |text|
    requires ExponentEnd(text, k).Got? && ExponentEnd(text, k).i == i + |Spell(t)|
    requires (t.frac.Some? <==> Is(text, j, '.')) && (t.exp.Some? <==> IsExponent(text, k))
    ensures Meaning(t).Some? && ReadNumber(text, i) == Got(Meaning(t).value, i + |Spell(t)|)
  {
    hide WholeEnd, FractionEnd, ExponentEnd, StartsWith, Parse, IntegerOf, IsExponent, Is, Spell, Proper, SomeDigitsIn, ExpFormed;
    Spelt(text, i, Spell(t));
  }

  // ---- values

  /** A tree for what was read. */
  ghost predicate Derives(t: Tree, text: string, i: nat, depth: nat) {
    && Formed(t) && StartsWith(text, i, Spell(t)) && Meaning(t).Some? && depth + Nest(t) <= MAX_DEPTH
    && ReadValue(text, i, depth) == Got(Meaning(t).value, i + |Spell(t)|)
  }

  lemma WordDerived(text: string, i: nat, depth: nat) returns (t: Tree)
    requires i < |text| && text[i] in "tfn" && ReadValue(text, i, depth).Got? && depth <= MAX_DEPTH
    ensures Derives(t, text, i, depth)
  {
    t := Word(if text[i] == 'n' then Null else Bool(text[i] == 't'));
    WordBack(text, i, Spell(t), depth);
  }

  lemma {:induction false} ValueDerived(text: string, i: nat, depth: nat) returns (t: Tree)
    requires ReadValue(text, i, depth).Got? && depth <= MAX_DEPTH
    ensures Derives(t, text, i, depth)
    decreases |text| - i, 1
  {
    hide ReadNumber, ReadString, ReadItems, ReadMembers, StartsWith, WsEnd, SpellKey, PiecesFormed, Derives, IntegerOf;
    var c := text[i];
    if c == '[' {
      t := BracketsDerived(text, i, depth);
    } else if c == '{' {
      t := BracesDerived(text, i, depth);
    } else if c == '\"' {
      var ps := KeyDerived(text, i);
      t := Quoted(ps);
      QuotedDerives(ps, text, i, depth);
    } else if c == '-' || IsDigit(c) {
      t := NumeralDerived(text, i);
      NumeralStarts(text, i);
      NumeralDerives(t, text, i, depth);
    } else {
      t := WordDerived(text, i, depth);
    }
  }

  lemma QuotedDerives(ps: seq<Piece>, text: string, i: nat, depth: nat)
    requires Is(text, i, '\"') && PiecesFormed(ps) && StartsWith(text, i, SpellKey(ps)) && depth <= MAX_DEPTH
    requires ReadString(text, i) == Got(PiecesMeaning(ps), i + |SpellKey(ps)|)
    ensures Derives(Quoted(ps), text, i, depth)
  {
    hide ReadString, StartsWith, PiecesFormed, SpellKey, PiecesMeaning;
  }

  lemma NumeralDerives(t: Tree, text: string, i: nat, depth: nat)
    requires t.Numeral? && Formed(t) && StartsWith(text, i, Spell(t)) && Meaning(t).Some? && depth <= MAX_DEPTH
    requires ReadValue(text, i, depth) == Got(Meaning(t).value, i + |Spell(t)|)
    ensures Derives(t, text, i, depth)
  {
    hide ReadValue, StartsWith, Spell, Meaning, Formed;
  }

  lemma BracketsDerived(text: string, i: nat, depth: nat) returns (t: Tree)
    requires Is(text, i, '[') && ReadValue(text, i, depth).Got? && depth <= MAX_DEPTH
    ensures Derives(t, text, i, depth)
    decreases |text| - i, 0
  {
    hide ReadValue, ReadItems, StartsWith, WsEnd, SlotsFormed, SlotsMeaning, SpellSlots, NestSlots;
    ReadBracket(text, i, depth);
    OneHere(text, i, '[');
    EmptySlots();
    assert SlotsFormed([]) by { NoneFormed(); }
    if Is(text, WsEnd(text, i + 1), ']') {
      var w := BlankDerived(text, i + 1);
      t := Brackets([], w);
      OneHere(text, i + 1 + |w|, ']');
      Paste(text, i + 1, w, "]");
      Paste(text, i, "[", w + "]");
    } else {
      var items := ItemsDerived(text, i + 1, depth + 1, []);
      t := Brackets(items, "");
      Paste(text, i, "[", SpellSlots(items) + "]");
      assert [] + SlotsMeaning(items).value == SlotsMeaning(items).value;
    }
  }

  lemma NoneFormed()
    ensures SlotsFormed([]) && MembersFormed([])
  {
  }

  ghost predicate ItemsDerive(items: seq<Slot>, text: string, i: nat, depth: nat, out: seq<Json>) {
    && items != [] && SlotsFormed(items) && StartsWith(text, i, SpellSlots(items) + "]")
    && SlotsMeaning(items).Some? && depth + NestSlots(items) <= MAX_DEPTH
    && ReadItems(text, i, depth, out) == Got(Arr(out + SlotsMeaning(items).value), i + |SpellSlots(items)| + 1)
  }

  /** The white space, the value and the white space that an item was read from. */
  lemma SlotDerived(text: string, i: nat, depth: nat) returns (s: Slot)
    requires i <= |text| && ReadValue(text, WsEnd(text, i), depth).Got? && depth <= MAX_DEPTH
    ensures var a := WsEnd(text, i); var r := ReadValue(text, a, depth);
      && SlotFormed(s) && Formed(s.tree) && StartsWith(text, i, SpellSlot(s)) && Meaning(s.tree) == Some(r.value)
      && depth + Nest(s.tree) <= MAX_DEPTH && WsEnd(text, r.i) == i + |SpellSlot(s)|
    decreases |text| - i, 2
  {
    hide ReadValue, StartsWith, WsEnd, Formed, Spell, Meaning, Nest;
    var before := BlankDerived(text, i);
    var a := i + |before|;
    var t := ValueDerived(text, a, depth);
    var e := a + |Spell(t)|;
    var after := BlankDerived(text, e);
    s := Slot(before, t, after);
    Paste(text, a, Spell(t), after);
    Paste(text, i, before, Spell(t) + after);
  }

  lemma {:induction false} ItemsDerived(text: string, i: nat, depth: nat, out: seq<Json>) returns (items: seq<Slot>)
    requires i <= |text| && ReadItems(text, i, depth, out).Got? && depth <= MAX_DEPTH
    ensures ItemsDerive(items, text, i, depth, out)
    decreases |text| - i, 3
  {
    hide ReadValue, ReadItems, StartsWith, WsEnd, SlotFormed, SlotsFormed, SpellSlot, SpellSlots, Meaning, SlotsMeaning, Nest,
      NestSlots, Formed;
    ItemsUnfold(text, i, depth, out);
    var s := SlotDerived(text, i, depth);
    var k := i + |SpellSlot(s)|;
    var v := Meaning(s.tree).value;
    var rest: seq<Slot> := [];
    if Is(text, k, ',') {
      rest := ItemsDerived(text, k + 1, depth, out + [v]);
      OneHere(text, k, ',');
      Paste(text, k, ",", SpellSlots(rest) + "]");
      Paste(text, i, SpellSlot(s), "," + (SpellSlots(rest) + "]"));
    } else {
      OneHere(text, k, ']');
      Paste(text, i, SpellSlot(s), "]");
      NoneFormed();
      EmptySlots();
    }
    items := [s] + rest;
    OneMoreSlot(s, rest);
    if rest == [] {
      assert out + ([v] + []) == out + [v];
    } else {
      assert SpellSlots(items) + "]" == SpellSlot(s) + ("," + (SpellSlots(rest) + "]"));
      assert out + ([v] + SlotsMeaning(rest).value) == (out + [v]) + SlotsMeaning(rest).value;
    }
  }

  lemma OneMoreSlot(s: Slot, rest: seq<Slot>)
    requires SlotFormed(s) && SlotsFormed(rest) && Formed(s.tree)
    ensures var items := [s] + rest;
      && SlotsFormed(items) && NestSlots(items) == Larger(Nest(s.tree), NestSlots(rest))
      && SpellSlots(items) == (if rest == [] then SpellSlot(s) else SpellSlot(s) + ("," + SpellSlots(rest)))
      && (Meaning(s.tree).Some? && SlotsMeaning(rest).Some? ==>
            SlotsMeaning(items) == Some([Meaning(s.tree).value] + SlotsMeaning(rest).value))
  {
    hide SlotFormed, Formed, Meaning, SpellSlot, Nest;
    var items := [s] + rest;
    assert items[1..] == rest;
    assert SpellSlot(s) + "" == SpellSlot(s);
  }

  // ---- members

  lemma BracesDerived(text: string, i: nat, depth: nat) returns (t: Tree)
    requires Is(text, i, '{') && ReadValue(text, i, depth).Got? && depth <= MAX_DEPTH
    ensures Derives(t, text, i, depth)
    decreases |text| - i, 0
  {
    hide ReadValue, ReadMembers, StartsWith, WsEnd, MembersFormed, MembersMeaning, SpellMembers, NestMembers;
    ReadBrace(text, i, depth);
    OneHere(text, i, '{');
    EmptyMembers();
    assert MembersFormed([]) by { NoneFormed(); }
    if Is(text, WsEnd(text, i + 1), '}') {
      var w := BlankDerived(text, i + 1);
      t := Braces([], w);
      assert MembersMeaning([], []) == Some([]);
      OneHere(text, i + 1 + |w|, '}');
      Paste(text, i + 1, w, "}");
      Paste(text, i, "{", w + "}");
    } else {
      var members := MembersDerived(text, i + 1, depth + 1, []);
      t := Braces(members, "");
      Paste(text, i, "{", SpellMembers(members) + "}");
    }
  }

  ghost predicate MembersDerive(members: seq<Member>, text: string, i: nat, depth: nat, out: seq<Entry>) {
    && members != [] && MembersFormed(members) && StartsWith(text, i, SpellMembers(members) + "}")
    && MembersMeaning(members, out).Some? && depth + NestMembers(members) <= MAX_DEPTH
    && ReadMembers(text, i, depth, out) == Got(Obj(MembersMeaning(members, out).value), i + |SpellMembers(members)| + 1)
  }

  /** The parts that a member was read from. */
  lemma MemberDerived(text: string, i: nat, depth: nat) returns (m: Member)
    requires i <= |text| && MemberAt(text, i, depth).Got? && depth <= MAX_DEPTH
    ensures var r := MemberAt(text, i, depth);
      && MemberFormed(m) && PiecesFormed(m.key) && Formed(m.slot.tree) && StartsWith(text, i, SpellMember(m))
      && Meaning(m.slot.tree) == Some(r.value.value) && PiecesMeaning(m.key) == r.value.key
      && depth + Nest(m.slot.tree) <= MAX_DEPTH && WsEnd(text, r.i) == i + |SpellMember(m)|
    decreases |text| - i, 2
  {
    hide ReadValue, ReadString, StartsWith, WsEnd, Formed, SpellSlot, SpellKey, Meaning, Nest, PiecesFormed, SlotFormed, PiecesMeaning;
    var before := BlankDerived(text, i);
    var a := i + |before|;
    var key := KeyDerived(text, a);
    var b := a + |SpellKey(key)|;
    var between := BlankDerived(text, b);
    var c := b + |between|;
    OneHere(text, c, ':');
    var slot := SlotDerived(text, c + 1, depth);
    m := Member(before, key, between, slot);
    Paste(text, c, ":", SpellSlot(slot));
    Paste(text, b, between, ":" + SpellSlot(slot));
    Paste(text, a, SpellKey(key), between + (":" + SpellSlot(slot)));
    Paste(text, i, before, SpellKey(key) + (between + (":" + SpellSlot(slot))));
  }

  lemma {:induction false} MembersDerived(text: string, i: nat, depth: nat, out: seq<Entry>) returns (members: seq<Member>)
    requires i <= |text| && ReadMembers(text, i, depth, out).Got? && depth <= MAX_DEPTH
    ensures MembersDerive(members, text, i, depth, out)
    decreases |text| - i, 3
  {
    hide ReadValue, ReadMembers, StartsWith, WsEnd, MemberFormed, MembersFormed, SpellMember, SpellMembers, Meaning, MembersMeaning,
      Nest, NestMembers, Formed, SetEntry, PiecesFormed, PiecesMeaning, MemberAt;
    MembersUnfold(text, i, depth, out);
    var m := MemberDerived(text, i, depth);
    var k := i + |SpellMember(m)|;
    var next := SetEntry(out, PiecesMeaning(m.key), Meaning(m.slot.tree).value);
    var rest: seq<Member> := [];
    if Is(text, k, ',') {
      rest := MembersDerived(text, k + 1, depth, next);
      OneHere(text, k, ',');
      Paste(text, k, ",", SpellMembers(rest) + "}");
      Paste(text, i, SpellMember(m), "," + (SpellMembers(rest) + "}"));
    } else {
      OneHere(text, k, '}');
      Paste(text, i, SpellMember(m), "}");
      NoneFormed();
      EmptyMembers();
    }
    members := [m] + rest;
    OneMoreMember(m, rest, out);
    if rest != [] {
      assert SpellMembers(members) + "}" == SpellMember(m) + ("," + (SpellMembers(rest) + "}"));
    }
  }

  lemma OneMoreMember(m: Member, rest: seq<Member>, out: seq<Entry>)
    requires MemberFormed(m) && MembersFormed(rest) && Formed(m.slot.tree) && PiecesFormed(m.key) && Meaning(m.slot.tree).Some?
    ensures var members := [m] + rest;
      && MembersFormed(members) && NestMembers(members) == Larger(Nest(m.slot.tree), NestMembers(rest))
      && SpellMembers(members) == (if rest == [] then SpellMember(m) else SpellMember(m) + ("," + SpellMembers(rest)))
      && MembersMeaning(members, out) == MembersMeaning(rest, SetEntry(out, PiecesMeaning(m.key), Meaning(m.slot.tree).value))
  {
    hide SlotFormed, Formed, Meaning, SpellMember, Nest, SetEntry, PiecesFormed, PiecesMeaning;
    var members := [m] + rest;
    assert members[1..] == rest;
    assert SpellMember(m) + "" == SpellMember(m);
    MembersFirst(members);
  }

  // ---- documents -----------------------------------------------------------------------------------------------------------

  /** White space, a value, white space. */
  ghost predicate Document(text: string, before: string, t: Tree, after: string) {
    Blank(before) && Formed(t) && Blank(after) && text == before + (Spell(t) + after)
  }

  /** The two limits the reader adds to the grammar: no fraction with more places than a decimal may have, and
      no more than so many lists and maps inside each other. */
  ghost predicate Readable(t: Tree)
    requires Formed(t)
  {
    Meaning(t).Some? && Nest(t) <= MAX_DEPTH
  }

  /** A text that the grammar derives is read as what its derivation means if it keeps the limits, and refused
      if it does not. */
  lemma DerivedIsRead(text: string, before: string, t: Tree, after: string)
    requires Document(text, before, t, after)
    ensures Readable(t) ==> ParseJson(text) == Got(Meaning(t).value, |text|)
    ensures !Readable(t) ==> !ParseJson(text).Got?
  {
    hide ReadValue, WsEnd, Spell, Formed, Meaning, Nest, StartsWith, ParseJson, ReadsAs;
    var a, e := |before|, |before| + |Spell(t)|;
    Starts(text, before + (Spell(t) + after));
    Cut(text, 0, before, Spell(t) + after);
    Cut(text, a, Spell(t), after);
    SpellOpens(t);
    CharAt(text, a, Spell(t), 0);
    BlankSkipped(text, 0, before);
    BlankSkipped(text, e, after);
    BlankFollows(text, e, after);
    TreeRead(t, text, a, 0);
    ParsedFrom(text, t, a, e);
  }

  lemma ParsedFrom(text: string, t: Tree, a: nat, e: nat)
    requires Formed(t) && WsEnd(text, 0) == a && e == a + |Spell(t)| && WsEnd(text, e) == |text| && ReadsAs(t, text, a, 0)
    ensures Readable(t) ==> ParseJson(text) == Got(Meaning(t).value, |text|)
    ensures !Readable(t) ==> !ParseJson(text).Got?
  {
    hide ReadValue, WsEnd, Spell, Formed, Meaning, Nest;
  }

  lemma BlankFollows(text: string, e: nat, after: string)
    requires Blank(after) && StartsWith(text, e, after) && e + |after| == |text|
    ensures Follows(text, e)
  {
    if after != "" { CharAt(text, e, after, 0); }
  }

  lemma Starts(text: string, s: string)
    requires text == s
    ensures StartsWith(text, 0, s)
  {
    assert text[0..|s|] == s;
  }

  /** What is read some derivation that keeps the limits spells, and the value is what it means. */
  lemma ReadIsDerived(text: string) returns (before: string, t: Tree, after: string)
    requires ParseJson(text).Got?
    ensures Document(text, before, t, after) && Readable(t) && ParseJson(text) == Got(Meaning(t).value, |text|)
  {
    hide ReadValue, WsEnd, Spell, Formed, Meaning, Nest;
    before := BlankDerived(text, 0);
    var a := |before|;
    t := ValueDerived(text, a, 0);
    var e := a + |Spell(t)|;
    after := BlankDerived(text, e);
    Paste(text, a, Spell(t), after);
    Paste(text, 0, before, Spell(t) + after);
    var s := before + (Spell(t) + after);
    assert text[0..|s|] == s && |s| == |text|;
    assert text == text[0..|text|];
  }

  /** The reader accepts a text, with a value, exactly when the grammar derives it within the limits, meaning
      that value. */
  lemma ReaderIsGrammar(text: string, v: Json)
    ensures ParseJson(text) == Got(v, |text|) <==>
      exists before: string, t: Tree, after: string :: Document(text, before, t, after) && Readable(t) && Meaning(t) == Some(v)
  {
    hide ParseJson, Formed, Meaning, Nest, Spell;
    if ParseJson(text) == Got(v, |text|) {
      var before, t, after := ReadIsDerived(text);
      assert Document(text, before, t, after) && Readable(t) && Meaning(t) == Some(v);
    }
    if before: string, t: Tree, after: string :| Document(text, before, t, after) && Readable(t) && Meaning(t) == Some(v) {
      DerivedIsRead(text, before, t, after);
    }
  }
}
