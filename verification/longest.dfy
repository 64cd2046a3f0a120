/** The match found is the one the pattern's first choices lead to. When is it also the longest from its
    start? Whenever the next character decides every choice the pattern leaves open. */
module Longest {
  import opened Patterns
  import opened Thompson
  import opened Paths
  import opened Parses
  import opened Captures
  import opened Backtracking
  import opened PikeVm
  import opened Searching

  // ---- how a pattern can begin ------------------------------------------------------------------------------

  /** The node may match nothing. */
  predicate Nullable(node: Node)
    decreases node
  {
    match node
    case Empty => true
    case Char(_) => false
    case Any => false
    case Anchor(_) => true
    case Cat(parts) => NullableAll(parts)
    case Group(_, inner) => Nullable(inner)
    case Alt(branches) => exists k :: 0 <= k < |branches| && Nullable(branches[k])
    case Repeat(inner, min, _) => min == 0 || Nullable(inner)
  }

  predicate NullableAll(parts: seq<Node>)
    decreases parts
  {
    parts == [] || (Nullable(parts[0]) && NullableAll(parts[1..]))
  }

  /** A match of the node may begin with this character. */
  ghost predicate Begins(node: Node, c: int, fold: bool)
    decreases node
  {
    match node
    case Empty => false
    case Char(chars) => InSet(chars, c) || (fold && InSet(chars, FoldCase(c)))
    case Any => c != NEWLINE
    case Anchor(_) => false
    case Cat(parts) => BeginsAll(parts, c, fold)
    case Group(_, inner) => Begins(inner, c, fold)
    case Alt(branches) => exists k :: 0 <= k < |branches| && Begins(branches[k], c, fold)
    case Repeat(inner, _, _) => Begins(inner, c, fold)
  }

  ghost predicate BeginsAll(parts: seq<Node>, c: int, fold: bool)
    decreases parts
  {
    parts != [] && (Begins(parts[0], c, fold) || (Nullable(parts[0]) && BeginsAll(parts[1..], c, fold)))
  }

  ghost predicate StartsRight(node: Node, s: Input, i: nat, j: nat) {
    i <= j <= |s.codes| && (j == i ==> Nullable(node)) && (j > i ==> Begins(node, s.codes[i], s.ignoreCase))
  }

  ghost predicate StartsRightAll(parts: seq<Node>, s: Input, i: nat, j: nat) {
    i <= j <= |s.codes| && (j == i ==> NullableAll(parts)) && (j > i ==> BeginsAll(parts, s.codes[i], s.ignoreCase))
  }

  lemma {:induction false} MatchStarts(node: Node, s: Input, i: nat, j: nat)
    requires Matches(node, s, i, j)
    ensures StartsRight(node, s, i, j)
    decreases node, 0, 0
  {
    hide Hits, Times, MatchesAll;
    match node
    case Char(chars) => HitIs(chars, s, i);
    case Cat(parts) => AllStarts(parts, s, i, j);
    case Group(_, inner) => MatchStarts(inner, s, i, j);
    case Alt(branches) =>
      var k :| 0 <= k < |branches| && Matches(branches[k], s, i, j);
      MatchStarts(branches[k], s, i, j);
    case Repeat(inner, min, max) =>
      var n: nat :| InBounds(n, min, max) && Times(inner, n, s, i, j);
      TimesStarts(inner, n, s, i, j);
    case _ =>
  }

  lemma HitIs(chars: CharSet, s: Input, i: nat)
    requires i < |s.codes| && Hits(chars, s, i)
    ensures Begins(Char(chars), s.codes[i], s.ignoreCase)
  {
  }

  lemma {:induction false} AllStarts(parts: seq<Node>, s: Input, i: nat, j: nat)
    requires MatchesAll(parts, s, i, j)
    ensures StartsRightAll(parts, s, i, j)
    decreases parts, 0, 0
  {
    hide Matches, Nullable, Begins;
    if parts != [] {
      var k: nat :| Matches(parts[0], s, i, k) && MatchesAll(parts[1..], s, k, j);
      MatchStarts(parts[0], s, i, k);
      AllStarts(parts[1..], s, k, j);
    }
  }

  lemma {:induction false} TimesStarts(node: Node, n: nat, s: Input, i: nat, j: nat)
    requires Times(node, n, s, i, j)
    ensures i <= j <= |s.codes|
    ensures j == i && n > 0 ==> Nullable(node)
    ensures j > i ==> Begins(node, s.codes[i], s.ignoreCase)
    decreases node, 1, n
  {
    hide Matches, Nullable, Begins;
    if n > 0 {
      var k: nat :| Matches(node, s, i, k) && Times(node, n - 1, s, k, j);
      MatchStarts(node, s, i, k);
      TimesStarts(node, n - 1, s, k, j);
    }
  }

  // ---- patterns whose choices the next character decides -------------------------------------------------------

  /** Of two ways to go on, the first to be tried first: no character begins both, and if the first may come
      to its end at once, nothing begins the second. */
  ghost predicate Apart(first: seq<Node>, second: seq<Node>, fold: bool) {
    && (forall c: int :: BeginsAll(first, c, fold) ==> !BeginsAll(second, c, fold))
    && (NullableAll(first) ==> forall c: int :: !BeginsAll(second, c, fold))
  }

  /** Every choice inside the node, with `rest` still to be matched after it, is decided by the next
      character: between a branch and the later ones, and between another turn and leaving. */
  ghost predicate Decisive(node: Node, rest: seq<Node>, fold: bool)
    decreases node, 0, 0
  {
    match node
    case Cat(parts) => DecisiveAll(parts, rest, fold)
    case Group(_, inner) => Decisive(inner, rest, fold)
    case Alt(branches) => DecisiveAlt(branches, rest, fold)
    case Repeat(inner, min, None) => DecisiveCopies(inner, min, None, rest, fold) && DecisiveStar(inner, rest, fold)
    case Repeat(inner, min, Some(max)) =>
      max >= min && DecisiveCopies(inner, min, Some(max - min), rest, fold) && DecisiveOptional(inner, max - min, rest, fold)
    case _ => true
  }

  ghost predicate DecisiveAll(parts: seq<Node>, rest: seq<Node>, fold: bool)
    decreases parts, 0, 0
  {
    parts == [] || (Decisive(parts[0], parts[1..] + rest, fold) && DecisiveAll(parts[1..], rest, fold))
  }

  ghost predicate DecisiveAlt(branches: seq<Node>, rest: seq<Node>, fold: bool)
    decreases branches, 0, 0
  {
    branches == [] ||
    (Decisive(branches[0], rest, fold)
     && (|branches| > 1 ==>
          Apart([branches[0]] + rest, [Alt(branches[1..])] + rest, fold) && DecisiveAlt(branches[1..], rest, fold)))
  }

  /** What is left of a repetition: so many turns that must be, and so many that may be. */
  function Turns(inner: Node, n: nat, more: Option<nat>): Node {
    Repeat(inner, n, if more.None? then None else Some(n + more.value))
  }

  ghost predicate DecisiveCopies(inner: Node, n: nat, more: Option<nat>, rest: seq<Node>, fold: bool)
    decreases inner, 1, n
  {
    n == 0 ||
    (Decisive(inner, [Turns(inner, n - 1, more)] + rest, fold) && DecisiveCopies(inner, n - 1, more, rest, fold))
  }

  ghost predicate DecisiveStar(inner: Node, rest: seq<Node>, fold: bool)
    decreases inner, 1, 0
  {
    var star := Turns(inner, 0, None);
    Apart([inner, star] + rest, rest, fold) && Decisive(inner, [star] + rest, fold)
  }

  ghost predicate DecisiveOptional(inner: Node, n: nat, rest: seq<Node>, fold: bool)
    decreases inner, 1, n
  {
    if n == 0 then true else
      var others := Turns(inner, 0, Some(n - 1));
      && Apart([inner, others] + rest, rest, fold)
      && Decisive(inner, [others] + rest, fold) && DecisiveOptional(inner, n - 1, rest, fold)
  }

  // ---- what is ahead of an instruction ----------------------------------------------------------------------------

  /** A path from this instruction, at pos, to the end of the program, at e. */
  ghost predicate Goes(p: seq<Inst>, s: Input, pc: nat, pos: nat, e: nat) {
    exists n: nat, slots: seq<int>, b: Config :: Ends(p, s, n, Config(pc, pos, slots), b, e)
  }

  ghost predicate Ends(p: seq<Inst>, s: Input, n: nat, a: Config, b: Config, e: nat) {
    a.pos <= |s.codes| && Reach(p, s, n, a, b) && b.pc + 1 == |p| && b.pos == e
  }

  /** What is consumed from this instruction to the end is what these nodes match. */
  ghost predicate Ahead(p: seq<Inst>, s: Input, pc: nat, rest: seq<Node>) {
    forall pos: nat, e: nat :: Goes(p, s, pc, pos, e) ==> MatchesAll(rest, s, pos, e)
  }

  lemma AheadNode(node: Node, p: seq<Inst>, at: nat, s: Input, rest: seq<Node>)
    requires Parsed(node) && Laid(p, at, Code(node, at)) && at + Size(node) < |p| && Ahead(p, s, at + Size(node), rest)
    ensures Ahead(p, s, at, [node] + rest)
  {
    hide Reach, Laid, Code, Size, Parsed, Matches, MatchesAll;
    forall pos: nat, e: nat | Goes(p, s, at, pos, e) ensures MatchesAll([node] + rest, s, pos, e) {
      var n: nat, slots: seq<int>, b: Config :| Ends(p, s, n, Config(at, pos, slots), b, e);
      var m, c := Leave(node, p, at, s, n, Config(at, pos, slots), b);
      PassedOrdered(node, s, Config(at, pos, slots), c);
      assert Ends(p, s, n - m, Config(c.pc, c.pos, c.slots), b, e);
      assert Goes(p, s, c.pc, c.pos, e);
      FirstThenRest(node, rest, s, pos, c.pos, e);
    }
  }

  lemma FirstThenRest(node: Node, rest: seq<Node>, s: Input, i: nat, k: nat, j: nat)
    requires Matches(node, s, i, k) && MatchesAll(rest, s, k, j)
    ensures MatchesAll([node] + rest, s, i, j)
  {
    assert ([node] + rest)[1..] == rest;
  }

  /** An instruction that consumes nothing and leads to one place has ahead what that place has. */
  lemma AheadStep(p: seq<Inst>, s: Input, pc: nat, to: nat, rest: seq<Node>)
    requires pc + 1 < |p| && Ahead(p, s, to, rest)
    requires p[pc] == Jmp(to) || (p[pc].Save? && to == pc + 1)
    ensures Ahead(p, s, pc, rest)
  {
    hide Reach, MatchesAll;
    forall pos: nat, e: nat | Goes(p, s, pc, pos, e) ensures MatchesAll(rest, s, pos, e) {
      var n: nat, slots: seq<int>, b: Config :| Ends(p, s, n, Config(pc, pos, slots), b, e);
      var x := First(p, s, n, Config(pc, pos, slots), b);
      assert Ends(p, s, n - 1, Config(x.pc, x.pos, x.slots), b, e);
      assert Goes(p, s, to, pos, e);
    }
  }

  lemma {:induction false} AheadAll(parts: seq<Node>, p: seq<Inst>, at: nat, s: Input, rest: seq<Node>)
    requires ParsedAll(parts) && Laid(p, at, CatCode(parts, at)) && at + CatSize(parts) < |p|
    requires Ahead(p, s, at + CatSize(parts), rest)
    ensures Ahead(p, s, at, parts + rest)
    decreases |parts|
  {
    hide Ahead, Code, Size, Parsed, Laid;
    if parts == [] {
      assert parts + rest == rest;
    } else {
      var next := at + Size(parts[0]);
      LaidSplit(p, at, Code(parts[0], at), CatCode(parts[1..], next));
      AheadAll(parts[1..], p, next, s, rest);
      AheadNode(parts[0], p, at, s, parts[1..] + rest);
      assert [parts[0]] + (parts[1..] + rest) == parts + rest;
    }
  }

  // ---- splits that the next character decides ------------------------------------------------------------------------

  /** When the first way leads to the end, the second leads nowhere further than here. */
  ghost predicate Decided(p: seq<Inst>, s: Input, x: nat, y: nat) {
    forall pos: nat, e: nat, f: nat :: Goes(p, s, x, pos, e) && Goes(p, s, y, pos, f) ==> f <= pos
  }

  lemma ApartDecides(p: seq<Inst>, s: Input, x: nat, y: nat, first: seq<Node>, second: seq<Node>)
    requires Ahead(p, s, x, first) && Ahead(p, s, y, second) && Apart(first, second, s.ignoreCase)
    ensures Decided(p, s, x, y)
  {
    hide Goes, MatchesAll, BeginsAll, NullableAll;
    forall pos: nat, e: nat, f: nat | Goes(p, s, x, pos, e) && Goes(p, s, y, pos, f) ensures f <= pos {
      AllStarts(first, s, pos, e);
      AllStarts(second, s, pos, f);
    }
  }

  ghost predicate DecidedFrom(p: seq<Inst>, s: Input, lo: nat, hi: nat) {
    forall k :: lo <= k < hi && k < |p| && p[k].Split? ==> Decided(p, s, p[k].x, p[k].y)
  }

  lemma DecidedJoin(p: seq<Inst>, s: Input, lo: nat, mid: nat, hi: nat)
    requires DecidedFrom(p, s, lo, mid) && DecidedFrom(p, s, mid, hi)
    ensures DecidedFrom(p, s, lo, hi)
  {
    hide Decided;
  }

  lemma DecidedOne(p: seq<Inst>, s: Input, k: nat)
    requires k < |p| && (p[k].Split? ==> Decided(p, s, p[k].x, p[k].y))
    ensures DecidedFrom(p, s, k, k + 1)
  {
    hide Decided;
  }

  lemma DecidedNone(p: seq<Inst>, s: Input, k: nat)
    ensures DecidedFrom(p, s, k, k)
  {
  }

  /** In the code of a decisive node every split is decided. */
  lemma {:induction false} SplitsDecided(node: Node, p: seq<Inst>, at: nat, s: Input, rest: seq<Node>)
    requires Parsed(node) && Laid(p, at, Code(node, at)) && at + Size(node) < |p|
    requires Ahead(p, s, at + Size(node), rest) && Decisive(node, rest, s.ignoreCase)
    ensures DecidedFrom(p, s, at, at + Size(node))
    decreases node, 0, 0
  {
    hide Laid, Ahead, DecidedFrom, AltCode, CatCode, DecisiveAll, DecisiveAlt, DecisiveCopies, DecisiveStar, DecisiveOptional;
    match node
    case Cat(parts) => SplitsAll(parts, p, at, s, rest);
    case Alt(branches) => SplitsAlt(branches, p, at, at + Size(node), s, rest);
    case Group(None, inner) => SplitsDecided(inner, p, at, s, rest);
    case Group(Some(g), inner) => SplitsGroup(g, inner, p, at, s, rest);
    case Repeat(inner, min, max) => SplitsRepeat(inner, min, max, p, at, s, rest);
    case Empty => DecidedNone(p, s, at);
    case _ =>
      LaidSimple(p, at, node);
      DecidedOne(p, s, at);
  }

  lemma {:induction false} SplitsAll(parts: seq<Node>, p: seq<Inst>, at: nat, s: Input, rest: seq<Node>)
    requires ParsedAll(parts) && Laid(p, at, CatCode(parts, at)) && at + CatSize(parts) < |p|
    requires Ahead(p, s, at + CatSize(parts), rest) && DecisiveAll(parts, rest, s.ignoreCase)
    ensures DecidedFrom(p, s, at, at + CatSize(parts))
    decreases parts, 0, 0
  {
    hide Laid, Ahead, DecidedFrom, Code, Size, Parsed, Decisive;
    if parts == [] {
      DecidedNone(p, s, at);
    } else {
      var next := at + Size(parts[0]);
      LaidSplit(p, at, Code(parts[0], at), CatCode(parts[1..], next));
      AheadAll(parts[1..], p, next, s, rest);
      SplitsDecided(parts[0], p, at, s, parts[1..] + rest);
      SplitsAll(parts[1..], p, next, s, rest);
      DecidedJoin(p, s, at, next, at + CatSize(parts));
    }
  }

  lemma SplitsGroup(g: nat, inner: Node, p: seq<Inst>, at: nat, s: Input, rest: seq<Node>)
    requires Parsed(inner) && Laid(p, at, [Save(2 * g)] + Code(inner, at + 1) + [Save(2 * g + 1)]) && at + Size(inner) + 2 < |p|
    requires Ahead(p, s, at + Size(inner) + 2, rest) && Decisive(inner, rest, s.ignoreCase)
    ensures DecidedFrom(p, s, at, at + Size(inner) + 2)
    decreases inner, 1, 0
  {
    hide Laid, Ahead, DecidedFrom, Code, Size, Parsed, Decisive;
    var last := at + 1 + Size(inner);
    LaidGroup(p, at, inner, g);
    AheadStep(p, s, last, last + 1, rest);
    SplitsDecided(inner, p, at + 1, s, rest);
    DecidedOne(p, s, at);
    DecidedOne(p, s, last);
    DecidedJoin(p, s, at, at + 1, last);
    DecidedJoin(p, s, at, last, last + 1);
  }

  /** The code of one branch between its split and its jump. */
  lemma SplitsBranch(inner: Node, p: seq<Inst>, at: nat, to: nat, s: Input, rest: seq<Node>, after: seq<Node>)
    requires Parsed(inner) && at + Size(inner) + 2 < |p| && p[at] == Split(at + 1, at + Size(inner) + 2)
    requires Laid(p, at + 1, Code(inner, at + 1)) && p[at + Size(inner) + 1] == Jmp(to)
    requires Ahead(p, s, to, rest) && Ahead(p, s, at + Size(inner) + 2, after)
    requires Decisive(inner, rest, s.ignoreCase) && Apart([inner] + rest, after, s.ignoreCase)
    ensures DecidedFrom(p, s, at, at + Size(inner) + 2)
    decreases inner, 1, 0
  {
    hide Laid, Ahead, DecidedFrom, Code, Size, Parsed, Decisive, Apart, Decided;
    var last := at + Size(inner) + 1;
    AheadStep(p, s, last, to, rest);
    AheadNode(inner, p, at + 1, s, rest);
    ApartDecides(p, s, at + 1, last + 1, [inner] + rest, after);
    SplitsDecided(inner, p, at + 1, s, rest);
    DecidedOne(p, s, at);
    DecidedOne(p, s, last);
    DecidedJoin(p, s, at, at + 1, last);
    DecidedJoin(p, s, at, last, last + 1);
  }

  lemma {:induction false} SplitsAlt(branches: seq<Node>, p: seq<Inst>, at: nat, end: nat, s: Input, rest: seq<Node>)
    requires branches != [] && ParsedAll(branches) && Laid(p, at, AltCode(branches, at, end)) && end == at + AltSize(branches)
    requires end < |p| && Ahead(p, s, end, rest) && DecisiveAlt(branches, rest, s.ignoreCase)
    ensures DecidedFrom(p, s, at, end)
    decreases branches, 0, 0
  {
    hide Laid, Ahead, DecidedFrom, Code, Size, Parsed, Decisive, Apart, Branch;
    if |branches| == 1 {
      SplitsDecided(branches[0], p, at, s, rest);
    } else {
      var others := branches[1..];
      var next := at + Size(branches[0]) + 2;
      LaidBranch(p, at, branches[0], end, AltCode(others, next, end));
      AheadAlt(others, p, next, end, s, rest);
      SplitsBranch(branches[0], p, at, end, s, rest, [Alt(others)] + rest);
      SplitsAlt(others, p, next, end, s, rest);
      DecidedJoin(p, s, at, next, end);
    }
  }

  lemma AheadAlt(branches: seq<Node>, p: seq<Inst>, at: nat, end: nat, s: Input, rest: seq<Node>)
    requires branches != [] && ParsedAll(branches) && Laid(p, at, AltCode(branches, at, end)) && end == at + AltSize(branches)
    requires end < |p| && Ahead(p, s, end, rest)
    ensures Ahead(p, s, at, [Alt(branches)] + rest)
  {
    hide Laid, Ahead, AltCode, ParsedAll;
    AheadNode(Alt(branches), p, at, s, rest);
  }

  // ---- repetitions -----------------------------------------------------------------------------------------------------

  /** The code of what is left of a repetition. */
  lemma LaidTurns(p: seq<Inst>, at: nat, inner: Node, n: nat, more: Option<nat>)
    ensures Size(Turns(inner, n, more)) == CopiesSize(inner, n) + TailSize(inner, more)
    ensures Laid(p, at, CopiesCode(inner, n, at) + TailCode(inner, at + CopiesSize(inner, n), more))
      <==> Laid(p, at, Code(Turns(inner, n, more), at))
    ensures Parsed(inner) ==> Parsed(Turns(inner, n, more))
  {
    hide Laid, CopiesCode, OptionalCode, Branch, CopiesSize;
  }

  function TailSize(inner: Node, more: Option<nat>): nat {
    if more.None? then Size(inner) + 2 else OptionalSize(inner, more.value)
  }

  function TailCode(inner: Node, at: nat, more: Option<nat>): seq<Inst> {
    if more.None? then Branch(inner, at, at) else OptionalCode(inner, more.value, at, at + OptionalSize(inner, more.value))
  }

  lemma SplitsRepeat(inner: Node, min: nat, max: Option<nat>, p: seq<Inst>, at: nat, s: Input, rest: seq<Node>)
    requires Parsed(Repeat(inner, min, max)) && Laid(p, at, Code(Repeat(inner, min, max), at))
    requires at + Size(Repeat(inner, min, max)) < |p|
    requires Ahead(p, s, at + Size(Repeat(inner, min, max)), rest) && Decisive(Repeat(inner, min, max), rest, s.ignoreCase)
    ensures DecidedFrom(p, s, at, at + Size(Repeat(inner, min, max)))
    decreases inner, 3, 0
  {
    hide Laid, Ahead, DecidedFrom, Code, Size, DecisiveCopies, DecisiveStar, DecisiveOptional, CopiesSize, OptionalSize,
      CopiesCode, OptionalCode, Branch;
    var more := if max.None? then None else Some(max.value - min);
    assert Repeat(inner, min, max) == Turns(inner, min, more);
    LaidTurns(p, at, inner, min, more);
    SplitsTurns(inner, min, more, p, at, s, rest);
  }

  lemma {:induction false} SplitsTurns(inner: Node, n: nat, more: Option<nat>, p: seq<Inst>, at: nat, s: Input, rest: seq<Node>)
    requires Parsed(inner) && at + Size(Turns(inner, n, more)) < |p|
    requires Laid(p, at, CopiesCode(inner, n, at) + TailCode(inner, at + CopiesSize(inner, n), more))
    requires Ahead(p, s, at + Size(Turns(inner, n, more)), rest) && DecisiveCopies(inner, n, more, rest, s.ignoreCase)
    requires if more.None? then DecisiveStar(inner, rest, s.ignoreCase) else DecisiveOptional(inner, more.value, rest, s.ignoreCase)
    ensures DecidedFrom(p, s, at, at + Size(Turns(inner, n, more)))
    decreases inner, 2, n
  {
    hide Laid, Ahead, DecidedFrom, Code, Size, Parsed, Decisive, DecisiveStar, DecisiveOptional, TailCode, TailSize, Turns;
    var end := at + Size(Turns(inner, n, more));
    LaidTurns(p, at, inner, n, more);
    if n == 0 {
      assert CopiesCode(inner, 0, at) + TailCode(inner, at, more) == TailCode(inner, at, more);
      if more.None? { SplitsStar(inner, p, at, s, rest); } else { SplitsOptional(inner, more.value, p, at, end, s, rest); }
    } else {
      var next := at + Size(inner);
      CopiesRegroup(inner, n, more, at);
      LaidSplit(p, at, Code(inner, at), CopiesCode(inner, n - 1, next) + TailCode(inner, next + CopiesSize(inner, n - 1), more));
      LaidTurns(p, next, inner, n - 1, more);
      AheadNode(Turns(inner, n - 1, more), p, next, s, rest);
      SplitsDecided(inner, p, at, s, [Turns(inner, n - 1, more)] + rest);
      SplitsTurns(inner, n - 1, more, p, next, s, rest);
      DecidedJoin(p, s, at, next, end);
    }
  }

  lemma CopiesRegroup(inner: Node, n: nat, more: Option<nat>, at: nat)
    requires n > 0
    ensures var next := at + Size(inner);
      CopiesCode(inner, n, at) + TailCode(inner, at + CopiesSize(inner, n), more)
        == Code(inner, at) + (CopiesCode(inner, n - 1, next) + TailCode(inner, next + CopiesSize(inner, n - 1), more))
  {
    hide Code, Size, TailCode;
  }

  lemma StarIsTurns(inner: Node, p: seq<Inst>, at: nat)
    ensures TailCode(inner, at, None) == Branch(inner, at, at) && Size(Turns(inner, 0, None)) == Size(inner) + 2
    ensures Laid(p, at, Branch(inner, at, at)) ==> Laid(p, at, Code(Turns(inner, 0, None), at))
  {
    hide Laid, Branch;
    LaidTurns(p, at, inner, 0, None);
    assert CopiesCode(inner, 0, at) + TailCode(inner, at, None) == Branch(inner, at, at);
  }

  lemma SplitsStar(inner: Node, p: seq<Inst>, at: nat, s: Input, rest: seq<Node>)
    requires Parsed(inner) && Laid(p, at, TailCode(inner, at, None)) && at + Size(Turns(inner, 0, None)) < |p|
    requires Ahead(p, s, at + Size(Turns(inner, 0, None)), rest) && DecisiveStar(inner, rest, s.ignoreCase)
    ensures DecidedFrom(p, s, at, at + Size(Turns(inner, 0, None)))
    decreases inner, 1, 1
  {
    hide Laid, Ahead, DecidedFrom, Code, Size, Parsed, Decisive, Branch, Apart, TailCode;
    var star := Turns(inner, 0, None);
    StarIsTurns(inner, p, at);
    ParsedTurns(inner, 0, None);
    assert Branch(inner, at, at) == Branch(inner, at, at) + [];
    LaidBranch(p, at, inner, at, []);
    AheadNode(star, p, at, s, rest);
    assert [inner, star] + rest == [inner] + ([star] + rest);
    SplitsBranch(inner, p, at, at, s, [star] + rest, rest);
  }

  lemma ParsedTurns(inner: Node, n: nat, more: Option<nat>)
    requires Parsed(inner)
    ensures Parsed(Turns(inner, n, more))
  {
  }

  lemma OptionalIsTurns(inner: Node, n: nat, p: seq<Inst>, at: nat)
    ensures Size(Turns(inner, 0, Some(n))) == OptionalSize(inner, n)
    ensures Laid(p, at, OptionalCode(inner, n, at, at + OptionalSize(inner, n))) ==> Laid(p, at, Code(Turns(inner, 0, Some(n)), at))
    ensures TailCode(inner, at, Some(n)) == OptionalCode(inner, n, at, at + OptionalSize(inner, n))
  {
    hide Laid;
    LaidTurns(p, at, inner, 0, Some(n));
    assert CopiesCode(inner, 0, at) + TailCode(inner, at, Some(n)) == TailCode(inner, at, Some(n));
  }

  lemma SplitsOptional(inner: Node, n: nat, p: seq<Inst>, at: nat, end: nat, s: Input, rest: seq<Node>)
    requires Parsed(inner) && Laid(p, at, TailCode(inner, at, Some(n))) && end == at + Size(Turns(inner, 0, Some(n))) < |p|
    requires Ahead(p, s, end, rest) && DecisiveOptional(inner, n, rest, s.ignoreCase)
    ensures DecidedFrom(p, s, at, end)
    decreases inner, 1, n + 1
  {
    hide Laid, Ahead, DecidedFrom, Code, Size, Parsed, Decisive, OptionalCode, Apart, TailCode, Turns, Decided;
    OptionalIsTurns(inner, n, p, at);
    if n == 0 {
      DecidedNone(p, s, at);
    } else {
      var next := at + 1 + Size(inner);
      var others := Turns(inner, 0, Some(n - 1));
      LaidCopy(p, at, inner, n, end);
      OptionalIsTurns(inner, n - 1, p, next);
      ParsedTurns(inner, 0, Some(n - 1));
      AheadNode(others, p, next, s, rest);
      AheadNode(inner, p, at + 1, s, [others] + rest);
      assert [inner] + ([others] + rest) == [inner, others] + rest;
      ApartDecides(p, s, at + 1, end, [inner, others] + rest, rest);
      SplitsDecided(inner, p, at + 1, s, [others] + rest);
      SplitsOptional(inner, n - 1, p, next, end, s, rest);
      DecidedOne(p, s, at);
      DecidedJoin(p, s, at, at + 1, next);
      DecidedJoin(p, s, at, next, end);
    }
  }

  // ---- the preferred way is the longest ------------------------------------------------------------------------------

  lemma {:induction false} ReachGrows(p: seq<Inst>, s: Input, n: nat, a: Config, b: Config)
    requires Reach(p, s, n, a, b)
    ensures a.pos <= b.pos
    decreases n
  {
    hide Hits;
    if n > 0 {
      var x :| Steps(p, s, a, x) && Reach(p, s, n - 1, x, b);
      ReachGrows(p, s, n - 1, x, b);
    }
  }

  /** The only end is the last instruction. */
  ghost predicate EndsOnce(p: seq<Inst>) {
    forall k :: 0 <= k < |p| && p[k].Match? ==> k + 1 == |p|
  }

  lemma {:induction false} ClearGoes(p: seq<Inst>, s: Input, n: nat, a: Config, avoid: set<nat>, e: nat) returns (b: Config)
    requires EndsOnce(p) && Clear(p, s, n, a, avoid, e)
    ensures Reach(p, s, n, a, b) && b.pc + 1 == |p| && b.pos == e
    decreases n
  {
    hide Steps;
    if n == 0 {
      b := a;
    } else {
      var x := ClearFirst(p, s, n, a, avoid, e);
      b := ClearGoes(p, s, n - 1, x, if x.pos == a.pos then avoid else {}, e);
    }
  }

  /** What a configuration that does not split comes to is what its successor comes to. */
  lemma OneWay(p: seq<Inst>, s: Input, a: Config, x: Config, visited: set<nat>)
    requires Steps(p, s, a, x) && !p[a.pc].Split? && a.pc !in visited
    ensures Backtrack(p, s, a.pc, a.pos, a.slots, visited)
      == Backtrack(p, s, x.pc, x.pos, x.slots, if x.pos == a.pos then visited + {a.pc} else {})
  {
    hide Hits, Unvisited;
  }

  lemma TwoWays(p: seq<Inst>, s: Input, a: Config, visited: set<nat>)
    requires a.pc < |p| && a.pos <= |s.codes| && p[a.pc].Split? && a.pc !in visited
    ensures Backtrack(p, s, a.pc, a.pos, a.slots, visited)
      == OrElse(Backtrack(p, s, p[a.pc].x, a.pos, a.slots, visited + {a.pc}),
                Backtrack(p, s, p[a.pc].y, a.pos, a.slots, visited + {a.pc}))
  {
    hide Hits, Unvisited;
  }

  lemma OneOfTwo(p: seq<Inst>, s: Input, a: Config, x: Config)
    requires Steps(p, s, a, x) && p[a.pc].Split?
    ensures x == a.(pc := p[a.pc].x) || x == a.(pc := p[a.pc].y)
  {
  }

  lemma StepAhead(p: seq<Inst>, s: Input, a: Config, x: Config, n: nat, b: Config)
    requires Steps(p, s, a, x) && Reach(p, s, n, x, b)
    ensures Reach(p, s, n + 1, a, b)
  {
    hide Steps;
  }

  /** Where every split is decided, no path gets further than the one preferred. */
  lemma {:induction false} PreferredFurthest(p: seq<Inst>, s: Input, n: nat, a: Config, visited: set<nat>, e: nat)
    returns (m: nat, b: Config)
    requires EndsOnce(p) && DecidedFrom(p, s, 0, |p|) && Clear(p, s, n, a, visited, e)
    ensures Reach(p, s, m, a, b) && b.pc + 1 == |p| && b.pos >= e
    ensures Backtrack(p, s, a.pc, a.pos, a.slots, visited) == Some(b.slots)
    decreases n
  {
    hide Backtrack, Clear, Steps, Reach, DecidedFrom, Unvisited;
    if n == 0 {
      AtTheEnd(p, s, a, visited, e);
      ReachNone(p, s, a);
      m, b := 0, a;
      return;
    }
    var x := ClearFirst(p, s, n, a, visited, e);
    if x.pos != a.pos {
      m, b := PreferredFurthest(p, s, n - 1, x, {}, e);
      MovesOneWay(p, s, a, x);
      OneWay(p, s, a, x, visited);
      StepAhead(p, s, a, x, m, b);
      m := m + 1;
      return;
    }
    var k, slots := StayOff(p, s, n - 1, x, visited, a.pc, e);
    if !Clear(p, s, n - 1, x, visited + {a.pc}, e) {
      ClearSlots(p, s, k, Config(a.pc, x.pos, slots), a.slots, visited, e);
      m, b := PreferredFurthest(p, s, k, a, visited, e);
      return;
    }
    m, b := PreferredFurthest(p, s, n - 1, x, visited + {a.pc}, e);
    if p[a.pc].Split? {
      TwoWays(p, s, a, visited);
      OneOfTwo(p, s, a, x);
      var first := a.(pc := p[a.pc].x);
      var tried := Backtrack(p, s, first.pc, first.pos, first.slots, visited + {a.pc});
      if x != first && tried.Some? {
        m, b := BacktrackSound(p, s, first.pc, first.pos, first.slots, visited + {a.pc});
        var d := ClearGoes(p, s, n - 1, x, visited + {a.pc}, e);
        EndIsLast(p, b);
        ReachGrows(p, s, m, first, b);
        NoFurther(p, s, a, first, x, m, b, n - 1, d);
        FirstWay(p, s, a);
        StepAhead(p, s, a, first, m, b);
        m := m + 1;
        return;
      }
    } else {
      OneWay(p, s, a, x, visited);
    }
    StepAhead(p, s, a, x, m, b);
    m := m + 1;
  }

  lemma AtTheEnd(p: seq<Inst>, s: Input, a: Config, visited: set<nat>, e: nat)
    requires EndsOnce(p) && Clear(p, s, 0, a, visited, e)
    ensures Backtrack(p, s, a.pc, a.pos, a.slots, visited) == Some(a.slots) && a.pc + 1 == |p| && a.pos == e
  {
    hide Hits, Unvisited;
  }

  lemma EndIsLast(p: seq<Inst>, b: Config)
    requires EndsOnce(p) && b.pc < |p| && p[b.pc].Match?
    ensures b.pc + 1 == |p|
  {
  }

  /** Moving on in the subject is not splitting. */
  lemma MovesOneWay(p: seq<Inst>, s: Input, a: Config, x: Config)
    requires Steps(p, s, a, x) && x.pos != a.pos
    ensures !p[a.pc].Split?
  {
    hide Hits;
  }

  lemma FirstWay(p: seq<Inst>, s: Input, a: Config)
    requires a.pc < |p| && a.pos <= |s.codes| && p[a.pc].Split?
    ensures Steps(p, s, a, a.(pc := p[a.pc].x))
  {
  }

  lemma NoFurther(p: seq<Inst>, s: Input, a: Config, x: Config, y: Config, n: nat, b: Config, m: nat, d: Config)
    requires a.pc < |p| && a.pos <= |s.codes| && p[a.pc].Split? && DecidedFrom(p, s, 0, |p|)
    requires x == a.(pc := p[a.pc].x) && y == a.(pc := p[a.pc].y)
    requires Reach(p, s, n, x, b) && b.pc + 1 == |p| && Reach(p, s, m, y, d) && d.pc + 1 == |p|
    ensures d.pos <= a.pos
  {
    hide Reach;
    assert Ends(p, s, n, Config(x.pc, x.pos, x.slots), b, b.pos) && Ends(p, s, m, Config(y.pc, y.pos, y.slots), d, d.pos);
    assert Goes(p, s, x.pc, a.pos, b.pos) && Goes(p, s, y.pc, a.pos, d.pos);
    assert Decided(p, s, p[a.pc].x, p[a.pc].y);
  }

  // ---- the whole pattern -----------------------------------------------------------------------------------------------

  lemma ProgramDecided(node: Node, s: Input)
    requires Parsed(node) && Decisive(node, [], s.ignoreCase)
    ensures EndsOnce(Program(node)) && DecidedFrom(Program(node), s, 0, |Program(node)|)
  {
    hide Decided, Code, Size, Parsed, Decisive, Program, Ahead, DecidedFrom, Laid;
    var p, n := Program(node), Size(node);
    ProgramParts(node);
    assert Ahead(p, s, n + 1, []) by { NothingAhead(p, s, n + 1); }
    SplitsDecided(node, p, 1, s, []);
    DecidedOne(p, s, 0);
    DecidedOne(p, s, n + 1);
    DecidedOne(p, s, n + 2);
    DecidedJoin(p, s, 0, 1, n + 1);
    DecidedJoin(p, s, 0, n + 1, n + 2);
    DecidedJoin(p, s, 0, n + 2, n + 3);
  }

  /** From the last save nothing more is consumed. */
  lemma NothingAhead(p: seq<Inst>, s: Input, pc: nat)
    requires pc + 2 == |p| && p[pc].Save? && p[pc + 1].Match?
    ensures Ahead(p, s, pc, [])
  {
    forall pos: nat, e: nat | Goes(p, s, pc, pos, e) ensures MatchesAll([], s, pos, e) {
      var n: nat, slots: seq<int>, b: Config :| Ends(p, s, n, Config(pc, pos, slots), b, e);
      var x := First(p, s, n, Config(pc, pos, slots), b);
      NoStepFromEnd(p, s, n - 1, x, b);
    }
  }

  /** A path from the start of the program to its end saves where it ends. */
  lemma EndSaved(node: Node, s: Input, start: nat, k: nat, b: Config)
    requires Parsed(node) && start <= |s.codes| && b.pc == Size(node) + 2
    requires Reach(Program(node), s, k, Config(0, start, Unset(Max(2, SlotCount(node)))), b)
    ensures |b.slots| >= 2 && b.slots[1] == b.pos
  {
    hide Program, Code, Size, Parsed, SlotCount, Reach, Laid, Matches, Slots, Parse;
    var p, n := Program(node), Size(node);
    var unset := Unset(Max(2, SlotCount(node)));
    ProgramParts(node);
    var x := First(p, s, k, Config(0, start, unset), b);
    var m, c := Leave(node, p, 1, s, k - 1, x, b);
    var d := First(p, s, k - 1 - m, c, b);
    NoStepFromEnd(p, s, k - 1 - m - 1, d, b);
    PassedOrdered(node, s, x, c);
  }

  /** From a start where a decisive pattern matches up to j, the match found ends at j or later. */
  lemma PreferredIsLongest(node: Node, s: Input, start: nat, j: nat)
    requires Parsed(node) && Decisive(node, [], s.ignoreCase) && Matches(node, s, start, j)
    ensures var r := Backtrack(Program(node), s, 0, start, Unset(Max(2, SlotCount(node))), {});
      r.Some? && |r.value| >= 2 && r.value[1] >= j
  {
    hide Backtrack, Program, Code, Size, Parsed, SlotCount, Reach, Laid, Matches, Clear, Decisive, DecidedFrom;
    var p, n := Program(node), Size(node);
    var unset := Unset(Max(2, SlotCount(node)));
    ProgramParts(node);
    ProgramDecided(node, s);
    var k := MatchWalked(node, s, start, j);
    var m, b := PreferredFurthest(p, s, k, Config(0, start, unset), {}, j);
    MatchesOrdered(node, s, start, j);
    EndSaved(node, s, start, m, b);
  }

  lemma MatchWalked(node: Node, s: Input, start: nat, j: nat) returns (k: nat)
    requires Parsed(node) && Matches(node, s, start, j)
    ensures Clear(Program(node), s, k, Config(0, start, Unset(Max(2, SlotCount(node)))), {}, j)
  {
    hide Program, Code, Size, Parsed, SlotCount, Reach, Laid, Matches, Clear;
    var p, n := Program(node), Size(node);
    var unset := Unset(Max(2, SlotCount(node)));
    ProgramParts(node);
    MatchesOrdered(node, s, start, j);
    var a, x := Config(0, start, unset), Config(1, start, unset[0 := start]);
    ReachOne(p, s, a, x);
    var m, out := Walk(node, p, 1, s, start, j, x.slots);
    var c, d := Config(1 + n, j, out), Config(n + 2, j, out[1 := j]);
    ReachOne(p, s, c, d);
    ReachJoin(p, s, 1, m, a, x, c);
    ReachJoin(p, s, 1 + m, 1, a, c, d);
    k := 1 + m + 1;
    ReachClear(p, s, k, a, d);
  }

  // ---- patterns of one width -----------------------------------------------------------------------------------------------

  /** The one length of what the node matches, if it has one. */
  function Width(node: Node): Option<nat>
    decreases node
  {
    match node
    case Empty => Some(0)
    case Char(_) => Some(1)
    case Any => Some(1)
    case Anchor(_) => Some(0)
    case Cat(parts) => WidthAll(parts)
    case Group(_, inner) => Width(inner)
    case Alt(branches) => WidthEach(branches)
    case Repeat(inner, min, max) =>
      if Width(inner) == Some(0) then Some(0)
      else if Width(inner).Some? && max == Some(min) then Some(min * Width(inner).value)
      else None
  }

  function WidthAll(parts: seq<Node>): Option<nat>
    decreases parts
  {
    if parts == [] then Some(0)
    else if Width(parts[0]).None? || WidthAll(parts[1..]).None? then None
    else Some(Width(parts[0]).value + WidthAll(parts[1..]).value)
  }

  function WidthEach(branches: seq<Node>): Option<nat>
    decreases branches
  {
    if branches == [] then None
    else if |branches| == 1 then Width(branches[0])
    else if Width(branches[0]) == WidthEach(branches[1..]) then Width(branches[0])
    else None
  }

  lemma {:induction false} WidthHolds(node: Node, s: Input, i: nat, j: nat)
    requires Width(node).Some? && Matches(node, s, i, j)
    ensures j == i + Width(node).value
    decreases node, 0, 0
  {
    hide Hits, Times, MatchesAll, WidthAll, WidthEach;
    match node
    case Cat(parts) => WidthAllHolds(parts, s, i, j);
    case Group(_, inner) => WidthHolds(inner, s, i, j);
    case Alt(branches) =>
      var k :| 0 <= k < |branches| && Matches(branches[k], s, i, j);
      WidthEachHolds(branches, k, s, i, j);
    case Repeat(inner, min, max) =>
      var n: nat :| InBounds(n, min, max) && Times(inner, n, s, i, j);
      WidthTimesHolds(inner, n, s, i, j);
    case _ =>
  }

  lemma {:induction false} WidthAllHolds(parts: seq<Node>, s: Input, i: nat, j: nat)
    requires WidthAll(parts).Some? && MatchesAll(parts, s, i, j)
    ensures j == i + WidthAll(parts).value
    decreases parts, 0, 0
  {
    hide Matches, Width;
    if parts != [] {
      var k: nat :| Matches(parts[0], s, i, k) && MatchesAll(parts[1..], s, k, j);
      WidthHolds(parts[0], s, i, k);
      WidthAllHolds(parts[1..], s, k, j);
    }
  }

  lemma {:induction false} WidthEachHolds(branches: seq<Node>, k: nat, s: Input, i: nat, j: nat)
    requires WidthEach(branches).Some? && k < |branches| && Matches(branches[k], s, i, j)
    ensures j == i + WidthEach(branches).value
    decreases branches, 0, 0
  {
    hide Matches, Width;
    if k == 0 {
      WidthHolds(branches[0], s, i, j);
    } else {
      WidthEachHolds(branches[1..], k - 1, s, i, j);
    }
  }

  lemma {:induction false} WidthTimesHolds(node: Node, n: nat, s: Input, i: nat, j: nat)
    requires Width(node).Some? && Times(node, n, s, i, j)
    ensures j == i + n * Width(node).value
    decreases node, 1, n
  {
    hide Matches, Width;
    if n > 0 {
      var k: nat :| Matches(node, s, i, k) && Times(node, n - 1, s, k, j);
      WidthHolds(node, s, i, k);
      WidthTimesHolds(node, n - 1, s, k, j);
      assert n * Width(node).value == (n - 1) * Width(node).value + Width(node).value;
    }
  }

  // ---- leftmost and longest -----------------------------------------------------------------------------------------------

  /** Leftmost-longest, as the source's comments promise, for every pattern whose choices the next character
      decides and every pattern of one width: from the start found, no match ends later. */
  lemma LeftmostLongest(node: Node, s: Input, from: nat)
    requires Parsed(node) && (Decisive(node, [], s.ignoreCase) || Width(node).Some?)
    ensures var r := Search(Program(node), s, Max(2, SlotCount(node)), from);
      r.Some? ==>
        && |r.value| >= 2 && from <= r.value[0] <= r.value[1] && Matches(node, s, r.value[0], r.value[1])
        && (forall j: nat :: Matches(node, s, r.value[0], j) ==> j <= r.value[1])
        && forall i: nat :: from <= i < r.value[0] ==> !MatchesAt(node, s, i)
  {
    hide Backtrack, Matches, GenuineMatch, Decisive, Program, Search, MatchesAt;
    SearchMeans(node, s, from);
    var r := Search(Program(node), s, Max(2, SlotCount(node)), from);
    if r.Some? {
      var start: nat := r.value[0];
      GenuineMatches(node, s, start, r.value);
      TwoSlots(node, s, start, r.value);
      var found := FoundThere(node, s, from);
      assert start == found;
      forall j: nat | Matches(node, s, start, j) ensures j <= r.value[1] {
        if Width(node).Some? {
          WidthHolds(node, s, start, j);
          WidthHolds(node, s, start, r.value[1]);
        } else {
          PreferredIsLongest(node, s, start, j);
        }
      }
    }
  }

  /** What is found is the preferred match from its own start. */
  lemma {:induction false} FoundThere(node: Node, s: Input, from: nat) returns (start: nat)
    requires Parsed(node) && Search(Program(node), s, Max(2, SlotCount(node)), from).Some?
    ensures var r := Search(Program(node), s, Max(2, SlotCount(node)), from);
      r == Backtrack(Program(node), s, 0, start, Unset(Max(2, SlotCount(node))), {})
      && |r.value| >= 2 && r.value[0] == start
    decreases |s.codes| + 1 - from
  {
    hide Backtrack, Program, Matches, GenuineMatch;
    if Backtrack(Program(node), s, 0, from, Unset(Max(2, SlotCount(node))), {}).Some? {
      start := from;
      AcceptedMatches(node, s, from);
      TwoSlots(node, s, from, Backtrack(Program(node), s, 0, from, Unset(Max(2, SlotCount(node))), {}).value);
    } else {
      start := FoundThere(node, s, from + 1);
    }
  }

  /** The condition tells the two kinds apart: `a*b` is decisive, and `a|ab`, for which the match found is
      not the longest, is not. */
  lemma WhichAreDecisive()
    ensures Decisive(Cat([Repeat(A, 0, None), B]), [], false)
    ensures !Decisive(Alt([A, Cat([A, B])]), [], false) && Width(Alt([A, Cat([A, B])])).None?
  {
    StarThenDecisive();
    SharedStart();
  }

  lemma StarThenDecisive()
    ensures Decisive(Cat([Repeat(A, 0, None), B]), [], false)
  {
    var star := Repeat(A, 0, None);
    var parts, rest := [star, B], [B] + [];
    assert parts[1..] == [B] && [B][1..] == [] && rest == [B];
    assert Turns(A, 0, None) == star;
    var first := [A, star] + rest;
    assert first[0] == A && rest[0] == B;
    forall c: int | BeginsAll(first, c, false) ensures !BeginsAll(rest, c, false) {
      OnlyA(c);
      assert !Nullable(first[0]) && !Nullable(rest[0]);
      assert BeginsAll(first, c, false) == Begins(A, c, false) == InSet(A.chars, c);
      assert BeginsAll(rest, c, false) == Begins(B, c, false) == InSet(B.chars, c);
    }
    assert Apart(first, rest, false);
    assert DecisiveStar(A, rest, false);
    assert Decisive(star, rest, false);
    assert DecisiveAll([B], [], false) by { assert DecisiveAll([], [], false); }
    assert DecisiveAll(parts, [], false);
  }

  lemma OnlyA(c: int)
    ensures InSet(A.chars, c) <==> c == 97
    ensures InSet(B.chars, c) <==> c == 98
  {
    assert A.chars.ranges[0] == (97, 97) && B.chars.ranges[0] == (98, 98);
  }

  lemma SharedStart()
    ensures !Decisive(Alt([A, Cat([A, B])]), [], false) && Width(Alt([A, Cat([A, B])])).None?
  {
    var ab := Cat([A, B]);
    var branches := [A, ab];
    assert branches[1..] == [ab] && [A, B][1..] == [B] && [B][1..] == [];
    OnlyA(97);
    var first, second := [A] + [], [Alt([ab])] + [];
    assert first[0] == A && second[0] == Alt([ab]);
    assert BeginsAll(first, 97, false);
    assert Begins(ab, 97, false) by { assert BeginsAll([A, B], 97, false) by { assert [A, B][0] == A; } }
    assert [ab][0] == ab;
    assert BeginsAll(second, 97, false);
    assert WidthAll([]) == Some(0) && WidthAll([B]) == Some(1);
    assert WidthAll([A, B]) == Some(2);
    assert WidthEach([ab]) == Some(2);
  }
}
