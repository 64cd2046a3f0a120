/** What matching a pattern against a subject is to find: the preferred match from the leftmost start that
    has one. Here the compiled program, the paths through it and the pattern's own meaning are joined. */
module Searching {
  import opened Patterns
  import opened Thompson
  import opened Paths
  import opened Parses
  import opened Captures
  import opened Backtracking
  import opened PikeVm

  // ---- what is to be found ----------------------------------------------------------------------------------

  function Unset(slots: nat): seq<int> {
    seq(slots, _ => -1)
  }

  /** The preferred match from the first start that has one. */
  ghost function Search(p: seq<Inst>, s: Input, slots: nat, from: nat): Option<seq<int>>
    decreases |s.codes| + 1 - from
  {
    if from > |s.codes| then None
    else OrElse(Backtrack(p, s, 0, from, Unset(slots), {}), Search(p, s, slots, from + 1))
  }

  /** A group's stretch, when it has one. */
  datatype Span = Span(start: int, end: int)

  function SpanOf(slots: seq<int>, g: nat): Option<Span>
    requires 2 * g + 1 < |slots|
  {
    if slots[2 * g] == -1 || slots[2 * g + 1] == -1 then None else Some(Span(slots[2 * g], slots[2 * g + 1]))
  }

  /** The captures that slots stand for, group 0 first. */
  function Spans(slots: seq<int>): (r: seq<Option<Span>>)
    ensures |r| == |slots| / 2
    ensures forall g :: 0 <= g < |slots| / 2 ==> r[g] == SpanOf(slots, g)
  {
    seq(|slots| / 2, g requires 0 <= g < |slots| / 2 => SpanOf(slots, g))
  }

  // ---- the whole program ----------------------------------------------------------------------------------------

  lemma {:induction false} SlotsAboveTwo(node: Node)
    requires Parsed(node)
    ensures 0 !in Slots(node) && 1 !in Slots(node)
    decreases node
  {
    match node
    case Cat(parts) => SlotsAboveTwoAll(parts);
    case Alt(branches) => SlotsAboveTwoAll(branches);
    case Group(_, inner) => SlotsAboveTwo(inner);
    case Repeat(inner, _, _) => SlotsAboveTwo(inner);
    case _ =>
  }

  lemma {:induction false} SlotsAboveTwoAll(nodes: seq<Node>)
    requires ParsedAll(nodes)
    ensures 0 !in SlotsOfAll(nodes) && 1 !in SlotsOfAll(nodes)
    decreases nodes
  {
    if nodes != [] {
      SlotsAboveTwo(nodes[0]);
      SlotsAboveTwoAll(nodes[1..]);
    }
  }

  lemma ProgramParts(node: Node)
    requires Parsed(node)
    ensures var p, n := Program(node), Size(node);
      && |p| == n + 3 && p[0] == Save(0) && p[n + 1] == Save(1) && p[n + 2] == Match && Laid(p, 1, Code(node, 1))
      && forall k :: 0 <= k < n + 2 ==> !p[k].Match?
  {
    hide Code, Size, Parsed, SlotCount;
    var p, n := Program(node), Size(node);
    CodeTame(node, 1, 1, 1 + n, SlotCount(node));
    assert p[1..1 + n] == Code(node, 1);
    forall k | 1 <= k < 1 + n ensures p[k] == Code(node, 1)[k - 1] { }
  }

  /** These slots, but for the end of the whole, are what a parse writes. */
  ghost predicate Written(node: Node, s: Input, start: nat, slots: seq<int>, b: seq<int>) {
    && |b| == |slots| >= 2 && slots[1] >= start && slots == b[1 := slots[1]]
    && Parse(node, s, start, slots[1], Unset(|slots|)[0 := start], b)
  }

  /** The slots of a match are those of some way the pattern has of matching, and the start and the end of the
      whole. */
  ghost predicate GenuineMatch(node: Node, s: Input, start: nat, slots: seq<int>) {
    |slots| == Max(2, SlotCount(node)) && slots[0] == start && slots[1] >= start && exists b :: Written(node, s, start, slots, b)
  }

  lemma GenuineMatches(node: Node, s: Input, start: nat, slots: seq<int>)
    requires GenuineMatch(node, s, start, slots)
    ensures Matches(node, s, start, slots[1]) && slots[1] <= |s.codes|
  {
    hide Matches, Parse;
    var b :| Written(node, s, start, slots, b);
    ParseMatches(node, s, start, slots[1], Unset(|slots|)[0 := start], b);
    ParseOrdered(node, s, start, slots[1], Unset(|slots|)[0 := start], b);
  }

  /** What the program accepts, the pattern matches, and it writes its groups as the program does. */
  lemma AcceptedMatches(node: Node, s: Input, start: nat)
    requires Parsed(node)
    requires Backtrack(Program(node), s, 0, start, Unset(Max(2, SlotCount(node))), {}).Some?
    ensures GenuineMatch(node, s, start, Backtrack(Program(node), s, 0, start, Unset(Max(2, SlotCount(node))), {}).value)
  {
    hide Backtrack, Program, Code, Size, Parsed, SlotCount, Reach, Laid, Matches, Parse, Slots;
    var p, n := Program(node), Size(node);
    var unset := Unset(Max(2, SlotCount(node)));
    ProgramParts(node);
    SlotsAboveTwo(node);
    var k, b := BacktrackSound(p, s, 0, start, unset, {});
    assert b.pc == n + 2;
    var x := First(p, s, k, Config(0, start, unset), b);
    var m, c := Leave(node, p, 1, s, k - 1, x, b);
    var d := First(p, s, k - 1 - m, c, b);
    NoStepFromEnd(p, s, k - 1 - m - 1, d, b);
    PassedOrdered(node, s, x, c);
    ParseKeeps(node, s, x.pos, c.pos, x.slots, c.slots);
    assert Written(node, s, start, d.slots, c.slots);
  }

  lemma NoStepFromEnd(p: seq<Inst>, s: Input, n: nat, a: Config, b: Config)
    requires Reach(p, s, n, a, b) && a.pc < |p| && p[a.pc].Match?
    ensures a == b
  {
  }

  /** What the pattern matches, the program accepts. */
  lemma MatchAccepted(node: Node, s: Input, start: nat, j: nat)
    requires Parsed(node) && Matches(node, s, start, j)
    ensures Backtrack(Program(node), s, 0, start, Unset(Max(2, SlotCount(node))), {}).Some?
  {
    hide Backtrack, Program, Code, Size, Parsed, SlotCount, Reach, Laid, Matches, Clear;
    var p, n := Program(node), Size(node);
    var unset := Unset(Max(2, SlotCount(node)));
    ProgramParts(node);
    MatchesOrdered(node, s, start, j);
    var a, x := Config(0, start, unset), Config(1, start, unset[0 := start]);
    ReachOne(p, s, a, x);
    var m, out := Walk(node, p, 1, s, start, j, x.slots);
    var c, d := Config(1 + n, j, out), Config(n + 2, j, out[1 := j]);
    ReachOne(p, s, c, d);
    ReachJoin(p, s, 1, m, a, x, c);
    ReachJoin(p, s, 1 + m, 1, a, c, d);
    ReachClear(p, s, 1 + m + 1, a, d);
    BacktrackComplete(p, s, 1 + m + 1, a, {}, j);
  }

  /** A path from the program's first instruction to its last consumes exactly what the pattern matches. */
  lemma ProgramMatches(node: Node, s: Input, i: nat, j: nat)
    requires Parsed(node) && i <= |s.codes|
    ensures Matches(node, s, i, j) <==>
      exists n: nat, b: Config :: b.pc == Size(node) + 2 && b.pos == j
        && Reach(Program(node), s, n, Config(0, i, Unset(Max(2, SlotCount(node)))), b)
  {
    hide Program, Code, Size, Parsed, SlotCount, Reach, Laid, Matches;
    var p, n := Program(node), Size(node);
    var unset := Unset(Max(2, SlotCount(node)));
    ProgramParts(node);
    var a := Config(0, i, unset);
    if Matches(node, s, i, j) {
      MatchesOrdered(node, s, i, j);
      var x := Config(1, i, unset[0 := i]);
      ReachOne(p, s, a, x);
      var m, out := Walk(node, p, 1, s, i, j, x.slots);
      var c, d := Config(1 + n, j, out), Config(n + 2, j, out[1 := j]);
      ReachOne(p, s, c, d);
      ReachJoin(p, s, 1, m, a, x, c);
      ReachJoin(p, s, 1 + m, 1, a, c, d);
    }
    if k: nat, b: Config :| b.pc == n + 2 && b.pos == j && Reach(p, s, k, a, b) {
      var x := First(p, s, k, a, b);
      var m, c := Leave(node, p, 1, s, k - 1, x, b);
      var d := First(p, s, k - 1 - m, c, b);
      NoStepFromEnd(p, s, k - 1 - m - 1, d, b);
      PassedOrdered(node, s, x, c);
    }
  }

  // ---- the leftmost match ------------------------------------------------------------------------------------------

  ghost predicate MatchesAt(node: Node, s: Input, start: nat) {
    exists j: nat :: Matches(node, s, start, j)
  }

  lemma MatchesAtIff(node: Node, s: Input, start: nat)
    requires Parsed(node)
    ensures MatchesAt(node, s, start) <==> Backtrack(Program(node), s, 0, start, Unset(Max(2, SlotCount(node))), {}).Some?
    ensures MatchesAt(node, s, start) ==> start <= |s.codes|
  {
    hide Backtrack, Matches;
    if MatchesAt(node, s, start) {
      var j: nat :| Matches(node, s, start, j);
      MatchesOrdered(node, s, start, j);
      MatchAccepted(node, s, start, j);
    }
    if Backtrack(Program(node), s, 0, start, Unset(Max(2, SlotCount(node))), {}).Some? {
      AcceptedMatches(node, s, start);
      GenuineMatches(node, s, start, Backtrack(Program(node), s, 0, start, Unset(Max(2, SlotCount(node))), {}).value);
    }
  }

  lemma TwoSlots(node: Node, s: Input, start: nat, slots: seq<int>)
    requires GenuineMatch(node, s, start, slots)
    ensures |slots| >= 2 && slots[0] == start && slots[1] >= start
  {
  }

  /** Nothing is found exactly when no start from here on matches; what is found starts at the leftmost that
      does, is a match, and has genuine groups. */
  lemma {:induction false} SearchMeans(node: Node, s: Input, from: nat)
    requires Parsed(node)
    ensures var r := Search(Program(node), s, Max(2, SlotCount(node)), from);
      && (r.None? <==> forall i: nat :: from <= i ==> !MatchesAt(node, s, i))
      && (r.Some? ==>
            && |r.value| >= 2 && r.value[0] >= from && GenuineMatch(node, s, r.value[0], r.value)
            && forall i: nat :: from <= i < r.value[0] ==> !MatchesAt(node, s, i))
    decreases |s.codes| + 1 - from
  {
    hide Backtrack, Matches, GenuineMatch;
    MatchesAtIff(node, s, from);
    if from > |s.codes| {
      forall i: nat | from <= i ensures !MatchesAt(node, s, i) { MatchesAtIff(node, s, i); }
    } else if Backtrack(Program(node), s, 0, from, Unset(Max(2, SlotCount(node))), {}).Some? {
      AcceptedMatches(node, s, from);
      TwoSlots(node, s, from, Backtrack(Program(node), s, 0, from, Unset(Max(2, SlotCount(node))), {}).value);
    } else {
      SearchMeans(node, s, from + 1);
    }
  }

  const A := Char(CharSet(false, [(97, 97)]))
  const B := Char(CharSet(false, [(98, 98)]))

  /** The match found is the preferred one, not the longest: `a|ab` finds `a` in "ab", which it also matches
      as a whole. */
  lemma NotLongest()
    ensures var node := Alt([A, Cat([A, B])]);
      var s := Input([97, 98], false);
      && Search(Program(node), s, 2, 0) == Some([0, 1])
      && Matches(node, s, 0, 2)
  {
    var s := Input([97, 98], false);
    assert Hits(A.chars, s, 0) && Hits(B.chars, s, 1) by {
      assert (97, 97) in A.chars.ranges && (98, 98) in B.chars.ranges;
    }
    NotLongestMatches(s);
    NotLongestCode();
    var p := Program(Alt([A, Cat([A, B])]));
    var a := Unset(2)[0 := 0];
    assert a[1 := 1] == [0, 1];
    hide Program, Hits, Matches, Unvisited;
    assert Backtrack(p, s, 7, 1, a[1 := 1], {3, 6}) == Some([0, 1]);
    assert {3} + {6} == {3, 6} && {} + {3} == {3};
    assert Backtrack(p, s, 6, 1, a, {3}) == Some([0, 1]);
    assert Backtrack(p, s, 3, 1, a, {}) == Some([0, 1]);
    assert Backtrack(p, s, 2, 0, a, {0, 1}) == Some([0, 1]);
    assert {0} + {1} == {0, 1} && {} + {0} == {0};
    assert Backtrack(p, s, 1, 0, a, {0}) == Some([0, 1]);
    assert Backtrack(p, s, 0, 0, Unset(2), {}) == Some([0, 1]);
  }

  lemma NotLongestMatches(s: Input)
    requires s == Input([97, 98], false) && Hits(A.chars, s, 0) && Hits(B.chars, s, 1)
    ensures Matches(Alt([A, Cat([A, B])]), s, 0, 2)
  {
    hide Hits;
    var ab := Cat([A, B]);
    assert Matches(A, s, 0, 1) && Matches(B, s, 1, 2);
    assert MatchesAll([B], s, 1, 2) by { assert MatchesAll([B][1..], s, 2, 2); }
    assert MatchesAll([A, B], s, 0, 2) by { assert [A, B][1..] == [B]; }
    assert Matches(ab, s, 0, 2);
    assert [A, ab][1] == ab;
    assert Matches(Alt([A, ab]), s, 0, 2);
  }

  lemma NotLongestCode()
    ensures Program(Alt([A, Cat([A, B])]))
      == [Save(0), Split(2, 4), CharI(A.chars), Jmp(6), CharI(A.chars), CharI(B.chars), Save(1), Match]
  {
    var ab := Cat([A, B]);
    assert [A, ab][1..] == [ab] && [A, B][1..] == [B] && [B][1..] == [];
    assert CatSize([]) == 0 && CatSize([B]) == 1 && CatSize([A, B]) == 2;
    assert Size(ab) == 2 && AltSize([ab]) == 2 && AltSize([A, ab]) == 5;
    assert CatCode([B], 5) == [CharI(B.chars)] by { assert CatCode([], 6) == []; }
    assert CatCode([A, B], 4) == [CharI(A.chars), CharI(B.chars)];
    assert AltCode([ab], 4, 6) == Code(ab, 4);
    assert Branch(A, 1, 6) == [Split(2, 4), CharI(A.chars), Jmp(6)];
    assert AltCode([A, ab], 1, 6) == [Split(2, 4), CharI(A.chars), Jmp(6), CharI(A.chars), CharI(B.chars)];
  }

  // ---- what is reported ---------------------------------------------------------------------------------------------

  /** The group stands in the pattern, and this is its inside. */
  ghost predicate GroupIn(node: Node, g: nat, inner: Node)
    decreases node
  {
    match node
    case Cat(parts) => GroupAmong(parts, g, inner)
    case Alt(branches) => GroupAmong(branches, g, inner)
    case Group(h, x) => (h == Some(g) && x == inner) || GroupIn(x, g, inner)
    case Repeat(x, _, _) => GroupIn(x, g, inner)
    case _ => false
  }

  ghost predicate GroupAmong(nodes: seq<Node>, g: nat, inner: Node)
    decreases nodes
  {
    nodes != [] && (GroupIn(nodes[0], g, inner) || GroupAmong(nodes[1..], g, inner))
  }

  /** A stretch of the subject that the node matches. */
  ghost predicate Stretch(node: Node, s: Input, span: Span) {
    0 <= span.start <= span.end && Matches(node, s, span.start, span.end)
  }

  /** What is reported of a match: the stretch of the whole; for each group nothing or a stretch that the group
      matches, and a stretch for each that cannot have been left out; all of it from one way of matching. */
  ghost predicate Reported(node: Node, s: Input, captures: seq<Option<Span>>) {
    && |captures| > 0 && captures[0].Some? && Stretch(node, s, captures[0].value)
    && (forall g, inner :: 0 < g < |captures| && GroupIn(node, g, inner) && captures[g].Some? ==> Stretch(inner, s, captures[g].value))
    && (forall g: nat :: Certain(node, g) ==> 0 < g < |captures| && captures[g].Some?)
    && exists b: seq<int> :: Told(node, s, captures, b)
  }

  /** The groups are those that a parse of the whole stretch sets, at the places it sets them to. */
  ghost predicate Told(node: Node, s: Input, captures: seq<Option<Span>>, b: seq<int>) {
    && |captures| > 0 && captures[0].Some? && 0 <= captures[0].value.start <= captures[0].value.end && |b| == Max(2, SlotCount(node))
    && Parse(node, s, captures[0].value.start, captures[0].value.end, Unset(|b|)[0 := captures[0].value.start], b)
    && |captures| == |b| / 2
    && forall g :: 0 < g < |captures| ==>
         if IsSet(b, g) then captures[g] == Some(Span(b[2 * g], b[2 * g + 1])) else captures[g] == None
  }

  lemma {:induction false} GroupGenuine(node: Node, s: Input, slots: seq<int>, g: nat, inner: Node)
    requires Genuine(node, s, slots) && GroupIn(node, g, inner)
    ensures Captured(inner, s, slots, g)
    decreases node
  {
    hide Matches, Captured;
    match node
    case Cat(parts) => GroupsGenuine(parts, s, slots, g, inner);
    case Alt(branches) => GroupsGenuine(branches, s, slots, g, inner);
    case Group(h, x) => if !(h == Some(g) && x == inner) { GroupGenuine(x, s, slots, g, inner); }
    case Repeat(x, _, _) => GroupGenuine(x, s, slots, g, inner);
  }

  lemma {:induction false} GroupsGenuine(nodes: seq<Node>, s: Input, slots: seq<int>, g: nat, inner: Node)
    requires GenuineAll(nodes, s, slots) && GroupAmong(nodes, g, inner)
    ensures Captured(inner, s, slots, g)
    decreases nodes
  {
    if GroupIn(nodes[0], g, inner) {
      GroupGenuine(nodes[0], s, slots, g, inner);
    } else {
      GroupsGenuine(nodes[1..], s, slots, g, inner);
    }
  }

  lemma {:induction false} CertainNumbered(node: Node, g: nat)
    requires Parsed(node) && Certain(node, g)
    ensures g > 0
    decreases node
  {
    match node
    case Cat(parts) => CertainNumberedIn(parts, g);
    case Group(h, inner) => if h != Some(g) { CertainNumbered(inner, g); }
    case Repeat(inner, _, _) => CertainNumbered(inner, g);
  }

  lemma {:induction false} CertainNumberedIn(parts: seq<Node>, g: nat)
    requires ParsedAll(parts) && CertainIn(parts, g)
    ensures g > 0
    decreases parts
  {
    if Certain(parts[0], g) { CertainNumbered(parts[0], g); } else { CertainNumberedIn(parts[1..], g); }
  }

  /** What slots stand for tells the match they are of. */
  lemma SpansReport(node: Node, s: Input, start: nat, slots: seq<int>)
    requires Parsed(node) && GenuineMatch(node, s, start, slots)
    ensures Reported(node, s, Spans(slots)) && Spans(slots)[0] == Some(Span(start, slots[1]))
  {
    hide Parse, Matches, SlotCount, Parsed, Genuine, GroupIn, Certain;
    var first := Unset(|slots|)[0 := start];
    var captures := Spans(slots);
    var b :| Written(node, s, start, slots, b);
    GenuineMatches(node, s, start, slots);
    ParseKeeps(node, s, start, slots[1], first, b);
    SlotsAboveTwo(node);
    GenuineAtFirst(node, s, Unset(|slots|));
    GenuineFrame(node, s, Unset(|slots|), first);
    ParseGenuine(node, s, start, slots[1], first, b);
    forall g | 0 < g < |captures|
      ensures if IsSet(b, g) then captures[g] == Some(Span(b[2 * g], b[2 * g + 1])) else captures[g] == None
    {
      SpanMeans(first, b, slots, g);
    }
    assert Told(node, s, captures, b);
    forall g, inner | 0 < g < |captures| && GroupIn(node, g, inner) && captures[g].Some? ensures Stretch(inner, s, captures[g].value) {
      GroupGenuine(node, s, b, g, inner);
      CapturedStretch(inner, s, b, g);
    }
    forall g: nat | Certain(node, g) ensures 0 < g < |captures| && captures[g].Some? {
      CertainSet(node, g, s, start, slots[1], first, b);
      CertainNumbered(node, g);
    }
  }

  lemma SpanMeans(first: seq<int>, b: seq<int>, slots: seq<int>, g: nat)
    requires 0 < g && 2 * g + 1 < |first| == |b| == |slots| && slots == b[1 := slots[1]]
    requires forall k :: 0 < k < |first| ==> first[k] == -1 && (b[k] == -1 || b[k] >= 0)
    ensures SpanOf(slots, g) == if IsSet(b, g) then Some(Span(b[2 * g], b[2 * g + 1])) else None
  {
  }

  lemma CapturedStretch(inner: Node, s: Input, b: seq<int>, g: nat)
    requires Captured(inner, s, b, g) && IsSet(b, g)
    ensures Stretch(inner, s, Span(b[2 * g], b[2 * g + 1]))
  {
    MatchesOrdered(inner, s, b[2 * g], b[2 * g + 1]);
  }

  /** What is found from a place on is reported rightly, and stands at the leftmost start there is. */
  lemma SearchReports(node: Node, s: Input, from: nat)
    requires Parsed(node) && Search(Program(node), s, Max(2, SlotCount(node)), from).Some?
    ensures var captures := Spans(Search(Program(node), s, Max(2, SlotCount(node)), from).value);
      && Reported(node, s, captures) && from <= captures[0].value.start
      && forall i: nat :: from <= i < captures[0].value.start ==> !MatchesAt(node, s, i)
  {
    hide Search, GenuineMatch, Reported, MatchesAt;
    SearchMeans(node, s, from);
    var slots := Search(Program(node), s, Max(2, SlotCount(node)), from).value;
    SpansReport(node, s, slots[0], slots);
  }

  // ---- every match ------------------------------------------------------------------------------------------------

  function After(whole: Span): int {
    if whole.end > whole.start then whole.end else whole.end + 1
  }

  /** The matches found by searching again from where the last one ended. */
  ghost function FindAll(node: Node, s: Input, at: nat, limit: nat): seq<seq<Option<Span>>>
    requires Parsed(node)
    decreases limit
  {
    if at > |s.codes| || limit == 0 then [] else
      SearchMeans(node, s, at);
      match Search(Program(node), s, Max(2, SlotCount(node)), at)
      case None => []
      case Some(m) => [Spans(m)] + FindAll(node, s, After(Span(m[0], m[1])), limit - 1)
  }

  lemma FindAllUnfold(node: Node, s: Input, at: nat, limit: nat)
    requires Parsed(node)
    ensures at > |s.codes| || limit == 0 ==> FindAll(node, s, at, limit) == []
    ensures var r := Search(Program(node), s, Max(2, SlotCount(node)), at);
      at <= |s.codes| && limit > 0 ==>
        && (r.None? ==> FindAll(node, s, at, limit) == [])
        && (r.Some? ==>
              && |r.value| >= 2 && 0 <= r.value[0] <= r.value[1]
              && FindAll(node, s, at, limit) == [Spans(r.value)] + FindAll(node, s, After(Span(r.value[0], r.value[1])), limit - 1))
  {
    hide Search, Matches, Parse, Code, Program;
    SearchMeans(node, s, at);
  }

  function StartOf(captures: seq<Option<Span>>): int {
    if captures == [] || captures[0].None? then -1 else captures[0].value.start
  }

  function EndOf(captures: seq<Option<Span>>): int {
    if captures == [] || captures[0].None? then -1 else captures[0].value.end
  }

  function NextAfter(captures: seq<Option<Span>>): int {
    After(Span(StartOf(captures), EndOf(captures)))
  }

  /** The matches are genuine, come in order and do not overlap. */
  ghost predicate InOrder(node: Node, s: Input, at: nat, out: seq<seq<Option<Span>>>) {
    && (forall k :: 0 <= k < |out| ==> Reported(node, s, out[k]) && at <= StartOf(out[k]))
    && (forall k, l :: 0 <= k < l < |out| ==> EndOf(out[k]) <= StartOf(out[l]) && StartOf(out[k]) < StartOf(out[l]))
  }

  /** Where the search for the k-th match began. */
  function Since(at: int, out: seq<seq<Option<Span>>>, k: nat): int
    requires k <= |out|
  {
    if k == 0 then at else NextAfter(out[k - 1])
  }

  /** Between one match and the next nothing starts that was passed over; and nothing after the last, unless
      there are as many as may be. */
  ghost predicate NothingMissed(node: Node, s: Input, at: nat, limit: nat, out: seq<seq<Option<Span>>>) {
    && |out| <= limit
    && (forall k, i: nat :: 0 <= k < |out| && Since(at, out, k) <= i < StartOf(out[k]) ==> !MatchesAt(node, s, i))
    && (|out| < limit ==> forall i: nat :: Since(at, out, |out|) <= i ==> !MatchesAt(node, s, i))
  }

  lemma {:induction false} FindAllMeans(node: Node, s: Input, at: nat, limit: nat)
    requires Parsed(node)
    ensures InOrder(node, s, at, FindAll(node, s, at, limit))
    ensures NothingMissed(node, s, at, limit, FindAll(node, s, at, limit))
    decreases limit
  {
    hide Search, Matches, Backtrack, GenuineMatch, FindAll, MatchesAt, Reported;
    SearchMeans(node, s, at);
    FindAllUnfold(node, s, at, limit);
    var out := FindAll(node, s, at, limit);
    if at > |s.codes| {
      forall i: nat | at <= i ensures !MatchesAt(node, s, i) { MatchesAtIff(node, s, i); }
    } else if limit > 0 && Search(Program(node), s, Max(2, SlotCount(node)), at).Some? {
      var m := Search(Program(node), s, Max(2, SlotCount(node)), at).value;
      var next := After(Span(m[0], m[1]));
      SpansReport(node, s, m[0], m);
      FindAllMeans(node, s, next, limit - 1);
      FirstAndRest(node, s, at, limit, Spans(m), FindAll(node, s, next, limit - 1));
    }
  }

  lemma FirstAndRest(node: Node, s: Input, at: nat, limit: nat, first: seq<Option<Span>>, rest: seq<seq<Option<Span>>>)
    requires limit > 0 && Reported(node, s, first) && at <= StartOf(first)
    requires forall i: nat :: at <= i < StartOf(first) ==> !MatchesAt(node, s, i)
    requires InOrder(node, s, NextAfter(first), rest) && NothingMissed(node, s, NextAfter(first), limit - 1, rest)
    ensures InOrder(node, s, at, [first] + rest) && NothingMissed(node, s, at, limit, [first] + rest)
  {
    hide InOrder, NothingMissed;
    FirstInOrder(node, s, at, first, rest);
    NoneMissedFirst(node, s, at, limit, first, rest);
  }

  lemma FirstInOrder(node: Node, s: Input, at: nat, first: seq<Option<Span>>, rest: seq<seq<Option<Span>>>)
    requires Reported(node, s, first) && at <= StartOf(first) && InOrder(node, s, NextAfter(first), rest)
    ensures InOrder(node, s, at, [first] + rest)
  {
    hide Matches, Certain, GroupIn, Told;
    var out := [first] + rest;
    assert EndOf(first) <= NextAfter(first) && StartOf(first) < NextAfter(first);
    hide Reported, StartOf, EndOf, NextAfter;
    forall k | 0 <= k < |out| ensures Reported(node, s, out[k]) && at <= StartOf(out[k]) {
      if k > 0 { assert out[k] == rest[k - 1]; }
    }
    forall k, l | 0 <= k < l < |out| ensures EndOf(out[k]) <= StartOf(out[l]) && StartOf(out[k]) < StartOf(out[l]) {
      assert out[l] == rest[l - 1];
      if k > 0 { assert out[k] == rest[k - 1]; }
    }
  }

  lemma NoneMissedFirst(node: Node, s: Input, at: nat, limit: nat, first: seq<Option<Span>>, rest: seq<seq<Option<Span>>>)
    requires limit > 0 && NextAfter(first) >= 0 && NothingMissed(node, s, NextAfter(first), limit - 1, rest)
    requires forall i: nat :: at <= i < StartOf(first) ==> !MatchesAt(node, s, i)
    ensures NothingMissed(node, s, at, limit, [first] + rest)
  {
    hide MatchesAt, StartOf, NextAfter;
    var out := [first] + rest;
    SinceShifts(at, first, rest);
    hide Since;
    forall k, i: nat | 0 <= k < |out| && Since(at, out, k) <= i < StartOf(out[k]) ensures !MatchesAt(node, s, i) {
      if k > 0 {
        assert Since(at, out, k) == Since(NextAfter(first), rest, k - 1) && out[k] == rest[k - 1];
      }
    }
    assert Since(at, out, |out|) == Since(NextAfter(first), rest, |rest|);
  }

  lemma SinceShifts(at: int, first: seq<Option<Span>>, rest: seq<seq<Option<Span>>>)
    ensures Since(at, [first] + rest, 0) == at
    ensures forall k :: 0 < k <= |rest| + 1 ==> Since(at, [first] + rest, k) == Since(NextAfter(first), rest, k - 1)
  {
  }
}
