/** How a pattern matches: which branch, how many passes, and what each group comes to hold on the way. A group's
    slots get where it starts and ends, a later pass writing over an earlier one. */
module Parses {
  import opened Patterns

  /** The node takes i..j, and the slots from a to b. */
  ghost predicate Parse(node: Node, s: Input, i: nat, j: nat, a: seq<int>, b: seq<int>)
    decreases node, 0, 0
  {
    && i <= j <= |s.codes|
    && match node
       case Cat(parts) => ParseAll(parts, s, i, j, a, b)
       case Alt(branches) => exists k :: 0 <= k < |branches| && Parse(branches[k], s, i, j, a, b)
       case Group(None, inner) => Parse(inner, s, i, j, a, b)
       case Group(Some(g), inner) =>
         2 * g + 1 < |a| == |b| && exists c: seq<int> ::
           |c| == |a| && Parse(inner, s, i, j, a[2 * g := i], c) && b == c[2 * g + 1 := j]
       case Repeat(inner, min, max) => exists n: nat :: InBounds(n, min, max) && ParseTimes(inner, n, s, i, j, a, b)
       case _ => Matches(node, s, i, j) && a == b
  }

  ghost predicate ParseAll(parts: seq<Node>, s: Input, i: nat, j: nat, a: seq<int>, b: seq<int>)
    decreases parts, 0, 0
  {
    if parts == [] then i == j <= |s.codes| && a == b else
      exists k: nat, c: seq<int> :: Parse(parts[0], s, i, k, a, c) && ParseAll(parts[1..], s, k, j, c, b)
  }

  /** The same node n times over. */
  ghost predicate ParseTimes(node: Node, n: nat, s: Input, i: nat, j: nat, a: seq<int>, b: seq<int>)
    decreases node, 1, n
  {
    if n == 0 then i == j <= |s.codes| && a == b else
      exists k: nat, c: seq<int> :: Parse(node, s, i, k, a, c) && ParseTimes(node, n - 1, s, k, j, c, b)
  }

  lemma {:induction false} ParseTimesJoin(node: Node, n: nat, m: nat, s: Input, i: nat, k: nat, j: nat, a: seq<int>, c: seq<int>,
                                          b: seq<int>)
    requires ParseTimes(node, n, s, i, k, a, c) && ParseTimes(node, m, s, k, j, c, b)
    ensures ParseTimes(node, n + m, s, i, j, a, b)
    decreases n
  {
    hide Parse;
    if n > 0 {
      var x: nat, d :| Parse(node, s, i, x, a, d) && ParseTimes(node, n - 1, s, x, k, d, c);
      ParseTimesJoin(node, n - 1, m, s, x, k, j, d, c, b);
    }
  }

  lemma {:induction false} ParseTimesOrdered(node: Node, n: nat, s: Input, i: nat, j: nat, a: seq<int>, b: seq<int>)
    requires ParseTimes(node, n, s, i, j, a, b)
    ensures i <= j <= |s.codes|
    decreases n
  {
    if n > 0 {
      var k: nat, c :| Parse(node, s, i, k, a, c) && ParseTimes(node, n - 1, s, k, j, c, b);
      ParseTimesOrdered(node, n - 1, s, k, j, c, b);
    }
  }

  lemma {:induction false} ParseAllOrdered(parts: seq<Node>, s: Input, i: nat, j: nat, a: seq<int>, b: seq<int>)
    requires ParseAll(parts, s, i, j, a, b)
    ensures i <= j <= |s.codes|
    decreases |parts|
  {
    if parts != [] {
      var k: nat, c :| Parse(parts[0], s, i, k, a, c) && ParseAll(parts[1..], s, k, j, c, b);
      ParseAllOrdered(parts[1..], s, k, j, c, b);
    }
  }

  // ---- what is taken is matched ------------------------------------------------------------------------------------

  lemma {:induction false} ParseMatches(node: Node, s: Input, i: nat, j: nat, a: seq<int>, b: seq<int>)
    requires Parse(node, s, i, j, a, b)
    ensures Matches(node, s, i, j)
    decreases node, 0, 0
  {
    match node
    case Cat(parts) => ParseAllMatches(parts, s, i, j, a, b);
    case Alt(branches) =>
      var k :| 0 <= k < |branches| && Parse(branches[k], s, i, j, a, b);
      ParseMatches(branches[k], s, i, j, a, b);
    case Group(None, inner) => ParseMatches(inner, s, i, j, a, b);
    case Group(Some(g), inner) =>
      var c: seq<int> :| |c| == |a| && Parse(inner, s, i, j, a[2 * g := i], c) && b == c[2 * g + 1 := j];
      ParseMatches(inner, s, i, j, a[2 * g := i], c);
    case Repeat(inner, min, max) =>
      var n: nat :| InBounds(n, min, max) && ParseTimes(inner, n, s, i, j, a, b);
      ParseTimesMatches(inner, n, s, i, j, a, b);
    case _ =>
  }

  lemma {:induction false} ParseAllMatches(parts: seq<Node>, s: Input, i: nat, j: nat, a: seq<int>, b: seq<int>)
    requires ParseAll(parts, s, i, j, a, b)
    ensures MatchesAll(parts, s, i, j)
    decreases parts, 0, 0
  {
    if parts != [] {
      var k: nat, c :| Parse(parts[0], s, i, k, a, c) && ParseAll(parts[1..], s, k, j, c, b);
      ParseMatches(parts[0], s, i, k, a, c);
      ParseAllMatches(parts[1..], s, k, j, c, b);
    }
  }

  lemma {:induction false} ParseTimesMatches(node: Node, n: nat, s: Input, i: nat, j: nat, a: seq<int>, b: seq<int>)
    requires ParseTimes(node, n, s, i, j, a, b)
    ensures Times(node, n, s, i, j)
    decreases node, 1, n
  {
    if n > 0 {
      var k: nat, c :| Parse(node, s, i, k, a, c) && ParseTimes(node, n - 1, s, k, j, c, b);
      ParseMatches(node, s, i, k, a, c);
      ParseTimesMatches(node, n - 1, s, k, j, c, b);
    }
  }

  // ---- which slots change --------------------------------------------------------------------------------------------

  /** Only these slots differ; and one that is set stays set. */
  ghost predicate Keeps(touched: set<nat>, a: seq<int>, b: seq<int>) {
    && |a| == |b| && (forall k: nat :: k < |a| && k !in touched ==> a[k] == b[k])
    && forall k: nat :: k < |a| ==> b[k] == a[k] || b[k] >= 0
  }

  lemma {:induction false} ParseKeeps(node: Node, s: Input, i: nat, j: nat, a: seq<int>, b: seq<int>)
    requires Parse(node, s, i, j, a, b)
    ensures Keeps(Slots(node), a, b)
    decreases node, 0, 0
  {
    match node
    case Cat(parts) => ParseAllKeeps(parts, s, i, j, a, b);
    case Alt(branches) =>
      var k :| 0 <= k < |branches| && Parse(branches[k], s, i, j, a, b);
      ParseKeeps(branches[k], s, i, j, a, b);
      SlotsIn(branches, k);
    case Group(None, inner) => ParseKeeps(inner, s, i, j, a, b);
    case Group(Some(g), inner) =>
      var c: seq<int> :| |c| == |a| && Parse(inner, s, i, j, a[2 * g := i], c) && b == c[2 * g + 1 := j];
      ParseKeeps(inner, s, i, j, a[2 * g := i], c);
      GroupKeeps(g, inner, i, j, a, b, c);
    case Repeat(inner, min, max) =>
      var n: nat :| InBounds(n, min, max) && ParseTimes(inner, n, s, i, j, a, b);
      ParseTimesKeeps(inner, n, s, i, j, a, b);
    case _ =>
  }

  lemma GroupKeeps(g: nat, inner: Node, i: nat, j: nat, a: seq<int>, b: seq<int>, c: seq<int>)
    requires 2 * g + 1 < |a| == |c| && Keeps(Slots(inner), a[2 * g := i], c) && b == c[2 * g + 1 := j]
    ensures Keeps(Slots(Group(Some(g), inner)), a, b)
  {
    var touched := Slots(Group(Some(g), inner));
    assert 2 * g in touched && 2 * g + 1 in touched;
  }

  lemma {:induction false} SlotsIn(nodes: seq<Node>, k: nat)
    requires k < |nodes|
    ensures Slots(nodes[k]) <= SlotsOfAll(nodes)
    decreases k
  {
    if k > 0 {
      assert nodes[1..][k - 1] == nodes[k];
      SlotsIn(nodes[1..], k - 1);
    }
  }

  lemma {:induction false} ParseAllKeeps(parts: seq<Node>, s: Input, i: nat, j: nat, a: seq<int>, b: seq<int>)
    requires ParseAll(parts, s, i, j, a, b)
    ensures Keeps(SlotsOfAll(parts), a, b)
    decreases parts, 0, 0
  {
    if parts != [] {
      var k: nat, c :| Parse(parts[0], s, i, k, a, c) && ParseAll(parts[1..], s, k, j, c, b);
      ParseKeeps(parts[0], s, i, k, a, c);
      ParseAllKeeps(parts[1..], s, k, j, c, b);
    }
  }

  lemma {:induction false} ParseTimesKeeps(node: Node, n: nat, s: Input, i: nat, j: nat, a: seq<int>, b: seq<int>)
    requires ParseTimes(node, n, s, i, j, a, b)
    ensures Keeps(Slots(node), a, b)
    decreases node, 1, n
  {
    if n > 0 {
      var k: nat, c :| Parse(node, s, i, k, a, c) && ParseTimes(node, n - 1, s, k, j, c, b);
      ParseKeeps(node, s, i, k, a, c);
      ParseTimesKeeps(node, n - 1, s, k, j, c, b);
    }
  }

  // ---- groups are genuine ----------------------------------------------------------------------------------------------

  lemma {:induction false} ParseGenuine(node: Node, s: Input, i: nat, j: nat, a: seq<int>, b: seq<int>)
    requires Parsed(node) && Parse(node, s, i, j, a, b) && Genuine(node, s, a)
    ensures Genuine(node, s, b)
    decreases node, 0, 0
  {
    hide Matches;
    match node
    case Cat(parts) => ParseAllGenuine(parts, s, i, j, a, b);
    case Alt(branches) =>
      var k :| 0 <= k < |branches| && Parse(branches[k], s, i, j, a, b);
      ParseOneGenuine(branches, k, s, i, j, a, b);
    case Group(None, inner) => ParseGenuine(inner, s, i, j, a, b);
    case Group(Some(g), inner) =>
      var c: seq<int> :| |c| == |a| && Parse(inner, s, i, j, a[2 * g := i], c) && b == c[2 * g + 1 := j];
      GenuineElsewhere(g, inner, s, a, a[2 * g := i]);
      ParseGenuine(inner, s, i, j, a[2 * g := i], c);
      ParseKeeps(inner, s, i, j, a[2 * g := i], c);
      ParseMatches(inner, s, i, j, a[2 * g := i], c);
      GenuineElsewhere(g, inner, s, c, b);
      OwnSlots(g, inner);
      assert b[2 * g] == i && b[2 * g + 1] == j;
    case Repeat(inner, min, max) =>
      var n: nat :| InBounds(n, min, max) && ParseTimes(inner, n, s, i, j, a, b);
      ParseTimesGenuine(inner, n, s, i, j, a, b);
    case _ =>
  }

  lemma OwnSlots(g: nat, inner: Node)
    requires Parsed(Group(Some(g), inner))
    ensures 2 * g !in Slots(inner) && 2 * g + 1 !in Slots(inner)
  {
    assert 2 * g in {2 * g, 2 * g + 1} && 2 * g + 1 in {2 * g, 2 * g + 1};
  }

  lemma GenuineElsewhere(g: nat, inner: Node, s: Input, a: seq<int>, b: seq<int>)
    requires Parsed(Group(Some(g), inner)) && Genuine(inner, s, a) && |a| == |b|
    requires forall k :: 0 <= k < |a| && k != 2 * g && k != 2 * g + 1 ==> a[k] == b[k]
    ensures Genuine(inner, s, b)
  {
    OwnSlots(g, inner);
    GenuineFrame(inner, s, a, b);
  }

  lemma {:induction false} ParseAllGenuine(parts: seq<Node>, s: Input, i: nat, j: nat, a: seq<int>, b: seq<int>)
    requires ParsedAll(parts) && ParseAll(parts, s, i, j, a, b) && GenuineAll(parts, s, a)
    ensures GenuineAll(parts, s, b)
    decreases parts, 0, 0
  {
    hide Genuine, Matches, Parse;
    if parts != [] {
      var k: nat, c :| Parse(parts[0], s, i, k, a, c) && ParseAll(parts[1..], s, k, j, c, b);
      ParseKeeps(parts[0], s, i, k, a, c);
      ParseAllKeeps(parts[1..], s, k, j, c, b);
      ParseGenuine(parts[0], s, i, k, a, c);
      GenuineFrameAll(parts[1..], s, a, c);
      ParseAllGenuine(parts[1..], s, k, j, c, b);
      GenuineFrame(parts[0], s, c, b);
    }
  }

  /** One branch is taken, and the groups of the others stay. */
  lemma {:induction false} ParseOneGenuine(branches: seq<Node>, k: nat, s: Input, i: nat, j: nat, a: seq<int>, b: seq<int>)
    requires ParsedAll(branches) && k < |branches| && Parse(branches[k], s, i, j, a, b) && GenuineAll(branches, s, a)
    ensures GenuineAll(branches, s, b)
    decreases branches, 1, k
  {
    hide Genuine, Matches, Parse, Slots;
    ParseKeeps(branches[k], s, i, j, a, b);
    if k == 0 {
      ParseGenuine(branches[0], s, i, j, a, b);
      GenuineFrameAll(branches[1..], s, a, b);
    } else {
      assert branches[1..][k - 1] == branches[k];
      SlotsIn(branches[1..], k - 1);
      ParseOneGenuine(branches[1..], k - 1, s, i, j, a, b);
      GenuineFrame(branches[0], s, a, b);
    }
  }

  lemma {:induction false} ParseTimesGenuine(node: Node, n: nat, s: Input, i: nat, j: nat, a: seq<int>, b: seq<int>)
    requires Parsed(node) && ParseTimes(node, n, s, i, j, a, b) && Genuine(node, s, a)
    ensures Genuine(node, s, b)
    decreases node, 1, n
  {
    hide Matches, Genuine, Parse;
    if n > 0 {
      var k: nat, c :| Parse(node, s, i, k, a, c) && ParseTimes(node, n - 1, s, k, j, c, b);
      ParseGenuine(node, s, i, k, a, c);
      ParseTimesGenuine(node, n - 1, s, k, j, c, b);
    }
  }

  // ---- groups that must be set -----------------------------------------------------------------------------------------

  /** The group stands under no alternation and under nothing that may be left out. */
  ghost predicate Certain(node: Node, g: nat)
    decreases node
  {
    match node
    case Cat(parts) => CertainIn(parts, g)
    case Group(h, inner) => h == Some(g) || Certain(inner, g)
    case Repeat(inner, min, _) => min > 0 && Certain(inner, g)
    case _ => false
  }

  ghost predicate CertainIn(parts: seq<Node>, g: nat)
    decreases parts
  {
    parts != [] && (Certain(parts[0], g) || CertainIn(parts[1..], g))
  }

  ghost predicate IsSet(slots: seq<int>, g: nat) {
    2 * g + 1 < |slots| && slots[2 * g] >= 0 && slots[2 * g + 1] >= 0
  }

  lemma FirstTime(node: Node, n: nat, s: Input, i: nat, j: nat, a: seq<int>, b: seq<int>) returns (k: nat, c: seq<int>)
    requires n > 0 && ParseTimes(node, n, s, i, j, a, b)
    ensures Parse(node, s, i, k, a, c) && ParseTimes(node, n - 1, s, k, j, c, b)
  {
    hide Parse;
    k, c :| Parse(node, s, i, k, a, c) && ParseTimes(node, n - 1, s, k, j, c, b);
  }

  lemma {:induction false} CertainSet(node: Node, g: nat, s: Input, i: nat, j: nat, a: seq<int>, b: seq<int>)
    requires Certain(node, g) && Parse(node, s, i, j, a, b)
    ensures IsSet(b, g)
    decreases node, 0, 0
  {
    match node
    case Cat(parts) => CertainSetIn(parts, g, s, i, j, a, b);
    case Group(None, inner) => CertainSet(inner, g, s, i, j, a, b);
    case Group(Some(h), inner) =>
      var c: seq<int> :| |c| == |a| && Parse(inner, s, i, j, a[2 * h := i], c) && b == c[2 * h + 1 := j];
      ParseKeeps(inner, s, i, j, a[2 * h := i], c);
      if h != g { CertainSet(inner, g, s, i, j, a[2 * h := i], c); }
    case Repeat(inner, min, max) =>
      var n: nat :| InBounds(n, min, max) && ParseTimes(inner, n, s, i, j, a, b);
      var k, c := FirstTime(inner, n, s, i, j, a, b);
      CertainSet(inner, g, s, i, k, a, c);
      ParseTimesKeeps(inner, n - 1, s, k, j, c, b);
  }

  lemma {:induction false} CertainSetIn(parts: seq<Node>, g: nat, s: Input, i: nat, j: nat, a: seq<int>, b: seq<int>)
    requires CertainIn(parts, g) && ParseAll(parts, s, i, j, a, b)
    ensures IsSet(b, g)
    decreases parts, 0, 0
  {
    var k: nat, c :| Parse(parts[0], s, i, k, a, c) && ParseAll(parts[1..], s, k, j, c, b);
    if Certain(parts[0], g) {
      CertainSet(parts[0], g, s, i, k, a, c);
      ParseAllKeeps(parts[1..], s, k, j, c, b);
    } else {
      CertainSetIn(parts[1..], g, s, k, j, c, b);
    }
  }

  // ---- the last pass -----------------------------------------------------------------------------------------------------

  lemma ParseOrdered(node: Node, s: Input, i: nat, j: nat, a: seq<int>, b: seq<int>)
    requires Parse(node, s, i, j, a, b)
    ensures i <= j <= |s.codes|
  {
  }

  lemma {:induction false} LastTime(node: Node, n: nat, s: Input, i: nat, j: nat, a: seq<int>, b: seq<int>) returns (k: nat, c: seq<int>)
    requires n > 0 && ParseTimes(node, n, s, i, j, a, b)
    ensures ParseTimes(node, n - 1, s, i, k, a, c) && Parse(node, s, k, j, c, b)
    decreases n
  {
    hide Parse;
    var m: nat, d :| Parse(node, s, i, m, a, d) && ParseTimes(node, n - 1, s, m, j, d, b);
    ParseOrdered(node, s, i, m, a, d);
    if n == 1 {
      k, c := i, a;
      assert ParseTimes(node, 0, s, i, i, a, a);
    } else {
      k, c := LastTime(node, n - 1, s, m, j, d, b);
      assert Parse(node, s, i, m, a, d) && ParseTimes(node, n - 2, s, m, k, d, c);
    }
  }

  /** Of a group that is repeated the last pass is reported: the stretch ends where the repetition ends, and starts
      where the passes before it have come to. With no pass at all nothing is written. */
  lemma LastPass(g: nat, inner: Node, min: nat, max: Option<nat>, s: Input, i: nat, j: nat, a: seq<int>, b: seq<int>)
    requires Parsed(Group(Some(g), inner)) && Parse(Repeat(Group(Some(g), inner), min, max), s, i, j, a, b)
    ensures (a == b && i == j && min == 0)
      || exists k: nat, n: nat :: n + 1 >= min && Times(Group(Some(g), inner), n, s, i, k) && Matches(inner, s, k, j)
           && IsSet(b, g) && b[2 * g] == k && b[2 * g + 1] == j
  {
    var node := Group(Some(g), inner);
    var n: nat :| InBounds(n, min, max) && ParseTimes(node, n, s, i, j, a, b);
    if n > 0 {
      var k, c := LastTime(node, n, s, i, j, a, b);
      ParseTimesMatches(node, n - 1, s, i, k, a, c);
      var d: seq<int> :| |d| == |c| && Parse(inner, s, k, j, c[2 * g := k], d) && b == d[2 * g + 1 := j];
      ParseMatches(inner, s, k, j, c[2 * g := k], d);
      ParseKeeps(inner, s, k, j, c[2 * g := k], d);
      OwnSlots(g, inner);
      assert n - 1 + 1 >= min && Times(node, n - 1, s, i, k) && Matches(inner, s, k, j) && b[2 * g] == k && b[2 * g + 1] == j;
    }
  }
}
