/** Regular expressions as the pattern parser builds them, and what it means for one to match a stretch
    of a subject. */
module Patterns {
  datatype Option<T> = None | Some(value: T)

  /** A set of character codes: the union of closed ranges, or everything outside it. */
  datatype CharSet = CharSet(negated: bool, ranges: seq<(int, int)>)

  datatype Node =
    | Empty
    | Char(chars: CharSet)
    | Any
    | Anchor(atStart: bool)
    | Cat(parts: seq<Node>)
    | Group(index: Option<nat>, node: Node)
    | Alt(branches: seq<Node>)
    | Repeat(node: Node, min: nat, max: Option<nat>)

  /** The subject, one code per position, and whether case is ignored. */
  datatype Input = Input(codes: seq<int>, ignoreCase: bool)

  const NEWLINE := 10

  // ---- characters ------------------------------------------------------------------------------------

  ghost predicate Covered(ranges: seq<(int, int)>, code: int) {
    exists r :: r in ranges && r.0 <= code <= r.1
  }

  ghost predicate InSet(chars: CharSet, code: int) {
    Covered(chars.ranges, code) != chars.negated
  }

  /** The other case of an ASCII letter. */
  function FoldCase(code: int): int {
    if 65 <= code <= 90 then code + 32
    else if 97 <= code <= 122 then code - 32
    else code
  }

  lemma FoldCaseTwice(code: int)
    ensures FoldCase(FoldCase(code)) == code
  {
  }

  /** Ignoring case, a character is accepted in either of its cases. */
  ghost predicate Hits(chars: CharSet, s: Input, i: nat)
    requires i < |s.codes|
  {
    InSet(chars, s.codes[i]) || (s.ignoreCase && InSet(chars, FoldCase(s.codes[i])))
  }

  method CheckInSet(chars: CharSet, code: int) returns (r: bool)
    ensures r == InSet(chars, code)
  {
    var hit := false;
    for k := 0 to |chars.ranges|
      invariant !hit && !Covered(chars.ranges[..k], code)
    {
      var (lo, hi) := chars.ranges[k];
      if code >= lo && code <= hi {
        hit := true;
        assert chars.ranges[k] in chars.ranges;
        break;
      }
      assert chars.ranges[..k + 1] == chars.ranges[..k] + [chars.ranges[k]];
    }
    assert chars.ranges[..|chars.ranges|] == chars.ranges;
    r := if chars.negated then !hit else hit;
  }

  // ---- matching ----------------------------------------------------------------------------------------

  predicate InBounds(n: nat, min: nat, max: Option<nat>) {
    min <= n && (max.Some? ==> n <= max.value)
  }

  /** The node matches the subject from position i to position j. */
  ghost predicate Matches(node: Node, s: Input, i: nat, j: nat)
    decreases node, 0, 0
  {
    && i <= j <= |s.codes|
    && match node
       case Empty => i == j
       case Char(chars) => j == i + 1 && Hits(chars, s, i)
       case Any => j == i + 1 && s.codes[i] != NEWLINE
       case Anchor(atStart) => i == j && i == (if atStart then 0 else |s.codes|)
       case Cat(parts) => MatchesAll(parts, s, i, j)
       case Group(_, inner) => Matches(inner, s, i, j)
       case Alt(branches) => exists k :: 0 <= k < |branches| && Matches(branches[k], s, i, j)
       case Repeat(inner, min, max) => exists n: nat :: InBounds(n, min, max) && Times(inner, n, s, i, j)
  }

  /** One node after another. */
  ghost predicate MatchesAll(parts: seq<Node>, s: Input, i: nat, j: nat)
    decreases parts, 0, 0
  {
    if parts == [] then i == j <= |s.codes| else
      exists k: nat :: Matches(parts[0], s, i, k) && MatchesAll(parts[1..], s, k, j)
  }

  /** The same node n times over. */
  ghost predicate Times(node: Node, n: nat, s: Input, i: nat, j: nat)
    decreases node, 1, n
  {
    if n == 0 then i == j <= |s.codes| else
      exists k: nat :: Matches(node, s, i, k) && Times(node, n - 1, s, k, j)
  }

  /** Parts are matched left to right, so they may be split anywhere. */
  lemma {:induction false} MatchesAllJoin(a: seq<Node>, b: seq<Node>, s: Input, i: nat, k: nat, j: nat)
    requires MatchesAll(a, s, i, k) && MatchesAll(b, s, k, j)
    ensures MatchesAll(a + b, s, i, j)
    decreases |a|
  {
    if a == [] {
      assert a + b == b;
    } else {
      var m: nat :| Matches(a[0], s, i, m) && MatchesAll(a[1..], s, m, k);
      MatchesAllJoin(a[1..], b, s, m, k, j);
      assert (a + b)[0] == a[0] && (a + b)[1..] == a[1..] + b;
    }
  }

  lemma {:induction false} TimesJoin(node: Node, n: nat, m: nat, s: Input, i: nat, k: nat, j: nat)
    requires Times(node, n, s, i, k) && Times(node, m, s, k, j)
    ensures Times(node, n + m, s, i, j)
    decreases n
  {
    if n > 0 {
      var x: nat :| Matches(node, s, i, x) && Times(node, n - 1, s, x, k);
      TimesJoin(node, n - 1, m, s, x, k, j);
    }
  }

  lemma {:induction false} TimesOrdered(node: Node, n: nat, s: Input, i: nat, j: nat)
    requires Times(node, n, s, i, j)
    ensures i <= j <= |s.codes|
    decreases n
  {
    if n > 0 {
      var x: nat :| Matches(node, s, i, x) && Times(node, n - 1, s, x, j);
      TimesOrdered(node, n - 1, s, x, j);
    }
  }

  // ---- groups ---------------------------------------------------------------------------------------------

  /** The slots a node's capturing groups write. */
  function Slots(node: Node): set<nat>
    decreases node
  {
    match node
    case Cat(parts) => SlotsOfAll(parts)
    case Alt(branches) => SlotsOfAll(branches)
    case Group(None, inner) => Slots(inner)
    case Group(Some(g), inner) => {2 * g, 2 * g + 1} + Slots(inner)
    case Repeat(inner, _, _) => Slots(inner)
    case _ => {}
  }

  function SlotsOfAll(nodes: seq<Node>): set<nat>
    decreases nodes
  {
    if nodes == [] then {} else Slots(nodes[0]) + SlotsOfAll(nodes[1..])
  }

  /** What the parser guarantees: groups are numbered from 1 and no number is used twice, an alternation
      has a branch, and an upper bound is not below the lower one. */
  ghost predicate Parsed(node: Node)
    decreases node
  {
    match node
    case Cat(parts) => ParsedAll(parts)
    case Alt(branches) => branches != [] && ParsedAll(branches)
    case Group(g, inner) => Parsed(inner) && (g.Some? ==> g.value > 0 && {2 * g.value, 2 * g.value + 1} !! Slots(inner))
    case Repeat(inner, min, max) => Parsed(inner) && (max.Some? ==> min <= max.value)
    case _ => true
  }

  ghost predicate ParsedAll(nodes: seq<Node>)
    decreases nodes
  {
    nodes == [] || (Parsed(nodes[0]) && ParsedAll(nodes[1..]) && Slots(nodes[0]) !! SlotsOfAll(nodes[1..]))
  }

  /** Every group inside the node is unset or bounds a stretch that the group's own pattern matches. */
  ghost predicate Genuine(node: Node, s: Input, slots: seq<int>)
    decreases node
  {
    match node
    case Cat(parts) => GenuineAll(parts, s, slots)
    case Alt(branches) => GenuineAll(branches, s, slots)
    case Group(None, inner) => Genuine(inner, s, slots)
    case Group(Some(g), inner) => Genuine(inner, s, slots) && Captured(inner, s, slots, g)
    case Repeat(inner, _, _) => Genuine(inner, s, slots)
    case _ => true
  }

  ghost predicate GenuineAll(nodes: seq<Node>, s: Input, slots: seq<int>)
    decreases nodes
  {
    nodes == [] || (Genuine(nodes[0], s, slots) && GenuineAll(nodes[1..], s, slots))
  }

  /** A group past the last slot belongs to a part repeated no times, and is unset. */
  ghost predicate Captured(inner: Node, s: Input, slots: seq<int>, g: nat) {
    2 * g + 1 < |slots| ==>
      var a, b := slots[2 * g], slots[2 * g + 1];
      a == b == -1 || (a >= 0 && b >= 0 && Matches(inner, s, a, b))
  }

  /** Equal at these slots. */
  ghost predicate Agree(slots: set<nat>, a: seq<int>, b: seq<int>) {
    |a| == |b| && forall k: nat :: k in slots && k < |a| ==> a[k] == b[k]
  }

  lemma {:induction false} GenuineFrame(node: Node, s: Input, a: seq<int>, b: seq<int>)
    requires Agree(Slots(node), a, b) && Genuine(node, s, a)
    ensures Genuine(node, s, b)
    decreases node
  {
    hide Matches;
    match node
    case Cat(parts) => GenuineFrameAll(parts, s, a, b);
    case Alt(branches) => GenuineFrameAll(branches, s, a, b);
    case Group(None, inner) => GenuineFrame(inner, s, a, b);
    case Group(Some(g), inner) =>
      GenuineFrame(inner, s, a, b);
      assert 2 * g in Slots(node) && 2 * g + 1 in Slots(node);
    case Repeat(inner, _, _) => GenuineFrame(inner, s, a, b);
    case _ =>
  }

  lemma {:induction false} GenuineFrameAll(nodes: seq<Node>, s: Input, a: seq<int>, b: seq<int>)
    requires Agree(SlotsOfAll(nodes), a, b) && GenuineAll(nodes, s, a)
    ensures GenuineAll(nodes, s, b)
    decreases nodes
  {
    if nodes != [] {
      GenuineFrame(nodes[0], s, a, b);
      GenuineFrameAll(nodes[1..], s, a, b);
    }
  }

  /** Before anything is matched no group is set. */
  lemma {:induction false} GenuineAtFirst(node: Node, s: Input, slots: seq<int>)
    requires forall k :: 0 <= k < |slots| ==> slots[k] == -1
    ensures Genuine(node, s, slots)
    decreases node
  {
    match node
    case Cat(parts) => GenuineAtFirstAll(parts, s, slots);
    case Alt(branches) => GenuineAtFirstAll(branches, s, slots);
    case Group(_, inner) => GenuineAtFirst(inner, s, slots);
    case Repeat(inner, _, _) => GenuineAtFirst(inner, s, slots);
    case _ =>
  }

  lemma {:induction false} GenuineAtFirstAll(nodes: seq<Node>, s: Input, slots: seq<int>)
    requires forall k :: 0 <= k < |slots| ==> slots[k] == -1
    ensures GenuineAll(nodes, s, slots)
    decreases nodes
  {
    if nodes != [] {
      GenuineAtFirst(nodes[0], s, slots);
      GenuineAtFirstAll(nodes[1..], s, slots);
    }
  }
}
