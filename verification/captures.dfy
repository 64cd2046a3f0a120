/** The other direction: a path that enters the program of a node leaves it just past the end, having taken some
    stretch of the subject, and written some slots, as the node does when it matches. */
module Captures {
  import opened Patterns
  import opened Thompson
  import opened Paths
  import opened Parses

  /** What a passage from a to c through a node's code has done. */
  ghost predicate Passed(node: Node, s: Input, a: Config, c: Config) {
    Parse(node, s, a.pos, c.pos, a.slots, c.slots)
  }

  ghost predicate PassedAll(parts: seq<Node>, s: Input, a: Config, c: Config) {
    ParseAll(parts, s, a.pos, c.pos, a.slots, c.slots)
  }

  ghost predicate PassedTimes(node: Node, k: nat, s: Input, a: Config, c: Config) {
    ParseTimes(node, k, s, a.pos, c.pos, a.slots, c.slots)
  }

  ghost predicate Outside(pc: nat, at: nat, size: nat) {
    pc < at || at + size <= pc
  }

  /** The path goes on from c after the first m of its n steps. */
  ghost predicate Through(p: seq<Inst>, s: Input, n: nat, m: nat, b: Config, c: Config) {
    m <= n && Reach(p, s, n - m, c, b)
  }

  lemma First(p: seq<Inst>, s: Input, n: nat, a: Config, b: Config) returns (x: Config)
    requires Reach(p, s, n, a, b) && a.pc != b.pc
    ensures n > 0 && Steps(p, s, a, x) && Reach(p, s, n - 1, x, b)
  {
    hide Steps;
    x :| Steps(p, s, a, x) && Reach(p, s, n - 1, x, b);
  }

  lemma {:induction false} Leave(node: Node, p: seq<Inst>, at: nat, s: Input, n: nat, a: Config, b: Config)
    returns (m: nat, c: Config)
    requires Parsed(node) && Laid(p, at, Code(node, at))
    requires a.pc == at && a.pos <= |s.codes| && Reach(p, s, n, a, b) && Outside(b.pc, at, Size(node))
    ensures Through(p, s, n, m, b, c) && c.pc == at + Size(node) && Passed(node, s, a, c)
    decreases node, 0, 0
  {
    hide Reach, Steps, Laid;
    match node
    case Cat(parts) =>
      m, c := LeaveAll(parts, p, at, s, n, a, b);
      CatPassed(parts, s, a, c);
    case Alt(branches) =>
      var k;
      m, c, k := LeaveAlt(branches, p, at, at + Size(node), s, n, a, b);
      AltPassed(branches, k, s, a, c);
    case Group(None, inner) =>
      m, c := Leave(inner, p, at, s, n, a, b);
      PlainGroupPassed(inner, s, a, c);
    case Group(Some(g), inner) => m, c := LeaveGroup(g, inner, p, at, s, n, a, b);
    case Repeat(inner, min, max) => m, c := LeaveRepeat(inner, min, max, p, at, s, n, a, b);
    case Empty => m, c := 0, a;
    case _ =>
      LaidSimple(p, at, node);
      c := First(p, s, n, a, b);
      m := 1;
      LeaveSimple(node, p, s, a, c);
  }

  lemma CatPassed(parts: seq<Node>, s: Input, a: Config, c: Config)
    requires PassedAll(parts, s, a, c)
    ensures Passed(Cat(parts), s, a, c)
  {
    ParseAllOrdered(parts, s, a.pos, c.pos, a.slots, c.slots);
  }

  lemma AltPassed(branches: seq<Node>, k: nat, s: Input, a: Config, c: Config)
    requires k < |branches| && Passed(branches[k], s, a, c)
    ensures Passed(Alt(branches), s, a, c)
  {
    ParseOrdered(branches[k], s, a.pos, c.pos, a.slots, c.slots);
  }

  lemma PlainGroupPassed(inner: Node, s: Input, a: Config, c: Config)
    requires Passed(inner, s, a, c)
    ensures Passed(Group(None, inner), s, a, c)
  {
  }

  lemma LaidSimple(p: seq<Inst>, at: nat, node: Node)
    requires Laid(p, at, Code(node, at)) && (node.Char? || node.Any? || node.Anchor?)
    ensures at < |p| && p[at] == Code(node, at)[0]
  {
    assert Code(node, at) == [Code(node, at)[0]] + [];
    LaidOne(p, at, Code(node, at)[0], []);
  }

  lemma LeaveSimple(node: Node, p: seq<Inst>, s: Input, a: Config, c: Config)
    requires node.Char? || node.Any? || node.Anchor?
    requires a.pc < |p| && p[a.pc] == Code(node, a.pc)[0] && Steps(p, s, a, c)
    ensures c.pc == a.pc + 1 && Passed(node, s, a, c)
  {
  }

  lemma {:induction false} LeaveAll(parts: seq<Node>, p: seq<Inst>, at: nat, s: Input, n: nat, a: Config, b: Config)
    returns (m: nat, c: Config)
    requires ParsedAll(parts) && Laid(p, at, CatCode(parts, at))
    requires a.pc == at && a.pos <= |s.codes| && Reach(p, s, n, a, b) && Outside(b.pc, at, CatSize(parts))
    ensures Through(p, s, n, m, b, c) && c.pc == at + CatSize(parts) && PassedAll(parts, s, a, c)
    decreases parts, 0, 0
  {
    hide Reach, Code, Parsed, Matches, Laid, Size;
    if parts == [] {
      m, c := 0, a;
    } else {
      hide Passed, PassedAll;
      var next := at + Size(parts[0]);
      LaidSplit(p, at, Code(parts[0], at), CatCode(parts[1..], next));
      var m1, c1 := Leave(parts[0], p, at, s, n, a, b);
      PassedOrdered(parts[0], s, a, c1);
      var m2, c2 := LeaveAll(parts[1..], p, next, s, n - m1, c1, b);
      PassedJoin(parts, s, a, c1, c2);
      m, c := m1 + m2, c2;
    }
  }

  lemma PassedOrdered(node: Node, s: Input, a: Config, c: Config)
    requires Passed(node, s, a, c)
    ensures a.pos <= c.pos <= |s.codes| && |a.slots| == |c.slots| && Matches(node, s, a.pos, c.pos)
  {
    ParseOrdered(node, s, a.pos, c.pos, a.slots, c.slots);
    ParseKeeps(node, s, a.pos, c.pos, a.slots, c.slots);
    ParseMatches(node, s, a.pos, c.pos, a.slots, c.slots);
  }

  lemma PassedJoin(parts: seq<Node>, s: Input, a: Config, b: Config, c: Config)
    requires parts != [] && Passed(parts[0], s, a, b) && PassedAll(parts[1..], s, b, c)
    ensures PassedAll(parts, s, a, c)
  {
    hide Parse;
  }

  lemma LeaveGroup(g: nat, inner: Node, p: seq<Inst>, at: nat, s: Input, n: nat, a: Config, b: Config)
    returns (m: nat, c: Config)
    requires Parsed(Group(Some(g), inner)) && Laid(p, at, [Save(2 * g)] + Code(inner, at + 1) + [Save(2 * g + 1)])
    requires a.pc == at && a.pos <= |s.codes| && Reach(p, s, n, a, b) && Outside(b.pc, at, Size(inner) + 2)
    ensures Through(p, s, n, m, b, c) && c.pc == at + Size(inner) + 2 && Passed(Group(Some(g), inner), s, a, c)
    decreases inner, 1, 0
  {
    hide Reach, Code, Size, Passed, Laid;
    assert Parsed(inner);
    LaidGroup(p, at, inner, g);
    var x := First(p, s, n, a, b);
    assert x == Config(at + 1, a.pos, a.slots[2 * g := a.pos]);
    var m1, y := Leave(inner, p, at + 1, s, n - 1, x, b);
    c := First(p, s, n - 1 - m1, y, b);
    m := 1 + m1 + 1;
    PassedOrdered(inner, s, x, y);
    GroupPassed(g, inner, s, a, x, y, c);
  }

  lemma GroupPassed(g: nat, inner: Node, s: Input, a: Config, x: Config, y: Config, c: Config)
    requires Passed(inner, s, x, y)
    requires 2 * g < |a.slots| && x.pos == a.pos && x.slots == a.slots[2 * g := a.pos]
    requires 2 * g + 1 < |y.slots| && c.pos == y.pos && c.slots == y.slots[2 * g + 1 := y.pos]
    ensures Passed(Group(Some(g), inner), s, a, c)
  {
    PassedOrdered(inner, s, x, y);
  }

  lemma {:induction false} LeaveAlt(branches: seq<Node>, p: seq<Inst>, at: nat, end: nat, s: Input, n: nat, a: Config, b: Config)
    returns (m: nat, c: Config, k: nat)
    requires branches != [] && ParsedAll(branches) && Laid(p, at, AltCode(branches, at, end)) && end == at + AltSize(branches)
    requires a.pc == at && a.pos <= |s.codes| && Reach(p, s, n, a, b) && Outside(b.pc, at, AltSize(branches))
    ensures Through(p, s, n, m, b, c) && c.pc == end
    ensures k < |branches| && Passed(branches[k], s, a, c)
    decreases branches, 0, 0
  {
    hide Reach, Code, Size, Passed, Laid, Branch, Matches, Parsed;
    if |branches| == 1 {
      m, c := Leave(branches[0], p, at, s, n, a, b);
      k := 0;
    } else {
      var next := at + Size(branches[0]) + 2;
      LaidBranch(p, at, branches[0], end, AltCode(branches[1..], next, end));
      var x := First(p, s, n, a, b);
      if x.pc == at + 1 {
        var m1, y := Leave(branches[0], p, at + 1, s, n - 1, x, b);
        c := First(p, s, n - 1 - m1, y, b);
        k, m := 0, 1 + m1 + 1;
        PassedMoved(branches[0], s, x, y, a, c);
      } else {
        var m1, k1;
        m1, c, k1 := LeaveAlt(branches[1..], p, next, end, s, n - 1, x, b);
        k, m := 1 + k1, 1 + m1;
        PassedMoved(branches[k], s, x, c, a, c);
      }
    }
  }

  lemma LeaveRepeat(node: Node, min: nat, max: Option<nat>, p: seq<Inst>, at: nat, s: Input, n: nat, a: Config, b: Config)
    returns (m: nat, c: Config)
    requires Parsed(Repeat(node, min, max)) && Laid(p, at, Code(Repeat(node, min, max), at))
    requires a.pc == at && a.pos <= |s.codes| && Reach(p, s, n, a, b) && Outside(b.pc, at, Size(Repeat(node, min, max)))
    ensures Through(p, s, n, m, b, c) && c.pc == at + Size(Repeat(node, min, max)) && Passed(Repeat(node, min, max), s, a, c)
    decreases node, 3, 0
  {
    hide Reach, Code, Size, Passed, Laid, Branch, Matches, Parsed, PassedTimes, CopiesSize, OptionalSize, CopiesCode,
      OptionalCode, Times, Steps;
    RepeatParts(node, min, max);
    LaidRepeat(p, at, node, min, max);
    var first := at + CopiesSize(node, min);
    var m1, x := LeaveCopies(node, min, p, at, s, n, a, b);
    TimesPassedOrdered(node, min, s, a, x);
    var m2, k;
    if max.None? {
      m2, c, k := LeaveStar(node, p, first, s, n - m1, x, b);
    } else {
      m2, c, k := LeaveOptional(node, max.value - min, p, first, first + OptionalSize(node, max.value - min), s, n - m1, x, b);
    }
    m := m1 + m2;
    RepeatPassed(node, min, max, k, s, a, x, c);
  }

  lemma TimesPassedOrdered(node: Node, k: nat, s: Input, a: Config, c: Config)
    requires PassedTimes(node, k, s, a, c)
    ensures a.pos <= c.pos <= |s.codes|
  {
    ParseTimesOrdered(node, k, s, a.pos, c.pos, a.slots, c.slots);
  }

  lemma RepeatPassed(node: Node, min: nat, max: Option<nat>, k: nat, s: Input, a: Config, x: Config, c: Config)
    requires PassedTimes(node, min, s, a, x) && PassedTimes(node, k, s, x, c) && InBounds(min + k, min, max)
    ensures Passed(Repeat(node, min, max), s, a, c)
  {
    hide ParseTimes;
    ParseTimesJoin(node, min, k, s, a.pos, x.pos, c.pos, a.slots, x.slots, c.slots);
    ParseTimesOrdered(node, min + k, s, a.pos, c.pos, a.slots, c.slots);
  }

  lemma PassedOnce(node: Node, k: nat, s: Input, a: Config, x: Config, c: Config)
    requires Passed(node, s, a, x) && PassedTimes(node, k, s, x, c)
    ensures PassedTimes(node, k + 1, s, a, c)
  {
    hide Parse;
  }

  lemma PassedNever(node: Node, s: Input, a: Config)
    requires a.pos <= |s.codes|
    ensures PassedTimes(node, 0, s, a, a)
  {
  }

  lemma PassedStill(node: Node, k: nat, s: Input, a: Config, b: Config, c: Config)
    requires PassedTimes(node, k, s, a, b) && c.pos == b.pos && c.slots == b.slots
    ensures PassedTimes(node, k, s, a, c)
  {
  }

  lemma {:induction false} LeaveCopies(node: Node, k: nat, p: seq<Inst>, at: nat, s: Input, n: nat, a: Config, b: Config)
    returns (m: nat, c: Config)
    requires Parsed(node) && Laid(p, at, CopiesCode(node, k, at))
    requires a.pc == at && a.pos <= |s.codes| && Reach(p, s, n, a, b) && Outside(b.pc, at, CopiesSize(node, k))
    ensures Through(p, s, n, m, b, c) && c.pc == at + CopiesSize(node, k) && PassedTimes(node, k, s, a, c)
    decreases node, 2, k
  {
    hide Reach, Code, Size, Passed, Laid, Parsed, PassedTimes, Steps;
    if k == 0 {
      m, c := 0, a;
      PassedNever(node, s, a);
    } else {
      var next := at + Size(node);
      LaidSplit(p, at, Code(node, at), CopiesCode(node, k - 1, next));
      var m1, x := Leave(node, p, at, s, n, a, b);
      PassedOrdered(node, s, a, x);
      var m2;
      m2, c := LeaveCopies(node, k - 1, p, next, s, n - m1, x, b);
      PassedOnce(node, k - 1, s, a, x, c);
      m := m1 + m2;
    }
  }

  /** Each turn of the loop spends steps, so the path turns only so often, nullable body or not. */
  lemma {:induction false} LeaveStar(node: Node, p: seq<Inst>, at: nat, s: Input, n: nat, a: Config, b: Config)
    returns (m: nat, c: Config, k: nat)
    requires Parsed(node) && Laid(p, at, Branch(node, at, at))
    requires a.pc == at && a.pos <= |s.codes| && Reach(p, s, n, a, b) && Outside(b.pc, at, Size(node) + 2)
    ensures Through(p, s, n, m, b, c) && c.pc == at + Size(node) + 2 && PassedTimes(node, k, s, a, c)
    decreases node, 2, n
  {
    hide Reach, Code, Size, Passed, Laid, Parsed, PassedTimes, Branch;
    assert Branch(node, at, at) == Branch(node, at, at) + [];
    LaidBranch(p, at, node, at, []);
    var x := First(p, s, n, a, b);
    if x.pc == at + 1 {
      var m1, y := Leave(node, p, at + 1, s, n - 1, x, b);
      PassedOrdered(node, s, x, y);
      var z := First(p, s, n - 1 - m1, y, b);
      var m2, k1;
      m2, c, k1 := LeaveStar(node, p, at, s, n - 1 - m1 - 1, z, b);
      PassedMoved(node, s, x, y, a, z);
      PassedOnce(node, k1, s, a, z, c);
      k, m := k1 + 1, 1 + m1 + 1 + m2;
    } else {
      m, c, k := 1, x, 0;
      PassedNever(node, s, a);
      PassedStill(node, 0, s, a, a, c);
    }
  }

  lemma PassedMoved(node: Node, s: Input, a: Config, b: Config, a': Config, b': Config)
    requires Passed(node, s, a, b) && a'.pos == a.pos && a'.slots == a.slots && b'.pos == b.pos && b'.slots == b.slots
    ensures Passed(node, s, a', b')
  {
  }

  lemma {:induction false} LeaveOptional(node: Node, max: nat, p: seq<Inst>, at: nat, end: nat, s: Input, n: nat, a: Config, b: Config)
    returns (m: nat, c: Config, k: nat)
    requires Parsed(node) && Laid(p, at, OptionalCode(node, max, at, end)) && end == at + OptionalSize(node, max)
    requires a.pc == at && a.pos <= |s.codes| && Reach(p, s, n, a, b) && Outside(b.pc, at, OptionalSize(node, max))
    ensures Through(p, s, n, m, b, c) && c.pc == end && k <= max && PassedTimes(node, k, s, a, c)
    decreases node, 2, max
  {
    hide Reach, Code, Size, Passed, Laid, Parsed, PassedTimes, OptionalCode;
    if max == 0 {
      m, c, k := 0, a, 0;
      PassedNever(node, s, a);
    } else {
      LaidCopy(p, at, node, max, end);
      var x := First(p, s, n, a, b);
      if x.pc == at + 1 {
        var next := at + 1 + Size(node);
        var m1, y := Leave(node, p, at + 1, s, n - 1, x, b);
        PassedOrdered(node, s, x, y);
        var m2, k1;
        m2, c, k1 := LeaveOptional(node, max - 1, p, next, end, s, n - 1 - m1, y, b);
        PassedMoved(node, s, x, y, a, y);
        PassedOnce(node, k1, s, a, y, c);
        k, m := k1 + 1, 1 + m1 + m2;
      } else {
        m, c, k := 1, x, 0;
        PassedNever(node, s, a);
        PassedStill(node, 0, s, a, a, c);
      }
    }
  }
}
