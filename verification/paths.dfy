/** What a program does, apart from any strategy: its paths. A path through the program of a node from its
    first instruction to just past its last consumes i..j exactly when the node matches i..j. */
module Paths {
  import opened Patterns
  import opened Thompson

  /** Where a thread is: the instruction, the position in the subject, the slots. */
  datatype Config = Config(pc: nat, pos: nat, slots: seq<int>)

  /** One instruction takes a to b. */
  ghost predicate Steps(p: seq<Inst>, s: Input, a: Config, b: Config) {
    && a.pc < |p| && a.pos <= |s.codes|
    && match p[a.pc]
       case CharI(chars) => a.pos < |s.codes| && Hits(chars, s, a.pos) && b == Config(a.pc + 1, a.pos + 1, a.slots)
       case AnyI => a.pos < |s.codes| && s.codes[a.pos] != NEWLINE && b == Config(a.pc + 1, a.pos + 1, a.slots)
       case Split(x, y) => b == a.(pc := x) || b == a.(pc := y)
       case Jmp(x) => b == a.(pc := x)
       case Save(slot) => slot < |a.slots| && b == Config(a.pc + 1, a.pos, a.slots[slot := a.pos])
       case Assert(atStart) => a.pos == (if atStart then 0 else |s.codes|) && b == a.(pc := a.pc + 1)
       case Match => false
  }

  /** A path of n steps. */
  ghost predicate Reach(p: seq<Inst>, s: Input, n: nat, a: Config, b: Config)
    decreases n
  {
    if n == 0 then a == b else
      exists m :: Steps(p, s, a, m) && Reach(p, s, n - 1, m, b)
  }

  lemma {:induction false} ReachJoin(p: seq<Inst>, s: Input, n: nat, m: nat, a: Config, b: Config, c: Config)
    requires Reach(p, s, n, a, b) && Reach(p, s, m, b, c)
    ensures Reach(p, s, n + m, a, c)
    decreases n
  {
    hide Steps;
    if n > 0 {
      var x :| Steps(p, s, a, x) && Reach(p, s, n - 1, x, b);
      ReachJoin(p, s, n - 1, m, x, b, c);
    }
  }

  lemma ReachOne(p: seq<Inst>, s: Input, a: Config, b: Config)
    requires Steps(p, s, a, b)
    ensures Reach(p, s, 1, a, b)
  {
    hide Steps;
    assert Reach(p, s, 0, b, b);
  }

  /** The last step of a path. */
  lemma {:induction false} ReachLast(p: seq<Inst>, s: Input, n: nat, a: Config, c: Config) returns (b: Config)
    requires n > 0 && Reach(p, s, n, a, c)
    ensures Reach(p, s, n - 1, a, b) && Steps(p, s, b, c)
    decreases n
  {
    hide Steps;
    var x :| Steps(p, s, a, x) && Reach(p, s, n - 1, x, c);
    if n == 1 {
      b := a;
    } else {
      b := ReachLast(p, s, n - 1, x, c);
    }
  }

  /** The code lies in the program at this place. */
  ghost predicate Laid(p: seq<Inst>, at: nat, code: seq<Inst>) {
    at + |code| <= |p| && p[at..at + |code|] == code
  }

  lemma LaidSplit(p: seq<Inst>, at: nat, a: seq<Inst>, b: seq<Inst>)
    requires Laid(p, at, a + b)
    ensures Laid(p, at, a) && Laid(p, at + |a|, b)
  {
    assert (a + b)[..|a|] == a && (a + b)[|a|..] == b;
    assert p[at..at + |a|] == p[at..at + |a| + |b|][..|a|];
    assert p[at + |a|..at + |a| + |b|] == p[at..at + |a| + |b|][|a|..];
  }

  lemma LaidOne(p: seq<Inst>, at: nat, inst: Inst, rest: seq<Inst>)
    requires Laid(p, at, [inst] + rest)
    ensures at < |p| && p[at] == inst && Laid(p, at + 1, rest)
  {
    LaidSplit(p, at, [inst], rest);
    assert p[at..at + 1][0] == inst;
  }

  lemma LaidBranch(p: seq<Inst>, at: nat, node: Node, to: nat, rest: seq<Inst>)
    requires Laid(p, at, Branch(node, at, to) + rest)
    ensures var next := at + Size(node) + 2;
      && next <= |p| && p[at] == Split(at + 1, next) && Laid(p, at + 1, Code(node, at + 1)) && p[next - 1] == Jmp(to)
      && Laid(p, next, rest)
  {
    LaidSplit(p, at, Branch(node, at, to), rest);
    var head := [Split(at + 1, at + Size(node) + 2)];
    assert Branch(node, at, to) == head + (Code(node, at + 1) + [Jmp(to)]);
    LaidOne(p, at, head[0], Code(node, at + 1) + [Jmp(to)]);
    LaidSplit(p, at + 1, Code(node, at + 1), [Jmp(to)]);
    assert [Jmp(to)] == [Jmp(to)] + [];
    LaidOne(p, at + 1 + Size(node), Jmp(to), []);
  }

  lemma LaidCopy(p: seq<Inst>, at: nat, node: Node, n: nat, to: nat)
    requires n > 0 && Laid(p, at, OptionalCode(node, n, at, to))
    ensures at < |p| && p[at] == Split(at + 1, to) && Laid(p, at + 1, Code(node, at + 1))
    ensures Laid(p, at + 1 + Size(node), OptionalCode(node, n - 1, at + 1 + Size(node), to))
  {
    hide Code;
    LaidSplit(p, at, Optional(node, at, to), OptionalCode(node, n - 1, at + 1 + Size(node), to));
    LaidOne(p, at, Split(at + 1, to), Code(node, at + 1));
  }

  // ---- a match has a path --------------------------------------------------------------------------------

  /** A match can be walked: from the first instruction to just past the last, consuming i..j. */
  lemma {:induction false} Walk(node: Node, p: seq<Inst>, at: nat, s: Input, i: nat, j: nat, slots: seq<int>)
    returns (n: nat, out: seq<int>)
    requires Parsed(node) && Laid(p, at, Code(node, at)) && Matches(node, s, i, j) && SlotCount(node) <= |slots|
    ensures |out| == |slots| && Reach(p, s, n, Config(at, i, slots), Config(at + Size(node), j, out))
    decreases node, 0, 0
  {
    hide Reach, Laid, Steps, Hits, AltCode, CatCode, Times, MatchesAll;
    match node
    case Cat(parts) => n, out := WalkAll(parts, p, at, s, i, j, slots);
    case Alt(branches) =>
      var k :| 0 <= k < |branches| && Matches(branches[k], s, i, j);
      n, out := WalkAlt(branches, k, p, at, at + Size(node), s, i, j, slots);
    case Group(None, inner) => n, out := Walk(inner, p, at, s, i, j, slots);
    case Group(Some(g), inner) => n, out := WalkGroup(g, inner, p, at, s, i, j, slots);
    case Repeat(inner, min, max) =>
      var k: nat :| InBounds(k, min, max) && Times(inner, k, s, i, j);
      n, out := WalkRepeat(inner, min, max, k, p, at, s, i, j, slots);
    case Empty => n, out := 0, slots; ReachNone(p, s, Config(at, i, slots));
    case _ =>
      n, out := 1, slots;
      WalkSimple(node, p, at, s, i, j, slots);
      ReachOne(p, s, Config(at, i, slots), Config(at + 1, j, slots));
  }

  lemma WalkSimple(node: Node, p: seq<Inst>, at: nat, s: Input, i: nat, j: nat, slots: seq<int>)
    requires node.Char? || node.Any? || node.Anchor?
    requires Laid(p, at, Code(node, at)) && Matches(node, s, i, j)
    ensures Steps(p, s, Config(at, i, slots), Config(at + 1, j, slots))
  {
    assert Code(node, at) == [Code(node, at)[0]] + [];
    LaidOne(p, at, Code(node, at)[0], []);
  }

  lemma ReachNone(p: seq<Inst>, s: Input, a: Config)
    ensures Reach(p, s, 0, a, a)
  {
  }

  lemma {:induction false} WalkAll(parts: seq<Node>, p: seq<Inst>, at: nat, s: Input, i: nat, j: nat, slots: seq<int>)
    returns (n: nat, out: seq<int>)
    requires ParsedAll(parts) && Laid(p, at, CatCode(parts, at)) && MatchesAll(parts, s, i, j)
    requires SlotCountAll(parts) <= |slots|
    ensures |out| == |slots| && Reach(p, s, n, Config(at, i, slots), Config(at + CatSize(parts), j, out))
    decreases parts, 0, 0
  {
    hide Matches, Parsed, Code, Steps, SlotCount;
    if parts == [] {
      n, out := 0, slots;
    } else {
      hide Reach;
      var k: nat :| Matches(parts[0], s, i, k) && MatchesAll(parts[1..], s, k, j);
      LaidSplit(p, at, Code(parts[0], at), CatCode(parts[1..], at + Size(parts[0])));
      var n1, out1 := Walk(parts[0], p, at, s, i, k, slots);
      var n2, out2 := WalkAll(parts[1..], p, at + Size(parts[0]), s, k, j, out1);
      n, out := n1 + n2, out2;
      ReachJoin(p, s, n1, n2, Config(at, i, slots), Config(at + Size(parts[0]), k, out1), Config(at + CatSize(parts), j, out));
    }
  }

  lemma WalkGroup(g: nat, inner: Node, p: seq<Inst>, at: nat, s: Input, i: nat, j: nat, slots: seq<int>)
    returns (n: nat, out: seq<int>)
    requires Parsed(inner) && Laid(p, at, [Save(2 * g)] + Code(inner, at + 1) + [Save(2 * g + 1)])
    requires Matches(inner, s, i, j) && SlotCount(inner) <= |slots| && 2 * g + 2 <= |slots|
    ensures |out| == |slots| && Reach(p, s, n, Config(at, i, slots), Config(at + Size(inner) + 2, j, out))
    decreases inner, 1, 0
  {
    hide Matches, Parsed, Code, Size, SlotCount, Reach;
    LaidGroup(p, at, inner, g);
    MatchesOrdered(inner, s, i, j);
    var a := Config(at, i, slots);
    var b := Config(at + 1, i, slots[2 * g := i]);
    ReachOne(p, s, a, b);
    var m, mid := Walk(inner, p, at + 1, s, i, j, b.slots);
    var c := Config(at + 1 + Size(inner), j, mid);
    var d := Config(at + Size(inner) + 2, j, mid[2 * g + 1 := j]);
    ReachOne(p, s, c, d);
    ReachJoin(p, s, 1, m, a, b, c);
    ReachJoin(p, s, 1 + m, 1, a, c, d);
    n, out := 1 + m + 1, d.slots;
  }

  lemma StepSplit(p: seq<Inst>, s: Input, a: Config)
    requires a.pc < |p| && a.pos <= |s.codes| && p[a.pc].Split?
    ensures Steps(p, s, a, a.(pc := p[a.pc].x)) && Steps(p, s, a, a.(pc := p[a.pc].y))
  {
  }

  lemma StepJmp(p: seq<Inst>, s: Input, a: Config)
    requires a.pc < |p| && a.pos <= |s.codes| && p[a.pc].Jmp?
    ensures Steps(p, s, a, a.(pc := p[a.pc].x))
  {
  }

  lemma MatchesOrdered(node: Node, s: Input, i: nat, j: nat)
    requires Matches(node, s, i, j)
    ensures i <= j <= |s.codes|
  {
  }

  lemma LaidGroup(p: seq<Inst>, at: nat, inner: Node, g: nat)
    requires Laid(p, at, [Save(2 * g)] + Code(inner, at + 1) + [Save(2 * g + 1)])
    ensures at + Size(inner) + 2 <= |p| && p[at] == Save(2 * g) && p[at + 1 + Size(inner)] == Save(2 * g + 1)
    ensures Laid(p, at + 1, Code(inner, at + 1))
  {
    hide Code, Size;
    var code := Code(inner, at + 1);
    assert [Save(2 * g)] + code + [Save(2 * g + 1)] == [Save(2 * g)] + (code + [Save(2 * g + 1)]);
    LaidOne(p, at, Save(2 * g), code + [Save(2 * g + 1)]);
    LaidSplit(p, at + 1, code, [Save(2 * g + 1)]);
    assert [Save(2 * g + 1)] == [Save(2 * g + 1)] + [];
    LaidOne(p, at + 1 + Size(inner), Save(2 * g + 1), []);
  }

  lemma {:induction false} WalkAlt(branches: seq<Node>, k: nat, p: seq<Inst>, at: nat, end: nat, s: Input, i: nat, j: nat, slots: seq<int>)
    returns (n: nat, out: seq<int>)
    requires k < |branches| && ParsedAll(branches) && Matches(branches[k], s, i, j)
    requires Laid(p, at, AltCode(branches, at, end)) && end == at + AltSize(branches)
    requires SlotCountAll(branches) <= |slots|
    ensures |out| == |slots| && Reach(p, s, n, Config(at, i, slots), Config(end, j, out))
    decreases branches, 0, 0
  {
    hide Matches, Parsed, Code, Reach, SlotCount, Branch, Steps, Laid;
    MatchesOrdered(branches[k], s, i, j);
    if |branches| == 1 {
      n, out := Walk(branches[0], p, at, s, i, j, slots);
    } else {
      var next := at + Size(branches[0]) + 2;
      LaidBranch(p, at, branches[0], end, AltCode(branches[1..], next, end));
      var a := Config(at, i, slots);
      if k == 0 {
        var b := a.(pc := at + 1);
        StepSplit(p, s, a);
        ReachOne(p, s, a, b);
        var m, mid := Walk(branches[0], p, at + 1, s, i, j, slots);
        var c := Config(next - 1, j, mid);
        StepJmp(p, s, c);
        ReachOne(p, s, c, c.(pc := end));
        ReachJoin(p, s, 1, m, a, b, c);
        ReachJoin(p, s, 1 + m, 1, a, c, c.(pc := end));
        n, out := 1 + m + 1, mid;
      } else {
        StepSplit(p, s, a);
        ReachOne(p, s, a, a.(pc := next));
        var m, mid := WalkAlt(branches[1..], k - 1, p, next, end, s, i, j, slots);
        ReachJoin(p, s, 1, m, a, a.(pc := next), Config(end, j, mid));
        n, out := 1 + m, mid;
      }
    }
  }

  lemma WalkRepeat(node: Node, min: nat, max: Option<nat>, k: nat, p: seq<Inst>, at: nat, s: Input, i: nat, j: nat, slots: seq<int>)
    returns (n: nat, out: seq<int>)
    requires Parsed(Repeat(node, min, max)) && InBounds(k, min, max) && Times(node, k, s, i, j)
    requires Laid(p, at, Code(Repeat(node, min, max), at)) && SlotCount(Repeat(node, min, max)) <= |slots|
    ensures |out| == |slots| && Reach(p, s, n, Config(at, i, slots), Config(at + Size(Repeat(node, min, max)), j, out))
    decreases node, 3, 0
  {
    hide Matches, Code, Reach, Times, CopiesCode, BoundedCode, Branch, SlotCount, CopiesSize, OptionalSize, Parsed, Size, Laid,
      OptionalCode, Steps;
    RepeatParts(node, min, max);
    var x := TimesSplit(node, min, k - min, s, i, j);
    var first := at + CopiesSize(node, min);
    var end := at + Size(Repeat(node, min, max));
    RepeatSlots(node, min, max);
    LaidRepeat(p, at, node, min, max);
    if min == 0 && max == Some(0) {
      NoneNeeded(node, 0, s, i, j);
      n, out := 0, slots;
      ReachNone(p, s, Config(at, i, slots));
      return;
    }
    var n1, out1 := WalkCopies(node, min, p, at, s, i, x, slots);
    var n2, out2;
    if max.None? {
      n2, out2 := WalkStar(node, k - min, p, first, s, x, j, out1);
    } else {
      n2, out2 := WalkOptional(node, k - min, max.value - min, p, first, end, s, x, j, out1);
    }
    ReachJoin(p, s, n1, n2, Config(at, i, slots), Config(first, x, out1), Config(end, j, out2));
    n, out := n1 + n2, out2;
  }

  lemma RepeatParts(node: Node, min: nat, max: Option<nat>)
    requires Parsed(Repeat(node, min, max))
    ensures Parsed(node) && (max.Some? ==> min <= max.value)
    ensures Size(Repeat(node, min, max)) == CopiesSize(node, min)
      + if max.None? then Size(node) + 2 else OptionalSize(node, max.value - min)
  {
  }

  lemma NoneNeeded(node: Node, n: nat, s: Input, i: nat, j: nat)
    requires n == 0 && Times(node, n, s, i, j)
    ensures i == j && CopiesSize(node, 0) == 0 && OptionalSize(node, 0) == 0
  {
  }

  lemma LaidRepeat(p: seq<Inst>, at: nat, node: Node, min: nat, max: Option<nat>)
    requires Laid(p, at, Code(Repeat(node, min, max), at)) && (max.Some? ==> min <= max.value)
    ensures var first := at + CopiesSize(node, min);
      && Laid(p, at, CopiesCode(node, min, at))
      && (max.None? ==> Laid(p, first, Branch(node, first, first)))
      && (max.Some? ==> Laid(p, first, OptionalCode(node, max.value - min, first, first + OptionalSize(node, max.value - min))))
  {
    hide Code, CopiesCode, CopiesSize, Branch, OptionalSize, OptionalCode;
    var first := at + CopiesSize(node, min);
    if max.None? {
      StarUnfold(node, min, at, first);
      LaidSplit(p, at, CopiesCode(node, min, at), Branch(node, first, first));
    } else {
      BoundedUnfold(node, min, max.value, at, first);
      LaidSplit(p, at, CopiesCode(node, min, at), BoundedCode(node, max.value - min, first));
    }
  }

  lemma {:induction false} TimesSplit(node: Node, n: nat, m: nat, s: Input, i: nat, j: nat) returns (k: nat)
    requires Times(node, n + m, s, i, j)
    ensures Times(node, n, s, i, k) && Times(node, m, s, k, j)
    decreases n
  {
    if n == 0 {
      k := i;
      TimesOrdered(node, m, s, i, j);
    } else {
      var x: nat :| Matches(node, s, i, x) && Times(node, n + m - 1, s, x, j);
      k := TimesSplit(node, n - 1, m, s, x, j);
    }
  }

  lemma {:induction false} WalkCopies(node: Node, k: nat, p: seq<Inst>, at: nat, s: Input, i: nat, j: nat, slots: seq<int>)
    returns (n: nat, out: seq<int>)
    requires Parsed(node) && Times(node, k, s, i, j) && Laid(p, at, CopiesCode(node, k, at)) && SlotCount(node) <= |slots|
    ensures |out| == |slots| && Reach(p, s, n, Config(at, i, slots), Config(at + CopiesSize(node, k), j, out))
    decreases node, 2, k
  {
    hide Matches, Parsed, Code, Reach, SlotCount;
    if k == 0 {
      n, out := 0, slots;
      ReachNone(p, s, Config(at, i, slots));
    } else {
      var x: nat :| Matches(node, s, i, x) && Times(node, k - 1, s, x, j);
      LaidSplit(p, at, Code(node, at), CopiesCode(node, k - 1, at + Size(node)));
      var n1, out1 := Walk(node, p, at, s, i, x, slots);
      var n2, out2 := WalkCopies(node, k - 1, p, at + Size(node), s, x, j, out1);
      ReachJoin(p, s, n1, n2, Config(at, i, slots), Config(at + Size(node), x, out1), Config(at + CopiesSize(node, k), j, out2));
      n, out := n1 + n2, out2;
    }
  }

  lemma {:induction false} WalkStar(node: Node, k: nat, p: seq<Inst>, at: nat, s: Input, i: nat, j: nat, slots: seq<int>)
    returns (n: nat, out: seq<int>)
    requires Parsed(node) && Times(node, k, s, i, j) && Laid(p, at, Branch(node, at, at)) && SlotCount(node) <= |slots|
    ensures |out| == |slots| && Reach(p, s, n, Config(at, i, slots), Config(at + Size(node) + 2, j, out))
    decreases node, 2, k
  {
    hide Matches, Parsed, Code, Reach, SlotCount, Branch, Times;
    var next := at + Size(node) + 2;
    assert Branch(node, at, at) == Branch(node, at, at) + [];
    LaidBranch(p, at, node, at, []);
    var a := Config(at, i, slots);
    TimesOrdered(node, k, s, i, j);
    if k == 0 {
      NoneNeeded(node, 0, s, i, j);
      n, out := 1, slots;
      ReachOne(p, s, a, a.(pc := next));
    } else {
      var x := TimesFirst(node, k, s, i, j);
      var b := a.(pc := at + 1);
      ReachOne(p, s, a, b);
      var n1, out1 := Walk(node, p, at + 1, s, i, x, slots);
      var c := Config(next - 1, x, out1);
      TimesOrdered(node, k - 1, s, x, j);
      ReachOne(p, s, c, c.(pc := at));
      var n2, out2 := WalkStar(node, k - 1, p, at, s, x, j, out1);
      ReachJoin(p, s, 1, n1, a, b, c);
      ReachJoin(p, s, 1 + n1, 1, a, c, c.(pc := at));
      ReachJoin(p, s, 1 + n1 + 1, n2, a, c.(pc := at), Config(next, j, out2));
      n, out := 1 + n1 + 1 + n2, out2;
    }
  }

  lemma TimesFirst(node: Node, n: nat, s: Input, i: nat, j: nat) returns (k: nat)
    requires n > 0 && Times(node, n, s, i, j)
    ensures Matches(node, s, i, k) && Times(node, n - 1, s, k, j)
  {
    k :| Matches(node, s, i, k) && Times(node, n - 1, s, k, j);
  }

  lemma {:induction false} WalkOptional(node: Node, k: nat, max: nat, p: seq<Inst>, at: nat, end: nat, s: Input, i: nat, j: nat, slots: seq<int>)
    returns (n: nat, out: seq<int>)
    requires Parsed(node) && Times(node, k, s, i, j) && k <= max && SlotCount(node) <= |slots|
    requires Laid(p, at, OptionalCode(node, max, at, end)) && end == at + OptionalSize(node, max)
    ensures |out| == |slots| && Reach(p, s, n, Config(at, i, slots), Config(end, j, out))
    decreases node, 2, max
  {
    hide Matches, Parsed, Code, Reach, SlotCount, OptionalCode, Times;
    TimesOrdered(node, k, s, i, j);
    var a := Config(at, i, slots);
    if max == 0 {
      NoneNeeded(node, 0, s, i, j);
      n, out := 0, slots;
      ReachNone(p, s, a);
    } else {
      LaidCopy(p, at, node, max, end);
      if k == 0 {
        NoneNeeded(node, 0, s, i, j);
        n, out := 1, slots;
        ReachOne(p, s, a, a.(pc := end));
      } else {
        var x := TimesFirst(node, k, s, i, j);
        var b := a.(pc := at + 1);
        ReachOne(p, s, a, b);
        var n1, out1 := Walk(node, p, at + 1, s, i, x, slots);
        var next := at + 1 + Size(node);
        var n2, out2 := WalkOptional(node, k - 1, max - 1, p, next, end, s, x, j, out1);
        ReachJoin(p, s, 1, n1, a, b, Config(next, x, out1));
        ReachJoin(p, s, 1 + n1, n2, a, Config(next, x, out1), Config(end, j, out2));
        n, out := 1 + n1 + n2, out2;
      }
    }
  }
}
