/** Compiling a pattern: the program of a node, and the compiler that builds it by pushing instructions and
    patching jump targets afterwards. */
module Thompson {
  import opened Patterns

  datatype Inst =
    | CharI(chars: CharSet)
    | AnyI
    | Split(x: nat, y: nat)
    | Jmp(x: nat)
    | Save(slot: nat)
    | Assert(atStart: bool)
    | Match

  // ---- the program of a node ---------------------------------------------------------------------------

  function Size(node: Node): nat
    decreases node, 0, 0
  {
    match node
    case Empty => 0
    case Char(_) => 1
    case Any => 1
    case Anchor(_) => 1
    case Cat(parts) => CatSize(parts)
    case Group(None, inner) => Size(inner)
    case Group(Some(_), inner) => Size(inner) + 2
    case Alt(branches) => AltSize(branches)
    case Repeat(inner, min, None) => CopiesSize(inner, min) + Size(inner) + 2
    case Repeat(inner, min, Some(max)) => CopiesSize(inner, min) + OptionalSize(inner, max - min)
  }

  function CatSize(parts: seq<Node>): nat
    decreases parts, 0, 0
  {
    if parts == [] then 0 else Size(parts[0]) + CatSize(parts[1..])
  }

  function AltSize(branches: seq<Node>): nat
    decreases branches, 0, 0
  {
    if branches == [] then 0
    else if |branches| == 1 then Size(branches[0])
    else Size(branches[0]) + 2 + AltSize(branches[1..])
  }

  function CopiesSize(node: Node, n: nat): nat
    decreases node, 1, n
  {
    if n == 0 then 0 else Size(node) + CopiesSize(node, n - 1)
  }

  function OptionalSize(node: Node, n: int): nat
    decreases node, 1, n
  {
    if n <= 0 then 0 else Size(node) + 1 + OptionalSize(node, n - 1)
  }

  /** The instructions of a node whose first one stands at `at`. Control enters at the first and leaves
      just past the last. */
  function Code(node: Node, at: nat): (r: seq<Inst>)
    ensures |r| == Size(node)
    decreases node, 0, 0
  {
    match node
    case Empty => []
    case Char(chars) => [CharI(chars)]
    case Any => [AnyI]
    case Anchor(atStart) => [Assert(atStart)]
    case Cat(parts) => CatCode(parts, at)
    case Group(None, inner) => Code(inner, at)
    case Group(Some(g), inner) => [Save(2 * g)] + Code(inner, at + 1) + [Save(2 * g + 1)]
    case Alt(branches) => AltCode(branches, at, at + AltSize(branches))
    case Repeat(inner, min, None) =>
      CopiesCode(inner, min, at) + StarCode(inner, at + CopiesSize(inner, min))
    case Repeat(inner, min, Some(max)) =>
      CopiesCode(inner, min, at) + BoundedCode(inner, max - min, at + CopiesSize(inner, min))
  }

  function CatCode(parts: seq<Node>, at: nat): (r: seq<Inst>)
    ensures |r| == CatSize(parts)
    decreases parts, 0, 0
  {
    if parts == [] then [] else Code(parts[0], at) + CatCode(parts[1..], at + Size(parts[0]))
  }

  /** A branch, and a jump past the others. */
  function Branch(node: Node, at: nat, to: nat): (r: seq<Inst>)
    ensures |r| == Size(node) + 2
    decreases node, 1, 0
  {
    [Split(at + 1, at + Size(node) + 2)] + Code(node, at + 1) + [Jmp(to)]
  }

  /** A copy that a split may step over. */
  function Optional(node: Node, at: nat, to: nat): (r: seq<Inst>)
    ensures |r| == Size(node) + 1
    decreases node, 1, 0
  {
    [Split(at + 1, to)] + Code(node, at + 1)
  }

  /** A chain of splits; every branch but the last jumps to the end. */
  function AltCode(branches: seq<Node>, at: nat, end: nat): (r: seq<Inst>)
    ensures |r| == AltSize(branches)
    decreases branches, 0, 0
  {
    if branches == [] then []
    else if |branches| == 1 then Code(branches[0], at)
    else
      var next := at + Size(branches[0]) + 2;
      Branch(branches[0], at, end) + AltCode(branches[1..], next, end)
  }

  /** The required copies, one after another. */
  function CopiesCode(node: Node, n: nat, at: nat): (r: seq<Inst>)
    ensures |r| == CopiesSize(node, n)
    decreases node, 1, n
  {
    if n == 0 then [] else Code(node, at) + CopiesCode(node, n - 1, at + Size(node))
  }

  /** Optional copies, each of which may be left for the end. */
  function OptionalCode(node: Node, n: int, at: nat, end: nat): (r: seq<Inst>)
    ensures |r| == OptionalSize(node, n)
    decreases node, 1, n
  {
    if n <= 0 then [] else
      Optional(node, at, end) + OptionalCode(node, n - 1, at + 1 + Size(node), end)
  }

  function BoundedCode(node: Node, n: int, at: nat): (r: seq<Inst>)
    ensures |r| == OptionalSize(node, n)
    decreases node, 2, 0
  {
    OptionalCode(node, n, at, at + OptionalSize(node, n))
  }

  function StarCode(node: Node, at: nat): (r: seq<Inst>)
    ensures |r| == Size(node) + 2
    decreases node, 2, 0
  {
    Branch(node, at, at)
  }

  /** The whole program: the match itself is group 0. */
  function Program(node: Node): seq<Inst> {
    [Save(0)] + Code(node, 1) + [Save(1), Match]
  }

  function Max(a: nat, b: nat): nat {
    if a < b then b else a
  }

  /** The slots needed besides those already counted. */
  function SlotCount(node: Node): nat
    decreases node
  {
    match node
    case Cat(parts) => SlotCountAll(parts)
    case Alt(branches) => SlotCountAll(branches)
    case Group(None, inner) => SlotCount(inner)
    case Group(Some(g), inner) => Max(2 * g + 2, SlotCount(inner))
    case Repeat(inner, min, max) => if min == 0 && max == Some(0) then 0 else SlotCount(inner)
    case _ => 0
  }

  function SlotCountAll(nodes: seq<Node>): nat
    decreases nodes
  {
    if nodes == [] then 0 else Max(SlotCount(nodes[0]), SlotCountAll(nodes[1..]))
  }

  // ---- patching ----------------------------------------------------------------------------------------

  function Retarget(inst: Inst, to: nat): Inst {
    match inst
    case Jmp(_) => Jmp(to)
    case Split(x, _) => Split(x, to)
    case _ => inst
  }

  function PatchOne(program: seq<Inst>, place: nat, to: nat): (r: seq<Inst>)
    ensures |r| == |program|
  {
    if place < |program| then program[place := Retarget(program[place], to)] else program
  }

  /** Every instruction at one of the places now leads to `to`. */
  function Patched(program: seq<Inst>, places: seq<nat>, to: nat): (r: seq<Inst>)
    ensures |r| == |program|
    decreases |places|
  {
    if places == [] then program else Patched(PatchOne(program, places[0], to), places[1..], to)
  }

  /** Where the jumps of an alternation stand. */
  function Jumps(branches: seq<Node>, at: nat): seq<nat>
    decreases branches
  {
    if |branches| <= 1 then [] else
      [at + 1 + Size(branches[0])] + Jumps(branches[1..], at + Size(branches[0]) + 2)
  }

  /** Where the splits of the optional copies stand. */
  function Splits(node: Node, n: int, at: nat): seq<nat>
    decreases n
  {
    if n <= 0 then [] else [at] + Splits(node, n - 1, at + 1 + Size(node))
  }

  lemma PatchAt(pre: seq<Inst>, inst: Inst, post: seq<Inst>, to: nat)
    ensures PatchOne(pre + [inst] + post, |pre|, to) == pre + [Retarget(inst, to)] + post
  {
  }

  lemma CatUnfold(pre: seq<Inst>, parts: seq<Node>)
    requires parts != []
    ensures pre + CatCode(parts, |pre|)
      == (pre + Code(parts[0], |pre|)) + CatCode(parts[1..], |pre + Code(parts[0], |pre|)|)
  {
    hide Code, Size, CatSize;
    var first := Code(parts[0], |pre|);
    Regroup(pre, first, CatCode(parts[1..], |pre| + Size(parts[0])), pre + first, CatCode(parts, |pre|));
  }

  lemma NoParts(program: seq<Inst>)
    ensures program + CatCode([], |program|) == program
  {
  }

  lemma AltUnfold(pre: seq<Inst>, branches: seq<Node>, to: nat)
    requires |branches| > 1
    ensures pre + AltCode(branches, |pre|, to)
      == (pre + Branch(branches[0], |pre|, to)) + AltCode(branches[1..], |pre| + Size(branches[0]) + 2, to)
  {
  }

  lemma LastBranch(pre: seq<Inst>, branches: seq<Node>, to: nat)
    requires |branches| == 1
    ensures pre + AltCode(branches, |pre|, to) == pre + Code(branches[0], |pre|)
    ensures forall at: nat :: Jumps(branches, at) == []
  {
  }

  lemma JumpsUnfold(jumps: seq<nat>, branches: seq<Node>, at: nat)
    requires |branches| > 1
    ensures jumps + Jumps(branches, at)
      == (jumps + [at + 1 + Size(branches[0])]) + Jumps(branches[1..], at + Size(branches[0]) + 2)
  {
  }

  lemma NoBranches(program: seq<Inst>, jumps: seq<nat>, at: nat)
    ensures program + AltCode([], at, 0) == program && jumps + Jumps([], at) == jumps
  {
  }

  lemma OptionalUnfold(pre: seq<Inst>, node: Node, n: int, to: nat)
    requires n > 0
    ensures pre + OptionalCode(node, n, |pre|, to)
      == (pre + Optional(node, |pre|, to)) + OptionalCode(node, n - 1, |pre| + 1 + Size(node), to)
  {
  }

  lemma OptionalMade(pre: seq<Inst>, node: Node, to: nat)
    ensures (pre + [Split(|pre| + 1, to)]) + Code(node, |pre| + 1) == pre + Optional(node, |pre|, to)
  {
  }

  lemma CopiesUnfold(pre: seq<Inst>, node: Node, n: nat)
    requires n > 0
    ensures pre + CopiesCode(node, n, |pre|)
      == (pre + Code(node, |pre|)) + CopiesCode(node, n - 1, |pre + Code(node, |pre|)|)
  {
  }

  lemma Regroup(a: seq<Inst>, b: seq<Inst>, c: seq<Inst>, ab: seq<Inst>, bc: seq<Inst>)
    requires ab == a + b && bc == b + c
    ensures ab + c == a + bc
  {
  }

  lemma StarUnfold(node: Node, min: nat, at: nat, end: nat)
    requires end == at + CopiesSize(node, min)
    ensures Code(Repeat(node, min, None), at) == CopiesCode(node, min, at) + Branch(node, end, end)
  {
  }

  lemma BoundedUnfold(node: Node, min: nat, max: nat, at: nat, first: nat)
    requires first == at + CopiesSize(node, min)
    ensures Code(Repeat(node, min, Some(max)), at) == CopiesCode(node, min, at) + BoundedCode(node, max - min, first)
  {
  }

  lemma StarSplits(pre: seq<Inst>, copied: seq<Inst>, node: Node, min: nat)
    requires copied == pre + CopiesCode(node, min, |pre|)
    ensures copied + Branch(node, |copied|, |copied|) == pre + Code(Repeat(node, min, None), |pre|)
  {
    hide *;
    StarUnfold(node, min, |pre|, |copied|);
    Regroup(pre, CopiesCode(node, min, |pre|), Branch(node, |copied|, |copied|), copied, Code(Repeat(node, min, None), |pre|));
  }

  lemma BoundedSplits(pre: seq<Inst>, copied: seq<Inst>, node: Node, min: nat, max: nat)
    requires copied == pre + CopiesCode(node, min, |pre|)
    ensures copied + BoundedCode(node, max - min, |copied|) == pre + Code(Repeat(node, min, Some(max)), |pre|)
  {
    hide *;
    BoundedUnfold(node, min, max, |pre|, |copied|);
    Regroup(pre, CopiesCode(node, min, |pre|), BoundedCode(node, max - min, |copied|), copied, Code(Repeat(node, min, Some(max)), |pre|));
  }

  lemma RepeatSlots(node: Node, min: nat, max: Option<nat>)
    ensures SlotCount(Repeat(node, min, max)) == if min == 0 && max == Some(0) then 0 else SlotCount(node)
  {
  }

  lemma SplitsUnfold(splits: seq<nat>, node: Node, n: int, at: nat)
    requires n > 0
    ensures splits + Splits(node, n, at) == (splits + [at]) + Splits(node, n - 1, at + 1 + Size(node))
  {
  }

  lemma NoSplits(splits: seq<nat>, node: Node, at: nat)
    ensures splits + Splits(node, 0, at) == splits
  {
  }

  lemma NoCopies(program: seq<Inst>, node: Node, at: nat)
    ensures program + CopiesCode(node, 0, at) == program
    ensures forall to: nat :: program + OptionalCode(node, 0, at, to) == program
  {
  }

  lemma PatchBranch(pre: seq<Inst>, node: Node, post: seq<Inst>, from: nat, to: nat)
    ensures PatchOne(pre + Branch(node, |pre|, from) + post, |pre| + 1 + Size(node), to) == pre + Branch(node, |pre|, to) + post
  {
    var head := [Split(|pre| + 1, |pre| + Size(node) + 2)] + Code(node, |pre| + 1);
    assert Branch(node, |pre|, from) == head + [Jmp(from)] && Branch(node, |pre|, to) == head + [Jmp(to)];
    hide Code, Branch, Size;
    PatchAt(pre + head, Jmp(from), post, to);
    Regroup(pre, head, [Jmp(from)], pre + head, Branch(node, |pre|, from));
    Regroup(pre, head, [Jmp(to)], pre + head, Branch(node, |pre|, to));
  }

  lemma PatchOptional(pre: seq<Inst>, node: Node, post: seq<Inst>, from: nat, to: nat)
    ensures PatchOne(pre + Optional(node, |pre|, from) + post, |pre|, to) == pre + Optional(node, |pre|, to) + post
  {
    var body := Code(node, |pre| + 1);
    PatchAt(pre, Split(|pre| + 1, from), body + post, to);
    assert pre + Optional(node, |pre|, from) + post == pre + [Split(|pre| + 1, from)] + (body + post);
    assert pre + Optional(node, |pre|, to) + post == pre + [Split(|pre| + 1, to)] + (body + post);
  }

  /** Patching the jumps afterwards gives the code with the right target from the start. */
  lemma {:induction false} PatchJumps(pre: seq<Inst>, branches: seq<Node>, from: nat, to: nat)
    ensures Patched(pre + AltCode(branches, |pre|, from), Jumps(branches, |pre|), to) == pre + AltCode(branches, |pre|, to)
    decreases |branches|
  {
    hide Code, Branch, PatchOne;
    if |branches| > 1 {
      hide AltCode;
      var b, rest := branches[0], branches[1..];
      var next := |pre| + Size(b) + 2;
      AltUnfold(pre, branches, from);
      AltUnfold(pre, branches, to);
      PatchBranch(pre, b, AltCode(rest, next, from), from, to);
      PatchJumps(pre + Branch(b, |pre|, to), rest, from, to);
      assert Jumps(branches, |pre|)[1..] == Jumps(rest, next);
    }
  }

  lemma {:induction false} PatchSplits(pre: seq<Inst>, node: Node, n: int, from: nat, to: nat)
    ensures Patched(pre + OptionalCode(node, n, |pre|, from), Splits(node, n, |pre|), to)
      == pre + OptionalCode(node, n, |pre|, to)
    decreases n
  {
    hide Code, Optional, PatchOne;
    if n > 0 {
      hide OptionalCode;
      var next := |pre| + 1 + Size(node);
      OptionalUnfold(pre, node, n, from);
      OptionalUnfold(pre, node, n, to);
      PatchOptional(pre, node, OptionalCode(node, n - 1, next, from), from, to);
      PatchSplits(pre + Optional(node, |pre|, to), node, n - 1, from, to);
      assert Splits(node, n, |pre|)[1..] == Splits(node, n - 1, next);
    }
  }

  // ---- the compiler ------------------------------------------------------------------------------------

  class Builder {
    var program: seq<Inst>
    var saves: nat

    constructor ()
      ensures program == [] && saves == 2
    {
      program := [];
      saves := 2;
    }

    method Push(inst: Inst)
      modifies this
      ensures program == old(program) + [inst] && saves == old(saves)
    {
      program := program + [inst];
    }

    method Patch(places: seq<nat>, to: nat)
      modifies this
      ensures program == Patched(old(program), places, to) && saves == old(saves)
    {
      for k := 0 to |places|
        invariant saves == old(saves)
        invariant Patched(program, places[k..], to) == Patched(old(program), places, to)
      {
        assert places[k..][0] == places[k] && places[k..][1..] == places[k + 1..];
        program := PatchOne(program, places[k], to);
      }
    }

    /** Pushes the node's code and counts its slots. */
    method Compile(node: Node)
      requires Parsed(node)
      modifies this
      ensures program == old(program) + Code(node, |old(program)|)
      ensures saves == Max(old(saves), SlotCount(node))
      decreases node, 1, 0
    {
      match node
      case Empty =>
      case Char(chars) => Push(CharI(chars));
      case Any => Push(AnyI);
      case Anchor(atStart) => Push(Assert(atStart));
      case Cat(parts) => CompileCat(parts);
      case Group(None, inner) => Compile(inner);
      case Group(Some(g), inner) => CompileGroup(g, inner);
      case Alt(branches) => CompileAlt(branches);
      case Repeat(inner, min, max) => CompileRepeat(inner, min, max);
    }

    method CompileGroup(g: nat, inner: Node)
      requires Parsed(inner)
      modifies this
      ensures program == old(program) + ([Save(2 * g)] + Code(inner, |old(program)| + 1) + [Save(2 * g + 1)])
      ensures saves == Max(Max(old(saves), 2 * g + 2), SlotCount(inner))
      decreases inner, 2, 0
    {
      hide Code, Parsed, SlotCount;
      saves := Max(saves, 2 * g + 2);
      Push(Save(2 * g));
      Compile(inner);
      Push(Save(2 * g + 1));
    }

    method CompileCat(parts: seq<Node>)
      requires ParsedAll(parts)
      modifies this
      ensures program == old(program) + CatCode(parts, |old(program)|)
      ensures saves == Max(old(saves), SlotCountAll(parts))
      decreases parts, 0, 0
    {
      hide Code, CatCode, Parsed, SlotCount;
      for k := 0 to |parts|
        invariant ParsedAll(parts[k..])
        invariant program + CatCode(parts[k..], |program|) == old(program) + CatCode(parts, |old(program)|)
        invariant Max(saves, SlotCountAll(parts[k..])) == Max(old(saves), SlotCountAll(parts))
      {
        ghost var left := parts[k..];
        assert left[0] == parts[k] && left[1..] == parts[k + 1..];
        CatUnfold(program, left);
        Compile(parts[k]);
      }
      NoParts(program);
    }

    /** A split into the node's code, a jump after it, and the split's way past both. */
    method CompileBranch(node: Node, to: nat) returns (jump: nat)
      requires Parsed(node)
      modifies this
      ensures program == old(program) + Branch(node, |old(program)|, to)
      ensures jump == |old(program)| + 1 + Size(node)
      ensures saves == Max(old(saves), SlotCount(node))
      decreases node, 2, 0
    {
      hide Code;
      var split := |program|;
      Push(Split(0, 0));
      program := program[split := Split(|program|, 0)];
      assert program == old(program) + [Split(split + 1, 0)];
      Compile(node);
      jump := |program|;
      Push(Jmp(to));
      program := program[split := Split(split + 1, |program|)];
    }

    method CompileAlt(branches: seq<Node>)
      requires branches != [] && ParsedAll(branches)
      modifies this
      ensures program == old(program) + AltCode(branches, |old(program)|, |old(program)| + AltSize(branches))
      ensures saves == Max(old(saves), SlotCountAll(branches))
      decreases branches, 0, 0
    {
      hide Code, Branch, SlotCount, Patched, AltCode, Jumps, Parsed;
      var jumps: seq<nat> := [];
      ghost var at := |program|;
      for k := 0 to |branches|
        invariant ParsedAll(branches[k..])
        invariant program + AltCode(branches[k..], |program|, 0) == old(program) + AltCode(branches, at, 0)
        invariant jumps + Jumps(branches[k..], |program|) == Jumps(branches, at)
        invariant Max(saves, SlotCountAll(branches[k..])) == Max(old(saves), SlotCountAll(branches))
      {
        ghost var left := branches[k..];
        assert left[0] == branches[k] && left[1..] == branches[k + 1..];
        if k == |branches| - 1 {
          LastBranch(program, left, 0);
          Compile(branches[k]);
          NoBranches(program, jumps, |program|);
          assert branches[k + 1..] == [];
        } else {
          AltUnfold(program, left, 0);
          JumpsUnfold(jumps, left, |program|);
          var jump := CompileBranch(branches[k], 0);
          jumps := jumps + [jump];
        }
      }
      NoBranches(program, jumps, |program|);
      PatchJumps(old(program), branches, 0, |program|);
      Patch(jumps, |program|);
    }

    method CompileRepeat(node: Node, min: nat, max: Option<nat>)
      requires Parsed(node) && (max.Some? ==> min <= max.value)
      modifies this
      ensures program == old(program) + Code(Repeat(node, min, max), |old(program)|)
      ensures saves == Max(old(saves), SlotCount(Repeat(node, min, max)))
      decreases node, 4, 0
    {
      hide Code, Branch, SlotCount, CopiesCode, BoundedCode;
      ghost var at := |program|;
      for k := 0 to min
        invariant program + CopiesCode(node, min - k, |program|) == old(program) + CopiesCode(node, min, at)
        invariant saves == if k == 0 then old(saves) else Max(old(saves), SlotCount(node))
      {
        CopiesUnfold(program, node, min - k);
        Compile(node);
      }
      NoCopies(program, node, |program|);
      if max.None? {
        StarSplits(old(program), program, node, min);
        var _ := CompileBranch(node, |program|);
      } else {
        BoundedSplits(old(program), program, node, min, max.value);
        CompileOptional(node, max.value - min);
      }
      assert SlotCount(Repeat(node, min, max)) == if min == 0 && max == Some(0) then 0 else SlotCount(node) by {
        RepeatSlots(node, min, max);
      }
    }

    /** A split whose way past is not known yet, and the node's code. */
    method CompileCopy(node: Node) returns (split: nat)
      requires Parsed(node)
      modifies this
      ensures program == old(program) + Optional(node, |old(program)|, 0)
      ensures split == |old(program)| && saves == Max(old(saves), SlotCount(node))
      decreases node, 2, 0
    {
      hide Code;
      split := |program|;
      Push(Split(0, 0));
      program := program[split := Split(|program|, 0)];
      assert program == old(program) + [Split(split + 1, 0)];
      Compile(node);
      OptionalMade(old(program), node, 0);
    }

    method CompileOptional(node: Node, n: nat)
      requires Parsed(node)
      modifies this
      ensures program == old(program) + BoundedCode(node, n, |old(program)|)
      ensures saves == if n == 0 then old(saves) else Max(old(saves), SlotCount(node))
      decreases node, 3, 0
    {
      hide Code, Optional, SlotCount, Patched, OptionalCode, Splits, Size;
      var splits: seq<nat> := [];
      ghost var at := |program|;
      for k := 0 to n
        invariant program + OptionalCode(node, n - k, |program|, 0) == old(program) + OptionalCode(node, n, at, 0)
        invariant splits + Splits(node, n - k, |program|) == Splits(node, n, at)
        invariant saves == if k == 0 then old(saves) else Max(old(saves), SlotCount(node))
      {
        OptionalUnfold(program, node, n - k, 0);
        SplitsUnfold(splits, node, n - k, |program|);
        var split := CompileCopy(node);
        splits := splits + [split];
      }
      NoCopies(program, node, |program|);
      assert splits + Splits(node, 0, |program|) == splits by { NoSplits(splits, node, |program|); }
      PatchSplits(old(program), node, n, 0, |program|);
      Patch(splits, |program|);
    }

    /** The program of a pattern, and the number of slots its captures take. */
    method CompilePattern(node: Node)
      requires Parsed(node) && program == [] && saves == 2
      modifies this
      ensures program == Program(node) && saves == Max(2, SlotCount(node))
    {
      Push(Save(0));
      Compile(node);
      Push(Save(1));
      Push(Match);
    }
  }
}
