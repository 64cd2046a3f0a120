/** The machine that runs a program: one list of threads per position, at most one thread per instruction.
    It returns exactly what the backtracking matcher prefers, and its work is bounded. */
module PikeVm {
  import opened Patterns
  import opened Thompson
  import opened Paths
  import opened Captures
  import opened Backtracking

  datatype Thread = Thread(pc: nat, slots: seq<int>)

  // ---- programs a pattern compiles to ---------------------------------------------------------------------

  /** The instruction leads only to lo..hi, saves to a slot that exists, and is not the end. */
  predicate Tame(inst: Inst, lo: nat, hi: nat, slots: nat) {
    match inst
    case Split(x, y) => lo <= x <= hi && lo <= y <= hi
    case Jmp(x) => lo <= x <= hi
    case Save(slot) => 2 <= slot < slots
    case Match => false
    case _ => true
  }

  ghost predicate AllTame(code: seq<Inst>, lo: nat, hi: nat, slots: nat) {
    forall k :: 0 <= k < |code| ==> Tame(code[k], lo, hi, slots)
  }

  lemma TameJoin(a: seq<Inst>, b: seq<Inst>, lo: nat, hi: nat, slots: nat)
    requires AllTame(a, lo, hi, slots) && AllTame(b, lo, hi, slots)
    ensures AllTame(a + b, lo, hi, slots)
  {
  }

  lemma TameBranch(node: Node, at: nat, to: nat, lo: nat, hi: nat, slots: nat)
    requires AllTame(Code(node, at + 1), lo, hi, slots) && lo <= at && at + Size(node) + 2 <= hi && lo <= to <= hi
    ensures AllTame(Branch(node, at, to), lo, hi, slots)
  {
    hide Code, Size;
  }

  lemma TameCopy(node: Node, at: nat, to: nat, lo: nat, hi: nat, slots: nat)
    requires AllTame(Code(node, at + 1), lo, hi, slots) && lo <= at && at + Size(node) + 1 <= hi && lo <= to <= hi
    ensures AllTame(Optional(node, at, to), lo, hi, slots)
  {
    hide Code, Size;
  }

  lemma {:induction false} CodeTame(node: Node, at: nat, lo: nat, hi: nat, slots: nat)
    requires Parsed(node) && lo <= at && at + Size(node) <= hi && SlotCount(node) <= slots
    ensures AllTame(Code(node, at), lo, hi, slots)
    decreases node, 0, 0
  {
    hide AllTame;
    match node
    case Cat(parts) => CatTame(parts, at, lo, hi, slots);
    case Alt(branches) => AltTame(branches, at, at + Size(node), lo, hi, slots);
    case Group(None, inner) => CodeTame(inner, at, lo, hi, slots);
    case Group(Some(g), inner) =>
      CodeTame(inner, at + 1, lo, hi, slots);
      TameOne(Save(2 * g), lo, hi, slots);
      TameOne(Save(2 * g + 1), lo, hi, slots);
      TameJoin([Save(2 * g)], Code(inner, at + 1), lo, hi, slots);
      TameJoin([Save(2 * g)] + Code(inner, at + 1), [Save(2 * g + 1)], lo, hi, slots);
    case Repeat(inner, min, max) => RepeatTame(inner, min, max, at, lo, hi, slots);
    case Empty => TameNone(lo, hi, slots);
    case _ => TameOne(Code(node, at)[0], lo, hi, slots);
  }

  lemma TameNone(lo: nat, hi: nat, slots: nat)
    ensures AllTame([], lo, hi, slots)
  {
  }

  lemma TameOne(inst: Inst, lo: nat, hi: nat, slots: nat)
    requires Tame(inst, lo, hi, slots)
    ensures AllTame([inst], lo, hi, slots)
  {
  }

  lemma {:induction false} CatTame(parts: seq<Node>, at: nat, lo: nat, hi: nat, slots: nat)
    requires ParsedAll(parts) && lo <= at && at + CatSize(parts) <= hi && SlotCountAll(parts) <= slots
    ensures AllTame(CatCode(parts, at), lo, hi, slots)
    decreases parts, 0, 0
  {
    hide AllTame, Parsed, Code, SlotCount, Size;
    if parts == [] {
      TameNone(lo, hi, slots);
    } else {
      CodeTame(parts[0], at, lo, hi, slots);
      CatTame(parts[1..], at + Size(parts[0]), lo, hi, slots);
      TameJoin(Code(parts[0], at), CatCode(parts[1..], at + Size(parts[0])), lo, hi, slots);
    }
  }

  lemma {:induction false} AltTame(branches: seq<Node>, at: nat, end: nat, lo: nat, hi: nat, slots: nat)
    requires ParsedAll(branches) && lo <= at && at + AltSize(branches) <= hi && lo <= end <= hi && SlotCountAll(branches) <= slots
    ensures AllTame(AltCode(branches, at, end), lo, hi, slots)
    decreases branches, 0, 0
  {
    hide AllTame, Parsed, Code, SlotCount, Size, Branch;
    if branches == [] {
      TameNone(lo, hi, slots);
    } else if |branches| == 1 {
      CodeTame(branches[0], at, lo, hi, slots);
    } else {
      var next := at + Size(branches[0]) + 2;
      CodeTame(branches[0], at + 1, lo, hi, slots);
      TameBranch(branches[0], at, end, lo, hi, slots);
      AltTame(branches[1..], next, end, lo, hi, slots);
      TameJoin(Branch(branches[0], at, end), AltCode(branches[1..], next, end), lo, hi, slots);
    }
  }

  lemma RepeatTame(node: Node, min: nat, max: Option<nat>, at: nat, lo: nat, hi: nat, slots: nat)
    requires Parsed(Repeat(node, min, max)) && lo <= at && at + Size(Repeat(node, min, max)) <= hi
    requires SlotCount(Repeat(node, min, max)) <= slots
    ensures AllTame(Code(Repeat(node, min, max), at), lo, hi, slots)
    decreases node, 2, 0
  {
    hide AllTame, Parsed, Code, SlotCount, Size, Branch, CopiesSize, CopiesCode, OptionalSize, OptionalCode;
    RepeatParts(node, min, max);
    RepeatSlots(node, min, max);
    var first := at + CopiesSize(node, min);
    if min > 0 { CopiesTame(node, min, at, lo, hi, slots); } else { TameNone(lo, hi, slots); NothingCopied(node, at); }
    if max.None? {
      StarUnfold(node, min, at, first);
      CodeTame(node, first + 1, lo, hi, slots);
      TameBranch(node, first, first, lo, hi, slots);
      TameJoin(CopiesCode(node, min, at), Branch(node, first, first), lo, hi, slots);
    } else {
      var n := max.value - min;
      BoundedUnfold(node, min, max.value, at, first);
      if n > 0 {
        OptionalTame(node, n, first, first + OptionalSize(node, n), lo, hi, slots);
      } else {
        TameNone(lo, hi, slots);
        NothingCopied(node, first);
      }
      TameJoin(CopiesCode(node, min, at), BoundedCode(node, n, first), lo, hi, slots);
    }
  }

  lemma NothingCopied(node: Node, at: nat)
    ensures CopiesCode(node, 0, at) == [] && BoundedCode(node, 0, at) == []
  {
  }

  lemma {:induction false} CopiesTame(node: Node, n: nat, at: nat, lo: nat, hi: nat, slots: nat)
    requires Parsed(node) && lo <= at && at + CopiesSize(node, n) <= hi && SlotCount(node) <= slots
    ensures AllTame(CopiesCode(node, n, at), lo, hi, slots)
    decreases node, 1, n
  {
    hide AllTame, Parsed, Code, SlotCount, Size;
    if n == 0 {
      TameNone(lo, hi, slots);
    } else {
      CodeTame(node, at, lo, hi, slots);
      CopiesTame(node, n - 1, at + Size(node), lo, hi, slots);
      TameJoin(Code(node, at), CopiesCode(node, n - 1, at + Size(node)), lo, hi, slots);
    }
  }

  lemma {:induction false} OptionalTame(node: Node, n: nat, at: nat, end: nat, lo: nat, hi: nat, slots: nat)
    requires Parsed(node) && lo <= at && at + OptionalSize(node, n) <= hi && lo <= end <= hi && SlotCount(node) <= slots
    ensures AllTame(OptionalCode(node, n, at, end), lo, hi, slots)
    decreases node, 1, n
  {
    hide AllTame, Parsed, Code, SlotCount, Size, Optional;
    if n == 0 {
      TameNone(lo, hi, slots);
    } else {
      CodeTame(node, at + 1, lo, hi, slots);
      TameCopy(node, at, end, lo, hi, slots);
      OptionalTame(node, n - 1, at + 1 + Size(node), end, lo, hi, slots);
      TameJoin(Optional(node, at, end), OptionalCode(node, n - 1, at + 1 + Size(node), end), lo, hi, slots);
    }
  }

  /** Nothing leads outside the program: a thread that can go on stays in it. */
  ghost predicate Closed(p: seq<Inst>, slots: nat) {
    forall k :: 0 <= k < |p| ==> match p[k]
      case Split(x, y) => x < |p| && y < |p|
      case Jmp(x) => x < |p|
      case Save(slot) => slot < slots && k + 1 < |p|
      case Match => true
      case _ => k + 1 < |p|
  }

  lemma ProgramClosed(node: Node)
    requires Parsed(node)
    ensures Closed(Program(node), Max(2, SlotCount(node))) && Program(node) != []
  {
    hide Code, Size, Parsed, SlotCount;
    CodeTame(node, 1, 1, 1 + Size(node), Max(2, SlotCount(node)));
    var p := Program(node);
    assert p[..1] == [Save(0)] && p[1..1 + Size(node)] == Code(node, 1);
    forall k | 1 <= k < 1 + Size(node) ensures p[k] == Code(node, 1)[k - 1] { }
  }

  // ---- lists of threads -----------------------------------------------------------------------------------

  /** What the backtracking matcher gets from the first thread that gets anything. */
  ghost function TryAll(p: seq<Inst>, s: Input, pos: nat, threads: seq<Thread>): Option<seq<int>> {
    if threads == [] then None else
      OrElse(Backtrack(p, s, threads[0].pc, pos, threads[0].slots, {}), TryAll(p, s, pos, threads[1..]))
  }

  lemma {:induction false} TryAllJoin(p: seq<Inst>, s: Input, pos: nat, a: seq<Thread>, b: seq<Thread>)
    ensures TryAll(p, s, pos, a + b) == OrElse(TryAll(p, s, pos, a), TryAll(p, s, pos, b))
    decreases |a|
  {
    hide Backtrack;
    if a == [] {
      assert a + b == b;
    } else {
      TryAllJoin(p, s, pos, a[1..], b);
      assert (a + b)[1..] == a[1..] + b;
    }
  }

  lemma {:induction false} TryAllNone(p: seq<Inst>, s: Input, pos: nat, threads: seq<Thread>, t: Thread)
    requires TryAll(p, s, pos, threads).None? && t in threads
    ensures Backtrack(p, s, t.pc, pos, t.slots, {}).None?
    decreases |threads|
  {
    hide Backtrack;
    if t != threads[0] {
      TryAllNone(p, s, pos, threads[1..], t);
    }
  }

  /** The stack, its top last; with each thread the instructions on the way to it. */
  ghost function TryStack(p: seq<Inst>, s: Input, pos: nat, stack: seq<Thread>, ways: seq<set<nat>>): Option<seq<int>>
    requires |ways| == |stack|
    decreases |stack|
  {
    if stack == [] then None else
      var n := |stack| - 1;
      OrElse(Backtrack(p, s, stack[n].pc, pos, stack[n].slots, ways[n]), TryStack(p, s, pos, stack[..n], ways[..n]))
  }

  lemma TryStackPush(p: seq<Inst>, s: Input, pos: nat, stack: seq<Thread>, ways: seq<set<nat>>, t: Thread, way: set<nat>)
    requires |ways| == |stack|
    ensures TryStack(p, s, pos, stack + [t], ways + [way])
      == OrElse(Backtrack(p, s, t.pc, pos, t.slots, way), TryStack(p, s, pos, stack, ways))
  {
    hide Backtrack;
    assert (stack + [t])[..|stack|] == stack && (ways + [way])[..|stack|] == ways;
  }

  predicate Consumes(p: seq<Inst>, w: nat) {
    w < |p| && (p[w].CharI? || p[w].AnyI? || p[w].Match?)
  }

  /** Control passes from w to x without moving on in the subject. */
  predicate Passes(p: seq<Inst>, s: Input, pos: nat, w: nat, x: nat)
  {
    && w < |p|
    && match p[w]
       case Split(a, b) => x == a || x == b
       case Jmp(a) => x == a
       case Save(_) => x == w + 1
       case Assert(atStart) => pos == (if atStart then 0 else |s.codes|) && x == w + 1
       case _ => false
  }

  ghost predicate Waiting(x: nat, w: nat, stack: seq<Thread>, ways: seq<set<nat>>)
    requires |ways| == |stack|
  {
    exists i :: 0 <= i < |stack| && stack[i].pc == x && w in ways[i]
  }

  ghost predicate Listed(w: nat, threads: seq<Thread>) {
    exists t :: t in threads && t.pc == w
  }

  ghost predicate ThreadOk(p: seq<Inst>, slots: nat, t: Thread) {
    t.pc < |p| && |t.slots| == slots
  }

  /** What holds of the marks, the list and the stack while threads are being added: what a marked
      instruction passes control to is marked too or waits on the stack, and a marked instruction that
      consumes is in the list. */
  ghost predicate Spreading(p: seq<Inst>, s: Input, pos: nat, slots: nat, marked: set<nat>, list: seq<Thread>,
                            stack: seq<Thread>, ways: seq<set<nat>>) {
    && |ways| == |stack|
    && (forall t :: t in list ==> ThreadOk(p, slots, t) && Consumes(p, t.pc))
    && (forall t :: t in stack ==> ThreadOk(p, slots, t))
    && (forall w :: w in marked ==> w < |p|)
    && (forall w, x :: w in marked && Passes(p, s, pos, w, x) ==> x in marked || Waiting(x, w, stack, ways))
    && (forall w :: w in marked && Consumes(p, w) ==> Listed(w, list))
    && (forall i :: 0 <= i < |ways| ==> ways[i] <= marked)
    && (forall i, j :: 0 <= i < j < |ways| ==> ways[i] <= ways[j])
  }

  ghost predicate Settled(p: seq<Inst>, s: Input, pos: nat, slots: nat, marked: set<nat>, list: seq<Thread>) {
    Spreading(p, s, pos, slots, marked, list, [], [])
  }

  /** A marked instruction off the way has nothing new to offer: it was tried, and failed. */
  lemma {:induction false} NothingNew(p: seq<Inst>, s: Input, pos: nat, marked: set<nat>, list: seq<Thread>,
                                      pc: nat, slots: seq<int>, way: set<nat>, visited: set<nat>)
    requires Closed(p, |slots|) && TryAll(p, s, pos, list).None?
    requires forall t :: t in list ==> |t.slots| == |slots|
    requires forall w :: w in marked ==> w < |p|
    requires forall w, x :: w in marked && w !in way && Passes(p, s, pos, w, x) ==> x in marked
    requires forall w :: w in marked && Consumes(p, w) ==> Listed(w, list)
    requires pc in marked && way <= visited
    ensures Backtrack(p, s, pc, pos, slots, visited).None?
    decreases |Unvisited(p, visited)|
  {
    hide TryAll, Hits;
    if pc !in visited && pos <= |s.codes| {
      UnvisitedShrinks(p, visited, pc);
      hide Unvisited;
      var more := visited + {pc};
      match p[pc]
      case Split(x, y) =>
        assert Passes(p, s, pos, pc, x) && Passes(p, s, pos, pc, y);
        NothingNew(p, s, pos, marked, list, x, slots, way, more);
        NothingNew(p, s, pos, marked, list, y, slots, way, more);
      case Jmp(x) =>
        assert Passes(p, s, pos, pc, x);
        NothingNew(p, s, pos, marked, list, x, slots, way, more);
      case Save(slot) =>
        assert Passes(p, s, pos, pc, pc + 1);
        NothingNew(p, s, pos, marked, list, pc + 1, slots[slot := pos], way, more);
      case Assert(atStart) =>
        if pos == (if atStart then 0 else |s.codes|) {
          assert Passes(p, s, pos, pc, pc + 1);
          NothingNew(p, s, pos, marked, list, pc + 1, slots, way, more);
        }
      case _ =>
        assert Listed(pc, list);
        var t :| t in list && t.pc == pc;
        TryAllNone(p, s, pos, list, t);
        SlotsDoNotDecide(p, s, pc, pos, t.slots, slots, {});
        ConsumerForgets(p, s, pc, pos, slots, visited);
    }
  }

  /** A way that consumes does not depend on how it got there. */
  lemma ConsumerForgets(p: seq<Inst>, s: Input, pc: nat, pos: nat, slots: seq<int>, visited: set<nat>)
    requires Consumes(p, pc) && pc !in visited
    ensures Backtrack(p, s, pc, pos, slots, visited) == Backtrack(p, s, pc, pos, slots, {})
  {
    hide Hits;
  }

  // ---- one turn of addThread --------------------------------------------------------------------------------

  lemma StillWaiting(x: nat, w: nat, stack: seq<Thread>, ways: seq<set<nat>>, t: Thread, way: set<nat>)
    requires |ways| == |stack| && Waiting(x, w, stack + [t], ways + [way]) && t.pc != x
    ensures Waiting(x, w, stack, ways)
  {
    var i :| 0 <= i < |stack| + 1 && (stack + [t])[i].pc == x && w in (ways + [way])[i];
    assert stack[i].pc == x && w in ways[i];
  }

  lemma WaitsOnTheWay(x: nat, w: nat, stack: seq<Thread>, ways: seq<set<nat>>, t: Thread, way: set<nat>)
    requires |ways| == |stack| && Waiting(x, w, stack + [t], ways + [way])
    requires forall i, j :: 0 <= i < j < |ways + [way]| ==> (ways + [way])[i] <= (ways + [way])[j]
    ensures w in way
  {
    var i :| 0 <= i < |stack| + 1 && (stack + [t])[i].pc == x && w in (ways + [way])[i];
    assert (ways + [way])[|ways|] == way;
    if i < |ways| {
      assert (ways + [way])[i] <= (ways + [way])[|ways|];
    }
  }

  lemma WaysBelow(ways: seq<set<nat>>, way: set<nat>, marked: set<nat>)
    requires forall i :: 0 <= i < |ways + [way]| ==> (ways + [way])[i] <= marked
    requires forall i, j :: 0 <= i < j < |ways + [way]| ==> (ways + [way])[i] <= (ways + [way])[j]
    ensures way <= marked
    ensures forall i :: 0 <= i < |ways| ==> ways[i] <= marked && ways[i] <= way
    ensures forall i, j :: 0 <= i < j < |ways| ==> ways[i] <= ways[j]
  {
    assert (ways + [way])[|ways|] == way;
    forall i | 0 <= i < |ways| ensures ways[i] <= marked && ways[i] <= way {
      assert (ways + [way])[i] == ways[i];
    }
    forall i, j | 0 <= i < j < |ways| ensures ways[i] <= ways[j] {
      assert (ways + [way])[i] == ways[i] && (ways + [way])[j] == ways[j];
    }
  }

  /** The popped instruction is marked already: dropping it loses nothing. */
  lemma PopMarked(p: seq<Inst>, s: Input, pos: nat, slots: nat, marked: set<nat>, list: seq<Thread>,
                  stack: seq<Thread>, ways: seq<set<nat>>, t: Thread, way: set<nat>)
    requires Closed(p, slots) && |ways| == |stack| && t.pc in marked
    requires Spreading(p, s, pos, slots, marked, list, stack + [t], ways + [way])
    ensures Spreading(p, s, pos, slots, marked, list, stack, ways)
    ensures OrElse(TryAll(p, s, pos, list), TryStack(p, s, pos, stack + [t], ways + [way]))
      == OrElse(TryAll(p, s, pos, list), TryStack(p, s, pos, stack, ways))
  {
    hide TryAll, Backtrack, Closed, Passes, Consumes, Waiting, TryStack;
    TryStackPush(p, s, pos, stack, ways, t, way);
    WaysBelow(ways, way, marked);
    assert t in stack + [t];
    forall u | u in stack ensures ThreadOk(p, slots, u) { assert u in stack + [t]; }
    forall w, x | w in marked && Passes(p, s, pos, w, x) ensures x in marked || Waiting(x, w, stack, ways) {
      if x !in marked {
        StillWaiting(x, w, stack, ways, t, way);
      }
    }
    if TryAll(p, s, pos, list).None? {
      forall w, x | w in marked && w !in way && Passes(p, s, pos, w, x) ensures x in marked {
        if x !in marked {
          WaitsOnTheWay(x, w, stack, ways, t, way);
        }
      }
      NothingNew(p, s, pos, marked, list, t.pc, t.slots, way, way);
    }
  }

  /** The popped instruction consumes: it joins the list. */
  lemma PopConsumer(p: seq<Inst>, s: Input, pos: nat, slots: nat, marked: set<nat>, list: seq<Thread>,
                    stack: seq<Thread>, ways: seq<set<nat>>, t: Thread, way: set<nat>)
    requires |ways| == |stack| && t.pc !in marked && Consumes(p, t.pc)
    requires Spreading(p, s, pos, slots, marked, list, stack + [t], ways + [way])
    ensures Spreading(p, s, pos, slots, marked + {t.pc}, list + [t], stack, ways)
    ensures OrElse(TryAll(p, s, pos, list), TryStack(p, s, pos, stack + [t], ways + [way]))
      == OrElse(TryAll(p, s, pos, list + [t]), TryStack(p, s, pos, stack, ways))
  {
    hide Backtrack, TryStack, Passes, Consumes, Waiting;
    TryStackPush(p, s, pos, stack, ways, t, way);
    WaysBelow(ways, way, marked);
    ConsumerForgets(p, s, t.pc, pos, t.slots, way);
    TryAllJoin(p, s, pos, list, [t]);
    var marked', list' := marked + {t.pc}, list + [t];
    assert t in stack + [t];
    forall u | u in stack ensures ThreadOk(p, slots, u) { assert u in stack + [t]; }
    forall w, x | w in marked' && Passes(p, s, pos, w, x) ensures x in marked' || Waiting(x, w, stack, ways) {
      if w == t.pc {
        ConsumerPassesNothing(p, s, pos, w, x);
        assert false;
      }
      if x !in marked' {
        StillWaiting(x, w, stack, ways, t, way);
      }
    }
    forall w | w in marked' && Consumes(p, w) ensures Listed(w, list') {
      if w == t.pc {
        assert t in list';
      } else {
        var u :| u in list && u.pc == w;
        assert u in list';
      }
    }
  }

  lemma ConsumerPassesNothing(p: seq<Inst>, s: Input, pos: nat, w: nat, x: nat)
    requires Consumes(p, w)
    ensures !Passes(p, s, pos, w, x)
  {
  }

  ghost predicate Among(x: nat, next: seq<Thread>) {
    exists i :: 0 <= i < |next| && next[i].pc == x
  }

  /** The popped instruction passes control: what it passes it to waits in its place. */
  lemma PopPasser(p: seq<Inst>, s: Input, pos: nat, slots: nat, marked: set<nat>, list: seq<Thread>,
                  stack: seq<Thread>, ways: seq<set<nat>>, t: Thread, way: set<nat>, next: seq<Thread>, more: seq<set<nat>>)
    requires |ways| == |stack| && |more| == |next| && t.pc !in marked && !Consumes(p, t.pc)
    requires Spreading(p, s, pos, slots, marked, list, stack + [t], ways + [way])
    requires forall u :: u in next ==> ThreadOk(p, slots, u)
    requires forall m :: m in more ==> m == way + {t.pc}
    requires forall x :: Passes(p, s, pos, t.pc, x) ==> Among(x, next)
    ensures Spreading(p, s, pos, slots, marked + {t.pc}, list, stack + next, ways + more)
  {
    hide Passes, Consumes;
    WaysBelow(ways, way, marked);
    assert t in stack + [t];
    forall u | u in stack + next ensures ThreadOk(p, slots, u) {
      if u in stack { assert u in stack + [t]; }
    }
    var marked' := marked + {t.pc};
    forall w, x | w in marked' && Passes(p, s, pos, w, x) ensures x in marked' || Waiting(x, w, stack + next, ways + more) {
      if w == t.pc {
        var i :| 0 <= i < |next| && next[i].pc == x;
        assert (stack + next)[|stack| + i].pc == x && (ways + more)[|stack| + i] == more[i];
        assert more[i] in more;
      } else if x !in marked' {
        StillWaiting(x, w, stack, ways, t, way);
        var i :| 0 <= i < |stack| && stack[i].pc == x && w in ways[i];
        assert (stack + next)[i].pc == x && w in (ways + more)[i];
      }
    }
    assert forall i :: 0 <= i < |more| ==> more[i] in more;
    forall i | 0 <= i < |ways + more| ensures (ways + more)[i] <= marked' {
      if i < |ways| { assert (ways + more)[i] == ways[i]; } else { assert (ways + more)[i] == more[i - |ways|]; }
    }
    forall i, j | 0 <= i < j < |ways + more| ensures (ways + more)[i] <= (ways + more)[j] {
      if j < |ways| {
        assert (ways + more)[i] == ways[i] && (ways + more)[j] == ways[j];
      } else if i < |ways| {
        assert (ways + more)[i] == ways[i] && (ways + more)[j] == more[j - |ways|];
      } else {
        assert (ways + more)[i] == more[i - |ways|] && (ways + more)[j] == more[j - |ways|];
      }
    }
  }
}
