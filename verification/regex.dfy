/** The matcher as it runs, over arrays of marks and a counter of generations, and what it returns. */
module RegexEngine {
  import opened Patterns
  import opened Thompson
  import opened Paths
  import opened Captures
  import opened Backtracking
  import opened PikeVm
  import opened Searching

  // ---- marks ------------------------------------------------------------------------------------------------------

  ghost function Marked(seen: seq<int>, generation: int): (r: set<nat>)
    ensures forall k :: k in r <==> 0 <= k < |seen| && seen[k] == generation
  {
    set k: nat | k < |seen| && seen[k] == generation
  }

  lemma MarkOne(seen: seq<int>, generation: int, k: nat)
    requires k < |seen| && seen[k] != generation
    ensures Marked(seen[k := generation], generation) == Marked(seen, generation) + {k}
    ensures |Marked(seen[k := generation], generation)| == |Marked(seen, generation)| + 1
  {
  }

  lemma {:induction false} MarkedBounded(seen: seq<int>, generation: int)
    ensures |Marked(seen, generation)| <= |seen|
    decreases |seen|
  {
    if seen == [] {
      assert Marked(seen, generation) == {};
    } else {
      var n := |seen| - 1;
      MarkedBounded(seen[..n], generation);
      var rest := Marked(seen[..n], generation);
      assert Marked(seen, generation) <= rest + {n};
      assert Marked(seen, generation) == if seen[n] == generation then rest + {n} else rest;
    }
  }

  lemma NoneMarked(seen: seq<int>, generation: int)
    requires generation > 0 && forall k :: 0 <= k < |seen| ==> seen[k] == -1
    ensures Marked(seen, generation) == {}
  {
  }

  lemma NothingSpread(p: seq<Inst>, s: Input, pos: nat, slots: nat)
    ensures Settled(p, s, pos, slots, {}, [])
  {
  }

  // ---- what a popped instruction puts on the stack ------------------------------------------------------------------

  /** The threads that replace one that passes control, the one to be tried first on top. */
  function Successors(p: seq<Inst>, s: Input, pos: nat, t: Thread): seq<Thread>
    requires t.pc < |p|
  {
    match p[t.pc]
    case Split(x, y) => [Thread(y, t.slots), Thread(x, t.slots)]
    case Jmp(x) => [Thread(x, t.slots)]
    case Save(slot) => if slot < |t.slots| then [Thread(t.pc + 1, t.slots[slot := pos])] else []
    case Assert(atStart) => if pos == (if atStart then 0 else |s.codes|) then [Thread(t.pc + 1, t.slots)] else []
    case _ => []
  }

  lemma SuccessorsOk(p: seq<Inst>, s: Input, pos: nat, slots: nat, t: Thread)
    requires Closed(p, slots) && ThreadOk(p, slots, t)
    ensures forall u :: u in Successors(p, s, pos, t) ==> ThreadOk(p, slots, u)
    ensures forall x :: Passes(p, s, pos, t.pc, x) ==> Among(x, Successors(p, s, pos, t))
  {
    var next := Successors(p, s, pos, t);
    forall x | Passes(p, s, pos, t.pc, x) ensures Among(x, next) {
      if p[t.pc].Split? && x == p[t.pc].x { assert next[1].pc == x; } else { assert next[0].pc == x; }
    }
  }

  lemma SuccessorsTried(p: seq<Inst>, s: Input, pos: nat, stack: seq<Thread>, ways: seq<set<nat>>, t: Thread, way: set<nat>,
                        more: seq<set<nat>>)
    requires |ways| == |stack| && t.pc < |p| && !Consumes(p, t.pc) && t.pc !in way && pos <= |s.codes|
    requires |more| == |Successors(p, s, pos, t)| && forall m :: m in more ==> m == way + {t.pc}
    ensures TryStack(p, s, pos, stack + [t], ways + [way])
      == TryStack(p, s, pos, stack + Successors(p, s, pos, t), ways + more)
  {
    hide TryStack, Backtrack;
    var next := Successors(p, s, pos, t);
    var deeper := way + {t.pc};
    TryStackPush(p, s, pos, stack, ways, t, way);
    BacktrackPasser(p, s, pos, t, way);
    if |next| == 0 {
      assert stack + next == stack && ways + more == ways;
    } else {
      assert more[0] in more;
      TryStackPush(p, s, pos, stack, ways, next[0], deeper);
      if |next| == 2 {
        assert more[1] in more;
        TryStackPush(p, s, pos, stack + [next[0]], ways + [deeper], next[1], deeper);
        assert (stack + [next[0]]) + [next[1]] == stack + next && (ways + [deeper]) + [deeper] == ways + more;
      } else {
        assert stack + [next[0]] == stack + next && ways + [deeper] == ways + more;
      }
    }
  }

  /** The last on the stack is the first choice. */
  lemma BacktrackPasser(p: seq<Inst>, s: Input, pos: nat, t: Thread, way: set<nat>)
    requires t.pc < |p| && !Consumes(p, t.pc) && t.pc !in way && pos <= |s.codes|
    ensures var next := Successors(p, s, pos, t);
      var deeper := way + {t.pc};
      Backtrack(p, s, t.pc, pos, t.slots, way) ==
        if |next| == 0 then None
        else if |next| == 1 then Backtrack(p, s, next[0].pc, pos, next[0].slots, deeper)
        else OrElse(Backtrack(p, s, next[1].pc, pos, next[1].slots, deeper), Backtrack(p, s, next[0].pc, pos, next[0].slots, deeper))
  {
    hide Unvisited;
  }

  // ---- one position to the next ---------------------------------------------------------------------------------------

  /** A thread that consumes the character at pos goes on from the next instruction. */
  lemma Consumed(p: seq<Inst>, s: Input, pos: nat, t: Thread)
    requires Consumes(p, t.pc) && !p[t.pc].Match? && pos <= |s.codes|
    ensures Backtrack(p, s, t.pc, pos, t.slots, {}) ==
      if pos < |s.codes| && (if p[t.pc].CharI? then Hits(p[t.pc].chars, s, pos) else s.codes[pos] != NEWLINE)
      then Backtrack(p, s, t.pc + 1, pos + 1, t.slots, {}) else None
  {
    hide Unvisited;
  }

  lemma Ended(p: seq<Inst>, s: Input, pos: nat, t: Thread)
    requires t.pc < |p| && p[t.pc].Match? && pos <= |s.codes|
    ensures Backtrack(p, s, t.pc, pos, t.slots, {}) == Some(t.slots)
  {
  }

  lemma TryAllFirst(p: seq<Inst>, s: Input, pos: nat, threads: seq<Thread>, k: nat)
    requires k < |threads|
    ensures TryAll(p, s, pos, threads[k..])
      == OrElse(Backtrack(p, s, threads[k].pc, pos, threads[k].slots, {}), TryAll(p, s, pos, threads[k + 1..]))
  {
    hide Backtrack;
    assert threads[k..][1..] == threads[k + 1..];
  }

  // ---- the engine -----------------------------------------------------------------------------------------------------

  class Regex {
    const program: seq<Inst>
    const slots: nat
    const ignoreCase: bool
    /** The pattern the program was compiled from. */
    ghost const pattern: Node

    ghost predicate Valid() {
      && Closed(program, slots) && program != []
      && Parsed(pattern) && program == Program(pattern) && slots == Max(2, SlotCount(pattern))
    }

    constructor (node: Node, ignoreCase: bool)
      requires Parsed(node)
      ensures Valid() && pattern == node && this.ignoreCase == ignoreCase
    {
      var builder := new Builder();
      builder.CompilePattern(node);
      ProgramClosed(node);
      program := builder.program;
      slots := builder.saves;
      this.ignoreCase := ignoreCase;
      pattern := node;
    }

    /** Adds to the list the threads that an instruction leads to without consuming, best first. An
        instruction marked before is not looked at again, so each one is expanded once at most. */
    method AddThread(s: Input, list: seq<Thread>, seen: array<int>, generation: int, pc: nat, saved: seq<int>, pos: nat)
      returns (r: seq<Thread>, ghost expanded: nat)
      requires Valid() && seen.Length == |program| && pos <= |s.codes| && ThreadOk(program, slots, Thread(pc, saved))
      requires Settled(program, s, pos, slots, Marked(seen[..], generation), list)
      modifies seen
      ensures Settled(program, s, pos, slots, Marked(seen[..], generation), r)
      ensures TryAll(program, s, pos, r) == OrElse(TryAll(program, s, pos, list), Backtrack(program, s, pc, pos, saved, {}))
      ensures expanded == |Marked(seen[..], generation)| - |Marked(old(seen[..]), generation)|
    {
      Whole();
      hide *;
      r, expanded := list, 0;
      var stack := [Thread(pc, saved)];
      ghost var marked := Marked(seen[..], generation);
      ghost var wanted := OrElse(TryAll(program, s, pos, list), Backtrack(program, s, pc, pos, saved, {}));
      ghost var ways := Start(program, s, pos, slots, marked, list, Thread(pc, saved));
      while stack != []
        invariant marked == Marked(seen[..], generation) && |ways| == |stack|
        invariant Adding(program, s, pos, slots, marked, r, stack, ways, wanted)
        invariant expanded == |marked| - |Marked(old(seen[..]), generation)|
        decreases |program| - |marked|, |stack|
      {
        MarkedBounded(seen[..], generation);
        TopOk(program, s, pos, slots, marked, r, stack, ways, wanted);
        ghost var before, waysBefore := stack, ways;
        var t := stack[|stack| - 1];
        stack := stack[..|stack| - 1];
        ways := ways[..|stack|];
        if seen[t.pc] == generation {
          DropMarked(program, s, pos, slots, marked, r, before, waysBefore, wanted);
          continue;
        }
        ghost var all := seen[..];
        seen[t.pc] := generation;
        assert seen[..] == all[t.pc := generation];
        MarkOne(all, generation, t.pc);
        MarkedBounded(seen[..], generation);
        expanded := expanded + 1;
        if Consumes(program, t.pc) {
          KeepConsumer(program, s, pos, slots, marked, r, before, waysBefore, wanted);
          r := r + [t];
        } else {
          ghost var more := PassOn(program, s, pos, slots, marked, r, before, waysBefore, wanted);
          stack := PushSuccessors(s, stack, t, pos);
          ways := ways + more;
        }
        marked := marked + {t.pc};
      }
      Finished(program, s, pos, slots, marked, r, stack, ways, wanted);
    }

    lemma Whole()
      requires Valid()
      ensures Closed(program, slots)
    {
    }

    /** What a thread that consumes nothing leads to goes on the stack. */
    method PushSuccessors(s: Input, below: seq<Thread>, t: Thread, pos: nat) returns (stack: seq<Thread>)
      requires Valid() && ThreadOk(program, slots, t) && !Consumes(program, t.pc)
      ensures stack == below + Successors(program, s, pos, t)
    {
      hide Closed;
      stack := below;
      match program[t.pc] {
        case Jmp(x) => stack := stack + [Thread(x, t.slots)];
        case Split(x, y) =>
          // y below x, so x is explored first
          stack := stack + [Thread(y, t.slots)];
          stack := stack + [Thread(x, t.slots)];
        case Save(slot) =>
          SlotExists(program, slots, t);
          var copy := t.slots[slot := pos];
          stack := stack + [Thread(t.pc + 1, copy)];
        case Assert(atStart) =>
          var ok := if atStart then pos == 0 else pos == |s.codes|;
          if ok { stack := stack + [Thread(t.pc + 1, t.slots)]; }
        case _ =>
      }
    }

    method Fill(a: array<int>, value: int)
      modifies a
      ensures forall k :: 0 <= k < a.Length ==> a[k] == value
    {
      for i := 0 to a.Length
        invariant forall k :: 0 <= k < i ==> a[k] == value
      {
        a[i] := value;
      }
    }

    /** Runs the threads of one position over its character into the list of the next; a thread at the end
        is the best so far, and those after it are dropped. */
    method Advance(s: Input, clist: seq<Thread>, seen: array<int>, generation: int, pos: nat, matched: Option<seq<int>>)
      returns (nlist: seq<Thread>, best: Option<seq<int>>, ghost expanded: nat)
      requires Valid() && seen.Length == |program| && pos <= |s.codes| && generation > 0
      requires forall t :: t in clist ==> ThreadOk(program, slots, t) && Consumes(program, t.pc)
      requires s.ignoreCase == ignoreCase
      modifies seen
      ensures pos < |s.codes| ==> Settled(program, s, pos + 1, slots, Marked(seen[..], generation), nlist)
      ensures pos == |s.codes| ==> nlist == [] && expanded == 0
      ensures OrElse(TryAll(program, s, pos + 1, nlist), best) == OrElse(TryAll(program, s, pos, clist), matched)
      ensures expanded <= |program|
    {
      hide TryAll, Backtrack, Spreading, Closed, Passes, Marked, Hits;
      Fill(seen, -1);
      NoneMarked(seen[..], generation);
      NothingSpread(program, s, pos + 1, slots);
      nlist, best, expanded := [], matched, 0;
      TryNone(program, s, pos);
      TryNone(program, s, pos + 1);
      assert clist[0..] == clist;
      for k := 0 to |clist|
        invariant pos < |s.codes| ==> Settled(program, s, pos + 1, slots, Marked(seen[..], generation), nlist)
        invariant pos == |s.codes| ==> nlist == [] && expanded == 0
        invariant best == matched && expanded <= |Marked(seen[..], generation)|
        invariant OrElse(TryAll(program, s, pos + 1, nlist), OrElse(TryAll(program, s, pos, clist[k..]), matched))
          == OrElse(TryAll(program, s, pos, clist), matched)
      {
        var thread := clist[k];
        assert ThreadOk(program, slots, thread) && Consumes(program, thread.pc);
        TryAllFirst(program, s, pos, clist, k);
        if program[thread.pc].Match? {
          Ended(program, s, pos, thread);
          best := Some(thread.slots);
          break;
        }
        Consumed(program, s, pos, thread);
        if pos == |s.codes| {
          continue;
        }
        var ok;
        if program[thread.pc].CharI? {
          ok := CheckInSet(program[thread.pc].chars, s.codes[pos]);
          if !ok && ignoreCase { ok := CheckInSet(program[thread.pc].chars, FoldCase(s.codes[pos])); }
          assert ok == Hits(program[thread.pc].chars, s, pos) by { HitsEither(program[thread.pc].chars, s, pos); }
        } else {
          ok := s.codes[pos] != NEWLINE;
        }
        if ok {
          GoesOn(program, slots, thread);
          ghost var n;
          nlist, n := AddThread(s, nlist, seen, generation, thread.pc + 1, thread.slots, pos + 1);
          expanded := expanded + n;
        }
      }
      assert clist[|clist|..] == [];
      MarkedBounded(seen[..], generation);
    }

    /** Everything from one start: the preferred match from there, for work proportional to the program
        and to what is left of the subject. */
    method RunFrom(s: Input, start: nat, onClist: array<int>, onNlist: array<int>, generation0: int)
      returns (matched: Option<seq<int>>, generation: int, ghost expanded: nat)
      requires Valid() && onClist.Length == onNlist.Length == |program| && start <= |s.codes| && generation0 >= 0
      requires s.ignoreCase == ignoreCase
      modifies onClist, onNlist
      ensures matched == Backtrack(program, s, 0, start, Unset(slots), {})
      ensures generation > generation0
      ensures expanded <= |program| * (|s.codes| - start + 1)
    {
      hide TryAll, Backtrack, Closed, Passes, Marked, Spreading;
      generation := generation0 + 1;
      var clist: seq<Thread> := [];
      var cseen, nseen := onClist, onNlist;
      Fill(cseen, -1);
      NoneMarked(cseen[..], generation);
      NothingSpread(program, s, start, slots);
      TryNone(program, s, start);
      clist, expanded := AddThread(s, clist, cseen, generation, 0, Unset(slots), start);
      MarkedBounded(cseen[..], generation);
      matched := None;
      ghost var wanted := Backtrack(program, s, 0, start, Unset(slots), {});
      SettledList(program, s, start, slots, Marked(cseen[..], generation), clist);
      var pos := start;
      assert |program| * (pos - start + 1) == |program|;
      while true
        invariant start <= pos <= |s.codes| && generation > generation0
        invariant cseen in {onClist, onNlist} && nseen in {onClist, onNlist}
        invariant cseen.Length == nseen.Length == |program|
        invariant forall t :: t in clist ==> ThreadOk(program, slots, t) && Consumes(program, t.pc)
        invariant OrElse(TryAll(program, s, pos, clist), matched) == wanted
        invariant expanded <= |program| * (pos - start + 1)
        decreases |s.codes| - pos
      {
        if |clist| == 0 {
          TryNone(program, s, pos);
          break;
        }
        generation := generation + 1;
        var nlist;
        ghost var n;
        nlist, matched, n := Advance(s, clist, nseen, generation, pos, matched);
        clist := nlist;
        cseen, nseen := nseen, cseen;
        expanded := expanded + n;
        if pos >= |s.codes| {
          TryNone(program, s, pos + 1);
          break;
        }
        SettledList(program, s, pos + 1, slots, Marked(cseen[..], generation), clist);
        OneMore(|program|, pos - start + 1);
        pos := pos + 1;
      }
      Smaller(|program|, pos - start + 1, |s.codes| - start + 1);
    }

    /** A subject, its characters compared as this expression compares them. */
    function Read(subject: seq<int>): Input {
      Input(subject, ignoreCase)
    }

    /** The captures of the first match at or after `from`; the work is at most the program times what is
        left, for each start that has to be tried. */
    method Exec(subject: seq<int>, from: nat) returns (captures: Option<seq<Option<Span>>>, ghost expanded: nat)
      requires Valid()
      ensures captures == match Search(program, Read(subject), slots, from) case None => None case Some(m) => Some(Spans(m))
      ensures captures.None? ==> forall i: nat :: from <= i ==> !MatchesAt(pattern, Read(subject), i)
      ensures captures.Some? ==>
        && Reported(pattern, Read(subject), captures.value) && from <= StartOf(captures.value)
        && forall i: nat :: from <= i < StartOf(captures.value) ==> !MatchesAt(pattern, Read(subject), i)
      ensures from <= |subject| ==> expanded <= (|subject| - from + 1) * (|program| * (|subject| - from + 1))
    {
      var s := Read(subject);
      var n := |program|;
      var onClist := new int[n](_ => -1);
      var onNlist := new int[n](_ => -1);
      var generation := 0;
      expanded := 0;
      ghost var cost := if from <= |s.codes| then n * (|s.codes| - from + 1) else 0;
      var start := from;
      while start <= |s.codes|
        invariant from <= start && generation >= 0
        invariant from <= |s.codes| ==> start <= |s.codes| + 1
        invariant Search(program, s, slots, from) == Search(program, s, slots, start)
        invariant expanded <= (start - from) * cost
        decreases |s.codes| + 1 - start
      {
        var matched;
        ghost var more;
        matched, generation, more := RunFrom(s, start, onClist, onNlist, generation);
        Smaller(n, |s.codes| - start + 1, |s.codes| - from + 1);
        OneMore(cost, start - from);
        expanded := expanded + more;
        if matched.Some? {
          captures := Some(Spans(matched.value));
          Smaller(cost, start - from + 1, |s.codes| - from + 1);
          SearchReports(pattern, s, from);
          return;
        }
        start := start + 1;
      }
      captures := None;
      SearchMeans(pattern, s, from);
    }

    method Test(subject: seq<int>) returns (r: bool)
      requires Valid()
      ensures r <==> exists i: nat :: MatchesAt(pattern, Read(subject), i)
    {
      hide Search, Backtrack, MatchesAt;
      SearchMeans(pattern, Read(subject), 0);
      var found, _ := Exec(subject, 0);
      r := found.Some?;
    }

    /** Every match that does not overlap an earlier one, left to right. */
    method All(subject: seq<int>, limit: nat) returns (out: seq<seq<Option<Span>>>)
      requires Valid()
      ensures out == FindAll(pattern, Read(subject), 0, limit)
      ensures InOrder(pattern, Read(subject), 0, out) && NothingMissed(pattern, Read(subject), 0, limit, out)
    {
      var s := Read(subject);
      hide Search, Backtrack, Matches, FindAll, Program, SlotCount, GenuineMatch, InOrder, NothingMissed, Reported, MatchesAt, StartOf;
      out := [];
      var at := 0;
      while at <= |s.codes| && |out| < limit
        invariant |out| <= limit
        invariant FindAll(pattern, s, 0, limit) == out + FindAll(pattern, s, at, limit - |out|)
        decreases |s.codes| + 1 - at
      {
        FindAllUnfold(pattern, s, at, limit - |out|);
        var m, _ := Exec(subject, at);
        if m.None? { break; }
        SearchMeans(pattern, s, at);
        out := out + [m.value];
        var whole := m.value[0].value;
        // a match of nothing must still move on
        at := if whole.end > whole.start then whole.end else whole.end + 1;
      }
      if at > |s.codes| || |out| == limit { FindAllUnfold(pattern, s, at, limit - |out|); }
      FindAllMeans(pattern, s, 0, limit);
    }
  }

  lemma OneMore(n: nat, k: nat)
    ensures n * k + n == n * (k + 1) && k * n + n == (k + 1) * n
  {
  }

  lemma Smaller(n: nat, a: nat, b: nat)
    requires a <= b
    ensures n * a <= n * b && a * n <= b * n
  {
  }

  lemma TryNone(p: seq<Inst>, s: Input, pos: nat)
    ensures TryAll(p, s, pos, []) == None
  {
  }

  lemma HitsEither(chars: CharSet, s: Input, i: nat)
    requires i < |s.codes|
    ensures Hits(chars, s, i) == (InSet(chars, s.codes[i]) || (s.ignoreCase && InSet(chars, FoldCase(s.codes[i]))))
  {
  }

  lemma GoesOn(p: seq<Inst>, slots: nat, t: Thread)
    requires Closed(p, slots) && ThreadOk(p, slots, t) && Consumes(p, t.pc) && !p[t.pc].Match?
    ensures ThreadOk(p, slots, Thread(t.pc + 1, t.slots))
  {
  }

  lemma SettledList(p: seq<Inst>, s: Input, pos: nat, slots: nat, marked: set<nat>, list: seq<Thread>)
    requires Settled(p, s, pos, slots, marked, list)
    ensures forall t :: t in list ==> ThreadOk(p, slots, t) && Consumes(p, t.pc)
  {
  }

  /** What is kept while threads are added: the marks, the list and the stack fit together, and the list and
      the stack between them are worth what is wanted. */
  ghost predicate Adding(p: seq<Inst>, s: Input, pos: nat, slots: nat, marked: set<nat>, list: seq<Thread>,
                         stack: seq<Thread>, ways: seq<set<nat>>, wanted: Option<seq<int>>) {
    && |ways| == |stack| && Spreading(p, s, pos, slots, marked, list, stack, ways)
    && OrElse(TryAll(p, s, pos, list), TryStack(p, s, pos, stack, ways)) == wanted
  }

  lemma Start(p: seq<Inst>, s: Input, pos: nat, slots: nat, marked: set<nat>, list: seq<Thread>, t: Thread)
    returns (ways: seq<set<nat>>)
    requires Settled(p, s, pos, slots, marked, list) && ThreadOk(p, slots, t)
    ensures |ways| == 1
    ensures Adding(p, s, pos, slots, marked, list, [t], ways, OrElse(TryAll(p, s, pos, list), Backtrack(p, s, t.pc, pos, t.slots, {})))
  {
    hide Passes, Consumes, Backtrack, TryAll;
    ways := [{}];
    assert TryStack(p, s, pos, [], []) == None;
    assert [t][..0] == [];
    forall w, x | w in marked && Passes(p, s, pos, w, x) ensures x in marked {
      assert !Waiting(x, w, [], []);
    }
  }

  lemma Finished(p: seq<Inst>, s: Input, pos: nat, slots: nat, marked: set<nat>, list: seq<Thread>,
                 stack: seq<Thread>, ways: seq<set<nat>>, wanted: Option<seq<int>>)
    requires stack == [] && Adding(p, s, pos, slots, marked, list, stack, ways, wanted)
    ensures Settled(p, s, pos, slots, marked, list) && TryAll(p, s, pos, list) == wanted
  {
    hide TryAll, Passes, Consumes;
    assert ways == [];
  }

  /** The top of the stack is a thread of the program. */
  lemma TopOk(p: seq<Inst>, s: Input, pos: nat, slots: nat, marked: set<nat>, list: seq<Thread>,
              stack: seq<Thread>, ways: seq<set<nat>>, wanted: Option<seq<int>>)
    requires stack != [] && Adding(p, s, pos, slots, marked, list, stack, ways, wanted)
    ensures ThreadOk(p, slots, stack[|stack| - 1]) && stack[|stack| - 1].pc < |p|
  {
    hide Passes, Consumes, TryAll, TryStack;
  }

  lemma TopSplit(stack: seq<Thread>, ways: seq<set<nat>>)
    requires |stack| == |ways| > 0
    ensures var n := |stack| - 1; stack == stack[..n] + [stack[n]] && ways == ways[..n] + [ways[n]]
  {
  }

  lemma DropMarked(p: seq<Inst>, s: Input, pos: nat, slots: nat, marked: set<nat>, list: seq<Thread>,
                   stack: seq<Thread>, ways: seq<set<nat>>, wanted: Option<seq<int>>)
    requires Closed(p, slots) && |ways| == |stack| > 0 && stack[|stack| - 1].pc in marked
    requires Adding(p, s, pos, slots, marked, list, stack, ways, wanted)
    ensures Adding(p, s, pos, slots, marked, list, stack[..|stack| - 1], ways[..|stack| - 1], wanted)
  {
    hide Closed, Spreading, TryAll, TryStack, OrElse;
    var n := |stack| - 1;
    TopSplit(stack, ways);
    PopMarked(p, s, pos, slots, marked, list, stack[..n], ways[..n], stack[n], ways[n]);
  }

  lemma KeepConsumer(p: seq<Inst>, s: Input, pos: nat, slots: nat, marked: set<nat>, list: seq<Thread>,
                     stack: seq<Thread>, ways: seq<set<nat>>, wanted: Option<seq<int>>)
    requires |ways| == |stack| > 0 && stack[|stack| - 1].pc !in marked && Consumes(p, stack[|stack| - 1].pc)
    requires Adding(p, s, pos, slots, marked, list, stack, ways, wanted)
    ensures var n := |stack| - 1;
      Adding(p, s, pos, slots, marked + {stack[n].pc}, list + [stack[n]], stack[..n], ways[..n], wanted)
  {
    hide Spreading, TryAll, TryStack, OrElse, Consumes;
    var n := |stack| - 1;
    TopSplit(stack, ways);
    PopConsumer(p, s, pos, slots, marked, list, stack[..n], ways[..n], stack[n], ways[n]);
  }

  lemma PassOn(p: seq<Inst>, s: Input, pos: nat, slots: nat, marked: set<nat>, list: seq<Thread>,
               stack: seq<Thread>, ways: seq<set<nat>>, wanted: Option<seq<int>>) returns (more: seq<set<nat>>)
    requires Closed(p, slots) && pos <= |s.codes| && |ways| == |stack| > 0
    requires ThreadOk(p, slots, stack[|stack| - 1]) && stack[|stack| - 1].pc < |p|
    requires stack[|stack| - 1].pc !in marked && !Consumes(p, stack[|stack| - 1].pc)
    requires Adding(p, s, pos, slots, marked, list, stack, ways, wanted)
    ensures var n := |stack| - 1; var next := Successors(p, s, pos, stack[n]);
      && |more| == |next|
      && Adding(p, s, pos, slots, marked + {stack[n].pc}, list, stack[..n] + next, ways[..n] + more, wanted)
  {
    hide Closed, Spreading, TryAll, TryStack, OrElse, Consumes, Successors, ThreadOk, Passes;
    var n := |stack| - 1;
    var t := stack[n];
    var next := Successors(p, s, pos, t);
    more := seq(|next|, _ => ways[n] + {t.pc});
    TopSplit(stack, ways);
    WayMarked(p, s, pos, slots, marked, list, stack, ways);
    SuccessorsOk(p, s, pos, slots, t);
    PopPasser(p, s, pos, slots, marked, list, stack[..n], ways[..n], t, ways[n], next, more);
    SuccessorsTried(p, s, pos, stack[..n], ways[..n], t, ways[n], more);
  }

  lemma WayMarked(p: seq<Inst>, s: Input, pos: nat, slots: nat, marked: set<nat>, list: seq<Thread>,
                  stack: seq<Thread>, ways: seq<set<nat>>)
    requires |ways| == |stack| > 0 && Spreading(p, s, pos, slots, marked, list, stack, ways)
    ensures ways[|stack| - 1] <= marked
  {
    hide Passes, Consumes;
  }

  lemma SlotExists(p: seq<Inst>, slots: nat, t: Thread)
    requires Closed(p, slots) && ThreadOk(p, slots, t) && p[t.pc].Save?
    ensures p[t.pc].slot < |t.slots|
  {
  }
}
