/** The matcher a reader has in mind: try the first way of a split, and the second only when the first
    fails, never standing twice on one instruction without having moved on in the subject. */
module Backtracking {
  import opened Patterns
  import opened Thompson
  import opened Paths

  function OrElse(a: Option<seq<int>>, b: Option<seq<int>>): Option<seq<int>> {
    if a.Some? then a else b
  }

  function Unvisited(p: seq<Inst>, visited: set<nat>): set<nat> {
    set k: nat | k < |p| && k !in visited
  }

  lemma UnvisitedShrinks(p: seq<Inst>, visited: set<nat>, pc: nat)
    requires pc < |p| && pc !in visited
    ensures |Unvisited(p, visited + {pc})| < |Unvisited(p, visited)|
  {
    var a, b := Unvisited(p, visited), Unvisited(p, visited + {pc});
    assert a == b + {pc} && pc !in b;
    assert |a| == |b| + 1;
  }

  /** The captures of the preferred way to the end from here, if there is a way. */
  ghost function Backtrack(p: seq<Inst>, s: Input, pc: nat, pos: nat, slots: seq<int>, visited: set<nat>): Option<seq<int>>
    decreases |s.codes| - pos, |Unvisited(p, visited)|
  {
    if pc >= |p| || pos > |s.codes| || pc in visited then None else
    UnvisitedShrinks(p, visited, pc);
    match p[pc]
    case CharI(chars) =>
      if pos < |s.codes| && Hits(chars, s, pos) then Backtrack(p, s, pc + 1, pos + 1, slots, {}) else None
    case AnyI =>
      if pos < |s.codes| && s.codes[pos] != NEWLINE then Backtrack(p, s, pc + 1, pos + 1, slots, {}) else None
    case Split(x, y) =>
      OrElse(Backtrack(p, s, x, pos, slots, visited + {pc}), Backtrack(p, s, y, pos, slots, visited + {pc}))
    case Jmp(x) => Backtrack(p, s, x, pos, slots, visited + {pc})
    case Save(slot) =>
      if slot < |slots| then Backtrack(p, s, pc + 1, pos, slots[slot := pos], visited + {pc}) else None
    case Assert(atStart) =>
      if pos == (if atStart then 0 else |s.codes|) then Backtrack(p, s, pc + 1, pos, slots, visited + {pc}) else None
    case Match => Some(slots)
  }

  /** The slots say nothing about whether there is a way. */
  lemma {:induction false} SlotsDoNotDecide(p: seq<Inst>, s: Input, pc: nat, pos: nat, a: seq<int>, b: seq<int>, visited: set<nat>)
    requires |a| == |b|
    ensures Backtrack(p, s, pc, pos, a, visited).Some? == Backtrack(p, s, pc, pos, b, visited).Some?
    decreases |s.codes| - pos, |Unvisited(p, visited)|
  {
    hide Hits, Unvisited;
    if !(pc >= |p| || pos > |s.codes| || pc in visited) {
      UnvisitedShrinks(p, visited, pc);
      match p[pc]
      case CharI(chars) => if pos < |s.codes| { SlotsDoNotDecide(p, s, pc + 1, pos + 1, a, b, {}); }
      case AnyI => if pos < |s.codes| { SlotsDoNotDecide(p, s, pc + 1, pos + 1, a, b, {}); }
      case Split(x, y) =>
        SlotsDoNotDecide(p, s, x, pos, a, b, visited + {pc});
        SlotsDoNotDecide(p, s, y, pos, a, b, visited + {pc});
      case Jmp(x) => SlotsDoNotDecide(p, s, x, pos, a, b, visited + {pc});
      case Save(slot) =>
        if slot < |a| { SlotsDoNotDecide(p, s, pc + 1, pos, a[slot := pos], b[slot := pos], visited + {pc}); }
      case Assert(_) => SlotsDoNotDecide(p, s, pc + 1, pos, a, b, visited + {pc});
      case Match =>
    }
  }

  // ---- the matcher finds paths, and a path whenever there is one ----------------------------------------

  lemma {:induction false} BacktrackSound(p: seq<Inst>, s: Input, pc: nat, pos: nat, slots: seq<int>, visited: set<nat>)
    returns (n: nat, b: Config)
    requires Backtrack(p, s, pc, pos, slots, visited).Some?
    ensures Reach(p, s, n, Config(pc, pos, slots), b) && b.pc < |p| && p[b.pc].Match? && b.pos <= |s.codes|
    ensures Backtrack(p, s, pc, pos, slots, visited).value == b.slots
    decreases |s.codes| - pos, |Unvisited(p, visited)|
  {
    hide Hits, Unvisited, Reach;
    UnvisitedShrinks(p, visited, pc);
    var a := Config(pc, pos, slots);
    var next;
    match p[pc] {
      case CharI(_) => next := Config(pc + 1, pos + 1, slots); n, b := BacktrackSound(p, s, pc + 1, pos + 1, slots, {});
      case AnyI => next := Config(pc + 1, pos + 1, slots); n, b := BacktrackSound(p, s, pc + 1, pos + 1, slots, {});
      case Split(x, y) =>
        next := if Backtrack(p, s, x, pos, slots, visited + {pc}).Some? then a.(pc := x) else a.(pc := y);
        n, b := BacktrackSound(p, s, next.pc, pos, slots, visited + {pc});
      case Jmp(x) => next := a.(pc := x); n, b := BacktrackSound(p, s, x, pos, slots, visited + {pc});
      case Save(slot) =>
        next := Config(pc + 1, pos, slots[slot := pos]);
        n, b := BacktrackSound(p, s, pc + 1, pos, next.slots, visited + {pc});
      case Assert(_) => next := a.(pc := pc + 1); n, b := BacktrackSound(p, s, pc + 1, pos, slots, visited + {pc});
      case Match =>
        ReachNone(p, s, a);
        n, b := 0, a;
        return;
    }
    ReachOne(p, s, a, next);
    ReachJoin(p, s, 1, n, a, next, b);
    n := 1 + n;
  }

  /** A path to the end, at position e, that until it moves on in the subject stays off these instructions. */
  ghost predicate Clear(p: seq<Inst>, s: Input, n: nat, a: Config, avoid: set<nat>, e: nat)
    decreases n
  {
    && a.pc < |p| && a.pos <= |s.codes| && a.pc !in avoid
    && if n == 0 then p[a.pc].Match? && a.pos == e else
        exists x :: Steps(p, s, a, x) && Clear(p, s, n - 1, x, if x.pos == a.pos then avoid else {}, e)
  }

  lemma {:induction false} ReachClear(p: seq<Inst>, s: Input, n: nat, a: Config, b: Config)
    requires Reach(p, s, n, a, b) && b.pc < |p| && p[b.pc].Match? && a.pos <= |s.codes|
    ensures Clear(p, s, n, a, {}, b.pos)
    decreases n
  {
    if n > 0 {
      var x :| Steps(p, s, a, x) && Reach(p, s, n - 1, x, b);
      ReachClear(p, s, n - 1, x, b);
    }
  }

  lemma ClearFirst(p: seq<Inst>, s: Input, n: nat, a: Config, avoid: set<nat>, e: nat) returns (x: Config)
    requires n > 0 && Clear(p, s, n, a, avoid, e)
    ensures Steps(p, s, a, x) && |x.slots| == |a.slots| && Clear(p, s, n - 1, x, if x.pos == a.pos then avoid else {}, e)
    ensures a.pc < |p| && a.pos <= |s.codes| && a.pc !in avoid
  {
    hide Hits;
    x :| Steps(p, s, a, x) && Clear(p, s, n - 1, x, if x.pos == a.pos then avoid else {}, e);
  }

  lemma ClearStep(p: seq<Inst>, s: Input, n: nat, a: Config, x: Config, avoid: set<nat>, e: nat)
    requires n > 0 && Steps(p, s, a, x) && a.pc !in avoid && Clear(p, s, n - 1, x, if x.pos == a.pos then avoid else {}, e)
    ensures Clear(p, s, n, a, avoid, e)
  {
    hide Steps;
    assert a.pc < |p| && a.pos <= |s.codes| by { StepsInside(p, s, a, x); }
  }

  lemma ClearMore(p: seq<Inst>, s: Input, n: nat, a: Config, avoid: set<nat>, pc: nat, e: nat)
    requires Clear(p, s, n, a, avoid, e) && (n == 0 || a.pc == pc)
    ensures a.pc == pc || Clear(p, s, n, a, avoid + {pc}, e)
  {
  }

  lemma StepsInside(p: seq<Inst>, s: Input, a: Config, x: Config)
    requires Steps(p, s, a, x)
    ensures a.pc < |p| && a.pos <= |s.codes|
  {
  }

  lemma BacktrackStep(p: seq<Inst>, s: Input, a: Config, x: Config, visited: set<nat>)
    requires Steps(p, s, a, x) && a.pc !in visited
    requires Backtrack(p, s, x.pc, x.pos, x.slots, if x.pos == a.pos then visited + {a.pc} else {}).Some?
    ensures Backtrack(p, s, a.pc, a.pos, a.slots, visited).Some?
  {
    hide Hits, Unvisited;
  }

  /** A path either stays off one more instruction, or stands on it and is shorter from there. */
  lemma {:induction false} StayOff(p: seq<Inst>, s: Input, n: nat, a: Config, avoid: set<nat>, pc: nat, e: nat)
    returns (m: nat, slots: seq<int>)
    requires Clear(p, s, n, a, avoid, e)
    ensures m <= n
    ensures Clear(p, s, n, a, avoid + {pc}, e) || (|slots| == |a.slots| && Clear(p, s, m, Config(pc, a.pos, slots), avoid, e))
    decreases n
  {
    hide Clear, Steps;
    m, slots := n, a.slots;
    if n == 0 || a.pc == pc {
      ClearMore(p, s, n, a, avoid, pc, e);
    } else {
      var x := ClearFirst(p, s, n, a, avoid, e);
      if x.pos == a.pos {
        m, slots := StayOff(p, s, n - 1, x, avoid, pc, e);
        if Clear(p, s, n - 1, x, avoid + {pc}, e) {
          ClearStep(p, s, n, a, x, avoid + {pc}, e);
        }
      } else {
        ClearStep(p, s, n, a, x, avoid + {pc}, e);
      }
    }
  }

  lemma {:induction false} ClearSlots(p: seq<Inst>, s: Input, n: nat, a: Config, slots: seq<int>, avoid: set<nat>, e: nat)
    requires Clear(p, s, n, a, avoid, e) && |slots| == |a.slots|
    ensures Clear(p, s, n, a.(slots := slots), avoid, e)
    decreases n
  {
    hide Hits;
    if n > 0 {
      var x :| Steps(p, s, a, x) && Clear(p, s, n - 1, x, if x.pos == a.pos then avoid else {}, e);
      var y := x.(slots := if p[a.pc].Save? then slots[p[a.pc].slot := a.pos] else slots);
      assert Steps(p, s, a.(slots := slots), y);
      ClearSlots(p, s, n - 1, x, y.slots, if x.pos == a.pos then avoid else {}, e);
    }
  }

  lemma BacktrackAtEnd(p: seq<Inst>, s: Input, a: Config, visited: set<nat>, e: nat)
    requires Clear(p, s, 0, a, visited, e)
    ensures Backtrack(p, s, a.pc, a.pos, a.slots, visited).Some?
  {
    hide Hits, Unvisited;
  }

  /** If there is a path the matcher finds one: loops can be cut out of it. */
  lemma {:induction false} BacktrackComplete(p: seq<Inst>, s: Input, n: nat, a: Config, visited: set<nat>, e: nat)
    requires Clear(p, s, n, a, visited, e)
    ensures Backtrack(p, s, a.pc, a.pos, a.slots, visited).Some?
    decreases n
  {
    hide Backtrack, Clear, Steps;
    if n == 0 {
      BacktrackAtEnd(p, s, a, visited, e);
    } else {
      var x := ClearFirst(p, s, n, a, visited, e);
      if x.pos != a.pos {
        BacktrackComplete(p, s, n - 1, x, {}, e);
        BacktrackStep(p, s, a, x, visited);
      } else {
        var m, slots := StayOff(p, s, n - 1, x, visited, a.pc, e);
        if Clear(p, s, n - 1, x, visited + {a.pc}, e) {
          BacktrackComplete(p, s, n - 1, x, visited + {a.pc}, e);
          BacktrackStep(p, s, a, x, visited);
        } else {
          ClearSlots(p, s, m, Config(a.pc, x.pos, slots), a.slots, visited, e);
          BacktrackComplete(p, s, m, a, visited, e);
        }
      }
    }
  }
}
