/** Why the verifier is sound only on its fragment: six shapes outside it, each with the general reason and a
    function of which every condition is proved although a call of it breaks its promise. */
module Limits {
  import opened Rational
  import opened LinearExpr
  import opened Formulas
  import opened FourierMotzkin
  import opened Programs
  import opened VcGen
  import opened Denotation
  import opened Soundness
  import Dpll

  /** The call starts in the precondition and ends, with a postcondition false. */
  ghost predicate BreaksPromise(fn: Function, args: View, fuel: nat) {
    && args.Keys == (set p | p in fn.params)
    && (forall r :: r in fn.requires_ ==> EvalTest(r, args, None) == Some(true))
    && Call(fn, map[], args, fuel).Some?
    && exists e :: e in fn.ensures_ && EvalTest(e, Call(fn, map[], args, fuel).value, Some(args)) == Some(false)
  }

  /** Every condition recorded is judged proved, and no path was cut. */
  ghost predicate Passed(log: Log, maxAtoms: nat, budget: nat) {
    !log.tooMany && forall c :: c in log.conditions ==> Judge(c.formula, maxAtoms, budget) == Yes
  }

  lemma PassedProves(fn: Function, maxAtoms: nat, budget: nat)
    requires Passed(Conditions(fn), maxAtoms, budget)
    ensures Proved(fn, maxAtoms, budget)
  {
    hide Conditions, Judge;
  }

  lemma RecordPassed(log: Log, kind: Kind, f: Formula, unknowns: set<string>, maxAtoms: nat, budget: nat)
    requires Passed(log, maxAtoms, budget) && Judge(f, maxAtoms, budget) == Yes
    ensures Passed(Record(log, kind, f, unknowns), maxAtoms, budget)
  {
    hide Judge;
  }

  // ---- what is judged proved -----------------------------------------------------------------------------

  lemma SubsetCount<T>(a: set<T>, b: set<T>)
    requires a <= b
    ensures |a| <= |b|
  {
    assert b == a + (b - a);
  }

  /** A formula over a few names that holds in every model is proved. */
  lemma JudgedProved(f: Formula, names: set<string>, n: nat, maxAtoms: nat, budget: nat)
    requires (forall m :: Models(f, m)) && Over(f, iset v | v in names) && (forall v :: v in names ==> Plain(v))
    requires |Dpll.AtomsIn(f)| <= n <= 6 && n <= maxAtoms && Room(3 * n, |names|) <= budget
    ensures Judge(f, maxAtoms, budget) == Yes
  {
    hide Models, Over, Room, Dpll.AtomsIn, Plain, Dpll.IsValid, Dpll.Unambiguous, Dpll.VarsIn;
    assert Dpll.PlainFormula(f) by { OverMonotone(f, (iset v | v in names), Dpll.PlainSet()); }
    Dpll.PlainUnambiguous(f);
    Dpll.OverAtoms(f, names);
    SubsetCount(Dpll.VarsIn(Dpll.AtomsIn(f)), names);
    RoomGrows(3 * |Dpll.AtomsIn(f)|, |Dpll.VarsIn(Dpll.AtomsIn(f))|, 3 * n, |names|);
    Dpll.IsValidDecides(f, maxAtoms, budget);
  }

  lemma TrueJudged(maxAtoms: nat, budget: nat)
    ensures Judge(True, maxAtoms, budget) == Yes
  {
    JudgedProved(True, {}, 0, maxAtoms, budget);
  }

  lemma ImpliesTrue(a: Formula)
    ensures Implies(a, True) == True && Implies(False, a) == True
  {
    hide FlattenOr;
    var one, two := [Negated(a), True], [Negated(False), a];
    FlattenedHas(one, 1);
    FlattenedHas(two, 0);
  }

  lemma {:induction false} FlattenedHas(parts: seq<Formula>, i: nat)
    requires i < |parts| && parts[i].True?
    ensures True in FlattenOr(parts)
  {
    if i > 0 {
      FlattenedHas(parts[1..], i - 1);
    }
  }

  lemma {:induction false} ConjFalse(parts: seq<Formula>)
    requires False in parts
    ensures False in FlattenAnd(parts) && Conj(parts) == False
  {
    if parts[0] != False {
      ConjFalse(parts[1..]);
    }
  }

  lemma Cons(f: Formula, rest: seq<Formula>)
    ensures FlattenAnd([f] + rest) == (if f.And? then f.parts else [f]) + FlattenAnd(rest)
    ensures FlattenOr([f] + rest) == (if f.Or? then f.parts else [f]) + FlattenOr(rest)
    ensures DropTrue([f] + rest) == (if f.True? then [] else [f]) + DropTrue(rest)
    ensures DropFalse([f] + rest) == (if f.False? then [] else [f]) + DropFalse(rest)
  {
    assert ([f] + rest)[1..] == rest;
  }

  predicate Simple(f: Formula) {
    f.Atom? || f.Not?
  }

  lemma OneKept(f: Formula)
    ensures !f.And? ==> FlattenAnd([f]) == [f]
    ensures !f.Or? ==> FlattenOr([f]) == [f]
    ensures DropTrue([f]) == if f.True? then [] else [f]
    ensures DropFalse([f]) == if f.False? then [] else [f]
  {
    Cons(f, []);
    assert [f] + [] == [f];
  }

  lemma NothingToConj()
    ensures Conj([]) == True && Conj([True]) == True && Conj([True, True]) == True
  {
    OneKept(True);
    Cons(True, [True]);
    assert [True] + [True] == [True, True];
  }

  lemma ConjOne(f: Formula)
    requires Simple(f)
    ensures Conj([f]) == f && Conj([True, f]) == f && Conj([True, True, f]) == f
  {
    hide FlattenAnd, DropTrue;
    OneKept(f);
    Cons(True, [f]);
    Cons(True, [True, f]);
    assert [True] + [f] == [True, f] && [True] + [True, f] == [True, True, f];
  }

  lemma DisjOne(f: Formula)
    requires Simple(f)
    ensures Disj([False, f]) == f && Implies(True, f) == f
  {
    hide FlattenOr, DropFalse;
    OneKept(f);
    Cons(False, [f]);
    assert [False] + [f] == [False, f];
  }

  lemma NothingFlat()
    ensures FlattenAnd([]) == []
  {
  }

  lemma ConjTwo(a: Formula, b: Formula)
    requires Simple(a) && Simple(b)
    ensures Conj([a, b]) == And([a, b]) && Conj([True, a, b]) == And([a, b]) && Conj([True, And([a, b])]) == And([a, b])
  {
    hide FlattenAnd, DropTrue;
    OneKept(b);
    OneKept(And([a, b]));
    Cons(a, [b]);
    Cons(True, [a, b]);
    Cons(True, [And([a, b])]);
    Cons(And([a, b]), []);
    assert [a] + [b] == [a, b] && [True] + [a, b] == [True, a, b] && [True] + [And([a, b])] == [True, And([a, b])];
    assert [And([a, b])] + [] == [And([a, b])] && FlattenAnd([]) == [] && [a, b] + [] == [a, b] by { NothingFlat(); }
  }

  lemma DisjTwo(a: Formula, b: Formula)
    requires Simple(a) && Simple(b)
    ensures Disj([a, b]) == Or([a, b])
  {
    hide FlattenOr, DropFalse;
    OneKept(b);
    Cons(a, [b]);
    assert [a] + [b] == [a, b];
  }

  // ---- a loop whose test reads as true ----------------------------------------------------------------

  /** No model satisfies the path: it has come to `false`. */
  ghost predicate Unreachable(state: State) {
    state.path == False
  }

  /** An annotated `for` has no test, so the verifier reads `true`; leaving the loop then assumes `not true`,
      and everything after it is proved of no state at all. */
  lemma AfterForUnreachable(stmt: Stmt, state: State, log: Log)
    requires stmt.ForRange? && (stmt.invariants != [] || stmt.variant.Some?)
    ensures forall s :: s in Step(stmt, state, log).states ==> Unreachable(s)
  {
    hide Run, AllOf, EnterLoop, LoopTopLog, LoopConditions, LoopTop, LeaveLoop, Unreachable;
    var log1 := EnterLoop(stmt.invariants, state, log);
    var top := Forget(state.env, '$', log1.counter);
    var log2 := LoopTopLog(BoolLit(true), stmt.invariants, stmt.variant, top, log1);
    var pass := Run(stmt.body, LoopTop(BoolLit(true), stmt.invariants, top, state.pre), log2);
    LeaveTrue(stmt.invariants, state, LoopConditions(pass.states, BoolLit(true), stmt.invariants, stmt.variant, top, pass.log));
  }

  lemma LeaveTrue(invs: seq<Expr>, state: State, log: Log)
    ensures var o := LeaveLoop(BoolLit(true), invs, state, log); |o.states| == 1 && Unreachable(o.states[0])
  {
    hide AllOf, Conj;
    var after := Forget(state.env, '$', log.counter);
    ConjFalse([state.path, AllOf(invs, after).f, False]);
  }

  /** `while true` is left only by `break`, and `break` is not modelled: the same thing happens. */
  lemma AfterWhileTrueUnreachable(stmt: Stmt, state: State, log: Log)
    requires stmt.While? && stmt.test == BoolLit(true) && (stmt.invariants != [] || stmt.variant.Some?)
    ensures forall s :: s in Step(stmt, state, log).states ==> Unreachable(s)
  {
    hide Run, AllOf, EnterLoop, LoopTopLog, LoopConditions, LoopTop, LeaveLoop, Unreachable;
    var log1 := EnterLoop(stmt.invariants, state, log);
    var top := Forget(state.env, '$', log1.counter);
    var log2 := LoopTopLog(BoolLit(true), stmt.invariants, stmt.variant, top, log1);
    var pass := Run(stmt.body, LoopTop(BoolLit(true), stmt.invariants, top, state.pre), log2);
    LeaveTrue(stmt.invariants, state, LoopConditions(pass.states, BoolLit(true), stmt.invariants, stmt.variant, top, pass.log));
  }

  lemma {:induction false} PostPassed(ends: seq<State>, ensures_: seq<Expr>, pre: Formula, log: Log, maxAtoms: nat, budget: nat)
    requires Passed(log, maxAtoms, budget)
    requires forall e :: e in ends ==> Judge(Implies(Conj([pre, e.path]), AllOf(ensures_, e.env).f), maxAtoms, budget) == Yes
    ensures Passed(Postconditions(ends, ensures_, pre, log), maxAtoms, budget)
  {
    hide AllOf, Implies, Conj, Passed, Judge;
    if ends != [] {
      var e := ends[0];
      assert e in ends;
      var post := AllOf(ensures_, e.env);
      var f := Implies(Conj([pre, e.path]), post.f);
      RecordPassed(log, Postcondition, f, post.unknowns, maxAtoms, budget);
      PostPassed(ends[1..], ensures_, pre, Record(log, Postcondition, f, post.unknowns), maxAtoms, budget);
    }
  }

  /** A postcondition is proved at every end that cannot be reached, whatever it says. */
  lemma UnreachableProved(ends: seq<State>, ensures_: seq<Expr>, pre: Formula, log: Log, maxAtoms: nat, budget: nat)
    requires Passed(log, maxAtoms, budget) && forall s :: s in ends ==> Unreachable(s)
    ensures Passed(Postconditions(ends, ensures_, pre, log), maxAtoms, budget)
  {
    hide AllOf, Implies, Conj, Passed, Judge, Postconditions;
    ConjFalse([pre, False]);
    TrueJudged(maxAtoms, budget);
    forall e | e in ends ensures Judge(Implies(Conj([pre, e.path]), AllOf(ensures_, e.env).f), maxAtoms, budget) == Yes {
      ImpliesTrue(AllOf(ensures_, e.env).f);
    }
    PostPassed(ends, ensures_, pre, log, maxAtoms, budget);
  }

  /** Walking one statement from one state. */
  lemma StepThen(stmts: seq<Stmt>, state: State, log: Log)
    requires stmts != [] && !state.returned && |Step(stmts[0], state, log).states| <= MAX_PATHS
    ensures RunFrom(stmts, [state], log) == RunFrom(stmts[1..], Step(stmts[0], state, log).states, Step(stmts[0], state, log).log)
  {
    hide Step;
    var o := Step(stmts[0], state, log);
    assert [state][1..] == [];
    assert StepAll(stmts[0], [state], log) == Out(o.states + [], o.log);
    assert o.states + [] == o.states;
  }

  lemma NothingLeft(states: seq<State>, log: Log)
    ensures RunFrom([], states, log) == Out(states, log)
  {
  }

  lemma OneStep(stmt: Stmt, state: State, log: Log)
    requires !state.returned && |Step(stmt, state, log).states| <= MAX_PATHS
    ensures Run([stmt], state, log) == Step(stmt, state, log)
  {
    hide Step;
    StepThen([stmt], state, log);
    NothingLeft(Step(stmt, state, log).states, Step(stmt, state, log).log);
    assert [stmt][1..] == [];
  }

  /** The conditions of a loop whose body ends in one way: the invariant on entry, those of the body, and
      the invariant restored. */
  lemma LoopPassed(loop: Stmt, test: Expr, invs: seq<Expr>, state: State, log: Log, maxAtoms: nat, budget: nat)
    requires (loop.While? && loop.test == test) || (loop.ForRange? && test == BoolLit(true))
    requires loop.invariants == invs != [] && loop.variant.None? && Passed(log, maxAtoms, budget)
    requires Judge(Implies(Conj([state.pre, state.path]), AllOf(invs, state.env).f), maxAtoms, budget) == Yes
    requires var log1 := EnterLoop(invs, state, log); var top := Forget(state.env, '$', log.counter);
      var o := Run(loop.body, LoopTop(test, invs, top, state.pre), LoopTopLog(test, invs, None, top, log1));
      && |o.states| == 1 && o.log.conditions == log1.conditions && !o.log.tooMany
      && Judge(Implies(o.states[0].path, AllOf(invs, o.states[0].env).f), maxAtoms, budget) == Yes
    ensures var o := Step(loop, state, log);
      && Passed(o.log, maxAtoms, budget) && |o.states| == 1
      && exists k :: o.states[0] == AfterLoop(test, invs, state, k)
  {
    hide AllOf, Implies, Judge, Forget, Run, ToFormula, Conj, Passed, LoopTop;
    var log1 := EnterLoop(invs, state, log);
    var top := Forget(state.env, '$', log.counter);
    var o := Run(loop.body, LoopTop(test, invs, top, state.pre), LoopTopLog(test, invs, None, top, log1));
    RecordPassed(log, LoopEstablished, Implies(Conj([state.pre, state.path]), AllOf(invs, state.env).f),
                 AllOf(invs, state.env).unknowns, maxAtoms, budget);
    SameConditionsPassed(log1, o.log, maxAtoms, budget);
    var end := o.states[0];
    var log2 := Record(o.log, LoopPreserved, Implies(end.path, AllOf(invs, end.env).f), AllOf(invs, end.env).unknowns);
    RecordPassed(o.log, LoopPreserved, Implies(end.path, AllOf(invs, end.env).f), AllOf(invs, end.env).unknowns, maxAtoms, budget);
    assert PassConditions([], invs, None, Constant(Zero()), log2) == log2;
    assert o.states == [end] && [end][1..] == [];
    assert LoopConditions(o.states, test, invs, None, top, o.log) == log2;
    var last := LeaveLoop(test, invs, state, log2);
    SameConditionsPassed(log2, last.log, maxAtoms, budget);
    assert last.states[0] == AfterLoop(test, invs, state, log2.counter);
  }

  function AfterLoop(test: Expr, invs: seq<Expr>, state: State, k: nat): State {
    var after := Forget(state.env, '$', k);
    state.(env := after, path := Conj([state.path, AllOf(invs, after).f, Negated(ToFormula(test, after).f)]))
  }

  lemma SameConditionsPassed(a: Log, b: Log, maxAtoms: nat, budget: nat)
    requires Passed(a, maxAtoms, budget) && b.conditions == a.conditions && !b.tooMany
    ensures Passed(b, maxAtoms, budget)
  {
    hide Judge;
  }

  const NUM0 := Num(Ratio(0, 1), "0")
  const NUM1 := Num(Ratio(1, 1), "1")
  const ALWAYS := BoolLit(true)
  const EMPTY_LOOP := ForRange("i", NUM0, [ALWAYS], None, [])
  const ENDLESS := While(ALWAYS, [ALWAYS], None, [Break])

  lemma UnitValues()
    ensures Val(Ratio(1, 1)) == 1.0 && Val(Ratio(0, 1)) == 0.0
  {
  }

  lemma AlwaysClause(env: Env)
    ensures AllOf([ALWAYS], env) == Form(True, {})
  {
    var es := [ALWAYS];
    assert es[1..] == [] && ToFormulas([], env) == Forms([], {});
    assert ToFormulas(es, env).fs == [True] && ToFormulas(es, env).unknowns == {};
    NothingToConj();
  }

  lemma BreakForgets(start: State, log: Log)
    requires !start.returned && !log.tooMany
    ensures var o := Run([Break], start, log);
      && o.states == [start.(env := Forget(start.env, '?', log.counter))]
      && o.log.conditions == log.conditions && !o.log.tooMany
  {
    hide Forget;
    OneStep(Break, start, log);
  }

  lemma TrivialLoop(loop: Stmt, state: State, log: Log, maxAtoms: nat, budget: nat)
    requires (loop == EMPTY_LOOP || loop == ENDLESS) && Passed(log, maxAtoms, budget)
    ensures Passed(Step(loop, state, log).log, maxAtoms, budget) && |Step(loop, state, log).states| == 1
    ensures forall s :: s in Step(loop, state, log).states ==> Unreachable(s)
  {
    hide AllOf, Implies, Forget, Run, LoopTopLog, EnterLoop, Conj, Judge;
    if loop == EMPTY_LOOP { AfterForUnreachable(loop, state, log); } else { AfterWhileTrueUnreachable(loop, state, log); }
    var log1, top := EnterLoop([ALWAYS], state, log), Forget(state.env, '$', log.counter);
    var start, log2 := LoopTop(ALWAYS, [ALWAYS], top, state.pre), LoopTopLog(ALWAYS, [ALWAYS], None, top, log1);
    assert log2.conditions == log1.conditions && !start.returned by { TopSame([ALWAYS], ALWAYS, top, log1, state.pre); }
    AlwaysClause(state.env);
    ImpliesTrue(Conj([state.pre, state.path]));
    TrueJudged(maxAtoms, budget);
    if loop == ENDLESS { BreakForgets(start, log2); } else { EmptyBody(start, log2); }
    var end := Run(loop.body, start, log2).states[0];
    AlwaysClause(end.env);
    ImpliesTrue(end.path);
    LoopPassed(loop, ALWAYS, [ALWAYS], state, log, maxAtoms, budget);
  }

  lemma TopSame(invs: seq<Expr>, test: Expr, top: Env, log: Log, pre: Formula)
    ensures LoopTopLog(test, invs, None, top, log).conditions == log.conditions
    ensures !LoopTop(test, invs, top, pre).returned && LoopTop(test, invs, top, pre).env == top
    ensures LoopTop(test, invs, top, pre).path == Conj([AllOf(invs, top).f, ToFormula(test, top).f])
  {
    hide AllOf, ToFormula;
  }

  lemma EmptyBody(start: State, log: Log)
    ensures Run([], start, log) == Out([start], log)
  {
  }

  /** A function without parameters or preconditions starts here. */
  lemma StartOf(fn: Function)
    requires fn.params == [] && fn.requires_ == [] && OldArgsOf(fn.ensures_) == []
    ensures EntryState(fn) == State(map[], True, True, false) && EntryLog(fn) == Log([], {}, 0, false)
  {
    NothingToConj();
    assert ToFormulas([], map[]) == Forms([], {});
    assert SeedParams([]) == map[];
  }

  ghost function Promise(loop: Stmt): Function {
    Function([], [], [BoolLit(false)], [loop])
  }

  /** `ensures false` is proved of a function that loops over an empty range, or breaks out of its loop,
      and ends. */
  lemma LoopProvesFalse(loop: Stmt, maxAtoms: nat, budget: nat)
    requires loop == EMPTY_LOOP || loop == ENDLESS
    ensures Proved(Promise(loop), maxAtoms, budget) && BreaksPromise(Promise(loop), map[], 2)
  {
    hide Step, AllOf, Run, Judge, Postconditions;
    var fn := Promise(loop);
    assert OldArgsOf([BoolLit(false)]) == [] by { assert [BoolLit(false)][1..] == []; }
    StartOf(fn);
    ConditionsSplit(fn);
    TrivialLoop(loop, EntryState(fn), EntryLog(fn), maxAtoms, budget);
    var o := Step(loop, EntryState(fn), EntryLog(fn));
    OneStep(loop, EntryState(fn), EntryLog(fn));
    UnreachableProved(o.states, [BoolLit(false)], True, o.log, maxAtoms, budget);
    PassedProves(fn, maxAtoms, budget);
    LoopRuns(loop);
  }

  lemma LoopRuns(loop: Stmt)
    requires loop == EMPTY_LOOP || loop == ENDLESS
    ensures BreaksPromise(Promise(loop), map[], 2)
  {
    var st: Store := [map[], map[]];
    assert Visible(st) == map[] by { TwoScopes(map[], map[]); }
    assert ExecSeq([], st, 2) == Normal(st);
    if loop == ENDLESS {
      PushVisible(st);
      assert ExecSeq([Break], Push(st), 1) == Broke(Push(st));
      assert ExecBlock([Break], st, 1) == Broke(st);
      assert ExecWhile(loop, st, 2) == Normal(st);
    } else {
      assert ExecFor(loop, 0.0, 0.0, st, 2) == Normal(st);
      assert ExecStmt(loop, st, 2) == Normal(st) by { UnitValues(); }
    }
    assert [loop][1..] == [];
    assert ExecSeq([loop], st, 2) == Normal(st);
    assert FinalView(st, None) == map[];
    assert BoolLit(false) in Promise(loop).ensures_;
  }

  // ---- small formulas ------------------------------------------------------------------------------------

  lemma PairAtoms(a: Formula, b: Formula)
    ensures Dpll.AtomsIn(Or([a, b])) == Dpll.AtomsIn(a) + Dpll.AtomsIn(b) == Dpll.AtomsIn(And([a, b]))
  {
    var two := [a, b];
    assert two[1..] == [b] && [b][1..] == [];
    assert Dpll.AtomsInAll([b]) == Dpll.AtomsIn(b) + {};
  }

  lemma OneClause(e: Expr, env: Env)
    requires Simple(ToFormula(e, env).f)
    ensures AllOf([e], env).f == ToFormula(e, env).f
  {
    hide ToFormula;
    var es := [e];
    assert es[1..] == [] && ToFormulas([], env) == Forms([], {});
    assert ToFormulas(es, env).fs == [ToFormula(e, env).f];
    ConjOne(ToFormula(e, env).f);
  }

  const C0 := Constant(Ratio(0, 1))
  const C1 := Constant(Ratio(1, 1))
  const ZERO_IS_ZERO := Atom(Eq, LinearExpr.Minus(C0, C0))

  lemma MinusMentions(a: Linear, b: Linear, names: iset<string>)
    requires Mentions(a, names) && Mentions(b, names)
    ensures Mentions(LinearExpr.Minus(a, b), names)
  {
    OperationsMention(a, b, One(), names);
  }

  lemma ZeroHolds(names: set<string>)
    ensures forall m :: Models(ZERO_IS_ZERO, m)
    ensures Over(ZERO_IS_ZERO, iset v | v in names)
  {
    hide Eval, LinearExpr.Minus, Mentions;
    forall m: Interp ensures Models(ZERO_IS_ZERO, m) { MinusEval(C0, C0, m.num); }
    ConstantMentions(Ratio(0, 1), iset v | v in names);
    MinusMentions(C0, C0, iset v | v in names);
  }

  lemma ConstantMentions(r: Rat, names: iset<string>)
    ensures Mentions(Constant(r), names)
  {
  }

  lemma ZeroJudged(maxAtoms: nat, budget: nat)
    requires maxAtoms >= 1
    ensures Judge(ZERO_IS_ZERO, maxAtoms, budget) == Yes
  {
    hide LinearExpr.Minus, Models, Judge, Over;
    ZeroHolds({});
    assert Dpll.AtomsIn(ZERO_IS_ZERO) == {ZERO_IS_ZERO};
    JudgedProved(ZERO_IS_ZERO, {}, 1, maxAtoms, budget);
  }

  const RESULT_ZERO := Bin(Equals, Ident("result"), NUM0)

  lemma ResultZeroIs(env: Env)
    requires "result" in env
    ensures AllOf([RESULT_ZERO], env).f == Atom(Eq, LinearExpr.Minus(env["result"], C0))
  {
    hide LinearExpr.Minus;
    OneClause(RESULT_ZERO, env);
  }

  lemma NoOlds(e: Expr)
    requires OldArgs(e) == []
    ensures OldArgsOf([e]) == []
  {
    assert [e][1..] == [];
  }

  // ---- else if --------------------------------------------------------------------------------------------

  /** What follows `else` is walked only when it is a block: an `else if` contributes nothing. */
  lemma ElseIfIgnored(test: Expr, thn: seq<Stmt>, alt: Stmt, state: State, log: Log)
    requires !alt.Block?
    ensures Step(If(test, thn, Some(alt)), state, log) == Step(If(test, thn, None), state, log)
  {
    hide Run, ToFormula;
  }

  const RETURN_ONE := Return(Some(NUM1))
  const RETURN_ZERO := Return(Some(NUM0))
  const ELSE_IF := If(BoolLit(false), [], Some(If(ALWAYS, [RETURN_ONE], None)))
  const ELSE_IF_FN := Function([], [], [RESULT_ZERO], [ELSE_IF, RETURN_ZERO])

  lemma ElseIfConditions(maxAtoms: nat, budget: nat)
    requires maxAtoms >= 1
    ensures Passed(Conditions(ELSE_IF_FN), maxAtoms, budget)
  {
    hide Judge, Postconditions, AllOf, RunFrom, StepAll, Implies, Step, Conj, LinearExpr.Minus;
    var fn := ELSE_IF_FN;
    NoOlds(RESULT_ZERO);
    StartOf(fn);
    ConditionsSplit(fn);
    var s0, log := EntryState(fn), EntryLog(fn);
    ElseIfStep(s0, log);
    StepThen(fn.body, s0, log);
    var a, b := Fork(s0, False), Fork(s0, True);
    BothReturn(a, b, log);
    var ends := [Ended(a), Ended(b)];
    assert fn.body[1..] == [RETURN_ZERO];
    assert Run(fn.body, s0, log) == Out(ends, log);
    var env := map["result" := C0];
    ResultZeroIs(env);
    ConjOne(ZERO_IS_ZERO);
    DisjOne(ZERO_IS_ZERO);
    NothingToConj();
    ConjFalse([True, False]);
    ImpliesTrue(ZERO_IS_ZERO);
    TrueJudged(maxAtoms, budget);
    ZeroJudged(maxAtoms, budget);
    PostPassed(ends, [RESULT_ZERO], True, log, maxAtoms, budget);
  }

  function Ended(s: State): State {
    s.(env := s.env["result" := C0], returned := true)
  }

  lemma ElseIfStep(s: State, log: Log)
    requires !s.returned
    ensures Step(ELSE_IF, s, log) == Out([Fork(s, False), Fork(s, True)], log)
  {
    EmptyBody(Fork(s, False), log);
  }

  lemma BothReturn(a: State, b: State, log: Log)
    requires !a.returned && !b.returned
    ensures RunFrom([RETURN_ZERO], [a, b], log) == Out([Ended(a), Ended(b)], log)
  {
    var stmt := RETURN_ZERO;
    assert Step(stmt, a, log) == Out([Ended(a)], log) && Step(stmt, b, log) == Out([Ended(b)], log);
    assert [a, b][1..] == [b] && [b][1..] == [];
    assert StepAll(stmt, [], log) == Out([], log);
    assert StepAll(stmt, [b], log) == Out([Ended(b)] + [], log);
    assert StepAll(stmt, [a, b], log) == Out([Ended(a)] + [Ended(b)], log);
    NothingLeft([Ended(a), Ended(b)], log);
    assert [stmt][1..] == [];
  }

  /** `result == 0` is proved of a function that returns 1 from its `else if`. */
  lemma ElseIfProvesFalse(maxAtoms: nat, budget: nat)
    requires maxAtoms >= 1
    ensures Proved(ELSE_IF_FN, maxAtoms, budget) && BreaksPromise(ELSE_IF_FN, map[], 0)
  {
    hide Conditions, Passed;
    ElseIfConditions(maxAtoms, budget);
    PassedProves(ELSE_IF_FN, maxAtoms, budget);
    ElseIfRuns();
  }

  lemma ElseIfRuns()
    ensures BreaksPromise(ELSE_IF_FN, map[], 0)
  {
    var st: Store := [map[], map[]];
    assert Visible(st) == map[] by { TwoScopes(map[], map[]); }
    UnitValues();
    PushVisible(st);
    ReturnsAlone(RETURN_ONE, Push(st), Some(1.0));
    assert ExecStmt(ELSE_IF.alt.value, st, 0) == Returned(st, Some(1.0));
    assert ExecSeq([ELSE_IF, RETURN_ZERO], st, 0) == Returned(st, Some(1.0));
    ReturnsNonzero(ELSE_IF_FN, map[], 0, st, 1.0);
  }

  lemma ReturnsAlone(stmt: Stmt, st: Store, v: Option<real>)
    requires ExecStmt(stmt, st, 0) == Returned(st, v)
    ensures ExecSeq([stmt], st, 0) == Returned(st, v)
  {
    hide ExecStmt;
  }

  /** A call that returns anything but zero breaks `ensures result == 0`. */
  lemma ReturnsNonzero(fn: Function, args: View, fuel: nat, st: Store, v: real)
    requires fn.requires_ == [] && fn.ensures_ == [RESULT_ZERO] && args.Keys == (set p | p in fn.params)
    requires ExecSeq(fn.body, [map[], args], fuel) == Returned(st, Some(v)) && v != 0.0
    ensures BreaksPromise(fn, args, fuel)
  {
    hide ExecSeq, Visible;
    UnitValues();
    assert RESULT_ZERO in fn.ensures_;
  }

  // ---- unknowns that ignore the state ----------------------------------------------------------------------

  /** The unknown that stands for a product is named by its text alone, so the product before an assignment
      and the product after it are one unknown: their difference is zero in the verifier's eyes. */
  lemma UnknownsIgnoreState(e: Expr, before: Env, after: Env, s: Valuation)
    requires e.Bin? && e.op.Times?
    requires !IsConstant(ToLinear(e.left, before).l) && !IsConstant(ToLinear(e.right, before).l)
    requires !IsConstant(ToLinear(e.left, after).l) && !IsConstant(ToLinear(e.right, after).l)
    ensures Eval(LinearExpr.Minus(ToLinear(e, before).l, ToLinear(e, after).l), s) == 0.0
    ensures ToLinear(e, before).unknowns != {} && ToLinear(e, after).unknowns != {}
  {
    hide Eval, LinearExpr.Minus, SyntaxKey;
    MinusEval(ToLinear(e, before).l, ToLinear(e, after).l, s);
    assert SyntaxKey(e) in ToLinear(e, before).unknowns;
    assert SyntaxKey(e) in ToLinear(e, after).unknowns;
  }

  const X := Ident("x")
  const SQUARE := Bin(Times, X, X)
  const NEXT_X := Bin(BinOp.Plus, X, NUM1)
  const GROWTH := Bin(BinOp.Minus, SQUARE, Ident("a"))
  /** `a = x * x; x = x + 1; return x * x - a`. */
  const SQUARES_FN := Function(["x"], [], [RESULT_ZERO], [Declare("a", SQUARE), Assign("x", NEXT_X), Return(Some(GROWTH))])

  function Unseen(): Linear {
    Unmodelled(SQUARE).l
  }

  const BEFORE: Env := map["x" := Variable("x")]
  const AFTER: Env := map["x" := LinearExpr.Plus(Variable("x"), C1), "a" := Unseen()]

  lemma SquareTerms()
    ensures ToLinear(SQUARE, BEFORE).l == Unseen() && ToLinear(SQUARE, AFTER).l == Unseen()
    ensures ToLinear(GROWTH, AFTER).l == LinearExpr.Minus(Unseen(), Unseen())
  {
    hide SyntaxKey, LinearExpr.Minus;
    assert !IsConstant(LinearExpr.Plus(Variable("x"), C1)) by { NextNotConstant(); }
    assert !IsConstant(Variable("x"));
  }

  lemma NextNotConstant()
    ensures !IsConstant(LinearExpr.Plus(Variable("x"), C1))
  {
  }

  lemma SquaresRun(s: State, log: Log)
    requires s == State(BEFORE, True, True, false)
    ensures var o := Run(SQUARES_FN.body, s, log);
      && o.states == [State(AFTER["result" := LinearExpr.Minus(Unseen(), Unseen())], True, True, true)]
      && o.log.conditions == log.conditions && o.log.tooMany == log.tooMany
  {
    hide ToLinear, RunFrom, LinearExpr.Minus, LinearExpr.Plus, Unmodelled;
    SquareTerms();
    NextTerm();
    var body := SQUARES_FN.body;
    StepThen(body, s, log);
    var s1 := s.(env := BEFORE["a" := Unseen()]);
    var log1 := Seen(log, ToLinear(SQUARE, BEFORE).unknowns);
    StepThen(body[1..], s1, log1);
    var s2 := s1.(env := AFTER);
    assert s1.env["x" := LinearExpr.Plus(Variable("x"), C1)] == AFTER;
    var log2 := Seen(log1, ToLinear(NEXT_X, s1.env).unknowns);
    StepThen(body[2..], s2, log2);
    assert body[1..][0] == body[1] && body[2..][0] == body[2] && body[1..][1..] == body[2..] && body[2..][1..] == [];
    NothingLeft([State(AFTER["result" := LinearExpr.Minus(Unseen(), Unseen())], True, True, true)],
                Seen(log2, ToLinear(GROWTH, AFTER).unknowns));
  }

  lemma NextTerm()
    ensures ToLinear(NEXT_X, BEFORE["a" := Unseen()]).l == LinearExpr.Plus(Variable("x"), C1)
  {
    hide LinearExpr.Plus, Unmodelled;
  }

  /** A difference of one symbol from itself is zero, and judged so. */
  lemma SelfDifferenceJudged(v: string, maxAtoms: nat, budget: nat)
    requires Plain(v) && maxAtoms >= 1 && budget >= 5
    ensures var d := LinearExpr.Minus(Variable(v), Variable(v));
      Judge(Atom(Eq, LinearExpr.Minus(d, C0)), maxAtoms, budget) == Yes
  {
    hide LinearExpr.Minus, Judge, Eval, Mentions, Plain;
    var d := LinearExpr.Minus(Variable(v), Variable(v));
    var f := Atom(Eq, LinearExpr.Minus(d, C0));
    forall m: Interp ensures Models(f, m) {
      MinusEval(Variable(v), Variable(v), m.num);
      MinusEval(d, C0, m.num);
      ConstantEval(Ratio(0, 1), m.num);
      UnitValues();
    }
    var names := {v};
    VariableIn(v, iset x | x in names);
    ConstantMentions(Ratio(0, 1), iset x | x in names);
    MinusMentions(Variable(v), Variable(v), iset x | x in names);
    MinusMentions(d, C0, iset x | x in names);
    assert Dpll.AtomsIn(f) == {f};
    hide Models;
    JudgedProved(f, names, 1, maxAtoms, budget);
  }

  lemma VariableIn(v: string, names: iset<string>)
    requires v in names
    ensures Mentions(Variable(v), names)
  {
  }

  lemma SquareKeyPlain()
    ensures Plain("?" + SyntaxKey(SQUARE))
  {
    assert SyntaxKey(SQUARE) == "(x*x)";
  }

  lemma SquaresConditions(maxAtoms: nat, budget: nat)
    requires maxAtoms >= 1 && budget >= 5
    ensures Passed(Conditions(SQUARES_FN), maxAtoms, budget)
  {
    hide Judge, Postconditions, AllOf, Run, Implies, Conj, LinearExpr.Minus, SyntaxKey, Plain;
    var fn := SQUARES_FN;
    NoOlds(RESULT_ZERO);
    ConditionsSplit(fn);
    SquaresStart();
    SquaresRun(EntryState(fn), EntryLog(fn));
    var o := Run(fn.body, EntryState(fn), EntryLog(fn));
    var d := LinearExpr.Minus(Unseen(), Unseen());
    ResultZeroIs(o.states[0].env);
    SquareKeyPlain();
    SelfDifferenceJudged("?" + SyntaxKey(SQUARE), maxAtoms, budget);
    NothingToConj();
    DisjOne(Atom(Eq, LinearExpr.Minus(d, C0)));
    PostPassed(o.states, [RESULT_ZERO], True, o.log, maxAtoms, budget);
  }

  lemma SquaresStart()
    ensures EntryState(SQUARES_FN) == State(BEFORE, True, True, false)
    ensures EntryLog(SQUARES_FN).conditions == [] && !EntryLog(SQUARES_FN).tooMany
  {
    NothingToConj();
    NoOlds(RESULT_ZERO);
    assert SeedParams(["x"]) == BEFORE;
    assert ToFormulas([], BEFORE) == Forms([], {});
  }

  /** `result == 0` is proved of a function that returns (x + 1)(x + 1) - x * x. */
  lemma UnknownProvesFalse(maxAtoms: nat, budget: nat)
    requires maxAtoms >= 1 && budget >= 5
    ensures Proved(SQUARES_FN, maxAtoms, budget) && BreaksPromise(SQUARES_FN, map["x" := 1.0], 0)
  {
    hide Conditions, Passed;
    SquaresConditions(maxAtoms, budget);
    PassedProves(SQUARES_FN, maxAtoms, budget);
    SquaresRuns();
  }

  lemma AssignTop(below: View, top: View, x: string, v: real)
    requires x in top
    ensures AssignIn([below, top], x, v) == [below, top[x := v]]
    ensures AssignIn([below, top, map[]], x, v) == [below, top[x := v], map[]]
  {
    assert [below, top, map[]][..2] == [below, top];
  }

  lemma SquaresRuns()
    ensures BreaksPromise(SQUARES_FN, map["x" := 1.0], 0)
  {
    UnitValues();
    var body := SQUARES_FN.body;
    var st0: Store := [map[], map["x" := 1.0]];
    var st1: Store := [map[], map["x" := 1.0, "a" := 1.0]];
    var st2: Store := [map[], map["x" := 2.0, "a" := 1.0]];
    TwoScopes(map[], st0[1]);
    TwoScopes(map[], st1[1]);
    TwoScopes(map[], st2[1]);
    assert ExecStmt(body[0], st0, 0) == Normal(st1) by {
      assert EvalNum(SQUARE, Visible(st0), None) == Some(1.0);
    }
    assert ExecStmt(body[1], st1, 0) == Normal(st2) by {
      assert EvalNum(NEXT_X, Visible(st1), None) == Some(2.0);
      AssignTop(map[], st1[1], "x", 2.0);
      assert st1[1]["x" := 2.0] == st2[1];
    }
    assert ExecStmt(body[2], st2, 0) == Returned(st2, Some(3.0)) by {
      assert EvalNum(SQUARE, Visible(st2), None) == Some(4.0);
      assert EvalNum(Ident("a"), Visible(st2), None) == Some(1.0);
    }
    hide ExecStmt;
    assert body[1..][0] == body[1] && body[2..][0] == body[2] && body[1..][1..] == body[2..];
    assert ExecSeq(body[2..], st2, 0) == Returned(st2, Some(3.0));
    assert ExecSeq(body[1..], st1, 0) == Returned(st2, Some(3.0));
    ReturnsNonzero(SQUARES_FN, map["x" := 1.0], 0, st2, 3.0);
  }

  // ---- leaving a loop by break --------------------------------------------------------------------------------

  const BELOW_ONE := Bin(Less, Ident("i"), NUM1)
  const BREAK_LOOP := While(BELOW_ONE, [ALWAYS], None, [Break])
  const NOT_BELOW := Expr.Not(Bin(Less, Ident("result"), NUM1))
  /** `i = 0; while i < 1 { break }; return i`. */
  const BREAK_FN := Function([], [], [NOT_BELOW], [Declare("i", NUM0), BREAK_LOOP, Return(Some(Ident("i")))])

  ghost function Lower(l: Linear): Formula {
    Atom(Lt, LinearExpr.Minus(l, C1))
  }

  lemma BelowOneIs(env: Env)
    requires "i" in env
    ensures ToFormula(BELOW_ONE, env).f == Lower(env["i"])
  {
    hide LinearExpr.Minus;
  }

  lemma NotBelowIs(env: Env)
    requires "result" in env
    ensures AllOf([NOT_BELOW], env).f == Formula.Not(Lower(env["result"]))
  {
    hide LinearExpr.Minus;
    OneClause(NOT_BELOW, env);
  }

  lemma LowerOver(v: string, names: set<string>)
    requires v in names
    ensures Over(Lower(Variable(v)), iset x | x in names)
  {
    hide LinearExpr.Minus, Mentions;
    VariableIn(v, iset x | x in names);
    ConstantMentions(Ratio(1, 1), iset x | x in names);
    MinusMentions(Variable(v), C1, iset x | x in names);
  }

  /** The test is false on leaving: that is all a promise that repeats it needs. */
  lemma ExcludedJudged(v: string, maxAtoms: nat, budget: nat)
    requires Plain(v) && maxAtoms >= 1 && budget >= 5
    ensures var t := Lower(Variable(v)); Judge(Implies(Formula.Not(t), Formula.Not(t)), maxAtoms, budget) == Yes
  {
    hide LinearExpr.Minus, Judge, Models, Over, Plain;
    var t := Lower(Variable(v));
    var not := Formula.Not(t);
    var f := Implies(not, not);
    DisjTwo(t, not);
    assert f == Or([t, not]);
    forall m ensures Models(f, m) { ImpliesMeans(not, not, m); }
    var names := {v};
    LowerOver(v, names);
    NotOver(t, iset x | x in names);
    Conj2Over(not, not, iset x | x in names);
    PairAtoms(t, not);
    assert Dpll.AtomsIn(f) == {t};
    JudgedProved(f, names, 1, maxAtoms, budget);
  }

  lemma NotOver(f: Formula, names: iset<string>)
    requires Over(f, names)
    ensures Over(Formula.Not(f), names)
  {
  }

  lemma FreshPlain(prefix: char, x: string, k: nat)
    requires Plain(x) && (prefix == '$' || prefix == '?')
    ensures Plain(Fresh(prefix, x, k))
  {
    FreshBelow(prefix, x, k);
  }

  const AT_ZERO: Env := map["i" := C0]

  lemma BreakLoopPassed(s: State, log: Log, maxAtoms: nat, budget: nat)
    requires s == State(AT_ZERO, True, True, false) && Passed(log, maxAtoms, budget)
    ensures var o := Step(BREAK_LOOP, s, log);
      && Passed(o.log, maxAtoms, budget) && |o.states| == 1
      && exists k :: o.states[0] == AfterLoop(BELOW_ONE, [ALWAYS], s, k)
  {
    hide AllOf, Implies, Forget, Run, LoopTopLog, EnterLoop, Conj, Judge, ToFormula, AfterLoop;
    var invs := [ALWAYS];
    var log1, top := EnterLoop(invs, s, log), Forget(s.env, '$', log.counter);
    var start, log2 := LoopTop(BELOW_ONE, invs, top, s.pre), LoopTopLog(BELOW_ONE, invs, None, top, log1);
    TopSame(invs, BELOW_ONE, top, log1, s.pre);
    AlwaysClause(s.env);
    ImpliesTrue(Conj([s.pre, s.path]));
    TrueJudged(maxAtoms, budget);
    BreakForgets(start, log2);
    var end := Run([Break], start, log2).states[0];
    AlwaysClause(end.env);
    ImpliesTrue(end.path);
    LoopPassed(BREAK_LOOP, BELOW_ONE, invs, s, log, maxAtoms, budget);
  }

  lemma AfterBreakLoop(s: State, k: nat)
    requires s == State(AT_ZERO, True, True, false)
    ensures var v := Variable(Fresh('$', "i", k));
      AfterLoop(BELOW_ONE, [ALWAYS], s, k) == State(map["i" := v], Formula.Not(Lower(v)), True, false)
  {
    hide AllOf, Conj, ToFormula, LinearExpr.Minus, Fresh, Variable;
    var after := Forget(s.env, '$', k);
    assert after == map["i" := Variable(Fresh('$', "i", k))];
    AlwaysClause(after);
    BelowOneIs(after);
    ConjOne(Formula.Not(Lower(after["i"])));
  }

  lemma BreakWalk(maxAtoms: nat, budget: nat) returns (k: nat, log: Log)
    ensures Passed(log, maxAtoms, budget)
    ensures var v := Variable(Fresh('$', "i", k));
      Run(BREAK_FN.body, State(map[], True, True, false), Log([], {}, 0, false))
        == Out([State(map["i" := v, "result" := v], Formula.Not(Lower(v)), True, true)], log)
  {
    hide Judge, RunFrom, LinearExpr.Minus, AfterLoop, Loop, Variable, Fresh, Models, ToFormula;
    var body, s0, s1 := BREAK_FN.body, State(map[], True, True, false), State(AT_ZERO, True, True, false);
    var log0 := Log([], {}, 0, false);
    assert Seen(log0, {}) == log0;
    StepThen(body, s0, log0);
    assert s0.env["i" := C0] == AT_ZERO;
    BreakLoopPassed(s1, log0, maxAtoms, budget);
    var o := Step(BREAK_LOOP, s1, log0);
    k :| o.states[0] == AfterLoop(BELOW_ONE, [ALWAYS], s1, k);
    AfterBreakLoop(s1, k);
    log := o.log;
    var v := Variable(Fresh('$', "i", k));
    var s2 := State(map["i" := v], Formula.Not(Lower(v)), True, false);
    assert o.states == [s2];
    hide Step;
    StepThen(body[1..], s1, log0);
    var s3 := s2.(env := s2.env["result" := v], returned := true);
    ReturnStep("i", s2, log);
    StepThen(body[2..], s2, log);
    assert body[1..][0] == body[1] && body[2..][0] == body[2] && body[1..][1..] == body[2..] && body[2..][1..] == [];
    NothingLeft([s3], log);
    assert s3.env == map["i" := v, "result" := v];
  }

  lemma BreakConditions(maxAtoms: nat, budget: nat)
    requires maxAtoms >= 1 && budget >= 5
    ensures Passed(Conditions(BREAK_FN), maxAtoms, budget)
  {
    hide Judge, Postconditions, AllOf, Run, Implies, Conj, LinearExpr.Minus, Variable, Fresh, Models, ToFormula, Plain, Passed;
    var fn := BREAK_FN;
    NoOlds(NOT_BELOW);
    StartOf(fn);
    ConditionsSplit(fn);
    var k, log := BreakWalk(maxAtoms, budget);
    var end := Run(fn.body, EntryState(fn), EntryLog(fn)).states[0];
    var not := Formula.Not(Lower(Variable(Fresh('$', "i", k))));
    NotBelowIs(end.env);
    ConjOne(not);
    FreshPlain('$', "i", k);
    ExcludedJudged(Fresh('$', "i", k), maxAtoms, budget);
    PostPassed([end], [NOT_BELOW], True, log, maxAtoms, budget);
  }

  lemma ReturnStep(x: string, s: State, log: Log)
    requires x in s.env
    ensures Step(Return(Some(Ident(x))), s, log) == Out([s.(env := s.env["result" := s.env[x]], returned := true)], log)
  {
  }

  /** `not (result < 1)` is proved of a function that breaks out of its loop and returns 0: after the loop
      the verifier takes the test to be false. */
  lemma BreakProvesFalse(maxAtoms: nat, budget: nat)
    requires maxAtoms >= 1 && budget >= 5
    ensures Proved(BREAK_FN, maxAtoms, budget) && BreaksPromise(BREAK_FN, map[], 1)
  {
    hide Conditions, Passed;
    BreakConditions(maxAtoms, budget);
    PassedProves(BREAK_FN, maxAtoms, budget);
    BreakRuns();
  }

  lemma BreakRuns()
    ensures BreaksPromise(BREAK_FN, map[], 1)
  {
    UnitValues();
    var body := BREAK_FN.body;
    var st0: Store := [map[], map[]];
    var st1: Store := [map[], map["i" := 0.0]];
    TwoScopes(map[], st0[1]);
    TwoScopes(map[], st1[1]);
    assert ExecStmt(body[0], st0, 1) == Normal(st1);
    PushVisible(st1);
    assert ExecSeq([Break], Push(st1), 0) == Broke(Push(st1));
    assert ExecBlock([Break], st1, 0) == Broke(st1);
    assert EvalTest(BELOW_ONE, Visible(st1), None) == Some(true);
    assert ExecWhile(BREAK_LOOP, st1, 1) == Normal(st1);
    assert ExecStmt(body[1], st1, 1) == Normal(st1);
    assert ExecStmt(body[2], st1, 1) == Returned(st1, Some(0.0));
    hide ExecStmt;
    assert body[1..][0] == body[1] && body[2..][0] == body[2] && body[1..][1..] == body[2..];
    assert ExecSeq(body[2..], st1, 1) == Returned(st1, Some(0.0));
    assert ExecSeq(body[1..], st1, 1) == Returned(st1, Some(0.0));
    assert EvalTest(NOT_BELOW, FinalView(st1, Some(0.0)), Some(map[])) == Some(false);
    assert NOT_BELOW in BREAK_FN.ensures_;
  }

  // ---- skipping the end of a pass by continue --------------------------------------------------------------------

  const J_ZERO := Bin(Equals, Ident("j"), NUM0)
  const SKIPPING := [Assign("j", NUM1), Assign("i", NUM1), Continue, Assign("j", NUM0)]
  const SKIP_LOOP := While(BELOW_ONE, [J_ZERO], None, SKIPPING)
  /** `j = 0; i = 0; while i < 1 invariant j == 0 { j = 1; i = 1; continue; j = 0 }; return j`. */
  const SKIP_FN := Function([], [], [RESULT_ZERO], [Declare("j", NUM0), Declare("i", NUM0), SKIP_LOOP, Return(Some(Ident("j")))])

  ghost function Zeroed(l: Linear): Formula {
    Atom(Eq, LinearExpr.Minus(l, C0))
  }

  lemma JZeroIs(env: Env)
    requires "j" in env
    ensures AllOf([J_ZERO], env).f == Zeroed(env["j"])
  {
    hide LinearExpr.Minus;
    OneClause(J_ZERO, env);
  }

  lemma ZeroedOver(v: string, names: set<string>)
    requires v in names
    ensures Over(Zeroed(Variable(v)), iset x | x in names)
  {
    hide LinearExpr.Minus, Mentions;
    VariableIn(v, iset x | x in names);
    ConstantMentions(Ratio(0, 1), iset x | x in names);
    MinusMentions(Variable(v), C0, iset x | x in names);
  }

  /** The code after `continue` is walked as if it were reached, and restores the invariant. */
  lemma SkippedBody(s: State, log: Log)
    requires !s.returned && "j" in s.env && "i" in s.env && !log.tooMany
    ensures var o := Run(SKIPPING, s, log);
      && |o.states| == 1 && o.states[0].path == s.path && "j" in o.states[0].env && o.states[0].env["j"] == C0
      && o.log.conditions == log.conditions && !o.log.tooMany
  {
    hide RunFrom, Fresh, Variable;
    var body := SKIPPING;
    StepThen(body, s, log);
    var s1 := s.(env := s.env["j" := C1]);
    assert Seen(log, {}) == log;
    StepThen(body[1..], s1, log);
    var s2 := s1.(env := s1.env["i" := C1]);
    StepThen(body[2..], s2, log);
    var s3, log3 := s2.(env := Forget(s2.env, '?', log.counter)), log.(counter := log.counter + 1);
    assert Seen(log3, {}) == log3;
    StepThen(body[3..], s3, log3);
    var s4 := s3.(env := s3.env["j" := C0]);
    assert body[1..][0] == body[1] && body[2..][0] == body[2] && body[3..][0] == body[3];
    assert body[1..][1..] == body[2..] && body[2..][1..] == body[3..] && body[3..][1..] == [];
    NothingLeft([s4], log3);
  }

  lemma ThreeAtoms(p: Formula, t: Formula, z: Formula)
    requires p.Atom? && t.Atom? && z.Atom?
    ensures Implies(And([p, t]), z) == Or([Formula.Not(And([p, t])), z])
    ensures Dpll.AtomsIn(Implies(And([p, t]), z)) == {p, t, z}
    ensures Implies(And([p, Formula.Not(t)]), z) == Or([Formula.Not(And([p, Formula.Not(t)])), z])
    ensures Dpll.AtomsIn(Implies(And([p, Formula.Not(t)]), z)) == {p, t, z}
    ensures |{p, t, z}| <= 3
  {
    DisjTwo(Formula.Not(And([p, t])), z);
    DisjTwo(Formula.Not(And([p, Formula.Not(t)])), z);
    PairAtoms(p, t);
    PairAtoms(p, Formula.Not(t));
    PairAtoms(Formula.Not(And([p, t])), z);
    PairAtoms(Formula.Not(And([p, Formula.Not(t)])), z);
  }

  lemma RestoredJudged(i: string, j: string, maxAtoms: nat, budget: nat)
    requires Plain(i) && Plain(j) && maxAtoms >= 3 && budget >= 239
    ensures Judge(Implies(And([Zeroed(Variable(j)), Lower(Variable(i))]), ZERO_IS_ZERO), maxAtoms, budget) == Yes
  {
    hide LinearExpr.Minus, Judge, Models, Over, Plain, Implies, Conj, Room, Dpll.AtomsIn, Variable;
    var p, t, names := Zeroed(Variable(j)), Lower(Variable(i)), {i, j};
    var a := And([p, t]);
    var f := Implies(a, ZERO_IS_ZERO);
    ZeroHolds(names);
    forall m ensures Models(f, m) { ImpliesMeans(a, ZERO_IS_ZERO, m); }
    ZeroedOver(j, names);
    LowerOver(i, names);
    ConjTwo(p, t);
    Conj2Over(p, t, iset x | x in names);
    Conj2Over(a, ZERO_IS_ZERO, iset x | x in names);
    ThreeAtoms(p, t, ZERO_IS_ZERO);
    RoomForTwo(|names|);
    JudgedProved(f, names, 3, maxAtoms, budget);
  }

  lemma RoomForTwo(k: nat)
    requires k <= 2
    ensures Room(9, k) <= 239
  {
    assert Room(29, 1) == 239;
    assert Room(9, 2) == 239;
    RoomGrows(9, k, 9, 2);
  }

  lemma LeftJudged(i: string, j: string, maxAtoms: nat, budget: nat)
    requires Plain(i) && Plain(j) && maxAtoms >= 3 && budget >= 239
    ensures var p := Zeroed(Variable(j));
      Judge(Implies(And([p, Formula.Not(Lower(Variable(i)))]), p), maxAtoms, budget) == Yes
  {
    hide LinearExpr.Minus, Judge, Models, Over, Plain, Implies, Conj, Room, Dpll.AtomsIn, Variable;
    var p, t, names := Zeroed(Variable(j)), Lower(Variable(i)), {i, j};
    var not := Formula.Not(t);
    var a := And([p, not]);
    var f := Implies(a, p);
    ConjTwo(p, not);
    forall m ensures Models(f, m) {
      ImpliesMeans(a, p, m);
      Conj2Means(p, not, m);
    }
    ZeroedOver(j, names);
    LowerOver(i, names);
    NotOver(t, iset x | x in names);
    Conj2Over(p, not, iset x | x in names);
    Conj2Over(a, p, iset x | x in names);
    ThreeAtoms(p, t, p);
    RoomForTwo(|names|);
    JudgedProved(f, names, 3, maxAtoms, budget);
  }

  const BOTH_ZERO: Env := map["j" := C0, "i" := C0]

  lemma SkipLoopPassed(s: State, log: Log, maxAtoms: nat, budget: nat)
    requires s == State(BOTH_ZERO, True, True, false) && Passed(log, maxAtoms, budget)
    requires maxAtoms >= 3 && budget >= 239
    ensures var o := Step(SKIP_LOOP, s, log);
      && Passed(o.log, maxAtoms, budget) && |o.states| == 1
      && exists k :: o.states[0] == AfterLoop(BELOW_ONE, [J_ZERO], s, k)
  {
    hide AllOf, Implies, Run, LoopTopLog, EnterLoop, Conj, Judge, ToFormula, AfterLoop, LinearExpr.Minus, Fresh, Variable, Plain;
    var invs := [J_ZERO];
    var log1, top := EnterLoop(invs, s, log), Forget(s.env, '$', log.counter);
    var start, log2 := LoopTop(BELOW_ONE, invs, top, s.pre), LoopTopLog(BELOW_ONE, invs, None, top, log1);
    TopSame(invs, BELOW_ONE, top, log1, s.pre);
    JZeroIs(s.env);
    NothingToConj();
    DisjOne(ZERO_IS_ZERO);
    ZeroJudged(maxAtoms, budget);
    SkippedBody(start, log2);
    var end := Run(SKIPPING, start, log2).states[0];
    JZeroIs(end.env);
    JZeroIs(top);
    BelowOneIs(top);
    var i, j := Fresh('$', "i", log.counter), Fresh('$', "j", log.counter);
    ConjTwo(Zeroed(Variable(j)), Lower(Variable(i)));
    FreshPlain('$', "i", log.counter);
    FreshPlain('$', "j", log.counter);
    RestoredJudged(i, j, maxAtoms, budget);
    LoopPassed(SKIP_LOOP, BELOW_ONE, invs, s, log, maxAtoms, budget);
  }

  lemma AfterSkipLoop(s: State, k: nat)
    requires s == State(BOTH_ZERO, True, True, false)
    ensures var i, j := Variable(Fresh('$', "i", k)), Variable(Fresh('$', "j", k));
      AfterLoop(BELOW_ONE, [J_ZERO], s, k) == State(map["j" := j, "i" := i], And([Zeroed(j), Formula.Not(Lower(i))]), True, false)
  {
    hide AllOf, Conj, ToFormula, LinearExpr.Minus, Fresh, Variable;
    var after := Forget(s.env, '$', k);
    assert after == map["j" := Variable(Fresh('$', "j", k)), "i" := Variable(Fresh('$', "i", k))];
    JZeroIs(after);
    BelowOneIs(after);
    ConjTwo(Zeroed(after["j"]), Formula.Not(Lower(after["i"])));
  }

  lemma SkipWalk(maxAtoms: nat, budget: nat) returns (k: nat, log: Log)
    requires maxAtoms >= 3 && budget >= 239
    ensures Passed(log, maxAtoms, budget)
    ensures var i, j := Variable(Fresh('$', "i", k)), Variable(Fresh('$', "j", k));
      Run(SKIP_FN.body, State(map[], True, True, false), Log([], {}, 0, false))
        == Out([State(map["j" := j, "i" := i, "result" := j], And([Zeroed(j), Formula.Not(Lower(i))]), True, true)], log)
  {
    hide Judge, RunFrom, LinearExpr.Minus, AfterLoop, Loop, Variable, Fresh, Models, ToFormula;
    var body, s0, log0 := SKIP_FN.body, State(map[], True, True, false), Log([], {}, 0, false);
    var s1, s2 := State(map["j" := C0], True, True, false), State(BOTH_ZERO, True, True, false);
    assert Seen(log0, {}) == log0;
    StepThen(body, s0, log0);
    assert s0.env["j" := C0] == s1.env;
    StepThen(body[1..], s1, log0);
    assert s1.env["i" := C0] == BOTH_ZERO;
    SkipLoopPassed(s2, log0, maxAtoms, budget);
    var o := Step(SKIP_LOOP, s2, log0);
    k :| o.states[0] == AfterLoop(BELOW_ONE, [J_ZERO], s2, k);
    AfterSkipLoop(s2, k);
    log := o.log;
    var i, j := Variable(Fresh('$', "i", k)), Variable(Fresh('$', "j", k));
    var s3 := State(map["j" := j, "i" := i], And([Zeroed(j), Formula.Not(Lower(i))]), True, false);
    assert o.states == [s3];
    assert body[1..][0] == body[1] && body[2..][0] == body[2] && body[3..][0] == body[3];
    assert body[1..][1..] == body[2..] && body[2..][1..] == body[3..] && body[3..][1..] == [];
    hide Step;
    StepThen(body[2..], s2, log0);
    var s4 := s3.(env := s3.env["result" := j], returned := true);
    ReturnStep("j", s3, log);
    StepThen(body[3..], s3, log);
    NothingLeft([s4], log);
    assert s4.env == map["j" := j, "i" := i, "result" := j];
  }

  lemma SkipConditions(maxAtoms: nat, budget: nat)
    requires maxAtoms >= 3 && budget >= 239
    ensures Passed(Conditions(SKIP_FN), maxAtoms, budget)
  {
    hide Judge, Postconditions, AllOf, Run, Implies, Conj, LinearExpr.Minus, Variable, Fresh, Models, ToFormula, Plain, Passed;
    var fn := SKIP_FN;
    NoOlds(RESULT_ZERO);
    StartOf(fn);
    ConditionsSplit(fn);
    var k, log := SkipWalk(maxAtoms, budget);
    var end := Run(fn.body, EntryState(fn), EntryLog(fn)).states[0];
    ResultZeroIs(end.env);
    ConjTwo(Zeroed(end.env["j"]), Formula.Not(Lower(end.env["i"])));
    FreshPlain('$', "i", k);
    FreshPlain('$', "j", k);
    LeftJudged(Fresh('$', "i", k), Fresh('$', "j", k), maxAtoms, budget);
    PostPassed([end], [RESULT_ZERO], True, log, maxAtoms, budget);
  }

  /** `result == 0` is proved of a function whose only pass continues before it sets j back, and returns 1. */
  lemma ContinueProvesFalse(maxAtoms: nat, budget: nat)
    requires maxAtoms >= 3 && budget >= 239
    ensures Proved(SKIP_FN, maxAtoms, budget) && BreaksPromise(SKIP_FN, map[], 2)
  {
    hide Conditions, Passed;
    SkipConditions(maxAtoms, budget);
    PassedProves(SKIP_FN, maxAtoms, budget);
    SkipRuns();
  }

  lemma SkipRuns()
    ensures BreaksPromise(SKIP_FN, map[], 2)
  {
    UnitValues();
    var body := SKIP_FN.body;
    var st0: Store := [map[], map[]];
    var st1: Store := [map[], map["j" := 0.0]];
    var st2: Store := [map[], map["j" := 0.0, "i" := 0.0]];
    var st3: Store := [map[], map["j" := 1.0, "i" := 1.0]];
    TwoScopes(map[], st0[1]);
    TwoScopes(map[], st1[1]);
    TwoScopes(map[], st2[1]);
    TwoScopes(map[], st3[1]);
    assert ExecStmt(body[0], st0, 2) == Normal(st1);
    assert ExecStmt(body[1], st1, 2) == Normal(st2);
    SkipPass(st2, st3);
    assert EvalTest(BELOW_ONE, Visible(st2), None) == Some(true);
    assert EvalTest(BELOW_ONE, Visible(st3), None) == Some(false);
    assert ExecWhile(SKIP_LOOP, st3, 1) == Normal(st3);
    assert ExecWhile(SKIP_LOOP, st2, 2) == Normal(st3);
    assert ExecStmt(body[2], st2, 2) == Normal(st3);
    assert ExecStmt(body[3], st3, 2) == Returned(st3, Some(1.0));
    hide ExecStmt;
    assert body[1..][0] == body[1] && body[2..][0] == body[2] && body[3..][0] == body[3];
    assert body[1..][1..] == body[2..] && body[2..][1..] == body[3..];
    assert ExecSeq(body[3..], st3, 2) == Returned(st3, Some(1.0));
    assert ExecSeq(body[2..], st2, 2) == Returned(st3, Some(1.0));
    assert ExecSeq(body[1..], st1, 2) == Returned(st3, Some(1.0));
    ReturnsNonzero(SKIP_FN, map[], 2, st3, 1.0);
  }

  lemma SetToOne(x: string, m: View)
    requires x in m
    ensures ExecStmt(Assign(x, NUM1), [map[], m, map[]], 1) == Normal([map[], m[x := 1.0], map[]])
  {
    UnitValues();
    AssignTop(map[], m, x, 1.0);
    var st: Store := [map[], m, map[]];
    assert st[..2] == [map[], m] && Visible(st) == Visible(st[..2]) + map[];
    TwoScopes(map[], m);
  }

  lemma ThirdContinues(body: seq<Stmt>, a: Store, b: Store, c: Store, fuel: nat)
    requires |body| >= 3 && ExecStmt(body[0], a, fuel) == Normal(b)
    requires ExecStmt(body[1], b, fuel) == Normal(c) && body[2] == Continue && c != []
    ensures ExecSeq(body, a, fuel) == Continued(c)
  {
    assert ExecStmt(body[2], c, fuel) == Continued(c);
    hide ExecStmt;
    assert body[1..][0] == body[1] && body[2..][0] == body[2] && body[1..][1..] == body[2..];
    assert ExecSeq(body[2..], c, fuel) == Continued(c);
    assert ExecSeq(body[1..], b, fuel) == Continued(c);
  }

  lemma SkipPass(st: Store, end: Store)
    requires st == [map[], map["j" := 0.0, "i" := 0.0]] && end == [map[], map["j" := 1.0, "i" := 1.0]]
    ensures ExecBlock(SKIPPING, st, 1) == Continued(end)
  {
    hide ExecStmt, Visible, ExecSeq;
    var m, n, o: View := map["j" := 0.0, "i" := 0.0], map["j" := 1.0, "i" := 0.0], map["j" := 1.0, "i" := 1.0];
    SetToOne("j", m);
    SetToOne("i", n);
    assert m["j" := 1.0] == n && n["i" := 1.0] == o;
    assert Push(st) == [map[], m, map[]];
    var last: Store := [map[], o, map[]];
    ThirdContinues(SKIPPING, Push(st), [map[], n, map[]], last, 1);
    assert last[..2] == end;
  }

  // ---- old expressions with one key -----------------------------------------------------------------------------

  const OLD_NAME := Expr.Old(Ident("n1"))
  const OLD_ONE := Expr.Old(NUM1)
  const SAME_KEY := Bin(Equals, OLD_NAME, OLD_ONE)
  /** Nothing, with `ensures old(n1) == old(1)`. */
  const KEY_FN := Function(["n1"], [], [SAME_KEY], [])

  /** The number 1 and the name `n1` have one key, so what one of them was on entry is taken for both. */
  lemma KeysCollide()
    ensures OldKey(Ident("n1")) == OldKey(NUM1)
  {
  }

  lemma KeyOlds()
    ensures OldArgsOf([SAME_KEY]) == [Ident("n1"), NUM1]
  {
    assert [SAME_KEY][1..] == [];
    assert OldArgs(OLD_NAME) == [Ident("n1")] && OldArgs(OLD_ONE) == [NUM1];
  }

  lemma SeedTwo(a: Expr, b: Expr, env: Env)
    ensures SeedOlds([a, b], env).env ==
      var next := env[OldKey(a) := ToLinear(a, env).l]; next[OldKey(b) := ToLinear(b, next).l]
  {
    hide OldKey, ToLinear;
    var olds := [a, b];
    assert olds[1..] == [b] && [b][1..] == [];
    var next := env[OldKey(a) := ToLinear(a, env).l];
    var last := next[OldKey(b) := ToLinear(b, next).l];
    assert SeedOlds([], last) == Seeded(last, {});
    assert SeedOlds([b], next).env == last;
  }

  lemma KeyStart()
    ensures EntryState(KEY_FN).env == map["n1" := Variable("n1"), OldKey(NUM1) := C1]
    ensures EntryState(KEY_FN).path == EntryState(KEY_FN).pre == True && !EntryState(KEY_FN).returned
    ensures EntryLog(KEY_FN).conditions == [] && !EntryLog(KEY_FN).tooMany
  {
    hide OldKey, SeedOlds, OldArgsOf;
    KeysCollide();
    NothingToConj();
    KeyOlds();
    var env: Env := map["n1" := Variable("n1")];
    assert SeedParams(["n1"]) == env;
    SeedTwo(Ident("n1"), NUM1, env);
    assert ToFormulas([], EntryState(KEY_FN).env) == Forms([], {});
  }

  const ONE_IS_ONE := Atom(Eq, LinearExpr.Minus(C1, C1))

  lemma OneHolds(names: set<string>)
    ensures forall m :: Models(ONE_IS_ONE, m)
    ensures Over(ONE_IS_ONE, iset v | v in names)
  {
    hide Eval, LinearExpr.Minus, Mentions;
    forall m: Interp ensures Models(ONE_IS_ONE, m) { MinusEval(C1, C1, m.num); }
    ConstantMentions(Ratio(1, 1), iset v | v in names);
    MinusMentions(C1, C1, iset v | v in names);
  }

  lemma OneIsOneJudged(maxAtoms: nat, budget: nat)
    requires maxAtoms >= 1
    ensures Judge(ONE_IS_ONE, maxAtoms, budget) == Yes
  {
    hide LinearExpr.Minus, Models, Judge, Over;
    OneHolds({});
    assert Dpll.AtomsIn(ONE_IS_ONE) == {ONE_IS_ONE};
    JudgedProved(ONE_IS_ONE, {}, 1, maxAtoms, budget);
  }

  lemma KeyFormula(env: Env)
    requires env == map["n1" := Variable("n1"), OldKey(NUM1) := C1]
    ensures ToFormula(SAME_KEY, env).f == ONE_IS_ONE
  {
    hide OldKey, LinearExpr.Minus;
    KeysCollide();
    assert ToLinear(OLD_NAME, env).l == C1 && ToLinear(OLD_ONE, env).l == C1;
  }

  lemma KeyConditions(maxAtoms: nat, budget: nat)
    requires maxAtoms >= 1
    ensures Passed(Conditions(KEY_FN), maxAtoms, budget)
  {
    hide Judge, Postconditions, AllOf, Implies, Conj, LinearExpr.Minus, OldKey, RunFrom, ToFormula;
    var fn := KEY_FN;
    ConditionsSplit(fn);
    KeyStart();
    var s0, log := EntryState(fn), EntryLog(fn);
    NothingLeft([s0], log);
    assert Run(fn.body, s0, log) == Out([s0], log);
    KeyFormula(s0.env);
    OneClause(SAME_KEY, s0.env);
    NothingToConj();
    DisjOne(ONE_IS_ONE);
    OneIsOneJudged(maxAtoms, budget);
    PostPassed([s0], [SAME_KEY], True, log, maxAtoms, budget);
  }

  /** `old(n1) == old(1)` is proved of a function that may be called with any number. */
  lemma KeyProvesFalse(maxAtoms: nat, budget: nat)
    requires maxAtoms >= 1
    ensures Proved(KEY_FN, maxAtoms, budget) && BreaksPromise(KEY_FN, map["n1" := 0.0], 0)
  {
    hide Conditions, Passed;
    KeyConditions(maxAtoms, budget);
    PassedProves(KEY_FN, maxAtoms, budget);
    KeyRuns();
  }

  lemma KeyRuns()
    ensures BreaksPromise(KEY_FN, map["n1" := 0.0], 0)
  {
    UnitValues();
    var args: View := map["n1" := 0.0];
    assert ExecSeq([], [map[], args], 0) == Normal([map[], args]);
    assert Call(KEY_FN, map[], args, 0).Some?;
    var end := Call(KEY_FN, map[], args, 0).value;
    assert EvalNum(OLD_NAME, end, Some(args)) == Some(0.0);
    assert EvalNum(OLD_ONE, end, Some(args)) == Some(1.0);
    assert SAME_KEY in KEY_FN.ensures_;
  }
}
