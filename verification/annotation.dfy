/** What a refuted loop annotation is worth: "a counterexample here really does refute the annotation". There
    is a state, on rational numbers, in which the invariants and the test hold and from which one pass breaks
    an invariant, or does not lower the variant; or in which the variant is below zero. */
module Annotation {
  import opened Rational
  import opened LinearExpr
  import opened Formulas
  import opened FourierMotzkin
  import opened Programs
  import opened VcGen
  import opened Denotation
  import opened Fragment
  import opened Symbols
  import opened Soundness
  import opened Descent
  import opened Refutation
  import opened Counterexample
  import Dpll

  /** A pass may begin here, as far as the annotation says. */
  ghost predicate MayBegin(loop: Stmt, st: Store)
    requires loop.While?
  {
    && (forall e :: e in loop.invariants ==> EvalTest(e, Visible(st), None) == Some(true))
    && EvalTest(loop.test, Visible(st), None) == Some(true)
  }

  /** What the condition of this kind denies of a pass from here. */
  ghost predicate Denies(loop: Stmt, st: Store, kind: Kind)
    requires loop.While?
  {
    var o := ExecBlock(loop.body, st, 0);
    match kind
    case LoopPreserved => o.Normal? && exists e :: e in loop.invariants && EvalTest(e, Visible(o.st), None) == Some(false)
    case VariantDecreases => o.Normal? && loop.variant.Some? && NotLower(loop.variant.value, Visible(st), Visible(o.st))
    case VariantNonNegative => loop.variant.Some? && Negative(loop.variant.value, Visible(st))
    case _ => false
  }

  ghost predicate NotLower(variant: Expr, before: View, after: View) {
    var x, y := EvalNum(variant, before, None), EvalNum(variant, after, None);
    x.Some? && y.Some? && y.value >= x.value
  }

  ghost predicate Negative(variant: Expr, view: View) {
    var x := EvalNum(variant, view, None);
    x.Some? && x.value < 0.0
  }

  // ---- where the conditions come from ---------------------------------------------------------------------

  ghost predicate OnPass(c: Condition, e: State, invs: seq<Expr>, variant: Option<Expr>, before: Linear) {
    || c == Condition(LoopPreserved, Implies(e.path, AllOf(invs, e.env).f))
    || (variant.Some? && c == Condition(VariantDecreases,
          Implies(e.path, Atom(Lt, LinearExpr.Minus(ToLinear(variant.value, e.env).l, before)))))
  }

  lemma {:induction false} PassOrigin(ends: seq<State>, invs: seq<Expr>, variant: Option<Expr>, before: Linear, log: Log,
                                      c: Condition) returns (e: State)
    requires c in PassConditions(ends, invs, variant, before, log).conditions && c !in log.conditions
    ensures e in ends && OnPass(c, e, invs, variant, before)
  {
    hide AllOf, Implies, ToLinear, LinearExpr.Minus;
    var restored := AllOf(invs, ends[0].env);
    var log1 := Record(log, LoopPreserved, Implies(ends[0].path, restored.f), restored.unknowns);
    var log2 := if variant.None? then log1 else
      var v := ToLinear(variant.value, ends[0].env);
      Record(log1, VariantDecreases, Implies(ends[0].path, Atom(Lt, LinearExpr.Minus(v.l, before))), v.unknowns);
    if c in log2.conditions {
      e := ends[0];
    } else {
      e := PassOrigin(ends[1..], invs, variant, before, log2, c);
    }
  }

  /** What a walk over an annotated loop records besides what was there and the invariants on entry. */
  lemma LoopOrigin(loop: Stmt, state: State, log: Log, c: Condition) returns (e: State)
    requires loop.While? && Annotated(loop) && LoopFreeAll(loop.body)
    requires c in Step(loop, state, log).log.conditions && c !in log.conditions && c.kind != LoopEstablished
    ensures var top := Forget(state.env, '$', log.counter);
      var log2 := LoopTopLog(loop.test, loop.invariants, loop.variant, top, EnterLoop(loop.invariants, state, log));
      var start := LoopTop(loop.test, loop.invariants, top, state.pre);
      var before := VariantTerm(loop.variant, top).l;
      if c.kind.VariantNonNegative? then
        loop.variant.Some? && c.formula == Implies(start.path, Atom(Le, LinearExpr.Minus(Constant(Zero()), before)))
      else e in Run(loop.body, start, log2).states && OnPass(c, e, loop.invariants, loop.variant, before)
  {
    hide AllOf, Implies, ToLinear, ToFormula, LinearExpr.Minus, Run, Forget, LoopFreeAll, OnPass, PassConditions, Conj, Extends,
      VariantTerm;
    var invs, variant, test := loop.invariants, loop.variant, loop.test;
    var top := Forget(state.env, '$', log.counter);
    var log1 := EnterLoop(invs, state, log);
    var log2 := LoopTopLog(test, invs, variant, top, log1);
    var start := LoopTop(test, invs, top, state.pre);
    var before := VariantTerm(variant, top).l;
    var pass := Run(loop.body, start, log2);
    RunAnyLog(loop.body, start, log2, log2, start.pre);
    assert start.(pre := start.pre) == start;
    assert pass.log.conditions == log2.conditions == log.conditions + [log1.conditions[|log.conditions|]];
    assert c !in pass.log.conditions;
    var checked := PassConditions(pass.states, invs, variant, before, pass.log);
    var log3 := LoopConditions(pass.states, test, invs, variant, top, pass.log);
    assert Step(loop, state, log) == LeaveLoop(test, invs, state, log3);
    e := state;
    if c in checked.conditions {
      e := PassOrigin(pass.states, invs, variant, before, pass.log, c);
      assert OnPass(c, e, invs, variant, before);
      NotNonNegative(c, e, invs, variant, before);
    }
  }

  lemma NotNonNegative(c: Condition, e: State, invs: seq<Expr>, variant: Option<Expr>, before: Linear)
    requires OnPass(c, e, invs, variant, before)
    ensures !c.kind.VariantNonNegative?
  {
  }

  // ---- the state that refutes -----------------------------------------------------------------------------

  /** The symbols of the scope, read as a store of one scope. */
  ghost function TopStore(top: Env, scope: set<string>, s: Valuation): Store {
    [map x | x in scope :: Vals(top, s)(x)]
  }

  lemma TopStoreReads(env: Env, k: nat, scope: set<string>, s: Valuation)
    requires RationalPoint(s)
    ensures var top := Forget(env, '$', k); var st := TopStore(top, scope, s);
      && Visible(st).Keys == scope && Reads(Vals(top, s), Visible(st)) && RationalView(Visible(st))
  {
    hide Eval, IsRational, Fresh;
    var top := Forget(env, '$', k);
    var st := TopStore(top, scope, s);
    assert st[..0] == [] && Visible(st) == Visible([]) + st[0] == st[0];
    forall x | x in scope ensures IsRational(Vals(top, s)(x)) {
      if x in env { VariableEval(Fresh('$', x, k), s); }
    }
  }

  /** Where the path of the loop's top holds, a pass may begin. */
  lemma TopBegins(loop: Stmt, top: Env, pre: Formula, s: Valuation, st: Store)
    requires loop.While? && NamesAre(Visible(st).Keys) && Reads(Vals(top, s), Visible(st))
    requires AllNamed(loop.invariants, Visible(st).Keys) && NamesOf(loop.test) <= Visible(st).Keys
    requires AllOf(loop.invariants, top).unknowns == {} && ToFormula(loop.test, top).unknowns == {}
    requires Models(LoopTop(loop.test, loop.invariants, top, pre).path, At(s))
    ensures MayBegin(loop, st)
  {
    hide AllOf, ToFormula, Vals, EvalTest, Name, NamesOf, Visible, Models, Conj, Reads;
    Conj2Means(AllOf(loop.invariants, top).f, ToFormula(loop.test, top).f, At(s));
    ClausesMean(loop.invariants, top, s, Visible(st));
    TestRuns(loop.test, top, s, st);
    TestMeans(loop.test, top, s, st);
  }

  /** And where the path of the state that a loop leaves holds, the loop may have ended. */
  lemma LeftEnds(loop: Stmt, state: State, log: Log, s: Valuation, st: Store)
    requires loop.While? && NamesAre(Visible(st).Keys) && LeaveLoop(loop.test, loop.invariants, state, log).log.unknowns == {}
    requires AllNamed(loop.invariants, Visible(st).Keys) && NamesOf(loop.test) <= Visible(st).Keys
    requires var left := LeaveLoop(loop.test, loop.invariants, state, log).states[0];
      Reads(Vals(left.env, s), Visible(st)) && Models(left.path, At(s))
    ensures forall e :: e in loop.invariants ==> EvalTest(e, Visible(st), None) == Some(true)
    ensures EvalTest(loop.test, Visible(st), None) == Some(false) && Models(state.path, At(s))
  {
    hide AllOf, ToFormula, Vals, EvalTest, Name, NamesOf, Visible, Models, Conj, Reads, Forget, Negated;
    var after := Forget(state.env, '$', log.counter);
    var t := ToFormula(loop.test, after).f;
    LeaveUnknowns(loop.test, loop.invariants, state, log);
    Conj3Means(state.path, AllOf(loop.invariants, after).f, Negated(t), At(s));
    NegatedMeans(t, At(s));
    ClausesMean(loop.invariants, after, s, Visible(st));
    TestRuns(loop.test, after, s, st);
    TestMeans(loop.test, after, s, st);
  }

  /** A pass over a body without loops ends, in the state whose path the valuation makes true. */
  lemma PassFollowsPath(body: seq<Stmt>, start: State, log: Log, st: Store, scope: set<string>, globals: set<string>, k: nat,
                        s: Valuation, end: State)
    requires OkSeq(body, scope, globals) && NoReturns(body) && LoopFreeAll(body) && AllExamined(body)
    requires st != [] && Visible(st).Keys == scope && NamesAre(scope)
    requires !start.returned && Bounded(start.(pre := True), k) && Covers(start.env, scope, globals)
    requires Reads(Vals(start.env, s), Visible(st))
    requires Run(body, start, log).log.unknowns == {} && !Run(body, start, log).log.tooMany
    requires end in Run(body, start, log).states && Models(end.path, At(s))
    ensures ExecBlock(body, st, 0).Normal? && Models(start.path, At(s))
    ensures Visible(ExecBlock(body, st, 0).st).Keys == scope
    ensures Reads(Vals(end.env, s), Visible(ExecBlock(body, st, 0).st))
  {
    hide OkSeq, NoReturns, LoopFreeAll, AllExamined, Visible, Bounded, Covers, Reads, Vals, Run, Models, Push, Pop, WithPre, ExecSeq,
      Clean, Follows, Tracks, NamesAre, Exclusive, Continues, Evolves, RunFrom;
    var start', log' := start.(pre := True), Log([], {}, k, false);
    var run, run' := Run(body, start, log), Run(body, start', log');
    RunAnyLog(body, start, log, log', True);
    EmptyClean(run'.log);
    RunExclusive(body, start, log, s);
    RunExclusive(body, start', log', s);
    ContinueAt(run.states, start.path, s, end);
    PushVisible(st);
    PushNonempty(st);
    BeginFollows(start', Push(st), scope, globals, k, s);
    RunOne(body, start', log');
    var end', s' := RunFromSound(body, Push(st), 0, [start'], start', log', s, map[], globals);
    RunFromDescends(body, Push(st), 0, [start'], start', log', s, map[], globals);
    SeqInTime(body, Push(st), 0);
    SeqKeeps(body, Push(st), 0, globals);
    var o := ExecSeq(body, Push(st), 0);
    LeaveBlock(st, o.st, globals);
    FollowsNamed(end', o.st, map[], globals, run'.log.counter, s);
    WithPreHas(run.states, True, end);
    AtMostOne(run'.states, end.(pre := True), end', s);
    ReadsLess(Vals(end.env, s), Visible(Pop(o.st)), Visible(o.st));
  }

  lemma EmptyClean(log: Log)
    requires log.conditions == [] && log.unknowns == {} && !log.tooMany
    ensures Clean(log)
  {
  }

  lemma ContinueAt(states: seq<State>, path: Formula, s: Valuation, end: State)
    requires Continues(states, path, s) && end in states && Models(end.path, At(s))
    ensures Models(path, At(s))
  {
    hide Models;
  }

  lemma BeginFollows(start: State, st: Store, scope: set<string>, globals: set<string>, k: nat, s: Valuation)
    requires st != [] && Visible(st).Keys == scope && NamesAre(scope) && Bounded(start, k) && Covers(start.env, scope, globals)
    requires !start.returned && start.pre == True && Models(start.path, At(s)) && Reads(Vals(start.env, s), Visible(st))
    ensures Follows(start, st, map[], globals, k, s)
  {
    hide Bounded, Vals, Visible, Name;
    TrueOver();
  }

  lemma RunOne(body: seq<Stmt>, state: State, log: Log)
    ensures Run(body, state, log) == RunFrom(body, [state], log)
  {
    hide RunFrom;
  }

  lemma WithPreHas(states: seq<State>, pre: Formula, e: State)
    requires e in states
    ensures e.(pre := pre) in WithPre(states, pre)
  {
    var i :| 0 <= i < |states| && states[i] == e;
    assert WithPre(states, pre)[i] == e.(pre := pre);
  }

  lemma ReadsLess(v: Assignment, small: View, big: View)
    requires Reads(v, big) && Restricts(small, big)
    ensures Reads(v, small)
  {
  }

  lemma PlainAt(log: Log, c: Condition)
    requires Plainly(log) && c in log.conditions
    ensures Dpll.PlainFormula(c.formula)
  {
  }

  /** Nothing in the loop became an unknown. */
  lemma LoopUnknowns(loop: Stmt, state: State, log: Log)
    requires loop.While? && Annotated(loop)
    requires Step(loop, state, log).log.unknowns == {} && !Step(loop, state, log).log.tooMany
    ensures var invs, variant, test := loop.invariants, loop.variant, loop.test;
      var top := Forget(state.env, '$', log.counter);
      var log2 := LoopTopLog(test, invs, variant, top, EnterLoop(invs, state, log));
      var pass := Run(loop.body, LoopTop(test, invs, top, state.pre), log2);
      && log.unknowns == {} && log2.unknowns == {} && pass.log.unknowns == {} && !pass.log.tooMany
      && LoopConditions(pass.states, test, invs, variant, top, pass.log).unknowns == {}
  {
    hide AllOf, ToFormula, Run, Forget, LoopConditions, LeaveLoop, EnterLoop, LoopTopLog, LoopTop;
    var invs, variant, test := loop.invariants, loop.variant, loop.test;
    var log1 := EnterLoop(invs, state, log);
    var top := Forget(state.env, '$', log1.counter);
    var log2 := LoopTopLog(test, invs, variant, top, log1);
    var pass := Run(loop.body, LoopTop(test, invs, top, state.pre), log2);
    var log3 := LoopConditions(pass.states, test, invs, variant, top, pass.log);
    assert Step(loop, state, log) == LeaveLoop(test, invs, state, log3);
    ExtendsTransitive(log, log1, log2);
    ExtendsTransitive(log, log2, pass.log);
  }

  lemma EndUnknowns(loop: Stmt, ends: seq<State>, top: Env, log: Log, e: State)
    requires loop.While? && e in ends
    requires LoopConditions(ends, loop.test, loop.invariants, loop.variant, top, log).unknowns == {}
    ensures AllOf(loop.invariants, e.env).unknowns == {}
    ensures loop.variant.Some? ==> ToLinear(loop.variant.value, e.env).unknowns == {}
  {
    hide AllOf, ToLinear, Implies, PassConditions, LinearExpr.Minus;
    LoopPassMember(ends, e, loop.test, loop.invariants, loop.variant, top, log);
    if loop.variant.Some? {
      PassVariant(ends, e, loop.invariants, loop.variant, VariantTerm(loop.variant, top).l, log);
    }
  }

  /** The start of a pass, with any precondition, is over symbols older than the next. */
  lemma StartTidy(loop: Stmt, state: State, log: Log, scope: set<string>, globals: set<string>)
    requires loop.While? && OkStmt(loop, scope, globals) && NamesAre(scope)
    requires Bounded(state, log.counter) && Covers(state.env, scope, globals)
    requires LoopTopLog(loop.test, loop.invariants, loop.variant, Forget(state.env, '$', log.counter),
                        EnterLoop(loop.invariants, state, log)).unknowns == {}
    ensures var top := Forget(state.env, '$', log.counter); var start := LoopTop(loop.test, loop.invariants, top, state.pre);
      && !start.returned && start.env == top && Covers(top, scope, globals) && Bounded(start.(pre := True), log.counter + 1)
  {
    hide AllOf, ToFormula, VariantTerm, OkSeq, NoReturns, Name, NamesOf, AllNamed, Conj, Fresh, Bounded;
    var top := Forget(state.env, '$', log.counter);
    var empty := Log([], {}, log.counter, false);
    var state' := state.(pre := True);
    TopUnknowns(loop.test, loop.invariants, loop.variant, top, EnterLoop(loop.invariants, state, log));
    TrueAnyway(state, log.counter);
    LoopTopTidy(loop.test, loop.invariants, loop.variant, state', empty, scope);
  }

  lemma TrueAnyway(state: State, k: nat)
    requires Bounded(state, k)
    ensures Bounded(state.(pre := True), k)
  {
    hide Plain, Mentions;
  }

  lemma OneScope(top: Env, scope: set<string>, s: Valuation)
    ensures TopStore(top, scope, s) != []
  {
  }

  /** A refuted condition on a pass: its path holds, and what it says does not. */
  lemma OnPassFalse(c: Condition, e: State, invs: seq<Expr>, variant: Option<Expr>, before: Linear, s: Valuation)
    requires OnPass(c, e, invs, variant, before) && !Models(c.formula, At(s))
    ensures Models(e.path, At(s)) && (c.kind.LoopPreserved? || c.kind.VariantDecreases?)
    ensures c.kind.LoopPreserved? ==> !Models(AllOf(invs, e.env).f, At(s))
    ensures c.kind.VariantDecreases? ==> variant.Some? && Eval(ToLinear(variant.value, e.env).l, s) >= Eval(before, s)
  {
    hide AllOf, Implies, ToLinear, LinearExpr.Minus, Eval;
    if c.kind.LoopPreserved? {
      ImpliesMeans(e.path, AllOf(invs, e.env).f, At(s));
    } else {
      var v := ToLinear(variant.value, e.env).l;
      ImpliesMeans(e.path, Atom(Lt, LinearExpr.Minus(v, before)), At(s));
      MinusEval(v, before, s);
    }
  }

  lemma PassDenied(loop: Stmt, top: Env, e: State, s: Valuation, st: Store, c: Condition)
    requires loop.While? && ExecBlock(loop.body, st, 0).Normal? && NamesAre(Visible(st).Keys)
    requires Visible(ExecBlock(loop.body, st, 0).st).Keys == Visible(st).Keys
    requires Reads(Vals(top, s), Visible(st)) && Reads(Vals(e.env, s), Visible(ExecBlock(loop.body, st, 0).st))
    requires AllNamed(loop.invariants, Visible(st).Keys) && AllOf(loop.invariants, e.env).unknowns == {}
    requires loop.variant.Some? ==>
      && NamesOf(loop.variant.value) <= Visible(st).Keys && VariantTerm(loop.variant, top).unknowns == {}
      && ToLinear(loop.variant.value, e.env).unknowns == {}
    requires c.kind.LoopPreserved? || c.kind.VariantDecreases?
    requires c.kind.LoopPreserved? ==> !Models(AllOf(loop.invariants, e.env).f, At(s))
    requires c.kind.VariantDecreases? ==>
      loop.variant.Some? && Eval(ToLinear(loop.variant.value, e.env).l, s) >= Eval(VariantTerm(loop.variant, top).l, s)
    ensures Denies(loop, st, c.kind)
  {
    hide AllOf, ToLinear, Eval, EvalNum, EvalTest, ExecBlock, Visible, Vals, Name, NamesOf, Models, Reads, AllNamed;
    var after := ExecBlock(loop.body, st, 0).st;
    if c.kind.LoopPreserved? {
      ClausesMean(loop.invariants, e.env, s, Visible(after));
      var broken :| broken in loop.invariants && EvalTest(broken, Visible(after), None) != Some(true);
      var b := EvalTest(broken, Visible(after), None);
      assert b.Some? && !b.value;
    } else {
      TermReads(loop.variant.value, top, s, st);
      TermReads(loop.variant.value, e.env, s, after);
    }
  }

  lemma NonNegativeDenied(loop: Stmt, path: Formula, top: Env, s: Valuation, st: Store, c: Condition)
    requires loop.While? && loop.variant.Some? && c.kind.VariantNonNegative? && !Models(c.formula, At(s))
    requires c.formula == Implies(path, Atom(Le, LinearExpr.Minus(Constant(Zero()), VariantTerm(loop.variant, top).l)))
    requires NamesOf(loop.variant.value) <= Visible(st).Keys && NamesAre(Visible(st).Keys)
    requires VariantTerm(loop.variant, top).unknowns == {} && Reads(Vals(top, s), Visible(st))
    ensures Models(path, At(s)) && Denies(loop, st, c.kind)
  {
    hide ToLinear, Eval, EvalNum, Visible, Vals, Name, NamesOf, Reads, Implies, LinearExpr.Minus, ExecBlock;
    var before := VariantTerm(loop.variant, top).l;
    ImpliesMeans(path, Atom(Le, LinearExpr.Minus(Constant(Zero()), before)), At(s));
    MinusEval(Constant(Zero()), before, s);
    ConstantEval(Zero(), s);
    TermReads(loop.variant.value, top, s, st);
  }

  /** Every refutation of the annotation of a loop, whose body has no loop, comes from a state where a pass
      may begin and where what the condition says does not hold. */
  lemma RefutedAnnotation(loop: Stmt, state: State, log: Log, scope: set<string>, globals: set<string>, c: Condition,
                          maxAtoms: nat, budget: nat) returns (st: Store)
    requires loop.While? && Annotated(loop) && LoopFreeAll(loop.body) && AllExamined(loop.body)
    requires OkStmt(loop, scope, globals) && NamesAre(scope)
    requires Bounded(state, log.counter) && Covers(state.env, scope, globals) && Plainly(log)
    requires Step(loop, state, log).log.unknowns == {} && !Step(loop, state, log).log.tooMany
    requires c in Step(loop, state, log).log.conditions && c !in log.conditions && c.kind != LoopEstablished
    requires Judge(c.formula, maxAtoms, budget) == No
    ensures Visible(st).Keys == scope && RationalView(Visible(st)) && MayBegin(loop, st) && Denies(loop, st, c.kind)
  {
    hide OkSeq, NoReturns, LoopFreeAll, AllExamined, Visible, Bounded, Covers, Reads, Vals, Run, Models, Judge, Step, Plainly, Forget,
      LoopTopLog, EnterLoop, LoopTop, VariantTerm, Implies, AllOf, RationalPoint, Dpll.Unambiguous, TopStore, Dpll.PlainFormula,
      MayBegin, Denies, OnPass, RationalView, ExecBlock, NamesAre, NamesOf, AllNamed, LinearExpr.Minus, OkStmt, LoopConditions,
      ToLinear, ToFormula, LoopFree, NoReturn;
    var top := Forget(state.env, '$', log.counter);
    var e := LoopOrigin(loop, state, log, c);
    StepTidy(loop, state, log, scope, globals);
    PlainAt(Step(loop, state, log).log, c);
    Dpll.PlainUnambiguous(c.formula);
    JudgeMeans(c.formula, maxAtoms, budget);
    var m: Interp :| RationalPoint(m.num) && FalseAnyway(c.formula, m);
    var s := m.num;
    assert SameKnown(m, At(s));
    assert !Models(c.formula, At(s));
    st := TopStore(top, scope, s);
    TopStoreReads(state.env, log.counter, scope, s);
    LoopNames(loop, scope, globals);
    LoopUnknowns(loop, state, log);
    var log2 := LoopTopLog(loop.test, loop.invariants, loop.variant, top, EnterLoop(loop.invariants, state, log));
    TopUnknowns(loop.test, loop.invariants, loop.variant, top, EnterLoop(loop.invariants, state, log));
    StartTidy(loop, state, log, scope, globals);
    OneScope(top, scope, s);
    var start := LoopTop(loop.test, loop.invariants, top, state.pre);
    if c.kind.VariantNonNegative? {
      NonNegativeDenied(loop, start.path, top, s, st, c);
    } else {
      OnPassFalse(c, e, loop.invariants, loop.variant, VariantTerm(loop.variant, top).l, s);
      PassFollowsPath(loop.body, start, log2, st, scope, globals, log.counter + 1, s, e);
      var pass := Run(loop.body, start, log2);
      EndUnknowns(loop, pass.states, top, pass.log, e);
      PassDenied(loop, top, e, s, st, c);
    }
    TopBegins(loop, top, state.pre, s, st);
  }

  lemma ScopeReads(env: Env, scope: set<string>, s: Valuation)
    ensures var st := TopStore(env, scope, s); Visible(st).Keys == scope && Reads(Vals(env, s), Visible(st))
  {
    hide Eval;
    var st := TopStore(env, scope, s);
    assert st[..0] == [] && Visible(st) == Visible([]) + st[0] == st[0];
  }

  /** A refutation of the invariants on entry comes from a store that the state at the loop stands for, under
      some valuation that makes its path and the precondition true, and in which an invariant is false. */
  lemma RefutedEntry(loop: Stmt, state: State, log: Log, scope: set<string>, globals: set<string>, maxAtoms: nat, budget: nat)
    returns (st: Store, s: Valuation)
    requires loop.While? && OkStmt(loop, scope, globals) && NamesAre(scope) && Bounded(state, log.counter) && Plainly(log)
    requires EnterLoop(loop.invariants, state, log).unknowns == {}
    requires Judge(EnterLoop(loop.invariants, state, log).conditions[|log.conditions|].formula, maxAtoms, budget) == No
    ensures Visible(st).Keys == scope && Tracks(state, Visible(st), map[], s)
    ensures exists e :: e in loop.invariants && EvalTest(e, Visible(st), None) == Some(false)
  {
    hide AllOf, Visible, Bounded, Reads, Vals, Models, Judge, Plainly, Implies, Conj, RationalPoint, Dpll.Unambiguous, TopStore,
      Dpll.PlainFormula, NamesAre, NamesOf, AllNamed, OkStmt, EvalTest;
    var log1 := EnterLoop(loop.invariants, state, log);
    var inv := AllOf(loop.invariants, state.env);
    var f := Implies(Conj([state.pre, state.path]), inv.f);
    assert log1.conditions[|log.conditions|] == Condition(LoopEstablished, f);
    LoopNames(loop, scope, globals);
    EnterTidy(loop.invariants, state, log, scope);
    PlainAt(log1, Condition(LoopEstablished, f));
    Dpll.PlainUnambiguous(f);
    JudgeMeans(f, maxAtoms, budget);
    var m: Interp :| RationalPoint(m.num) && FalseAnyway(f, m);
    s := m.num;
    assert SameKnown(m, At(s));
    ImpliesMeans(Conj([state.pre, state.path]), inv.f, At(s));
    Conj2Means(state.pre, state.path, At(s));
    st := TopStore(state.env, scope, s);
    ScopeReads(state.env, scope, s);
    assert Reads(Vals(state.env, s), map[]) by { ReadsNothing(Vals(state.env, s)); }
    ClausesMean(loop.invariants, state.env, s, Visible(st));
    var broken :| broken in loop.invariants && EvalTest(broken, Visible(st), None) != Some(true);
    var b := EvalTest(broken, Visible(st), None);
    assert b.Some? && !b.value;
  }

  lemma ReadsNothing(v: Assignment)
    ensures Reads(v, map[])
  {
  }

  lemma LoopNames(loop: Stmt, scope: set<string>, globals: set<string>)
    requires loop.While? && OkStmt(loop, scope, globals)
    ensures NamesOf(loop.test) <= scope && AllNamed(loop.invariants, scope) && OkSeq(loop.body, scope, globals)
    ensures NoReturns(loop.body) && (loop.variant.Some? ==> NamesOf(loop.variant.value) <= scope)
  {
  }
}
