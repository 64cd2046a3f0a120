/** A variant is a number, not a whole number, so that it is proved does not mean that the loop ends: a loop
    that halves its variable is proved, and never ends. */
module Zeno {
  import opened Rational
  import opened LinearExpr
  import opened Formulas
  import opened FourierMotzkin
  import opened Programs
  import opened VcGen
  import opened Denotation
  import opened Fragment
  import opened Symbols
  import opened Soundness
  import opened Limits
  import Dpll
  import Bindings

  const NUM2 := Num(Ratio(2, 1), "2")
  const POSITIVE := Bin(Greater, Ident("i"), NUM0)
  const HALF := Bin(Divide, Ident("i"), NUM2)
  const HALVING := While(POSITIVE, [], Some(Ident("i")), [Assign("i", HALF)])
  /** `while i > 0 variant i { i = i / 2 }`. */
  const HALVE_FN := Function(["i"], [], [], [HALVING])

  ghost function Among(names: set<string>): iset<string> {
    iset x | x in names
  }

  /** Between two atoms over one symbol, an implication that holds is judged proved. */
  lemma ImplicationJudged(a: Formula, b: Formula, v: string, maxAtoms: nat, budget: nat)
    requires a.Atom? && b.Atom? && Over(a, Among({v})) && Over(b, Among({v})) && Plain(v)
    requires (forall m :: Models(a, m) ==> Models(b, m)) && maxAtoms >= 2 && budget >= 15
    ensures Judge(Implies(a, b), maxAtoms, budget) == Yes
  {
    hide Judge, Models, Over, Plain;
    var f := Implies(a, b);
    DisjTwo(Formula.Not(a), b);
    assert f == Or([Formula.Not(a), b]);
    forall m ensures Models(f, m) { ImpliesMeans(a, b, m); }
    var names := {v};
    NotOver(a, Among(names));
    Conj2Over(a, b, Among(names));
    PairAtoms(Formula.Not(a), b);
    assert Dpll.AtomsIn(f) == {a} + {b} == {a, b};
    SubsetCount(Dpll.AtomsIn(f), {a, b});
    assert Room(6, 1) == 15;
    JudgedProved(f, names, 2, maxAtoms, budget);
  }

  function Above(v: string): Formula {
    Atom(Lt, LinearExpr.Minus(C0, Variable(v)))
  }

  function Halved(v: string): Linear {
    NonZeroValue(Ratio(2, 1));
    Scale(Variable(v), Div(One(), Ratio(2, 1)))
  }

  lemma HalfValue()
    ensures Ratio(2, 1).n != 0 && Val(Div(One(), Ratio(2, 1))) == 0.5
  {
    hide Div;
    assert Val(Ratio(2, 1)) == 2.0 && Val(One()) == 1.0;
  }

  lemma HalvedIs(v: string, s: Valuation)
    ensures Eval(Halved(v), s) == s(v) / 2.0 && Eval(Variable(v), s) == s(v) && Eval(C0, s) == 0.0
  {
    hide Eval, Scale, Div;
    NonZeroValue(Ratio(2, 1));
    ScaleEval(Variable(v), Div(One(), Ratio(2, 1)), s);
    HalfValue();
    VariableEval(v, s);
    ConstantEval(Ratio(0, 1), s);
    UnitValues();
  }

  lemma TermsOver(v: string)
    ensures var names := Among({v});
      Mentions(Halved(v), names) && Mentions(Variable(v), names) && Mentions(C0, names)
  {
    hide Mentions;
    var names := Among({v});
    VariableIn(v, names);
    NonZeroValue(Ratio(2, 1));
    OperationsMention(Variable(v), Variable(v), Div(One(), Ratio(2, 1)), names);
    Limits.ConstantMentions(Ratio(0, 1), names);
  }

  lemma DecreaseJudged(v: string, maxAtoms: nat, budget: nat)
    requires Plain(v) && maxAtoms >= 2 && budget >= 15
    ensures Judge(Implies(Above(v), Atom(Lt, LinearExpr.Minus(Halved(v), Variable(v)))), maxAtoms, budget) == Yes
  {
    hide Judge, Implies, LinearExpr.Minus, Eval, Halved, Plain, Mentions;
    var goal := Atom(Lt, LinearExpr.Minus(Halved(v), Variable(v)));
    TermsOver(v);
    MinusMentions(C0, Variable(v), Among({v}));
    MinusMentions(Halved(v), Variable(v), Among({v}));
    forall m | Models(Above(v), m) ensures Models(goal, m) {
      HalvedIs(v, m.num);
      MinusEval(C0, Variable(v), m.num);
      MinusEval(Halved(v), Variable(v), m.num);
    }
    ImplicationJudged(Above(v), goal, v, maxAtoms, budget);
  }

  lemma FloorJudged(v: string, maxAtoms: nat, budget: nat)
    requires Plain(v) && maxAtoms >= 2 && budget >= 15
    ensures Judge(Implies(Above(v), Atom(Le, LinearExpr.Minus(Constant(Zero()), Variable(v)))), maxAtoms, budget) == Yes
  {
    hide Judge, Implies, LinearExpr.Minus, Eval, Plain, Mentions;
    var goal := Atom(Le, LinearExpr.Minus(Constant(Zero()), Variable(v)));
    TermsOver(v);
    MinusMentions(C0, Variable(v), Among({v}));
    Limits.ConstantMentions(Zero(), Among({v}));
    MinusMentions(Constant(Zero()), Variable(v), Among({v}));
    forall m | Models(Above(v), m) ensures Models(goal, m) {
      HalvedIs(v, m.num);
      ConstantEval(Zero(), m.num);
      MinusEval(C0, Variable(v), m.num);
      MinusEval(Constant(Zero()), Variable(v), m.num);
    }
    ImplicationJudged(Above(v), goal, v, maxAtoms, budget);
  }

  lemma NoClauses(env: Env)
    ensures AllOf([], env) == Form(True, {})
  {
    assert ToFormulas([], env) == Forms([], {});
    NothingToConj();
  }

  lemma TopAbove(top: Env, pre: Formula, v: string)
    requires top == map["i" := Variable(v)]
    ensures LoopTop(POSITIVE, [], top, pre) == State(top, Above(v), pre, false) && ToFormula(POSITIVE, top).unknowns == {}
  {
    hide LinearExpr.Minus, Conj, AllOf, Variable;
    NoClauses(top);
    assert ToFormula(POSITIVE, top) == Form(Above(v), {});
    ConjOne(Above(v));
  }

  lemma HalfTerm(top: Env, v: string)
    requires top == map["i" := Variable(v)]
    ensures ToLinear(HALF, top) == Lin(Halved(v), {})
  {
    hide Scale, Div, SyntaxKey, Variable;
    NonZeroValue(Ratio(2, 1));
    assert ToLinear(NUM2, top) == Lin(Constant(Ratio(2, 1)), {});
    assert ToLinear(Ident("i"), top) == Lin(Variable(v), {});
  }

  lemma AssignWalk(x: string, e: Expr, state: State, log: Log)
    requires !state.returned
    ensures var v := ToLinear(e, state.env);
      Run([Assign(x, e)], state, log) == Out([state.(env := state.env[x := v.l])], Seen(log, v.unknowns))
  {
    hide ToLinear, RunFrom, StepAll;
    OneStep(Assign(x, e), state, log);
  }

  /** The walk over one pass. */
  lemma PassWalk(top: Env, path: Formula, pre: Formula, v: string, log: Log)
    requires top == map["i" := Variable(v)]
    ensures Run(HALVING.body, State(top, path, pre, false), log) == Out([State(map["i" := Halved(v)], path, pre, false)], log)
  {
    hide Halved, Variable, ToLinear, Run;
    HalfTerm(top, v);
    assert top["i" := Halved(v)] == map["i" := Halved(v)];
    AssignWalk("i", HALF, State(top, path, pre, false), log);
    assert Seen(log, {}) == log;
  }

  lemma HalveConditions(maxAtoms: nat, budget: nat)
    requires maxAtoms >= 2 && budget >= 15
    ensures Passed(Conditions(HALVE_FN), maxAtoms, budget) && Conditions(HALVE_FN).unknowns == {}
  {
    hide Judge, Run, Implies, Conj, LinearExpr.Minus, Variable, Fresh, Halved, Plain, Passed, ToFormula, Above;
    var fn, k := HALVE_FN, 0;
    HalveStart();
    ConditionsSplit(fn);
    var s, log := EntryState(fn), EntryLog(fn);
    var v := Fresh('$', "i", 0);
    var top: Env := map["i" := Variable(v)];
    assert Forget(s.env, '$', 0) == top;
    var log1 := EnterLoop([], s, log);
    var log2 := LoopTopLog(POSITIVE, [], Some(Ident("i")), top, log1);
    NoClauses(s.env);
    NoClauses(top);
    TopAbove(top, s.pre, v);
    PassWalk(top, Above(v), s.pre, v, log2);
    var end := State(map["i" := Halved(v)], Above(v), s.pre, false);
    var pass := Run(HALVING.body, LoopTop(POSITIVE, [], top, s.pre), log2);
    assert pass == Out([end], log2);
    EnterPassed(s, log, top, maxAtoms, budget);
    FreshPlain('$', "i", 0);
    HalveChecks(end, top, v, log2, maxAtoms, budget);
    hide PassConditions, EnterLoop, LoopTopLog;
    var log3 := LoopConditions([end], POSITIVE, [], Some(Ident("i")), top, log2);
    assert Step(HALVING, s, log) == LeaveLoop(POSITIVE, [], s, log3);
    LeavePassed(s, log3, maxAtoms, budget);
    OneStep(HALVING, s, log);
  }

  lemma HalveStart()
    ensures EntryState(HALVE_FN) == State(map["i" := Variable("i")], True, True, false)
    ensures EntryLog(HALVE_FN) == Log([], {}, 0, false)
  {
    assert SeedParams(["i"]) == map["i" := Variable("i")];
    NoClauses(map["i" := Variable("i")]);
  }

  lemma LeavePassed(s: State, log: Log, maxAtoms: nat, budget: nat)
    requires Passed(log, maxAtoms, budget) && log.unknowns == {} && "i" in s.env
    ensures var o := LeaveLoop(POSITIVE, [], s, log); |o.states| == 1 && Passed(o.log, maxAtoms, budget) && o.log.unknowns == {}
  {
    hide Judge, Fresh, LinearExpr.Minus;
    var after := Forget(s.env, '$', log.counter);
    NoClauses(after);
    assert ToFormula(POSITIVE, after).unknowns == {};
    SameConditionsPassed(log, LeaveLoop(POSITIVE, [], s, log).log, maxAtoms, budget);
  }

  /** What is recorded before the pass. */
  lemma EnterPassed(s: State, log: Log, top: Env, maxAtoms: nat, budget: nat)
    requires log == Log([], {}, 0, false) && "i" in top
    ensures var log2 := LoopTopLog(POSITIVE, [], Some(Ident("i")), top, EnterLoop([], s, log));
      Passed(log2, maxAtoms, budget) && log2.unknowns == {} && log2.counter == 1
  {
    hide Judge, Implies, Conj, LinearExpr.Minus, Passed;
    NoClauses(s.env);
    NoClauses(top);
    ImpliesTrue(Conj([s.pre, s.path]));
    TrueJudged(maxAtoms, budget);
    NothingPassed(maxAtoms, budget);
    RecordPassed(log, LoopEstablished, True, {}, maxAtoms, budget);
    assert ToFormula(POSITIVE, top).unknowns == {};
    var log1 := EnterLoop([], s, log);
    SameConditionsPassed(log1, LoopTopLog(POSITIVE, [], Some(Ident("i")), top, log1), maxAtoms, budget);
  }

  /** What is recorded after it. */
  lemma HalveChecks(end: State, top: Env, v: string, log: Log, maxAtoms: nat, budget: nat)
    requires maxAtoms >= 2 && budget >= 15 && Plain(v) && Passed(log, maxAtoms, budget) && log.unknowns == {}
    requires top == map["i" := Variable(v)] && end.env == map["i" := Halved(v)] && end.path == Above(v)
    ensures Passed(LoopConditions([end], POSITIVE, [], Some(Ident("i")), top, log), maxAtoms, budget)
    ensures LoopConditions([end], POSITIVE, [], Some(Ident("i")), top, log).unknowns == {}
  {
    hide Judge, Implies, Conj, LinearExpr.Minus, Variable, Fresh, Halved, Above, Passed, Plain;
    var vi := Some(Ident("i"));
    NoClauses(end.env);
    TopAbove(top, True, v);
    ImpliesTrue(end.path);
    TrueJudged(maxAtoms, budget);
    DecreaseJudged(v, maxAtoms, budget);
    FloorJudged(v, maxAtoms, budget);
    var before := Variable(v);
    var one := Record(log, LoopPreserved, True, {});
    RecordPassed(log, LoopPreserved, True, {}, maxAtoms, budget);
    var down := Implies(Above(v), Atom(Lt, LinearExpr.Minus(Halved(v), before)));
    var two := Record(one, VariantDecreases, down, {});
    RecordPassed(one, VariantDecreases, down, {}, maxAtoms, budget);
    assert PassConditions([], [], vi, before, two) == two;
    assert [end][1..] == [];
    assert PassConditions([end], [], vi, before, log) == two;
    RecordPassed(two, VariantNonNegative, Implies(Above(v), Atom(Le, LinearExpr.Minus(Constant(Zero()), before))), {},
                 maxAtoms, budget);
  }

  lemma NothingPassed(maxAtoms: nat, budget: nat)
    ensures Passed(Log([], {}, 0, false), maxAtoms, budget)
  {
  }

  // ---- and it never ends --------------------------------------------------------------------------------

  ghost function At(i: real): Store {
    [map[], map["i" := i]]
  }

  lemma HalfEvaluates(view: View, i: real)
    requires "i" in view && view["i"] == i
    ensures EvalNum(HALF, view, None) == Some(i / 2.0)
    ensures i > 0.0 ==> EvalTest(POSITIVE, view, None) == Some(true)
  {
    UnitValues();
    assert Val(Ratio(2, 1)) == 2.0;
  }

  lemma OneAssign(x: string, e: Expr, st: Store, fuel: nat, v: real)
    requires st != [] && x in Visible(st) && EvalNum(e, Visible(st), None) == Some(v)
    ensures ExecSeq([Assign(x, e)], st, fuel) == Normal(AssignIn(st, x, v))
  {
    hide EvalNum, Visible, AssignIn;
    var body := [Assign(x, e)];
    assert body[1..] == [];
  }

  lemma OnePass(i: real, fuel: nat)
    requires i > 0.0
    ensures EvalTest(POSITIVE, Visible(At(i)), None) == Some(true)
    ensures ExecBlock(HALVING.body, At(i), fuel) == Normal(At(i / 2.0))
  {
    hide EvalTest, EvalNum, ExecSeq, Visible, AssignIn;
    TwoScopes(map[], map["i" := i]);
    assert map[] + map["i" := i] == map["i" := i];
    PushVisible(At(i));
    PushVisible(At(i / 2.0));
    AssignTop(map[], map["i" := i], "i", i / 2.0);
    assert Push(At(i)) == [map[], map["i" := i], map[]] && Push(At(i / 2.0)) == [map[], map["i" := i / 2.0], map[]];
    assert map["i" := i]["i" := i / 2.0] == map["i" := i / 2.0];
    HalfEvaluates(Visible(Push(At(i))), i);
    OneAssign("i", HALF, Push(At(i)), fuel, i / 2.0);
  }

  lemma {:induction false} NeverDone(i: real, fuel: nat)
    requires i > 0.0
    ensures ExecWhile(HALVING, At(i), fuel) == Timeout
    decreases fuel
  {
    hide EvalTest, ExecBlock, Visible, At;
    if fuel > 0 {
      OnePass(i, fuel - 1);
      NeverDone(i / 2.0, fuel - 1);
    }
  }

  /** Proved, without unknowns, in the fragment, with a variant; and no call with a positive number ends. */
  lemma ProvedNeverEnds(i: real, fuel: nat, maxAtoms: nat, budget: nat)
    requires i > 0.0 && maxAtoms >= 2 && budget >= 15
    ensures Proved(HALVE_FN, maxAtoms, budget) && Conditions(HALVE_FN).unknowns == {} && OkFunction(HALVE_FN, {})
    ensures ExecSeq(HALVE_FN.body, [map[], map["i" := i]], fuel) == Timeout
  {
    hide Conditions, Passed, ExecWhile;
    HalveConditions(maxAtoms, budget);
    PassedProves(HALVE_FN, maxAtoms, budget);
    NeverDone(i, fuel);
    assert ExecStmt(HALVING, At(i), fuel) == Timeout;
    HalveInFragment();
  }

  lemma HalveInFragment()
    ensures OkFunction(HALVE_FN, {})
  {
    hide OkSeq, Name;
    BodyInFragment();
    var scope := {} + (set p | p in HALVE_FN.params);
    assert scope == {"i"} && {} - (set p | p in HALVE_FN.params) == {};
    assert OldArgsOf([]) == [];
    assert Bindings.Distinct(["i"]);
    assert Name("i") by { IsName(); }
  }

  lemma IsName()
    ensures Name("i")
  {
  }

  lemma BodyInFragment()
    ensures OkSeq(HALVE_FN.body, {"i"}, {})
  {
    var assign := Assign("i", HALF);
    assert NamesOf(NUM0) == {} && NamesOf(NUM2) == {} && NamesOf(Ident("i")) == {"i"};
    assert NamesOf(POSITIVE) == {"i"} && NamesOf(HALF) == {"i"};
    hide NamesOf;
    assert OkStmt(assign, {"i"}, {});
    SingleOk(assign, {"i"});
    assert NoReturn(assign) && HALVING.body[1..] == [];
    assert NoReturns(HALVING.body);
    hide NoReturns;
    assert AllNamed([], {"i"});
    assert OkStmt(HALVING, {"i"}, {}) by { hide OkSeq; }
    SingleOk(HALVING, {"i"});
  }

  lemma SingleOk(stmt: Stmt, scope: set<string>)
    requires OkStmt(stmt, scope, {})
    ensures OkSeq([stmt], scope, {})
  {
    hide OkStmt;
    assert [stmt][1..] == [];
  }
}
