/** What a proved variant is worth: at the top of every pass of every annotated loop that a call gets to, it
    is at least 0 and below what it was a pass before. That bounds the passes when its values are whole. */
module Descent {
  import opened Rational
  import opened LinearExpr
  import opened Formulas
  import opened FourierMotzkin
  import opened Programs
  import opened VcGen
  import opened Denotation
  import opened Fragment
  import opened Symbols
  import opened Soundness

  /** A pass from one store to another: the variant was at least 0, and it has gone down. */
  ghost predicate Drops(variant: Option<Expr>, before: Store, after: Store) {
    variant.Some? ==>
      var x, y := EvalNum(variant.value, Visible(before), None), EvalNum(variant.value, Visible(after), None);
      x.Some? && y.Some? && 0.0 <= x.value && y.value < x.value
  }

  /** The variant is at least 0 whenever a pass begins, the last included, which may never end. */
  ghost predicate Starts(variant: Option<Expr>, st: Store) {
    variant.Some? ==>
      var now := EvalNum(variant.value, Visible(st), None);
      now.Some? && 0.0 <= now.value
  }

  /** Every pass of every annotated loop on the way descends. A loop without an annotation is not looked
      into, as the verifier does not. */
  ghost predicate StmtDescends(stmt: Stmt, st: Store, fuel: nat)
    decreases fuel, stmt, 1
  {
    match stmt
    case If(test, thn, alt) =>
      var b := EvalTest(test, Visible(st), None);
      b.Some? ==>
        if b.value then SeqDescends(thn, Push(st), fuel)
        else alt.Some? ==> StmtDescends(alt.value, st, fuel)
    case Block(body) => SeqDescends(body, Push(st), fuel)
    case While(_, _, _, _) => Annotated(stmt) ==> WhileDescends(stmt, st, fuel)
    case _ => true
  }

  ghost predicate SeqDescends(body: seq<Stmt>, st: Store, fuel: nat)
    decreases fuel, body, 0
  {
    body != [] ==>
      && StmtDescends(body[0], st, fuel)
      && var o := ExecStmt(body[0], st, fuel);
         o.Normal? ==> SeqDescends(body[1..], o.st, fuel)
  }

  ghost predicate WhileDescends(loop: Stmt, st: Store, fuel: nat)
    requires loop.While?
    decreases fuel, loop, 0
  {
    fuel > 0 && EvalTest(loop.test, Visible(st), None) == Some(true) ==>
      && Starts(loop.variant, st)
      && SeqDescends(loop.body, Push(st), fuel - 1)
      && var o := ExecBlock(loop.body, st, fuel - 1);
         o.Normal? || o.Continued? ==> Drops(loop.variant, st, o.st) && WhileDescends(loop, o.st, fuel - 1)
  }

  // ---- the conditions on a variant ------------------------------------------------------------------

  lemma {:induction false} PassVariant(ends: seq<State>, e: State, invs: seq<Expr>, variant: Option<Expr>, before: Linear, log: Log)
    requires e in ends && variant.Some?
    ensures var r := PassConditions(ends, invs, variant, before, log); var v := ToLinear(variant.value, e.env);
      && Condition(VariantDecreases, Implies(e.path, Atom(Lt, LinearExpr.Minus(v.l, before)))) in r.conditions
      && v.unknowns <= r.unknowns
  {
    hide AllOf, ToLinear, Implies, LinearExpr.Minus;
    var restored := AllOf(invs, ends[0].env);
    var log1 := Record(log, LoopPreserved, Implies(ends[0].path, restored.f), restored.unknowns);
    var v := ToLinear(variant.value, ends[0].env);
    var f := Implies(ends[0].path, Atom(Lt, LinearExpr.Minus(v.l, before)));
    var log2 := Record(log1, VariantDecreases, f, v.unknowns);
    if e == ends[0] {
      assert log2.conditions[|log1.conditions|] == Condition(VariantDecreases, f);
      PrefixMember(log2.conditions, PassConditions(ends[1..], invs, variant, before, log2).conditions,
                   Condition(VariantDecreases, f));
    } else {
      assert e in ends[1..];
      PassVariant(ends[1..], e, invs, variant, before, log2);
    }
  }

  lemma BelowBefore(e: State, v: Linear, before: Linear, s: Valuation)
    requires Models(Implies(e.path, Atom(Lt, LinearExpr.Minus(v, before))), At(s)) && Models(e.path, At(s))
    ensures Eval(v, s) < Eval(before, s)
  {
    hide Implies, LinearExpr.Minus, Eval;
    ImpliesMeans(e.path, Atom(Lt, LinearExpr.Minus(v, before)), At(s));
    MinusEval(v, before, s);
  }

  lemma AtLeastZero(path: Formula, before: Linear, s: Valuation)
    requires Models(Implies(path, Atom(Le, LinearExpr.Minus(Constant(Zero()), before))), At(s)) && Models(path, At(s))
    ensures 0.0 <= Eval(before, s)
  {
    hide Implies, LinearExpr.Minus, Eval;
    ImpliesMeans(path, Atom(Le, LinearExpr.Minus(Constant(Zero()), before)), At(s));
    MinusEval(Constant(Zero()), before, s);
    ConstantEval(Zero(), s);
  }

  /** In a scope that reads the store, a term has the value its expression has there. */
  lemma TermReads(e: Expr, env: Env, s: Valuation, st: Store)
    requires ToLinear(e, env).unknowns == {} && NamesOf(e) <= Visible(st).Keys && NamesAre(Visible(st).Keys)
    requires Reads(Vals(env, s), Visible(st))
    ensures EvalNum(e, Visible(st), None) == Some(Eval(ToLinear(e, env).l, s))
  {
    hide ToLinear, Eval, EvalNum, NamesOf, Name, Visible, DenNum, Vals, CurrentNames;
    NoOldInside(e);
    NumEvaluates(e, Visible(st), None, env, s);
    NumAgrees(e, Visible(st), None, Vals(env, s));
    LinearDenotes(e, env, s);
  }

  /** A term over the symbols of before has kept its value. */
  lemma TermStays(l: Linear, s: Valuation, s': Valuation, k: nat)
    requires Mentions(l, NamesBelow(k)) && Stays(s, s', k)
    ensures Eval(l, s) == Eval(l, s')
  {
    hide NamesBelow;
    EvalAgrees(l.coeffs, s, s', NamesBelow(k));
  }

  /** At the top of a pass: the condition that the variant stays at or above zero, read in the store. */
  lemma TopStarts(loop: Stmt, ends: seq<State>, top: Env, log: Log, s: Valuation, st: Store)
    requires loop.While? && loop.variant.Some? && NamesOf(loop.variant.value) <= Visible(st).Keys && NamesAre(Visible(st).Keys)
    requires Clean(LoopConditions(ends, loop.test, loop.invariants, loop.variant, top, log))
    requires VariantTerm(loop.variant, top).unknowns == {} && Reads(Vals(top, s), Visible(st))
    requires Models(LoopTop(loop.test, loop.invariants, top, True).path, At(s))
    ensures Starts(loop.variant, st)
    ensures EvalNum(loop.variant.value, Visible(st), None) == Some(Eval(VariantTerm(loop.variant, top).l, s))
  {
    hide ToLinear, Eval, EvalNum, NamesOf, NamesAre, Visible, Vals, PassConditions, LoopTop, LinearExpr.Minus, Implies, Models;
    var before := VariantTerm(loop.variant, top).l;
    TermReads(loop.variant.value, top, s, st);
    var r := LoopConditions(ends, loop.test, loop.invariants, loop.variant, top, log);
    var path := LoopTop(loop.test, loop.invariants, top, True).path;
    var f := Implies(path, Atom(Le, LinearExpr.Minus(Constant(Zero()), before)));
    assert r.conditions[|r.conditions| - 1] == Condition(VariantNonNegative, f);
    assert Models(f, At(s));
    AtLeastZero(path, before, s);
  }

  /** At the end of a pass: the condition that the variant decreases, read in the two stores. */
  lemma EndDrops(loop: Stmt, ends: seq<State>, end: State, top: Env, log: Log, s: Valuation, se: Valuation, k: nat,
                 st: Store, inner: Store, after: Store, olds: View)
    requires loop.While? && loop.variant.Some? && NamesOf(loop.variant.value) <= Visible(after).Keys && NamesAre(Visible(after).Keys)
    requires Clean(LoopConditions(ends, loop.test, loop.invariants, loop.variant, top, log)) && end in ends
    requires Tracks(end, Visible(inner), olds, se) && Restricts(Visible(after), Visible(inner))
    requires Starts(loop.variant, st)
    requires EvalNum(loop.variant.value, Visible(st), None) == Some(Eval(VariantTerm(loop.variant, top).l, s))
    requires Mentions(VariantTerm(loop.variant, top).l, NamesBelow(k)) && Stays(s, se, k)
    ensures Drops(loop.variant, st, after)
  {
    hide ToLinear, Eval, EvalNum, NamesOf, NamesAre, Visible, Vals, PassConditions, LoopTop, LinearExpr.Minus, Implies, Models,
      Mentions, Stays, NamesBelow;
    var e := loop.variant.value;
    var before := VariantTerm(loop.variant, top).l;
    PassVariant(ends, end, loop.invariants, loop.variant, before, log);
    var v := ToLinear(e, end.env);
    var f := Implies(end.path, Atom(Lt, LinearExpr.Minus(v.l, before)));
    var c := PassConditions(ends, loop.invariants, loop.variant, before, log);
    PrefixMember(c.conditions, LoopConditions(ends, loop.test, loop.invariants, loop.variant, top, log).conditions,
                 Condition(VariantDecreases, f));
    assert Models(f, At(se));
    BelowBefore(end, v.l, before, se);
    TermStays(before, s, se, k);
    TracksLess(end, Visible(after), Visible(inner), olds, se);
    TermReads(e, end.env, se, after);
  }

  // ---- what was translated evaluates --------------------------------------------------------------------

  lemma StoreNames(state: State, st: Store, olds: View, globals: set<string>, k: nat, s: Valuation)
    requires Follows(state, st, olds, globals, k, s)
    ensures st != [] && NamesAre(Visible(st).Keys)
    ensures st[|st| - 1].Keys <= Visible(st).Keys
  {
  }

  lemma TermRuns(e: Expr, log: Log, state: State, st: Store, olds: View, globals: set<string>, k: nat, s: Valuation)
    requires Follows(state, st, olds, globals, k, s) && NamesOf(e) <= Visible(st).Keys
    requires Clean(log) && ToLinear(e, state.env).unknowns <= log.unknowns
    ensures EvalNum(e, Visible(st), None).Some?
  {
    hide ToLinear, EvalNum, NamesOf, Name, Visible, Vals, Bounded;
    FollowsNamed(state, st, olds, globals, k, s);
    TermReads(e, state.env, s, st);
  }

  lemma TestRuns(test: Expr, env: Env, s: Valuation, st: Store)
    requires ToFormula(test, env).unknowns == {} && NamesOf(test) <= Visible(st).Keys && NamesAre(Visible(st).Keys)
    requires Reads(Vals(env, s), Visible(st))
    ensures EvalTest(test, Visible(st), None).Some?
  {
    hide ToFormula, EvalTest, NamesOf, Name, Visible, Vals, CurrentNames;
    NoOldInside(test);
    TestEvaluates(test, Visible(st), None, env, s);
  }

  // ---- every statement --------------------------------------------------------------------------------

  lemma {:induction false} StepDescends(stmt: Stmt, st: Store, fuel: nat, state: State, log: Log, s: Valuation, olds: View,
                                        globals: set<string>)
    requires OkStmt(stmt, Visible(st).Keys, globals) && Follows(state, st, olds, globals, log.counter, s)
    requires Clean(Step(stmt, state, log).log)
    ensures StmtDescends(stmt, st, fuel) && (Examined(stmt) ==> ExecStmt(stmt, st, fuel) != Stuck)
    decreases fuel, stmt, 1, 0
  {
    hide EvalNum, EvalTest, Follows, Visible, Clean, ToFormula, ToLinear, OkSeq, AllNamed, NamesOf, Run, Loop, SeqDescends,
      WhileDescends, ExecBlock, ExecWhile, AllExamined, DeclareIn, AssignIn;
    StoreNames(state, st, olds, globals, log.counter, s);
    match stmt
    case Declare(_, e) => TermRuns(e, Step(stmt, state, log).log, state, st, olds, globals, log.counter, s);
    case Assign(_, e) => TermRuns(e, Step(stmt, state, log).log, state, st, olds, globals, log.counter, s);
    case Return(Some(e)) => TermRuns(e, Step(stmt, state, log).log, state, st, olds, globals, log.counter, s);
    case If(test, thn, alt) => IfDescends(stmt, st, fuel, state, log, s, olds, globals);
    case Block(body) => BlockDescends(body, st, fuel, state, log, s, olds, globals);
    case While(_, _, _, _) =>
      if Annotated(stmt) {
        LoopDescends(stmt, st, fuel, state, log, s, olds, globals);
      }
    case _ =>
  }

  lemma {:induction false} IfDescends(stmt: Stmt, st: Store, fuel: nat, state: State, log: Log, s: Valuation, olds: View,
                                      globals: set<string>)
    requires stmt.If? && OkStmt(stmt, Visible(st).Keys, globals) && Follows(state, st, olds, globals, log.counter, s)
    requires Clean(Step(stmt, state, log).log)
    ensures StmtDescends(stmt, st, fuel) && (Examined(stmt) ==> ExecStmt(stmt, st, fuel) != Stuck)
    decreases fuel, stmt, 0, 1
  {
    hide EvalTest, Follows, Visible, Clean, ToFormula, Run, OkSeq, NamesOf, Models, Negated, Fork, Extends, Tracks, Vals, Bounded,
      NamesBelow, SeqDescends, ExecBlock, AllExamined, NamesAre;
    var t := ToFormula(stmt.test, state.env);
    var k := log.counter;
    var log1 := Seen(log, t.unknowns);
    var taken := Run(stmt.thn, Fork(state, t.f), log1);
    var skipped := Fork(state, Negated(t.f));
    FollowsNamed(state, st, olds, globals, k, s);
    IfClean(stmt, state, log);
    NamesAreBelow(Visible(st).Keys, k);
    BoundedEnv(state, k);
    TestBelow(stmt.test, state.env, Visible(st).Keys, k);
    TestRuns(stmt.test, state.env, s, st);
    TestMeans(stmt.test, state.env, s, st);
    NegatedMeans(t.f, At(s));
    if EvalTest(stmt.test, Visible(st), None).value {
      ForkFollows(state, t.f, st, olds, globals, k, s);
      BlockDescends(stmt.thn, st, fuel, Fork(state, t.f), log1, s, olds, globals);
    } else if stmt.alt.Some? {
      var body := stmt.alt.value.body;
      ForkFollows(state, Negated(t.f), st, olds, globals, k, s);
      FollowsLater(skipped, st, olds, globals, k, taken.log.counter, s);
      BlockDescends(body, st, fuel, skipped, taken.log, s, olds, globals);
      assert StmtDescends(stmt.alt.value, st, fuel);
      assert ExecStmt(stmt.alt.value, st, fuel) == ExecBlock(body, st, fuel);
      assert Examined(stmt.alt.value) ==> AllExamined(body);
    }
  }

  lemma {:induction false} BlockDescends(body: seq<Stmt>, st: Store, fuel: nat, state: State, log: Log, s: Valuation,
                                         olds: View, globals: set<string>)
    requires OkSeq(body, Visible(st).Keys, globals) && Follows(state, st, olds, globals, log.counter, s)
    requires Clean(Run(body, state, log).log)
    ensures SeqDescends(body, Push(st), fuel) && (AllExamined(body) ==> ExecBlock(body, st, fuel) != Stuck)
    decreases fuel, body, 5, 0
  {
    hide Follows, Visible, Clean, RunFrom, OkSeq, Bounded, Tracks, Push, SeqDescends, ExecSeq, AllExamined;
    PushFollows(state, st, olds, globals, log.counter, s);
    PushVisible(st);
    RunFromDescends(body, Push(st), fuel, [state], state, log, s, olds, globals);
  }

  lemma {:induction false} RunFromDescends(body: seq<Stmt>, st: Store, fuel: nat, states: seq<State>, state: State, log: Log,
                                           s: Valuation, olds: View, globals: set<string>)
    requires OkSeq(body, Visible(st).Keys, globals) && state in states && Follows(state, st, olds, globals, log.counter, s)
    requires Clean(RunFrom(body, states, log).log)
    ensures SeqDescends(body, st, fuel) && (AllExamined(body) ==> ExecSeq(body, st, fuel) != Stuck)
    decreases fuel, body, 3, 0
  {
    hide Follows, Visible, Clean, OkStmt, StepAll, ExecStmt, Extends, Declared, StmtDescends, RunFrom, Examined;
    if body != [] {
      var o := StepAll(body[0], states, log);
      FollowsNamed(state, st, olds, globals, log.counter, s);
      RunFromClean(body, states, log);
      StepAllDescends(body[0], st, fuel, states, state, log, s, olds, globals);
      var state', s' := StepAllSound(body[0], st, fuel, states, state, log, s, olds, globals);
      var x := ExecStmt(body[0], st, fuel);
      StmtKeeps(body[0], st, fuel, globals);
      if x.Normal? {
        RunFromDescends(body[1..], x.st, fuel, o.states, state', o.log, s', olds, globals);
      }
    }
  }

  lemma {:induction false} StepAllDescends(stmt: Stmt, st: Store, fuel: nat, states: seq<State>, state: State, log: Log,
                                           s: Valuation, olds: View, globals: set<string>)
    requires OkStmt(stmt, Visible(st).Keys, globals) && state in states && Follows(state, st, olds, globals, log.counter, s)
    requires Clean(StepAll(stmt, states, log).log)
    ensures StmtDescends(stmt, st, fuel) && (Examined(stmt) ==> ExecStmt(stmt, st, fuel) != Stuck)
    decreases fuel, stmt, 2, |states|
  {
    hide Follows, Visible, Clean, OkStmt, Step, AllTrue, Plainly, StmtDescends, ExecStmt, Examined;
    var first := if states[0].returned then Out([states[0]], log) else Step(stmt, states[0], log);
    FollowsNamed(state, st, olds, globals, log.counter, s);
    if states[0] == state {
      CleanBefore(first.log, StepAll(stmt, states, log).log);
      StepDescends(stmt, st, fuel, state, log, s, olds, globals);
    } else {
      FollowsLater(state, st, olds, globals, log.counter, first.log.counter, s);
      StepAllDescends(stmt, st, fuel, states[1..], state, first.log, s, olds, globals);
    }
  }

  // ---- loops --------------------------------------------------------------------------------------------

  lemma {:induction false} LoopDescends(loop: Stmt, st: Store, fuel: nat, state: State, log: Log, s: Valuation, olds: View,
                                        globals: set<string>)
    requires loop.While? && Annotated(loop)
    requires OkStmt(loop, Visible(st).Keys, globals) && Follows(state, st, olds, globals, log.counter, s)
    requires Clean(Step(loop, state, log).log)
    ensures WhileDescends(loop, st, fuel) && (AllExamined(loop.body) ==> ExecWhile(loop, st, fuel) != Stuck)
    decreases fuel, loop, 0, 1
  {
    hide Follows, Visible, Clean, OkSeq, NamesOf, AllNamed, Within, EnterLoop, LoopTop, LoopTopLog, Run, LoopConditions, LeaveLoop,
      Forget, Invariant, Extends, Vals, WhileDescends, Step, ExecWhile, AllExamined;
    FollowsNamed(state, st, olds, globals, log.counter, s);
    WithinSelf(st, globals);
    LoopClean(loop, state, log);
    EnterSound(loop.invariants, st, state, log, s, olds, globals);
    PassesDescend(loop, st, st, fuel, state, log, s, olds, globals);
  }

  lemma {:induction false} PassesDescend(loop: Stmt, st0: Store, st: Store, fuel: nat, state: State, log: Log, s: Valuation,
                                         olds: View, globals: set<string>)
    requires loop.While? && Annotated(loop)
    requires OkStmt(loop, Visible(st0).Keys, globals) && Follows(state, st0, olds, globals, log.counter, s)
    requires Clean(Step(loop, state, log).log) && Within(st0, st, globals) && Invariant(loop.invariants, st, Vals(state.env, s))
    ensures WhileDescends(loop, st, fuel) && (AllExamined(loop.body) ==> ExecWhile(loop, st, fuel) != Stuck)
    decreases fuel, loop, 0, 0
  {
    hide Follows, Visible, Clean, OkSeq, NamesOf, AllNamed, Evolves, Invariant, Vals, EvalTest, Step, ExecBlock, Within, Starts,
      Drops, Push, SeqDescends, AllExamined;
    LoopTestRuns(loop, st0, st, state, log, s, olds, globals);
    if fuel > 0 && EvalTest(loop.test, Visible(st), None) == Some(true) {
      PassDescends(loop, st0, st, fuel - 1, state, log, s, olds, globals);
      var o := ExecBlock(loop.body, st, fuel - 1);
      WithinKeys(st0, st, globals);
      BlockKeeps(loop.body, st, fuel - 1, globals);
      if o.Normal? {
        PassSound(loop, st0, st, fuel - 1, state, log, s, olds, globals);
        WithinEvolves(st0, st, o.st, globals);
        PassesDescend(loop, st0, o.st, fuel - 1, state, log, s, olds, globals);
      }
    }
  }

  /** One pass, whatever it comes to: it starts at or above zero, the loops inside it descend, and if it ends
      the variant has gone down. */
  lemma {:induction false} PassDescends(loop: Stmt, st0: Store, st: Store, fuel: nat, state: State, log: Log, s: Valuation,
                                        olds: View, globals: set<string>)
    requires loop.While? && Annotated(loop)
    requires OkStmt(loop, Visible(st0).Keys, globals) && Follows(state, st0, olds, globals, log.counter, s)
    requires Clean(Step(loop, state, log).log) && Within(st0, st, globals) && Invariant(loop.invariants, st, Vals(state.env, s))
    requires EvalTest(loop.test, Visible(st), None) == Some(true)
    ensures Starts(loop.variant, st) && SeqDescends(loop.body, Push(st), fuel)
    ensures AllExamined(loop.body) ==> ExecBlock(loop.body, st, fuel) != Stuck
    ensures var o := ExecBlock(loop.body, st, fuel); o.Normal? ==> Drops(loop.variant, st, o.st)
    decreases fuel, loop.body, 6, 0
  {
    hide Follows, Visible, Clean, OkSeq, NamesOf, AllNamed, Evolves, EnterLoop, LoopTop, LoopTopLog, RunFrom, ExecSeq,
      LoopConditions, LeaveLoop, Forget, Invariant, Extends, Vals, EvalTest, Step, Tracks, Within, Bounded, Push, Pop, Starts,
      Drops, SeqDescends, Stays, Mentions, NamesBelow, VariantTerm, Models, NamesAre, AllExamined;
    var invs, variant, test := loop.invariants, loop.variant, loop.test;
    var log1 := EnterLoop(invs, state, log);
    var top := Forget(state.env, '$', log1.counter);
    var log2 := LoopTopLog(test, invs, variant, top, log1);
    var start := LoopTop(test, invs, top, state.pre);
    var pass := Run(loop.body, start, log2);
    WithinKeys(st0, st, globals);
    LoopClean(loop, state, log);
    PushVisible(st);
    PushNonempty(st);
    var st1 := TopFollows(loop, st0, st, state, log1, s, olds, globals);
    RunFromDescends(loop.body, Push(st), fuel, [start], start, log2, st1, olds, globals);
    if variant.Some? {
      VariantBegins(loop, st0, st, state, log, log1, pass, s, st1, olds, globals);
      var o := ExecSeq(loop.body, Push(st), fuel);
      if o.Normal? {
        var end, se := RunFromSound(loop.body, Push(st), fuel, [start], start, log2, st1, olds, globals);
        SeqKeeps(loop.body, Push(st), fuel, globals);
        LeaveBlock(st, o.st, globals);
        FollowsNamed(end, o.st, olds, globals, pass.log.counter, se);
        EndDrops(loop, pass.states, end, top, pass.log, st1, se, log2.counter, st, o.st, Pop(o.st), olds);
      }
    } else {
      NoVariant(st, ExecBlock(loop.body, st, fuel));
    }
  }

  /** The test evaluates at the top of every pass. */
  lemma LoopTestRuns(loop: Stmt, st0: Store, st: Store, state: State, log: Log, s: Valuation, olds: View, globals: set<string>)
    requires loop.While? && Annotated(loop)
    requires OkStmt(loop, Visible(st0).Keys, globals) && Follows(state, st0, olds, globals, log.counter, s)
    requires Clean(Step(loop, state, log).log) && Within(st0, st, globals)
    ensures EvalTest(loop.test, Visible(st), None).Some?
  {
    hide Visible, OkSeq, NamesOf, AllNamed, EnterLoop, LoopTop, LoopTopLog, Run, LoopConditions, LeaveLoop, Forget, Extends, Vals,
      EvalTest, Step, Tracks, Bounded, Name, ToFormula, AllTrue, Plainly, AllOf, OldKeys, Reads, Rebind;
    var log1 := EnterLoop(loop.invariants, state, log);
    var top := Forget(state.env, '$', log1.counter);
    var s1 := Rebind(s, state.env, '$', log1.counter, Now(st, Vals(state.env, s)));
    LoopClean(loop, state, log);
    TopUnknowns(loop.test, loop.invariants, loop.variant, top, log1);
    ForgetReads(state, st0, st, olds, globals, log.counter, '$', log1.counter, s);
    TestRuns(loop.test, top, s1, st);
  }

  lemma NoVariant(st: Store, o: Outcome)
    ensures Starts(None, st) && (o.Normal? ==> Drops(None, st, o.st))
  {
  }

  lemma VariantBegins(loop: Stmt, st0: Store, st: Store, state: State, log: Log, log1: Log, pass: Out, s: Valuation, st1: Valuation,
                      olds: View, globals: set<string>)
    requires loop.While? && loop.variant.Some? && OkStmt(loop, Visible(st0).Keys, globals)
    requires Follows(state, st0, olds, globals, log.counter, s) && log1.counter == log.counter
    requires Visible(st).Keys == Visible(st0).Keys
    requires var top := Forget(state.env, '$', log1.counter);
      var log2 := LoopTopLog(loop.test, loop.invariants, loop.variant, top, log1);
      && Clean(log2) && Clean(LoopConditions(pass.states, loop.test, loop.invariants, loop.variant, top, pass.log))
      && Follows(LoopTop(loop.test, loop.invariants, top, state.pre), Push(st), olds, globals, log2.counter, st1)
    ensures var top := Forget(state.env, '$', log1.counter);
      var log2 := LoopTopLog(loop.test, loop.invariants, loop.variant, top, log1);
      && Starts(loop.variant, st)
      && EvalNum(loop.variant.value, Visible(st), None) == Some(Eval(VariantTerm(loop.variant, top).l, st1))
      && Mentions(VariantTerm(loop.variant, top).l, NamesBelow(log2.counter))
      && NamesAre(Visible(st).Keys) && NamesOf(loop.variant.value) <= Visible(st).Keys
  {
    hide Visible, OkSeq, NamesOf, AllNamed, LoopConditions, Forget, Extends, Vals, Tracks, Bounded, Push, Starts,
      Mentions, NamesBelow, Models, NamesAre, ToLinear, Eval, EvalNum, Plainly, AllTrue;
    var top := Forget(state.env, '$', log1.counter);
    var log2 := LoopTopLog(loop.test, loop.invariants, loop.variant, top, log1);
    FollowsNamed(state, st0, olds, globals, log.counter, s);
    FollowsNamed(LoopTop(loop.test, loop.invariants, top, state.pre), Push(st), olds, globals, log2.counter, st1);
    PushVisible(st);
    TopUnknowns(loop.test, loop.invariants, loop.variant, top, log1);
    TopStarts(loop, pass.states, top, pass.log, st1, st);
    NamesAreBelow(Visible(st0).Keys, log2.counter);
    BoundedEnv(state, log1.counter);
    ForgetBounded(state.env, '$', log1.counter);
    LinearBelow(loop.variant.value, top, NamesBelow(log2.counter));
  }

  // ---- functions ------------------------------------------------------------------------------------------

  /** For every function of the fragment whose conditions are proved: in every call whose precondition holds,
      ended or not, every pass of every annotated loop starts with its variant at or above zero and ends with
      it lower. And the call does not fail, but for what the verifier does not look into. */
  lemma FunctionDescends(fn: Function, globals: View, args: View, fuel: nat, maxAtoms: nat, budget: nat)
    requires OkFunction(fn, globals.Keys) && Proved(fn, maxAtoms, budget) && Conditions(fn).unknowns == {}
    requires args.Keys == set p | p in fn.params
    requires forall r :: r in fn.requires_ ==> EvalTest(r, globals + args, None) == Some(true)
    ensures SeqDescends(fn.body, [globals, args], fuel)
    ensures AllExamined(fn.body) ==> ExecSeq(fn.body, [globals, args], fuel) != Stuck
  {
    hide EvalTest, EvalNum, Run, Name, Plain, OldKey, NamesOf, Conditions, OkSeq, Follows, Clean, ExecSeq, Captured, Bounded, Tracks,
      Proved, FinalView, EntryState, EntryLog, Visible, AllEvaluate, SeqDescends, AllExamined;
    var entry, olds := globals + args, Captured(OldArgsOf(fn.ensures_), globals + args);
    var st, g := [globals, args], Untracked(fn, globals.Keys);
    EntryFollows(fn, globals, args, EntryValuation(entry));
    FollowsNamed(EntryState(fn), st, olds, g, 0, EntryValuation(entry));
    ProvedClean(fn, globals.Keys, maxAtoms, budget);
    EntryPlain(fn);
    assert entry.Keys == Scope(fn, globals.Keys);
    hide RunFrom;
    RunIsRunFrom(fn);
    RunFromDescends(fn.body, st, fuel, [EntryState(fn)], EntryState(fn), EntryLog(fn), EntryValuation(entry), olds, g);
  }
}
