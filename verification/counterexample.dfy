/** Completeness, for a function without loops: when a condition is refuted there is a call, on rational
    numbers, that starts in the precondition and ends with a postcondition false. */
module Counterexample {
  import opened Rational
  import opened LinearExpr
  import opened Formulas
  import opened FourierMotzkin
  import opened Programs
  import opened VcGen
  import opened Denotation
  import opened Fragment
  import opened Symbols
  import opened Soundness
  import opened Descent
  import opened Refutation
  import Dpll

  // ---- without loops ------------------------------------------------------------------------------------

  function WithPre(states: seq<State>, pre: Formula): seq<State> {
    seq(|states|, i requires 0 <= i < |states| => states[i].(pre := pre))
  }

  lemma WithPreJoin(a: seq<State>, b: seq<State>, pre: Formula)
    ensures WithPre(a + b, pre) == WithPre(a, pre) + WithPre(b, pre)
  {
  }

  lemma WithPreOne(state: State, pre: Formula)
    ensures WithPre([state], pre) == [state.(pre := pre)]
  {
  }

  lemma WithPreParts(states: seq<State>, pre: Formula)
    ensures |WithPre(states, pre)| == |states|
    ensures |states| > MAX_PATHS ==> WithPre(states, pre)[..MAX_PATHS] == WithPre(states[..MAX_PATHS], pre)
    ensures states != [] ==>
      WithPre(states, pre)[0] == states[0].(pre := pre) && WithPre(states, pre)[1..] == WithPre(states[1..], pre)
  {
    var w := WithPre(states, pre);
    if |states| > MAX_PATHS {
      var fewer := WithPre(states[..MAX_PATHS], pre);
      assert |w[..MAX_PATHS]| == |fewer| && forall i :: 0 <= i < |fewer| ==> w[..MAX_PATHS][i] == fewer[i];
    }
    if states != [] {
      var rest := WithPre(states[1..], pre);
      assert |w[1..]| == |rest| && forall i :: 0 <= i < |rest| ==> w[1..][i] == rest[i];
    }
  }

  /** The walk gives the same states whatever was recorded before and whatever the precondition, and records
      no condition of its own. */
  ghost predicate SameWalk(o: Out, o': Out, log': Log, pre: Formula) {
    && o'.states == WithPre(o.states, pre) && o'.log.conditions == log'.conditions
    && (o.log.unknowns == {} && log'.unknowns == {} ==> o'.log.unknowns == {})
    && (!o.log.tooMany && !log'.tooMany ==> !o'.log.tooMany)
  }

  lemma {:induction false} StepAnyLog(stmt: Stmt, state: State, log: Log, log': Log, pre: Formula)
    requires LoopFree(stmt)
    ensures SameWalk(Step(stmt, state, log), Step(stmt, state.(pre := pre), log'), log', pre)
    decreases stmt, 1, 0
  {
    hide ToFormula, ToLinear, Run, Extends, WithPre;
    match stmt
    case If(_, _, _) => IfAnyLog(stmt, state, log, log', pre);
    case Block(body) => RunAnyLog(body, state, log, log', pre);
    case Declare(x, e) => WithPreOne(state.(env := state.env[x := ToLinear(e, state.env).l]), pre);
    case Assign(x, e) => WithPreOne(state.(env := state.env[x := ToLinear(e, state.env).l]), pre);
    case ExprStmt(_) => WithPreOne(state, pre);
    case Return(None) => WithPreOne(state.(returned := true), pre);
    case Return(Some(e)) => WithPreOne(state.(env := state.env["result" := ToLinear(e, state.env).l], returned := true), pre);
    case _ =>
  }

  lemma {:induction false} IfAnyLog(stmt: Stmt, state: State, log: Log, log': Log, pre: Formula)
    requires stmt.If? && LoopFree(stmt)
    ensures SameWalk(Step(stmt, state, log), Step(stmt, state.(pre := pre), log'), log', pre)
    decreases stmt, 0, 1
  {
    hide ToFormula, Run, Extends, WithPre, Conj, Negated, LoopFreeAll;
    var t := ToFormula(stmt.test, state.env);
    var yes, no := Fork(state, t.f), Fork(state, Negated(t.f));
    var yes', no' := Fork(state.(pre := pre), t.f), Fork(state.(pre := pre), Negated(t.f));
    assert yes' == yes.(pre := pre) && no' == no.(pre := pre);
    var taken, taken' := Run(stmt.thn, yes, Seen(log, t.unknowns)), Run(stmt.thn, yes', Seen(log', t.unknowns));
    RunAnyLog(stmt.thn, yes, Seen(log, t.unknowns), Seen(log', t.unknowns), pre);
    RunExtends(stmt.thn, yes, Seen(log, t.unknowns));
    if stmt.alt.Some? && stmt.alt.value.Block? {
      var body := stmt.alt.value.body;
      assert LoopFreeAll(body) by { assert LoopFree(stmt.alt.value); }
      RunAnyLog(body, no, taken.log, taken'.log, pre);
      RunExtends(body, no, taken.log);
      WithPreJoin(taken.states, Run(body, no, taken.log).states, pre);
    } else {
      WithPreOne(no, pre);
      WithPreJoin(taken.states, [no], pre);
    }
  }

  lemma RunExtends(stmts: seq<Stmt>, state: State, log: Log)
    ensures log.unknowns <= Run(stmts, state, log).log.unknowns && (log.tooMany ==> Run(stmts, state, log).log.tooMany)
  {
    hide RunFrom;
  }

  lemma {:induction false} RunAnyLog(stmts: seq<Stmt>, state: State, log: Log, log': Log, pre: Formula)
    requires LoopFreeAll(stmts)
    ensures SameWalk(Run(stmts, state, log), Run(stmts, state.(pre := pre), log'), log', pre)
    decreases stmts, 4, 0
  {
    hide RunFrom, WithPre, LoopFreeAll;
    WithPreOne(state, pre);
    RunFromAnyLog(stmts, [state], log, log', pre);
  }

  lemma {:induction false} RunFromAnyLog(stmts: seq<Stmt>, states: seq<State>, log: Log, log': Log, pre: Formula)
    requires LoopFreeAll(stmts)
    ensures SameWalk(RunFrom(stmts, states, log), RunFrom(stmts, WithPre(states, pre), log'), log', pre)
    decreases stmts, 3, 0
  {
    hide StepAll, WithPre, LoopFree;
    if stmts != [] {
      StepAllAnyLog(stmts[0], states, log, log', pre);
      var o, o' := StepAll(stmts[0], states, log), StepAll(stmts[0], WithPre(states, pre), log');
      WithPreParts(o.states, pre);
      if |o.states| <= MAX_PATHS {
        RunFromAnyLog(stmts[1..], o.states, o.log, o'.log, pre);
      }
    }
  }

  lemma {:induction false} StepAllAnyLog(stmt: Stmt, states: seq<State>, log: Log, log': Log, pre: Formula)
    requires LoopFree(stmt)
    ensures SameWalk(StepAll(stmt, states, log), StepAll(stmt, WithPre(states, pre), log'), log', pre)
    decreases stmt, 2, |states|
  {
    hide Step, WithPre, LoopFree;
    WithPreParts(states, pre);
    if states == [] {
      assert WithPre(states, pre) == [];
    } else {
      var s, s' := states[0], states[0].(pre := pre);
      var first, first' := if s.returned then Out([s], log) else Step(stmt, s, log),
        if s.returned then Out([s'], log') else Step(stmt, s', log');
      if s.returned { WithPreOne(s, pre); } else { StepAnyLog(stmt, s, log, log', pre); }
      StepAllAnyLog(stmt, states[1..], first.log, first'.log, pre);
      WithPreJoin(first.states, StepAll(stmt, states[1..], first.log).states, pre);
    }
  }

  lemma {:induction false} StmtInTime(stmt: Stmt, st: Store, fuel: nat)
    requires LoopFree(stmt)
    ensures ExecStmt(stmt, st, fuel) != Timeout
    decreases stmt, 1
  {
    hide EvalNum, EvalTest, Visible, DeclareIn, AssignIn;
    match stmt
    case If(_, thn, alt) =>
      SeqInTime(thn, Push(st), fuel);
      if alt.Some? { StmtInTime(alt.value, st, fuel); }
    case Block(body) => SeqInTime(body, Push(st), fuel);
    case _ =>
  }

  lemma {:induction false} SeqInTime(body: seq<Stmt>, st: Store, fuel: nat)
    requires LoopFreeAll(body)
    ensures ExecSeq(body, st, fuel) != Timeout
    decreases body, 0
  {
    hide LoopFree, ExecStmt;
    if body != [] {
      StmtInTime(body[0], st, fuel);
      var o := ExecStmt(body[0], st, fuel);
      if o.Normal? { SeqInTime(body[1..], o.st, fuel); }
    }
  }

  /** Where a postcondition's condition comes from. */
  lemma {:induction false} PostOrigin(ends: seq<State>, ensures_: seq<Expr>, pre: Formula, log: Log, c: Condition) returns (e: State)
    requires c in Postconditions(ends, ensures_, pre, log).conditions && c !in log.conditions
    ensures e in ends && c.formula == Implies(Conj([pre, e.path]), AllOf(ensures_, e.env).f)
  {
    hide AllOf, Implies, Conj;
    var post := AllOf(ensures_, ends[0].env);
    var log1 := Record(log, Postcondition, Implies(Conj([pre, ends[0].path]), post.f), post.unknowns);
    if c in log1.conditions {
      e := ends[0];
    } else {
      e := PostOrigin(ends[1..], ensures_, pre, log1, c);
    }
  }

  // ---- the end of the call -------------------------------------------------------------------------------

  /** Some postcondition is false at the end. */
  ghost predicate PromiseBroken(fn: Function, final: View, entry: View) {
    exists e :: e in fn.ensures_ && EvalTest(e, final, Some(entry)) == Some(false)
  }

  lemma PostBroken(fn: Function, globals: set<string>, entry: View, end: State, final: View, s: Valuation)
    requires OkFunction(fn, globals) && AllOf(fn.ensures_, end.env).unknowns == {}
    requires Tracks(end, final, Captured(OldArgsOf(fn.ensures_), entry), s) && AllEvaluate(OldArgsOf(fn.ensures_), Some(entry))
    requires !Models(AllOf(fn.ensures_, end.env).f, At(s)) && forall e :: e in fn.ensures_ ==> CurrentNames(e) <= final.Keys
    ensures PromiseBroken(fn, final, entry)
  {
    hide EvalTest, EvalNum, Name, Plain, OldKey, NamesOf, OkSeq, Captured, AllOf, Models, Vals, DenTest, OldArgs, NamesAre;
    AllOfDenotes(fn.ensures_, end.env, At(s));
    var v := Vals(end.env, s);
    var e :| e in fn.ensures_ && !DenTest(e, v);
    OldArgsMember(fn.ensures_, e);
    Remembered(fn, globals, entry, v, OldArgs(e));
    NoUnknownsIn(fn.ensures_, e, end.env);
    TestAgrees(e, final, Some(entry), v);
    TestEvaluates(e, final, Some(entry), end.env, s);
  }

  // ---- the call --------------------------------------------------------------------------------------------

  ghost function Valued(names: set<string>, s: Valuation): View {
    map x | x in names :: s(x)
  }

  lemma ValuedSplit(globals: set<string>, params: set<string>, s: Valuation)
    ensures Valued(globals, s) + Valued(params, s) == Valued(globals + params, s)
    ensures Reads(s, Valued(globals + params, s)) && Valued(globals, s).Keys == globals && Valued(params, s).Keys == params
  {
  }

  ghost predicate RationalView(view: View) {
    forall x :: x in view ==> IsRational(view[x])
  }

  /** The postconditions read what is sure to be bound at the end. */
  ghost predicate Readable(fn: Function, globals: set<string>) {
    forall e :: e in fn.ensures_ ==> CurrentNames(e) <= AtEnd(fn, globals)
  }

  /** Without loops the verifier looks at everything that runs. */
  ghost predicate Direct(fn: Function, globals: set<string>) {
    OkFunction(fn, globals) && LoopFreeAll(fn.body) && AllExamined(fn.body) && Readable(fn, globals)
  }

  /** A valuation that makes the precondition true is a call that starts in it; the call ends, and the one path
      that the valuation makes true is the path it took. */
  lemma CallFollowsPath(fn: Function, globals: View, args: View, s: Valuation, end: State)
    requires Direct(fn, globals.Keys) && args.Keys == (set p | p in fn.params) && Reads(s, globals + args)
    requires Conditions(fn).unknowns == {} && !Conditions(fn).tooMany
    requires Models(EntryState(fn).pre, At(s)) && Models(end.path, At(s))
    requires end in Run(fn.body, EntryState(fn), EntryLog(fn)).states
    ensures Call(fn, globals, args, 0).Some?
    ensures Tracks(end, Call(fn, globals, args, 0).value, Captured(OldArgsOf(fn.ensures_), globals + args), s)
  {
    hide EvalTest, Run, OkFunction, Conditions, Follows, Clean, ExecSeq, Captured, Bounded, Tracks, FinalView, EntryState, EntryLog,
      Visible, AllEvaluate, AllExamined, LoopFreeAll, RunFrom, Models, Exclusive, Readable, Scope, Untracked;
    var entry, olds := globals + args, Captured(OldArgsOf(fn.ensures_), globals + args);
    var st, g := [globals, args], Untracked(fn, globals.Keys);
    var run := Run(fn.body, EntryState(fn), EntryLog(fn));
    EntryReads(fn, globals, args, s);
    EntryMeans(fn, globals, args, s);
    EntryFollows(fn, globals, args, s);
    CleanRun(fn);
    EntryPlain(fn);
    BodyOk(fn, globals, args);
    RunIsRunFrom(fn);
    var end', s' := RunFromSound(fn.body, st, 0, [EntryState(fn)], EntryState(fn), EntryLog(fn), s, olds, g);
    RunFromDescends(fn.body, st, 0, [EntryState(fn)], EntryState(fn), EntryLog(fn), s, olds, g);
    SeqInTime(fn.body, st, 0);
    SeqKeeps(fn.body, st, 0, g);
    var x := ExecSeq(fn.body, st, 0);
    RunExclusive(fn.body, EntryState(fn), EntryLog(fn), s);
    if x.Normal? {
      FollowsNamed(end', x.st, olds, g, run.log.counter, s);
      FinalLess(x.st);
      TracksLess(end', FinalView(x.st, None), Visible(x.st), olds, s);
      TracksPath(end', FinalView(x.st, None), olds, s);
    } else {
      TracksPath(end', FinalView(x.st, x.result), olds, s);
    }
    AtMostOne(run.states, end, end', s);
  }

  lemma TracksPath(state: State, view: View, olds: View, s: Valuation)
    requires Tracks(state, view, olds, s)
    ensures Models(state.path, At(s))
  {
  }

  lemma BodyOk(fn: Function, globals: View, args: View)
    requires OkFunction(fn, globals.Keys) && args.Keys == set p | p in fn.params
    ensures Visible([globals, args]).Keys == Scope(fn, globals.Keys)
    ensures OkSeq(fn.body, Visible([globals, args]).Keys, Untracked(fn, globals.Keys))
  {
    hide OkSeq, Name, Plain, OldKey, NamesOf, OldArgsOf;
    TwoScopes(globals, args);
  }

  lemma CleanRun(fn: Function)
    requires LoopFreeAll(fn.body) && Conditions(fn).unknowns == {} && !Conditions(fn).tooMany
    ensures Clean(Run(fn.body, EntryState(fn), EntryLog(fn)).log)
    ensures Run(fn.body, EntryState(fn), EntryLog(fn)).log.conditions == []
  {
    hide Run, Conditions, EntryState, LoopFreeAll, SeedOlds, AllOf, Models, Postconditions;
    ConditionsSplit(fn);
    RunAnyLog(fn.body, EntryState(fn), EntryLog(fn), EntryLog(fn), EntryState(fn).pre);
  }

  /** Every refuted condition of such a function comes from a call, on rational numbers, that breaks its
      promise. */
  lemma RefutedBreaks(fn: Function, globals: set<string>, c: Condition, maxAtoms: nat, budget: nat)
    returns (g: View, args: View)
    requires Direct(fn, globals) && Conditions(fn).unknowns == {} && !Conditions(fn).tooMany
    requires c in Conditions(fn).conditions && Judge(c.formula, maxAtoms, budget) == No
    ensures g.Keys == globals && args.Keys == (set p | p in fn.params) && RationalView(g) && RationalView(args)
    ensures forall r :: r in fn.requires_ ==> EvalTest(r, g + args, None) == Some(true)
    ensures Call(fn, g, args, 0).Some? && PromiseBroken(fn, Call(fn, g, args, 0).value, g + args)
  {
    hide EvalTest, Run, OkFunction, Conditions, Captured, Bounded, Tracks, EntryState, EntryLog, AllEvaluate, AllExamined,
      LoopFreeAll, Models, AllOf, Implies, Conj, Judge, Dpll.Unambiguous, Plainly, Postconditions, CurrentNames, AtEnd, Call,
      Untracked, Visible, IsRational, PromiseBroken;
    var params := set p | p in fn.params;
    var run := Run(fn.body, EntryState(fn), EntryLog(fn));
    ConditionsSplit(fn);
    CleanRun(fn);
    ConditionPlain(fn, globals, c);
    JudgeMeans(c.formula, maxAtoms, budget);
    var m: Interp :| RationalPoint(m.num) && FalseAnyway(c.formula, m);
    var s := m.num;
    assert SameKnown(m, At(s));
    g, args := Valued(globals, s), Valued(params, s);
    ValuedSplit(globals, params, s);
    var end := PostOrigin(run.states, fn.ensures_, EntryState(fn).pre, run.log, c);
    ImpliesMeans(Conj([EntryState(fn).pre, end.path]), AllOf(fn.ensures_, end.env).f, At(s));
    Conj2Means(EntryState(fn).pre, end.path, At(s));
    CallFollowsPath(fn, g, args, s, end);
    EntryMeans(fn, g, args, s);
    EntryReads(fn, g, args, s);
    EndBinds(fn, g, args, 0);
    PostMember(run.states, end, fn.ensures_, EntryState(fn).pre, run.log);
    PostBroken(fn, globals, g + args, end, Call(fn, g, args, 0).value, s);
  }

  lemma ConditionPlain(fn: Function, globals: set<string>, c: Condition)
    requires OkFunction(fn, globals) && Conditions(fn).unknowns == {} && c in Conditions(fn).conditions
    ensures Dpll.Unambiguous(c.formula)
  {
    hide OkFunction, Conditions, Dpll.Unambiguous, Captured, Covers, Vals, AllOf, Bounded, EntryState, AllEvaluate, Untracked, Visible,
      OldKeys, Dpll.PlainFormula;
    var s: Valuation := _ => 0.0;
    var params := set p | p in fn.params;
    ValuedSplit(globals, params, s);
    EntryReads(fn, Valued(globals, s), Valued(params, s), s);
    ConditionsPlain(fn, globals);
    Dpll.PlainUnambiguous(c.formula);
  }
}
