/** The verifier is sound: when every condition of a function of the fragment is proved, every call that
    starts in the precondition and ends, ends in the postcondition. */
module Soundness {
  import opened Rational
  import opened LinearExpr
  import opened Formulas
  import opened FourierMotzkin
  import opened Programs
  import opened VcGen
  import opened Denotation
  import opened Fragment
  import opened Symbols
  import Dpll
  import Bindings

  ghost predicate AllTrue(log: Log) {
    forall c :: c in log.conditions ==> forall m :: Models(c.formula, m)
  }

  lemma TrueBefore(before: Log, after: Log)
    requires Extends(before, after) && AllTrue(after)
    ensures AllTrue(before)
  {
    assert forall c :: c in before.conditions ==> c in after.conditions;
  }

  /** The walk ended with no unknown, no cut path, and only true conditions over plain names. */
  ghost predicate Clean(log: Log) {
    AllTrue(log) && Plainly(log) && log.unknowns == {} && !log.tooMany
  }

  lemma CleanBefore(before: Log, after: Log)
    requires Extends(before, after) && Clean(after)
    ensures Clean(before)
  {
    TrueBefore(before, after);
    assert forall c :: c in before.conditions ==> c in after.conditions;
  }

  // ---- a symbolic state stands for a store ----------------------------------------------------------

  /** Under the valuation, the symbolic scope gives every visible name its value and every captured `old`
      its captured value, and the path condition and the precondition hold. */
  ghost predicate Tracks(state: State, view: View, olds: View, s: Valuation) {
    && Reads(Vals(state.env, s), view) && Reads(Vals(state.env, s), olds)
    && Models(state.path, At(s)) && Models(state.pre, At(s))
  }

  /** The symbolic scope holds every visible name but the globals. */
  ghost predicate Covers(env: Env, scope: set<string>, globals: set<string>) {
    forall x :: x in scope && x !in globals ==> x in env
  }

  /** Captured keys are neither identifiers nor fresh symbols. */
  ghost predicate OldKeys(olds: View) {
    forall x :: x in olds ==> !Name(x) && x in NamesBelow(0)
  }

  ghost predicate Follows(state: State, st: Store, olds: View, globals: set<string>, k: nat, s: Valuation) {
    && st != [] && NamesAre(Visible(st).Keys) && OldKeys(olds)
    && !state.returned && Bounded(state, k) && Covers(state.env, Visible(st).Keys, globals)
    && Tracks(state, Visible(st), olds, s)
  }

  /** Some state of the walk stands for the outcome of the run. */
  ghost predicate Matched(out: Out, o: Outcome, olds: View, globals: set<string>, state: State, s: Valuation) {
    && (o.Normal? ==> state in out.states && Follows(state, o.st, olds, globals, out.log.counter, s))
    && (o.Returned? ==> state in out.states && state.returned && Tracks(state, FinalView(o.st, o.result), olds, s))
  }

  // ---- straight-line statements ------------------------------------------------------------------------

  lemma SetVals(env: Env, x: string, l: Linear, s: Valuation, y: string)
    ensures Vals(env[x := l], s)(y) == if y == x then Eval(l, s) else Vals(env, s)(y)
  {
  }

  /** Binding a name to a term whose value is the value stored keeps the correspondence. */
  lemma SetTracks(state: State, view: View, olds: View, s: Valuation, x: string, e: Expr, v: real, returned: bool)
    requires Tracks(state, view, olds, s) && EvalNum(e, view, None) == Some(v)
    requires ToLinear(e, state.env).unknowns == {} && x !in olds
    ensures Tracks(state.(env := state.env[x := ToLinear(e, state.env).l], returned := returned), view[x := v], olds, s)
  {
    hide Eval, Models, EvalNum, DenNum, ToLinear, Vals;
    var l := ToLinear(e, state.env).l;
    LinearDenotes(e, state.env, s);
    NumAgrees(e, view, None, Vals(state.env, s));
    assert Eval(l, s) == v;
    var after := Vals(state.env[x := l], s);
    forall y | y in view[x := v] ensures after(y) == view[x := v][y] {
      SetVals(state.env, x, l, s, y);
    }
    forall y | y in olds ensures after(y) == olds[y] {
      SetVals(state.env, x, l, s, y);
    }
  }

  lemma DeclareSound(x: string, e: Expr, st: Store, fuel: nat, state: State, log: Log, s: Valuation, olds: View, globals: set<string>)
    requires OkStmt(Declare(x, e), Visible(st).Keys, globals) && Follows(state, st, olds, globals, log.counter, s)
    requires Clean(Step(Declare(x, e), state, log).log)
    ensures Matched(Step(Declare(x, e), state, log), ExecStmt(Declare(x, e), st, fuel), olds, globals,
                    state.(env := state.env[x := ToLinear(e, state.env).l]), s)
  {
    hide ToLinear, EvalNum, Tracks, Bounded, Name, Visible, AllTrue;
    var v := EvalNum(e, Visible(st), None);
    var state' := state.(env := state.env[x := ToLinear(e, state.env).l]);
    StepTidyOne(Declare(x, e), state, log, Visible(st).Keys, globals, state');
    if v.Some? && x !in st[|st| - 1] {
      DeclareVisible(st, x, v.value);
      SetTracks(state, Visible(st), olds, s, x, e, v.value, false);
      DeclaredNamed(Declare(x, e), Visible(st).Keys, globals);
    }
  }

  lemma AssignSound(x: string, e: Expr, st: Store, fuel: nat, state: State, log: Log, s: Valuation, olds: View, globals: set<string>)
    requires OkStmt(Assign(x, e), Visible(st).Keys, globals) && Follows(state, st, olds, globals, log.counter, s)
    requires Clean(Step(Assign(x, e), state, log).log)
    ensures Matched(Step(Assign(x, e), state, log), ExecStmt(Assign(x, e), st, fuel), olds, globals,
                    state.(env := state.env[x := ToLinear(e, state.env).l]), s)
  {
    hide ToLinear, EvalNum, Tracks, Bounded, Name, Visible, AllTrue;
    var v := EvalNum(e, Visible(st), None);
    var state' := state.(env := state.env[x := ToLinear(e, state.env).l]);
    StepTidyOne(Assign(x, e), state, log, Visible(st).Keys, globals, state');
    if v.Some? {
      AssignVisible(st, x, v.value);
      SetTracks(state, Visible(st), olds, s, x, e, v.value, false);
      assert AssignIn(st, x, v.value) != [];
    }
  }

  /** Bounds survive one statement. */
  lemma StepTidyOne(stmt: Stmt, state: State, log: Log, scope: set<string>, globals: set<string>, state': State)
    requires OkStmt(stmt, scope, globals) && NamesAre(scope) && Bounded(state, log.counter)
    requires Clean(Step(stmt, state, log).log) && state' in Step(stmt, state, log).states
    ensures Bounded(state', Step(stmt, state, log).log.counter)
  {
    hide OkStmt, Bounded, Step, Plainly, AllTrue;
    CleanBefore(log, Step(stmt, state, log).log);
    StepTidy(stmt, state, log, scope, globals);
  }

  // ---- return ---------------------------------------------------------------------------------------------

  lemma ReturnSound(result: Option<Expr>, st: Store, fuel: nat, state: State, log: Log, s: Valuation, olds: View,
                    globals: set<string>) returns (state': State)
    requires OkStmt(Return(result), Visible(st).Keys, globals) && Follows(state, st, olds, globals, log.counter, s)
    requires Clean(Step(Return(result), state, log).log)
    ensures Matched(Step(Return(result), state, log), ExecStmt(Return(result), st, fuel), olds, globals, state', s)
  {
    hide ToLinear, EvalNum, Bounded, Visible, AllTrue, Models, Vals, Name;
    if result.None? {
      state' := state.(returned := true);
    } else {
      var e := result.value;
      state' := state.(env := state.env["result" := ToLinear(e, state.env).l], returned := true);
      var v := EvalNum(e, Visible(st), None);
      if v.Some? {
        ResultNamed();
        SetTracks(state, Visible(st), olds, s, "result", e, v.value, true);
        assert FinalView(st, v) == Visible(st)["result" := v.value];
      }
    }
  }

  lemma ResultNamed()
    ensures Name("result")
  {
  }

  // ---- leaving a block --------------------------------------------------------------------------------------

  ghost predicate Restricts(small: View, big: View) {
    forall x :: x in small ==> x in big && small[x] == big[x]
  }

  lemma TracksLess(state: State, small: View, big: View, olds: View, s: Valuation)
    requires Tracks(state, big, olds, s) && Restricts(small, big)
    ensures Tracks(state, small, olds, s)
  {
    hide Models, Vals;
  }

  lemma PopMatched(before: Store, o: Outcome, out: Out, olds: View, globals: set<string>, state: State, s: Valuation)
    requires before != [] && NamesAre(Visible(before).Keys)
    requires (o.Normal? || o.Returned?) ==> Evolves(Push(before), o.st, globals)
    requires Matched(out, o, olds, globals, state, s)
    ensures Matched(out, Popped(o), olds, globals, state, s)
  {
    hide Evolves, Tracks, Bounded, Visible, Pop, Push, NamesAre, OldKeys;
    if o.Normal? || o.Returned? {
      LeaveBlock(before, o.st, globals);
      EvolvesNonempty(before, Pop(o.st), globals);
      if o.Normal? {
        TracksLess(state, Visible(Pop(o.st)), Visible(o.st), olds, s);
      } else {
        TracksLess(state, FinalView(Pop(o.st), o.result), FinalView(o.st, o.result), olds, s);
      }
    }
  }

  // ---- choosing values for fresh symbols ---------------------------------------------------------------------

  ghost predicate IsFresh(v: string, env: Env, prefix: char, k: nat, x: string) {
    x in env && v == Fresh(prefix, x, k)
  }

  /** The valuation that gives the fresh symbol of every name the value chosen for the name. */
  ghost function Rebind(s: Valuation, env: Env, prefix: char, k: nat, chosen: Assignment): Valuation {
    v => if exists x :: IsFresh(v, env, prefix, k, x) then chosen(Owner(v, env, prefix, k)) else s(v)
  }

  ghost function Owner(v: string, env: Env, prefix: char, k: nat): (x: string)
    requires exists x :: IsFresh(v, env, prefix, k, x)
    ensures IsFresh(v, env, prefix, k, x)
  {
    var x :| IsFresh(v, env, prefix, k, x);
    x
  }

  lemma RebindFresh(s: Valuation, env: Env, prefix: char, k: nat, chosen: Assignment, x: string)
    requires x in env
    ensures Rebind(s, env, prefix, k, chosen)(Fresh(prefix, x, k)) == chosen(x)
  {
    hide Fresh;
    var v := Fresh(prefix, x, k);
    assert IsFresh(v, env, prefix, k, x);
    FreshParts(prefix, x, k, prefix, Owner(v, env, prefix, k), k);
  }

  lemma RebindOther(s: Valuation, env: Env, prefix: char, k: nat, chosen: Assignment, v: string, k': nat)
    requires (prefix == '$' || prefix == '?') && v in NamesBelow(k') && k' <= k
    ensures Rebind(s, env, prefix, k, chosen)(v) == s(v)
  {
    if exists x :: IsFresh(v, env, prefix, k, x) {
      var x :| IsFresh(v, env, prefix, k, x);
      FreshNotBelow(prefix, x, k, k');
      assert false;
    }
  }

  /** The symbols that were there before keep their values. */
  ghost predicate Stays(s: Valuation, s': Valuation, k: nat) {
    forall v :: v in NamesBelow(k) ==> s'(v) == s(v)
  }

  lemma StaysOn(s: Valuation, s1: Valuation, s2: Valuation, k: nat, k': nat)
    requires Stays(s, s1, k) && Stays(s1, s2, k') && k <= k'
    ensures Stays(s, s2, k)
  {
    BelowGrows(k, k');
  }

  lemma StaysLess(s: Valuation, s': Valuation, k: nat, k': nat)
    requires Stays(s, s', k') && k <= k'
    ensures Stays(s, s', k)
  {
    BelowGrows(k, k');
  }

  lemma RebindStays(s: Valuation, env: Env, prefix: char, k: nat, chosen: Assignment, k': nat)
    requires (prefix == '$' || prefix == '?') && k' <= k
    ensures Stays(s, Rebind(s, env, prefix, k, chosen), k')
  {
    hide Rebind, NamesBelow;
    forall v | v in NamesBelow(k') ensures Rebind(s, env, prefix, k, chosen)(v) == s(v) {
      RebindOther(s, env, prefix, k, chosen, v, k');
    }
  }

  /** After forgetting, the scope reads the chosen values for its names and the old ones elsewhere. */
  lemma ForgetVals(s: Valuation, env: Env, prefix: char, k: nat, chosen: Assignment, y: string)
    requires (prefix == '$' || prefix == '?') && (y in env || y in NamesBelow(k))
    ensures Vals(Forget(env, prefix, k), Rebind(s, env, prefix, k, chosen))(y) == if y in env then chosen(y) else s(y)
  {
    hide Eval, Rebind, NamesBelow;
    var s' := Rebind(s, env, prefix, k, chosen);
    if y in env {
      VariableEval(Fresh(prefix, y, k), s');
      RebindFresh(s, env, prefix, k, chosen, y);
    } else {
      RebindOther(s, env, prefix, k, chosen, y, k);
    }
  }

  lemma RebindModels(f: Formula, s: Valuation, env: Env, prefix: char, k: nat, chosen: Assignment, k': nat)
    requires (prefix == '$' || prefix == '?') && Over(f, NamesBelow(k')) && k' <= k
    ensures Models(f, At(Rebind(s, env, prefix, k, chosen))) <==> Models(f, At(s))
  {
    hide Models, Over, Rebind, NamesBelow;
    var s' := Rebind(s, env, prefix, k, chosen);
    forall v | v in NamesBelow(k') ensures s'(v) == s(v) {
      RebindOther(s, env, prefix, k, chosen, v, k');
    }
    ModelsAgree(f, At(s'), At(s), NamesBelow(k'));
  }

  /** The values of the names now: what is visible reads the store, the rest as at the loop's entry. */
  ghost function Now(st: Store, entry: Assignment): Assignment {
    x => if x in Visible(st) then Visible(st)[x] else entry(x)
  }

  /** The loop's stores, seen from its entry: same names, same globals. */
  ghost predicate Within(st0: Store, st: Store, globals: set<string>) {
    && st != [] && Visible(st).Keys == Visible(st0).Keys
    && forall x :: x in Visible(st0) && x in globals ==> Visible(st)[x] == Visible(st0)[x]
  }

  /** Forgetting the scope and reading the store now: the scope gives every visible name, and every captured
      `old`, its present value. */
  lemma ForgetReads(state: State, st0: Store, st: Store, olds: View, globals: set<string>, k0: nat, prefix: char, k: nat, s: Valuation)
    requires Follows(state, st0, olds, globals, k0, s) && Within(st0, st, globals) && (prefix == '$' || prefix == '?')
    ensures var v := Vals(Forget(state.env, prefix, k), Rebind(s, state.env, prefix, k, Now(st, Vals(state.env, s))));
      Reads(v, Visible(st)) && Reads(v, olds)
  {
    hide Eval, Bounded, Models, Visible, Forget, Rebind, NamesBelow, Name;
    var chosen := Now(st, Vals(state.env, s));
    var v := Vals(Forget(state.env, prefix, k), Rebind(s, state.env, prefix, k, chosen));
    forall x | x in Visible(st) ensures v(x) == Visible(st)[x] {
      NameBelow(x, k);
      ForgetVals(s, state.env, prefix, k, chosen, x);
    }
    forall x | x in olds ensures v(x) == olds[x] {
      assert x in NamesBelow(k) by { BelowGrows(0, k); }
      ForgetVals(s, state.env, prefix, k, chosen, x);
    }
  }

  // ---- the loop rule ----------------------------------------------------------------------------------------------

  /** At a point of the loop every invariant denotes truth. */
  ghost predicate Invariant(invs: seq<Expr>, st: Store, entry: Assignment) {
    DenAll(invs, Now(st, entry))
  }

  lemma NowReads(st: Store, entry: Assignment, v: Assignment, scope: set<string>)
    requires Reads(v, Visible(st)) && Visible(st).Keys == scope
    ensures SameOn(v, Now(st, entry), scope)
  {
    hide Visible;
  }

  /** A formula of the annotation, read in a scope that reads the store, holds exactly when the annotation
      denotes truth of the store. */
  lemma AnnotationMeans(es: seq<Expr>, env: Env, s: Valuation, st: Store, entry: Assignment)
    requires AllOf(es, env).unknowns == {} && AllNamed(es, Visible(st).Keys) && Reads(Vals(env, s), Visible(st))
    ensures Models(AllOf(es, env).f, At(s)) <==> DenAll(es, Now(st, entry))
  {
    hide AllOf, DenAll, Models, Vals, Visible, Now, AllNamed;
    AllOfDenotes(es, env, At(s));
    NowReads(st, entry, Vals(env, s), Visible(st).Keys);
    DenAllLocal(es, Vals(env, s), Now(st, entry), Visible(st).Keys);
  }

  lemma TestMeans(test: Expr, env: Env, s: Valuation, st: Store)
    requires ToFormula(test, env).unknowns == {} && Reads(Vals(env, s), Visible(st))
    requires EvalTest(test, Visible(st), None).Some?
    ensures Models(ToFormula(test, env).f, At(s)) <==> EvalTest(test, Visible(st), None).value
  {
    hide ToFormula, Models, Vals, Visible, DenTest, EvalTest;
    FormulaDenotes(test, env, At(s));
    TestAgrees(test, Visible(st), None, Vals(env, s));
  }

  lemma EnterSound(invs: seq<Expr>, st: Store, state: State, log: Log, s: Valuation, olds: View, globals: set<string>)
    requires Follows(state, st, olds, globals, log.counter, s) && AllNamed(invs, Visible(st).Keys)
    requires Clean(EnterLoop(invs, state, log))
    ensures Invariant(invs, st, Vals(state.env, s))
  {
    hide AllOf, Models, Vals, Visible, Bounded, Now, AllNamed, DenAll, Conj, Implies, Name, OldKeys;
    var entry := AllOf(invs, state.env);
    var f := Implies(Conj([state.pre, state.path]), entry.f);
    assert EnterLoop(invs, state, log).conditions[|log.conditions|] == Condition(LoopEstablished, f);
    assert Models(f, At(s));
    ImpliesMeans(Conj([state.pre, state.path]), entry.f, At(s));
    Conj2Means(state.pre, state.path, At(s));
    AnnotationMeans(invs, state.env, s, st, Vals(state.env, s));
  }

  /** The state at the top of a pass stands for the store there. */
  lemma TopFollows(loop: Stmt, st0: Store, st: Store, state: State, log1: Log, s: Valuation, olds: View, globals: set<string>)
    returns (s': Valuation)
    requires loop.While? && OkStmt(loop, Visible(st0).Keys, globals)
    requires Follows(state, st0, olds, globals, log1.counter, s) && Within(st0, st, globals)
    requires Invariant(loop.invariants, st, Vals(state.env, s)) && EvalTest(loop.test, Visible(st), None) == Some(true)
    requires var top := Forget(state.env, '$', log1.counter);
      Clean(LoopTopLog(loop.test, loop.invariants, loop.variant, top, log1))
    ensures var top := Forget(state.env, '$', log1.counter);
      var log2 := LoopTopLog(loop.test, loop.invariants, loop.variant, top, log1);
      Follows(LoopTop(loop.test, loop.invariants, top, state.pre), Push(st), olds, globals, log2.counter, s')
  {
    hide AllOf, Models, Vals, Visible, Bounded, Now, AllNamed, DenAll, Conj, Name, OldKeys, NamesOf, EvalTest, Rebind, ToFormula,
      VariantTerm, OkSeq, Plainly, AllTrue, Forget, Push, Reads;
    var k := log1.counter;
    var invs, test := loop.invariants, loop.test;
    var top := Forget(state.env, '$', k);
    var entry := Vals(state.env, s);
    var log2 := LoopTopLog(test, invs, loop.variant, top, log1);
    s' := Rebind(s, state.env, '$', k, Now(st, entry));
    CleanBefore(log1, log2);
    TopUnknowns(test, invs, loop.variant, top, log1);
    LoopTopTidy(test, invs, loop.variant, state, log1, Visible(st0).Keys);
    ForgetReads(state, st0, st, olds, globals, k, '$', k, s);
    AnnotationMeans(invs, top, s', st, entry);
    TestMeans(test, top, s', st);
    Conj2Means(AllOf(invs, top).f, ToFormula(test, top).f, At(s'));
    BoundedEnv(state, k);
    RebindModels(state.pre, s, state.env, '$', k, Now(st, entry), k);
    ForgetBounded(state.env, '$', k);
    PushVisible(st);
    PushNonempty(st);
  }

  lemma PushNonempty(st: Store)
    ensures Push(st) != []
  {
  }

  lemma {:induction false} PassMember(ends: seq<State>, e: State, invs: seq<Expr>, variant: Option<Expr>, before: Linear, log: Log)
    requires e in ends
    ensures var r := PassConditions(ends, invs, variant, before, log);
      Condition(LoopPreserved, Implies(e.path, AllOf(invs, e.env).f)) in r.conditions && AllOf(invs, e.env).unknowns <= r.unknowns
  {
    hide AllOf, ToLinear, Implies;
    var restored := AllOf(invs, ends[0].env);
    var log1 := Record(log, LoopPreserved, Implies(ends[0].path, restored.f), restored.unknowns);
    var log2 := if variant.None? then log1 else
      var v := ToLinear(variant.value, ends[0].env);
      Record(log1, VariantDecreases, Implies(ends[0].path, Atom(Lt, LinearExpr.Minus(v.l, before))), v.unknowns);
    if e == ends[0] {
      assert log1.conditions[|log.conditions|] == Condition(LoopPreserved, Implies(e.path, restored.f));
      assert Condition(LoopPreserved, Implies(e.path, restored.f)) in log2.conditions;
      PrefixMember(log2.conditions, PassConditions(ends[1..], invs, variant, before, log2).conditions,
                   Condition(LoopPreserved, Implies(e.path, restored.f)));
    } else {
      assert e in ends[1..];
      PassMember(ends[1..], e, invs, variant, before, log2);
    }
  }

  lemma PrefixMember<T>(a: seq<T>, b: seq<T>, x: T)
    requires a <= b && x in a
    ensures x in b
  {
    var i :| 0 <= i < |a| && a[i] == x;
    assert b[i] == x;
  }

  lemma LoopPassMember(ends: seq<State>, e: State, test: Expr, invs: seq<Expr>, variant: Option<Expr>, top: Env, log: Log)
    requires e in ends
    ensures var r := LoopConditions(ends, test, invs, variant, top, log);
      Condition(LoopPreserved, Implies(e.path, AllOf(invs, e.env).f)) in r.conditions && AllOf(invs, e.env).unknowns <= r.unknowns
  {
    hide AllOf, ToLinear, Implies, PassConditions;
    PassMember(ends, e, invs, variant, VariantTerm(variant, top).l, log);
  }

  /** A pass that ends has restored the invariants. */
  lemma PassRestores(loop: Stmt, ends: seq<State>, e: State, top: Env, log: Log, se: Valuation, inner: Store, st: Store,
                     olds: View, entry: Assignment)
    requires loop.While? && AllNamed(loop.invariants, Visible(st).Keys) && e in ends
    requires Clean(LoopConditions(ends, loop.test, loop.invariants, loop.variant, top, log))
    requires Tracks(e, Visible(inner), olds, se) && Restricts(Visible(st), Visible(inner))
    ensures Invariant(loop.invariants, st, entry)
  {
    hide AllOf, Models, Vals, Visible, Now, AllNamed, DenAll, Implies, LoopConditions;
    var invs := loop.invariants;
    LoopPassMember(ends, e, loop.test, invs, loop.variant, top, log);
    TracksLess(e, Visible(st), Visible(inner), olds, se);
    var f := Implies(e.path, AllOf(invs, e.env).f);
    assert Models(f, At(se)) by {
      assert Condition(LoopPreserved, f) in LoopConditions(ends, loop.test, invs, loop.variant, top, log).conditions;
    }
    ImpliesMeans(e.path, AllOf(invs, e.env).f, At(se));
    AnnotationMeans(invs, e.env, se, st, entry);
  }

  lemma LeaveSound(loop: Stmt, st0: Store, st: Store, state: State, k0: nat, log: Log, s: Valuation, olds: View,
                   globals: set<string>) returns (state': State, s': Valuation)
    requires loop.While? && OkStmt(loop, Visible(st0).Keys, globals)
    requires Follows(state, st0, olds, globals, k0, s) && k0 <= log.counter && Within(st0, st, globals)
    requires Invariant(loop.invariants, st, Vals(state.env, s)) && EvalTest(loop.test, Visible(st), None) == Some(false)
    requires Clean(LeaveLoop(loop.test, loop.invariants, state, log).log)
    ensures var o := LeaveLoop(loop.test, loop.invariants, state, log);
      state' in o.states && Follows(state', st, olds, globals, o.log.counter, s') && Stays(s, s', k0)
  {
    hide AllOf, Models, Vals, Visible, Bounded, Now, AllNamed, DenAll, Conj, Name, OldKeys, NamesOf, EvalTest, Rebind, ToFormula,
      OkSeq, Plainly, AllTrue, Forget, Reads, Negated, Stays;
    var k := log.counter;
    var invs, test := loop.invariants, loop.test;
    var after := Forget(state.env, '$', k);
    var entry := Vals(state.env, s);
    var o := LeaveLoop(test, invs, state, log);
    s' := Rebind(s, state.env, '$', k, Now(st, entry));
    RebindStays(s, state.env, '$', k, Now(st, entry), k0);
    state' := o.states[0];
    CleanBefore(log, o.log);
    LeaveTidy(test, invs, state, k0, log, Visible(st0).Keys);
    LeaveUnknowns(test, invs, state, log);
    ForgetReads(state, st0, st, olds, globals, k0, '$', k, s);
    AnnotationMeans(invs, after, s', st, entry);
    TestMeans(test, after, s', st);
    NegatedMeans(ToFormula(test, after).f, At(s'));
    BoundedEnv(state, k0);
    RebindModels(state.pre, s, state.env, '$', k, Now(st, entry), k0);
    RebindModels(state.path, s, state.env, '$', k, Now(st, entry), k0);
    Conj3Means(state.path, AllOf(invs, after).f, Negated(ToFormula(test, after).f), At(s'));
    ForgetBounded(state.env, '$', k);
  }

  lemma LeaveUnknowns(test: Expr, invs: seq<Expr>, state: State, log: Log)
    requires LeaveLoop(test, invs, state, log).log.unknowns == {}
    ensures AllOf(invs, Forget(state.env, '$', log.counter)).unknowns == {}
    ensures ToFormula(test, Forget(state.env, '$', log.counter)).unknowns == {}
  {
    hide AllOf, ToFormula;
  }

  lemma Conj3Means(a: Formula, b: Formula, c: Formula, m: Interp)
    ensures Models(Conj([a, b, c]), m) <==> Models(a, m) && Models(b, m) && Models(c, m)
  {
    hide Models;
    ConjMeans([a, b, c], m);
    assert a in [a, b, c] && b in [a, b, c] && c in [a, b, c];
  }

  lemma ForgottenSound(loop: Stmt, st0: Store, st: Store, state: State, log: Log, s: Valuation, olds: View, globals: set<string>)
    returns (state': State, s': Valuation)
    requires loop.While? && Follows(state, st0, olds, globals, log.counter, s) && Within(st0, st, globals)
    ensures state' == state.(env := Forget(state.env, '?', log.counter))
    ensures Follows(state', st, olds, globals, log.counter + 1, s') && Stays(s, s', log.counter)
  {
    hide Models, Vals, Visible, Bounded, Now, Name, OldKeys, Rebind, Forget, Reads, Stays;
    var k := log.counter;
    s' := Rebind(s, state.env, '?', k, Now(st, Vals(state.env, s)));
    RebindStays(s, state.env, '?', k, Now(st, Vals(state.env, s)), k);
    state' := state.(env := Forget(state.env, '?', k));
    ForgetReads(state, st0, st, olds, globals, k, '?', k, s);
    BoundedEnv(state, k);
    RebindModels(state.pre, s, state.env, '?', k, Now(st, Vals(state.env, s)), k);
    RebindModels(state.path, s, state.env, '?', k, Now(st, Vals(state.env, s)), k);
    ForgetBounded(state.env, '?', k);
    BoundedGrows(state, k, k + 1);
    ReplaceEnv(state, Forget(state.env, '?', k), k + 1);
  }

  // ---- every statement --------------------------------------------------------------------------------------------

  /** A run of a statement, and the symbolic step over it, end in states that stand for each other. */
  lemma {:induction false} StepSound(stmt: Stmt, st: Store, fuel: nat, state: State, log: Log, s: Valuation, olds: View,
                                     globals: set<string>) returns (state': State, s': Valuation)
    requires OkStmt(stmt, Visible(st).Keys, globals) && Follows(state, st, olds, globals, log.counter, s)
    requires Clean(Step(stmt, state, log).log)
    ensures Matched(Step(stmt, state, log), ExecStmt(stmt, st, fuel), olds, globals, state', s')
    ensures Stays(s, s', log.counter) && (LoopFree(stmt) ==> s' == s)
    decreases fuel, stmt, 1, 0
  {
    hide ToLinear, EvalNum, EvalTest, Follows, Visible, Clean, ToFormula, Run, Loop, ExecBlock, ExecWhile, OkSeq, AllNamed, NamesOf,
      NamesBelow;
    s' := s;
    match stmt
    case Declare(x, e) =>
      DeclareSound(x, e, st, fuel, state, log, s, olds, globals);
      state' := state.(env := state.env[x := ToLinear(e, state.env).l]);
    case Assign(x, e) =>
      AssignSound(x, e, st, fuel, state, log, s, olds, globals);
      state' := state.(env := state.env[x := ToLinear(e, state.env).l]);
    case ExprStmt(_) => state' := state;
    case Return(result) => state' := ReturnSound(result, st, fuel, state, log, s, olds, globals);
    case If(test, thn, alt) => state', s' := IfSound(stmt, st, fuel, state, log, s, olds, globals);
    case Block(body) =>
      FollowsNamed(state, st, olds, globals, log.counter, s);
      state', s' := BlockSound(body, st, fuel, state, log, s, olds, globals);
    case While(_, _, _, _) => state', s' := LoopSound(stmt, st, fuel, state, log, s, olds, globals);
    case _ => state' := state;
  }

  lemma FollowsNamed(state: State, st: Store, olds: View, globals: set<string>, k: nat, s: Valuation)
    requires Follows(state, st, olds, globals, k, s)
    ensures st != [] && NamesAre(Visible(st).Keys) && !state.returned && Bounded(state, k) && Tracks(state, Visible(st), olds, s)
    ensures Reads(Vals(state.env, s), Visible(st)) && Models(state.path, At(s))
  {
  }

  lemma ForkFollows(state: State, f: Formula, st: Store, olds: View, globals: set<string>, k: nat, s: Valuation)
    requires Follows(state, st, olds, globals, k, s) && Models(f, At(s)) && Over(f, NamesBelow(k))
    ensures Follows(Fork(state, f), st, olds, globals, k, s)
  {
    hide Models, Vals, Visible, Bounded, Name, OldKeys, Conj, Over;
    ForkBounded(state, f, k);
    Conj2Means(state.path, f, At(s));
  }

  lemma FollowsLater(state: State, st: Store, olds: View, globals: set<string>, k: nat, k': nat, s: Valuation)
    requires Follows(state, st, olds, globals, k, s) && k <= k'
    ensures Follows(state, st, olds, globals, k', s)
  {
    hide Tracks, Visible, Bounded, Name, OldKeys;
    BoundedGrows(state, k, k');
  }

  lemma MatchedWider(out: Out, big: Out, o: Outcome, olds: View, globals: set<string>, state: State, s: Valuation)
    requires Matched(out, o, olds, globals, state, s) && out.log.counter <= big.log.counter
    requires forall t :: t in out.states ==> t in big.states
    ensures Matched(big, o, olds, globals, state, s)
  {
    hide Tracks, Follows, Visible;
    if o.Normal? {
      FollowsLater(state, o.st, olds, globals, out.log.counter, big.log.counter, s);
    }
  }

  lemma {:induction false} IfSound(stmt: Stmt, st: Store, fuel: nat, state: State, log: Log, s: Valuation, olds: View,
                                   globals: set<string>) returns (state': State, s': Valuation)
    requires stmt.If? && OkStmt(stmt, Visible(st).Keys, globals) && Follows(state, st, olds, globals, log.counter, s)
    requires Clean(Step(stmt, state, log).log)
    ensures Matched(Step(stmt, state, log), ExecStmt(stmt, st, fuel), olds, globals, state', s')
    ensures Stays(s, s', log.counter) && (LoopFree(stmt) ==> s' == s)
    decreases fuel, stmt, 0, 1
  {
    hide EvalTest, Follows, Visible, Clean, ToFormula, Run, ExecBlock, OkSeq, NamesOf, Models, Negated, Fork, Extends, Matched,
      Tracks, Vals, Bounded, NamesBelow;
    s', state' := s, state;
    var t := ToFormula(stmt.test, state.env);
    var k := log.counter;
    var log1 := Seen(log, t.unknowns);
    var taken := Run(stmt.thn, Fork(state, t.f), log1);
    var skipped := Fork(state, Negated(t.f));
    var whole := Step(stmt, state, log);
    FollowsNamed(state, st, olds, globals, k, s);
    IfClean(stmt, state, log);
    NamesAreBelow(Visible(st).Keys, k);
    BoundedEnv(state, k);
    TestBelow(stmt.test, state.env, Visible(st).Keys, k);
    var b := EvalTest(stmt.test, Visible(st), None);
    if b.Some? {
      TestMeans(stmt.test, state.env, s, st);
      NegatedMeans(t.f, At(s));
      if b.value {
        ForkFollows(state, t.f, st, olds, globals, k, s);
        state', s' := BlockSound(stmt.thn, st, fuel, Fork(state, t.f), log1, s, olds, globals);
        MatchedWider(taken, whole, ExecBlock(stmt.thn, st, fuel), olds, globals, state', s');
      } else {
        ForkFollows(state, Negated(t.f), st, olds, globals, k, s);
        FollowsLater(skipped, st, olds, globals, k, taken.log.counter, s);
        if stmt.alt.Some? {
          var body := stmt.alt.value.body;
          state', s' := BlockSound(body, st, fuel, skipped, taken.log, s, olds, globals);
          StaysLess(s, s', k, taken.log.counter);
          assert LoopFree(stmt.alt.value) ==> LoopFreeAll(body);
          assert ExecStmt(stmt.alt.value, st, fuel) == ExecBlock(body, st, fuel);
          MatchedWider(Run(body, skipped, taken.log), whole, ExecBlock(body, st, fuel), olds, globals, state', s');
        } else {
          state' := skipped;
          SkipMatched(whole, st, olds, globals, skipped, s);
        }
      }
    } else {
      StuckMatched(whole, olds, globals, state, s);
    }
  }

  lemma SkipMatched(out: Out, st: Store, olds: View, globals: set<string>, state: State, s: Valuation)
    requires state in out.states && Follows(state, st, olds, globals, out.log.counter, s)
    ensures Matched(out, Normal(st), olds, globals, state, s)
  {
  }

  lemma StuckMatched(out: Out, olds: View, globals: set<string>, state: State, s: Valuation)
    ensures Matched(out, Stuck, olds, globals, state, s) && Matched(out, Timeout, olds, globals, state, s)
  {
  }

  /** What a clean `if` says of its parts. */
  lemma IfClean(stmt: Stmt, state: State, log: Log)
    requires stmt.If? && Clean(Step(stmt, state, log).log)
    ensures var t := ToFormula(stmt.test, state.env);
      var taken := Run(stmt.thn, Fork(state, t.f), Seen(log, t.unknowns));
      && t.unknowns == {} && Clean(taken.log) && log.counter <= taken.log.counter <= Step(stmt, state, log).log.counter
      && (stmt.alt.Some? && stmt.alt.value.Block? ==>
        Clean(Run(stmt.alt.value.body, Fork(state, Negated(t.f)), taken.log).log))
  {
    hide ToFormula, Run, AllTrue, Plainly, Fork, Negated;
    var t := ToFormula(stmt.test, state.env);
    var log1 := Seen(log, t.unknowns);
    var taken := Run(stmt.thn, Fork(state, t.f), log1);
    var whole := Step(stmt, state, log).log;
    ExtendsTransitive(log, log1, taken.log);
    if stmt.alt.Some? && stmt.alt.value.Block? {
      var other := Run(stmt.alt.value.body, Fork(state, Negated(t.f)), taken.log);
      assert whole == other.log;
    } else {
      assert whole == taken.log;
    }
    CleanBefore(taken.log, whole);
    CleanBefore(log1, taken.log);
  }

  lemma {:induction false} BlockSound(body: seq<Stmt>, st: Store, fuel: nat, state: State, log: Log, s: Valuation, olds: View,
                                      globals: set<string>) returns (state': State, s': Valuation)
    requires OkSeq(body, Visible(st).Keys, globals) && Follows(state, st, olds, globals, log.counter, s)
    requires Clean(Run(body, state, log).log)
    ensures Matched(Run(body, state, log), ExecBlock(body, st, fuel), olds, globals, state', s')
    ensures Stays(s, s', log.counter) && (LoopFreeAll(body) ==> s' == s)
    decreases fuel, body, 5, 0
  {
    hide Follows, Visible, Clean, RunFrom, OkSeq, Matched, Evolves, ExecSeq, Bounded, Tracks;
    FollowsNamed(state, st, olds, globals, log.counter, s);
    PushFollows(state, st, olds, globals, log.counter, s);
    PushVisible(st);
    state', s' := RunFromSound(body, Push(st), fuel, [state], state, log, s, olds, globals);
    SeqKeeps(body, Push(st), fuel, globals);
    PopMatched(st, ExecSeq(body, Push(st), fuel), Run(body, state, log), olds, globals, state', s');
  }

  lemma PushFollows(state: State, st: Store, olds: View, globals: set<string>, k: nat, s: Valuation)
    requires Follows(state, st, olds, globals, k, s)
    ensures Follows(state, Push(st), olds, globals, k, s)
  {
    hide Tracks, Visible, Bounded, Name, OldKeys;
    PushVisible(st);
  }

  /** Of all the paths explored, the one that stands for the store is carried along. */
  lemma {:induction false} RunFromSound(body: seq<Stmt>, st: Store, fuel: nat, states: seq<State>, state: State, log: Log,
                                        s: Valuation, olds: View, globals: set<string>) returns (state': State, s': Valuation)
    requires OkSeq(body, Visible(st).Keys, globals) && state in states && Follows(state, st, olds, globals, log.counter, s)
    requires Clean(RunFrom(body, states, log).log)
    ensures Matched(RunFrom(body, states, log), ExecSeq(body, st, fuel), olds, globals, state', s')
    ensures Stays(s, s', log.counter) && (LoopFreeAll(body) ==> s' == s)
    decreases fuel, body, 3, 0
  {
    hide Follows, Visible, Clean, OkStmt, StepAll, ExecStmt, Extends, Declared;
    if body == [] {
      state', s' := state, s;
    } else {
      var o := StepAll(body[0], states, log);
      FollowsNamed(state, st, olds, globals, log.counter, s);
      RunFromClean(body, states, log);
      state', s' := StepAllSound(body[0], st, fuel, states, state, log, s, olds, globals);
      StepAllCounts(body[0], states, log);
      var x := ExecStmt(body[0], st, fuel);
      StmtKeeps(body[0], st, fuel, globals);
      if x.Normal? {
        var s1 := s';
        state', s' := RunFromSound(body[1..], x.st, fuel, o.states, state', o.log, s1, olds, globals);
        StaysOn(s, s1, s', log.counter, o.log.counter);
      } else if x.Returned? {
        ReturnedStays(body[1..], o.states, state', o.log);
      }
    }
  }

  lemma StepAllCounts(stmt: Stmt, states: seq<State>, log: Log)
    ensures log.counter <= StepAll(stmt, states, log).log.counter
  {
  }

  lemma RunFromClean(body: seq<Stmt>, states: seq<State>, log: Log)
    requires body != [] && Clean(RunFrom(body, states, log).log)
    ensures !RunFrom(body, states, log).log.tooMany
    ensures var o := StepAll(body[0], states, log);
      |o.states| <= MAX_PATHS && Clean(o.log) && RunFrom(body, states, log) == RunFrom(body[1..], o.states, o.log)
  {
    hide StepAll, AllTrue, Plainly;
    var o := StepAll(body[0], states, log);
    if |o.states| <= MAX_PATHS {
      CleanBefore(o.log, RunFrom(body[1..], o.states, o.log).log);
    }
  }

  lemma {:induction false} ReturnedStays(body: seq<Stmt>, states: seq<State>, state: State, log: Log)
    requires state in states && state.returned && !RunFrom(body, states, log).log.tooMany
    ensures state in RunFrom(body, states, log).states
    decreases |body|
  {
    hide StepAll;
    if body != [] {
      ReturnedSteps(body[0], states, state, log);
      var o := StepAll(body[0], states, log);
      if |o.states| <= MAX_PATHS {
        ReturnedStays(body[1..], o.states, state, o.log);
      }
    }
  }

  lemma {:induction false} ReturnedSteps(stmt: Stmt, states: seq<State>, state: State, log: Log)
    requires state in states && state.returned
    ensures state in StepAll(stmt, states, log).states
    decreases |states|
  {
    hide Step;
    if states[0] != state {
      var first := if states[0].returned then Out([states[0]], log) else Step(stmt, states[0], log);
      ReturnedSteps(stmt, states[1..], state, first.log);
    }
  }

  lemma {:induction false} StepAllSound(stmt: Stmt, st: Store, fuel: nat, states: seq<State>, state: State, log: Log,
                                        s: Valuation, olds: View, globals: set<string>) returns (state': State, s': Valuation)
    requires OkStmt(stmt, Visible(st).Keys, globals) && state in states && Follows(state, st, olds, globals, log.counter, s)
    requires Clean(StepAll(stmt, states, log).log)
    ensures Matched(StepAll(stmt, states, log), ExecStmt(stmt, st, fuel), olds, globals, state', s')
    ensures Stays(s, s', log.counter) && (LoopFree(stmt) ==> s' == s)
    decreases fuel, stmt, 2, |states|
  {
    hide Follows, Visible, Clean, OkStmt, Step, ExecStmt, Matched, AllTrue, Plainly;
    var first := if states[0].returned then Out([states[0]], log) else Step(stmt, states[0], log);
    var rest := StepAll(stmt, states[1..], first.log);
    FollowsNamed(state, st, olds, globals, log.counter, s);
    var whole := StepAll(stmt, states, log);
    if states[0] == state {
      CleanBefore(first.log, whole.log);
      state', s' := StepSound(stmt, st, fuel, state, log, s, olds, globals);
      MatchedWider(first, whole, ExecStmt(stmt, st, fuel), olds, globals, state', s');
    } else {
      FollowsLater(state, st, olds, globals, log.counter, first.log.counter, s);
      state', s' := StepAllSound(stmt, st, fuel, states[1..], state, first.log, s, olds, globals);
      MatchedWider(rest, whole, ExecStmt(stmt, st, fuel), olds, globals, state', s');
    }
  }

  // ---- loops ---------------------------------------------------------------------------------------------------------

  lemma WithinSelf(st: Store, globals: set<string>)
    requires st != []
    ensures Within(st, st, globals)
  {
  }

  lemma WithinEvolves(st0: Store, st: Store, st': Store, globals: set<string>)
    requires Within(st0, st, globals) && Evolves(st, st', globals) && Visible(st').Keys == Visible(st).Keys
    ensures Within(st0, st', globals)
  {
    hide Visible;
  }

  lemma {:induction false} LoopSound(stmt: Stmt, st: Store, fuel: nat, state: State, log: Log, s: Valuation, olds: View,
                                     globals: set<string>) returns (state': State, s': Valuation)
    requires stmt.While? && OkStmt(stmt, Visible(st).Keys, globals) && Follows(state, st, olds, globals, log.counter, s)
    requires Clean(Step(stmt, state, log).log)
    ensures Matched(Step(stmt, state, log), ExecStmt(stmt, st, fuel), olds, globals, state', s')
    ensures Stays(s, s', log.counter) && (LoopFree(stmt) ==> s' == s)
    decreases fuel, stmt, 0, 1
  {
    hide Follows, Visible, Clean, OkSeq, NamesOf, AllNamed, ExecWhile, Evolves, Within, EnterLoop, LoopTop, LoopTopLog, Run,
      LoopConditions, LeaveLoop, Forget, Invariant, Extends, Vals, EvalTest, Matched;
    s', state' := s, state;
    var x := ExecWhile(stmt, st, fuel);
    FollowsNamed(state, st, olds, globals, log.counter, s);
    WithinSelf(st, globals);
    WhileKeeps(stmt, st, fuel, globals);
    var invs, variant, test := stmt.invariants, stmt.variant, stmt.test;
    if !x.Normal? {
      NotEnded(Step(stmt, state, log), x, olds, globals, state, s);
    } else if invs == [] && variant.None? {
      WithinEvolves(st, st, x.st, globals);
      state', s' := ForgottenSound(stmt, st, x.st, state, log, s, olds, globals);
      SkipMatched(Step(stmt, state, log), x.st, olds, globals, state', s');
    } else {
      var log1 := EnterLoop(invs, state, log);
      var top := Forget(state.env, '$', log1.counter);
      var log2 := LoopTopLog(test, invs, variant, top, log1);
      var pass := Run(stmt.body, LoopTop(test, invs, top, state.pre), log2);
      var log3 := LoopConditions(pass.states, test, invs, variant, top, pass.log);
      LoopClean(stmt, state, log);
      EnterSound(invs, st, state, log, s, olds, globals);
      PassesSound(stmt, st, st, fuel, state, log, s, olds, globals);
      state', s' := LeaveSound(stmt, st, x.st, state, log.counter, log3, s, olds, globals);
      SkipMatched(Step(stmt, state, log), x.st, olds, globals, state', s');
    }
  }

  lemma NotEnded(out: Out, o: Outcome, olds: View, globals: set<string>, state: State, s: Valuation)
    requires !o.Normal? && !o.Returned?
    ensures Matched(out, o, olds, globals, state, s)
  {
  }

  /** What a clean annotated loop says of its parts. */
  lemma LoopClean(stmt: Stmt, state: State, log: Log)
    requires stmt.While? && (stmt.invariants != [] || stmt.variant.Some?) && Clean(Step(stmt, state, log).log)
    ensures var invs, variant, test := stmt.invariants, stmt.variant, stmt.test;
      var log1 := EnterLoop(invs, state, log);
      var top := Forget(state.env, '$', log1.counter);
      var log2 := LoopTopLog(test, invs, variant, top, log1);
      var pass := Run(stmt.body, LoopTop(test, invs, top, state.pre), log2);
      var log3 := LoopConditions(pass.states, test, invs, variant, top, pass.log);
      && log1.counter == log.counter
      && Clean(log1) && Clean(log2) && Clean(pass.log) && Clean(log3) && Clean(LeaveLoop(test, invs, state, log3).log)
      && log.counter <= log3.counter && Step(stmt, state, log) == LeaveLoop(test, invs, state, log3)
  {
    hide AllTrue, Plainly, EnterLoop, LoopTop, LoopTopLog, Run, LoopConditions, LeaveLoop, Forget, Clean;
    var invs, variant, test := stmt.invariants, stmt.variant, stmt.test;
    var log1 := EnterLoop(invs, state, log);
    var top := Forget(state.env, '$', log1.counter);
    var log2 := LoopTopLog(test, invs, variant, top, log1);
    var pass := Run(stmt.body, LoopTop(test, invs, top, state.pre), log2);
    var log3 := LoopConditions(pass.states, test, invs, variant, top, pass.log);
    assert Step(stmt, state, log) == LeaveLoop(test, invs, state, log3);
    CleanBefore(log3, LeaveLoop(test, invs, state, log3).log);
    CleanBefore(pass.log, log3);
    CleanBefore(log2, pass.log);
    CleanBefore(log1, log2);
  }

  /** Induction on the passes: the invariants hold at the top of every pass and when the loop is left. */
  lemma {:induction false} PassesSound(loop: Stmt, st0: Store, st: Store, fuel: nat, state: State, log: Log, s: Valuation,
                                       olds: View, globals: set<string>)
    requires loop.While? && (loop.invariants != [] || loop.variant.Some?)
    requires OkStmt(loop, Visible(st0).Keys, globals) && Follows(state, st0, olds, globals, log.counter, s)
    requires Clean(Step(loop, state, log).log) && Within(st0, st, globals) && Invariant(loop.invariants, st, Vals(state.env, s))
    ensures var x := ExecWhile(loop, st, fuel);
      x.Normal? ==>
        && Within(st0, x.st, globals) && Invariant(loop.invariants, x.st, Vals(state.env, s))
        && EvalTest(loop.test, Visible(x.st), None) == Some(false)
    decreases fuel, loop, 0, 0
  {
    hide Follows, Visible, Clean, OkSeq, NamesOf, AllNamed, Evolves, EnterLoop, LoopTop, LoopTopLog, Run, ExecBlock,
      LoopConditions, LeaveLoop, Forget, Invariant, Extends, Vals, EvalTest, Matched, Step, Tracks;
    var b := EvalTest(loop.test, Visible(st), None);
    if fuel > 0 && b == Some(true) {
      var o := ExecBlock(loop.body, st, fuel - 1);
      WithinKeys(st0, st, globals);
      BlockKeeps(loop.body, st, fuel - 1, globals);
      if o.Normal? {
        PassSound(loop, st0, st, fuel - 1, state, log, s, olds, globals);
        WithinEvolves(st0, st, o.st, globals);
        PassesSound(loop, st0, o.st, fuel - 1, state, log, s, olds, globals);
      }
    }
  }

  lemma WithinKeys(st0: Store, st: Store, globals: set<string>)
    requires Within(st0, st, globals)
    ensures st != [] && Visible(st).Keys == Visible(st0).Keys
  {
  }

  lemma {:induction false} PassSound(loop: Stmt, st0: Store, st: Store, fuel: nat, state: State, log: Log, s: Valuation,
                                     olds: View, globals: set<string>)
    requires loop.While? && (loop.invariants != [] || loop.variant.Some?)
    requires OkStmt(loop, Visible(st0).Keys, globals) && Follows(state, st0, olds, globals, log.counter, s)
    requires Clean(Step(loop, state, log).log) && Within(st0, st, globals) && Invariant(loop.invariants, st, Vals(state.env, s))
    requires EvalTest(loop.test, Visible(st), None) == Some(true) && ExecBlock(loop.body, st, fuel).Normal?
    ensures Invariant(loop.invariants, ExecBlock(loop.body, st, fuel).st, Vals(state.env, s))
    decreases fuel, loop.body, 6, 0
  {
    hide Follows, Visible, Clean, OkSeq, NamesOf, AllNamed, Evolves, EnterLoop, LoopTop, LoopTopLog, RunFrom, ExecSeq,
      LoopConditions, LeaveLoop, Forget, Invariant, Extends, Vals, EvalTest, Step, Tracks, Within, Bounded, Push, Pop;
    var invs, variant, test := loop.invariants, loop.variant, loop.test;
    var log1 := EnterLoop(invs, state, log);
    var top := Forget(state.env, '$', log1.counter);
    var log2 := LoopTopLog(test, invs, variant, top, log1);
    var start := LoopTop(test, invs, top, state.pre);
    var pass := Run(loop.body, start, log2);
    WithinKeys(st0, st, globals);
    LoopClean(loop, state, log);
    PushVisible(st);
    var st1 := TopFollows(loop, st0, st, state, log1, s, olds, globals);
    PushNonempty(st);
    var end, se := RunFromSound(loop.body, Push(st), fuel, [start], start, log2, st1, olds, globals);
    SeqKeeps(loop.body, Push(st), fuel, globals);
    var inner := ExecSeq(loop.body, Push(st), fuel).st;
    LeaveBlock(st, inner, globals);
    FollowsNamed(end, inner, olds, globals, pass.log.counter, se);
    PassRestores(loop, pass.states, end, top, pass.log, se, inner, Pop(inner), olds, Vals(state.env, s));
  }

  // ---- functions -----------------------------------------------------------------------------------------------------

  /** A function of the fragment over a set of globals. No parameter is repeated. The postcondition may use any
      identifier and `old` of any expression over the entry scope; two `old` expressions with the same key are
      the same. */
  ghost predicate OkFunction(fn: Function, globals: set<string>) {
    var scope := globals + (set p | p in fn.params);
    var olds := OldArgsOf(fn.ensures_);
    && Bindings.Distinct(fn.params)
    && NamesAre(scope)
    && OkSeq(fn.body, scope, globals - (set p | p in fn.params))
    && AllNamed(fn.requires_, scope)
    && AllNamed(olds, scope)
    && (forall a :: a in olds ==> Plain(OldKey(a)))
    && (forall a, b :: a in olds && b in olds && OldKey(a) == OldKey(b) ==> a == b)
    && (forall e, x :: e in fn.ensures_ && x in NamesOf(e) ==> Name(x) || exists a :: a in olds && x == OldKey(a))
  }

  lemma OldKeyIsKey(a: Expr, k: nat)
    requires Plain(OldKey(a))
    ensures !Name(OldKey(a)) && OldKey(a) in NamesBelow(k)
  {
    var key := OldKey(a);
    assert key[0] == 'o' && key[3] == '(';
    if FreshFrom(key, k) {
      FreshStart(key, k);
      assert false;
    }
  }

  /** What `old` captures on entry. */
  ghost function Captured(olds: seq<Expr>, entry: View): View {
    if olds == [] then map[] else
      var v := EvalNum(olds[0], entry, None);
      var rest := Captured(olds[1..], entry);
      if v.None? then rest else rest[OldKey(olds[0]) := v.value]
  }

  lemma {:induction false} CapturedKeys(olds: seq<Expr>, entry: View)
    requires forall a :: a in olds ==> Plain(OldKey(a))
    ensures OldKeys(Captured(olds, entry))
    ensures forall x :: x in Captured(olds, entry) ==>
      exists a :: a in olds && x == OldKey(a) && EvalNum(a, entry, None) == Some(Captured(olds, entry)[x])
  {
    hide SyntaxKey, OldKey, EvalNum, NamesBelow, Name, Plain;
    if olds != [] {
      assert olds == [olds[0]] + olds[1..];
      CapturedKeys(olds[1..], entry);
      OldKeyIsKey(olds[0], 0);
    }
  }

  lemma {:induction false} CapturedValue(olds: seq<Expr>, entry: View, a: Expr)
    requires a in olds && EvalNum(a, entry, None).Some?
    requires forall b :: b in olds && OldKey(b) == OldKey(a) ==> b == a
    ensures OldKey(a) in Captured(olds, entry) && Captured(olds, entry)[OldKey(a)] == EvalNum(a, entry, None).value
  {
    hide SyntaxKey, OldKey, EvalNum;
    if olds[0] != a {
      assert olds[0] in olds;
      assert forall b :: b in olds[1..] ==> b in olds;
      CapturedValue(olds[1..], entry, a);
    }
  }

  ghost function EntryValuation(entry: View): Valuation {
    x => if x in entry then entry[x] else 0.0
  }

  /** What `old` captures is over the scope at entry, so it always has a value there. */
  lemma CapturedEvaluates(a: Expr, entry: View, env: Env, s: Valuation)
    requires NamesOf(a) <= entry.Keys && NamesAre(entry.Keys)
    requires ToLinear(a, env).unknowns == {} && Reads(Vals(env, s), entry)
    ensures EvalNum(a, entry, None).Some?
  {
    hide NamesOf, CurrentNames, ToLinear, EvalNum, Vals, Name;
    NoOldInside(a);
    NumEvaluates(a, entry, None, env, s);
  }

  /** Seeding the captured keys leaves the names of the scope alone and gives every key the value `old`
      captured for it. */
  lemma {:induction false} SeedReads(olds: seq<Expr>, all: seq<Expr>, env: Env, entry: View, k: nat, s: Valuation)
    requires forall a :: a in olds ==> a in all
    requires (forall a :: a in all ==> Plain(OldKey(a))) && AllNamed(all, entry.Keys) && NamesAre(entry.Keys)
    requires forall a, b :: a in all && b in all && OldKey(a) == OldKey(b) ==> a == b
    requires SeedOlds(olds, env).unknowns == {} && Reads(Vals(env, s), entry) && EnvBelow(env, NamesBelow(k))
    requires forall x :: x in env ==> Plain(x)
    ensures var r := SeedOlds(olds, env).env; var v := Vals(r, s);
      && Reads(v, entry) && EnvBelow(r, NamesBelow(k)) && (forall x :: x in r ==> Plain(x))
      && (forall x :: x in env ==> x in r)
      && (forall a :: a in olds && EvalNum(a, entry, None).Some? ==> v(OldKey(a)) == EvalNum(a, entry, None).value)
      && (forall x :: (forall a :: a in olds ==> x != OldKey(a)) ==> v(x) == Vals(env, s)(x))
      && AllEvaluate(olds, Some(entry))
  {
    hide SyntaxKey, OldKey, EvalNum, ToLinear, Eval, Plain, NamesOf, NamesBelow, Mentions, DenNum, Name, Vals;
    if olds != [] {
      var a := olds[0];
      var l := ToLinear(a, env).l;
      var env1 := env[OldKey(a) := l];
      assert a in all;
      OldKeyIsKey(a, k);
      LinearDenotes(a, env, s);
      NumAgrees(a, entry, None, Vals(env, s));
      CapturedEvaluates(a, entry, env, s);
      NamesAreBelow(entry.Keys, k);
      LinearBelow(a, env, NamesBelow(k));
      forall x ensures Vals(env1, s)(x) == if x == OldKey(a) then Eval(l, s) else Vals(env, s)(x) {
        SetVals(env, OldKey(a), l, s, x);
      }
      assert Reads(Vals(env1, s), entry);
      SeedReads(olds[1..], all, env1, entry, k, s);
      assert olds == [a] + olds[1..];
      var v := Vals(SeedOlds(olds, env).env, s);
      assert SeedOlds(olds, env).env == SeedOlds(olds[1..], env1).env;
      if a !in olds[1..] && EvalNum(a, entry, None).Some? {
        assert forall b :: b in olds[1..] ==> OldKey(b) != OldKey(a);
        assert v(OldKey(a)) == Vals(env1, s)(OldKey(a));
      }
    }
  }

  lemma {:induction false} PostMember(ends: seq<State>, e: State, ensures_: seq<Expr>, pre: Formula, log: Log)
    requires e in ends
    ensures var r := Postconditions(ends, ensures_, pre, log);
      && Condition(Postcondition, Implies(Conj([pre, e.path]), AllOf(ensures_, e.env).f)) in r.conditions
      && AllOf(ensures_, e.env).unknowns <= r.unknowns
  {
    hide AllOf, Implies, Conj;
    var post := AllOf(ensures_, ends[0].env);
    var f := Implies(Conj([pre, ends[0].path]), post.f);
    var log1 := Record(log, Postcondition, f, post.unknowns);
    if e == ends[0] {
      assert log1.conditions[|log.conditions|] == Condition(Postcondition, f);
      PrefixMember(log1.conditions, Postconditions(ends[1..], ensures_, pre, log1).conditions, Condition(Postcondition, f));
    } else {
      assert e in ends[1..];
      PostMember(ends[1..], e, ensures_, pre, log1);
    }
  }

  lemma {:induction false} PostTidy(ends: seq<State>, ensures_: seq<Expr>, pre: Formula, log: Log, k: nat, names: set<string>)
    requires Plainly(log) && Over(pre, NamesBelow(k)) && AllNamed(ensures_, names) && AllBelow(names, k)
    requires (forall e :: e in ends ==> Bounded(e, k)) && Postconditions(ends, ensures_, pre, log).unknowns == {}
    ensures Plainly(Postconditions(ends, ensures_, pre, log))
  {
    hide AllOf, Implies, Conj, Plainly, Bounded, Over, AllNamed, AllBelow;
    if ends != [] {
      var e := ends[0];
      var post := AllOf(ensures_, e.env);
      var f := Implies(Conj([pre, e.path]), post.f);
      BoundedEnv(e, k);
      AllOfBelow(ensures_, e.env, names, k);
      Conj2Over(pre, e.path, NamesBelow(k));
      Conj2Over(Conj([pre, e.path]), post.f, NamesBelow(k));
      RecordPlain(log, Postcondition, f, post.unknowns, k);
      PostTidy(ends[1..], ensures_, pre, Record(log, Postcondition, f, post.unknowns), k, names);
    }
  }

  ghost function Scope(fn: Function, globals: set<string>): set<string> {
    globals + (set p | p in fn.params)
  }

  ghost function Untracked(fn: Function, globals: set<string>): set<string> {
    globals - (set p | p in fn.params)
  }

  ghost function EntryState(fn: Function): State {
    var seeded := SeedOlds(OldArgsOf(fn.ensures_), SeedParams(fn.params));
    State(seeded.env, True, AllOf(fn.requires_, seeded.env).f, false)
  }

  ghost function EntryLog(fn: Function): Log {
    var seeded := SeedOlds(OldArgsOf(fn.ensures_), SeedParams(fn.params));
    Log([], seeded.unknowns + AllOf(fn.requires_, seeded.env).unknowns, 0, false)
  }

  lemma ConditionsSplit(fn: Function)
    ensures var o := Run(fn.body, EntryState(fn), EntryLog(fn));
      Conditions(fn) == (if fn.ensures_ == [] then o.log else Postconditions(o.states, fn.ensures_, EntryState(fn).pre, o.log))
      && Extends(o.log, Conditions(fn))
    ensures Conditions(fn).unknowns == {} ==>
      && SeedOlds(OldArgsOf(fn.ensures_), SeedParams(fn.params)).unknowns == {}
      && AllOf(fn.requires_, EntryState(fn).env).unknowns == {}
      && Run(fn.body, EntryState(fn), EntryLog(fn)).log.unknowns == {}
  {
    hide SeedOlds, AllOf, Run;
    var o := Run(fn.body, EntryState(fn), EntryLog(fn));
    assert Extends(EntryLog(fn), o.log);
  }

  lemma SeedParamsReads(params: seq<string>, entry: View, s: Valuation)
    requires (forall p :: p in params ==> p in entry) && Reads(s, entry)
    ensures Reads(Vals(SeedParams(params), s), entry)
  {
    hide Eval;
    forall x | x in entry ensures Vals(SeedParams(params), s)(x) == entry[x] {
      if x in params { VariableEval(x, s); }
    }
  }

  /** Under any valuation that reads the scope at entry, the entry state gives every name its value there and
      every captured key the value `old` captures. */
  lemma EntryReads(fn: Function, globals: View, args: View, s: Valuation)
    requires OkFunction(fn, globals.Keys) && args.Keys == set p | p in fn.params
    requires Conditions(fn).unknowns == {} && Reads(s, globals + args)
    ensures var entry, olds, state := globals + args, OldArgsOf(fn.ensures_), EntryState(fn);
      && Visible([globals, args]) == entry && NamesAre(entry.Keys)
      && OldKeys(Captured(olds, entry)) && AllEvaluate(olds, Some(entry))
      && Bounded(state, 0) && Covers(state.env, entry.Keys, Untracked(fn, globals.Keys))
      && Reads(Vals(state.env, s), entry) && Reads(Vals(state.env, s), Captured(olds, entry))
      && AllOf(fn.requires_, state.env).unknowns == {}
  {
    hide EvalTest, EvalNum, AllOf, SeedOlds, Name, NamesBelow, Mentions, OkSeq, NamesOf, OldKey, SyntaxKey, Plain, Models, Captured,
      OldArgsOf, Conditions, Vals;
    var entry := globals + args;
    var olds := OldArgsOf(fn.ensures_);
    TwoScopes(globals, args);
    ConditionsSplit(fn);
    assert entry.Keys == Scope(fn, globals.Keys);
    ParamsBelow(fn.params, entry.Keys);
    SeedParamsReads(fn.params, entry, s);
    SeedReads(olds, olds, SeedParams(fn.params), entry, 0, s);
    CapturedKeys(olds, entry);
    NamesAreBelow(entry.Keys, 0);
    AllOfBelow(fn.requires_, EntryState(fn).env, entry.Keys, 0);
    TrueOver();
  }

  /** Translated without unknowns, clauses over the scope evaluate, and they hold of the symbols exactly when
      they are all true of the scope. */
  lemma ClausesMean(es: seq<Expr>, env: Env, s: Valuation, view: View)
    requires AllOf(es, env).unknowns == {} && AllNamed(es, view.Keys) && NamesAre(view.Keys) && Reads(Vals(env, s), view)
    ensures forall e :: e in es ==> EvalTest(e, view, None).Some?
    ensures Models(AllOf(es, env).f, At(s)) <==> forall e :: e in es ==> EvalTest(e, view, None) == Some(true)
  {
    hide EvalTest, AllOf, Name, NamesOf, Models, OldArgs, Vals, DenTest, OldKey, CurrentNames, Reads;
    AllOfDenotes(es, env, At(s));
    forall e | e in es ensures EvalTest(e, view, None) == Some(DenTest(e, Vals(env, s))) {
      NoUnknownsIn(es, e, env);
      NoOldInside(e);
      TestEvaluates(e, view, None, env, s);
      TestAgrees(e, view, None, Vals(env, s));
    }
  }

  /** The translated precondition holds under such a valuation exactly when the precondition does at entry. */
  lemma EntryMeans(fn: Function, globals: View, args: View, s: Valuation)
    requires OkFunction(fn, globals.Keys) && args.Keys == set p | p in fn.params
    requires Conditions(fn).unknowns == {} && Reads(s, globals + args)
    ensures Models(EntryState(fn).pre, At(s)) <==> forall r :: r in fn.requires_ ==> EvalTest(r, globals + args, None) == Some(true)
  {
    hide EvalTest, AllOf, Name, OkSeq, NamesOf, Models, Captured, OldArgsOf, Conditions, Vals, Bounded, Covers, OldKey, Plain,
      SeedOlds;
    EntryReads(fn, globals, args, s);
    ClausesMean(fn.requires_, EntryState(fn).env, s, globals + args);
  }

  /** The call starts in a store the entry state stands for. */
  lemma EntryFollows(fn: Function, globals: View, args: View, s: Valuation)
    requires OkFunction(fn, globals.Keys) && args.Keys == set p | p in fn.params
    requires Conditions(fn).unknowns == {} && Reads(s, globals + args)
    requires forall r :: r in fn.requires_ ==> EvalTest(r, globals + args, None) == Some(true)
    ensures var entry := globals + args;
      && Visible([globals, args]) == entry
      && Follows(EntryState(fn), [globals, args], Captured(OldArgsOf(fn.ensures_), entry), Untracked(fn, globals.Keys), 0, s)
  {
    hide EvalTest, AllOf, Name, OkSeq, NamesOf, Models, Captured, OldArgsOf, Conditions, Vals, Bounded, Covers, OldKeys, Visible,
      SeedOlds, OkFunction, Untracked, AllEvaluate;
    EntryReads(fn, globals, args, s);
    EntryMeans(fn, globals, args, s);
    TrueOver();
  }

  lemma TrueOver()
    ensures Over(True, NamesBelow(0)) && forall m :: Models(True, m)
  {
  }

  lemma TwoScopes(a: View, b: View)
    ensures Visible([a, b]) == a + b
  {
    assert [a, b][..1] == [a] && [a][..0] == [];
    assert Visible([a]) == Visible([]) + a == a;
  }

  lemma ParamsBelow(params: seq<string>, scope: set<string>)
    requires NamesAre(scope) && forall p :: p in params ==> p in scope
    ensures EnvBelow(SeedParams(params), NamesBelow(0)) && forall x :: x in SeedParams(params) ==> Plain(x)
  {
    hide Name, Plain, Mentions, NamesBelow;
    forall x | x in SeedParams(params) ensures Plain(x) && Mentions(SeedParams(params)[x], NamesBelow(0)) {
      NamePlain(x);
      NameBelow(x, 0);
      VariableMentions(x, NamesBelow(0));
    }
  }

  /** No name in a condition holds a blank, so that each condition is within the solver's domain. */
  lemma ConditionsPlain(fn: Function, globals: set<string>)
    requires OkFunction(fn, globals) && Conditions(fn).unknowns == {} && Bounded(EntryState(fn), 0)
    ensures Plainly(Conditions(fn))
  {
    hide OkSeq, Run, SeedOlds, Conditions, Over, Bounded, EntryState, EntryLog, Postconditions, Name, Plain, OldKey, NamesOf;
    var o := Run(fn.body, EntryState(fn), EntryLog(fn));
    ConditionsSplit(fn);
    EntryPlain(fn);
    RunTidy(fn.body, EntryState(fn), EntryLog(fn), Scope(fn, globals), Untracked(fn, globals));
    if fn.ensures_ != [] {
      EnsuresNames(fn, globals, o.log.counter);
      BoundedEnv(EntryState(fn), 0);
      BelowGrows(0, o.log.counter);
      OverMonotone(EntryState(fn).pre, NamesBelow(0), NamesBelow(o.log.counter));
      PostTidy(o.states, fn.ensures_, EntryState(fn).pre, o.log, o.log.counter, EnsuresScope(fn));
    }
  }

  /** Proved conditions are true of every interpretation, and the walk was clean. */
  lemma ProvedClean(fn: Function, globals: set<string>, maxAtoms: nat, budget: nat)
    requires OkFunction(fn, globals) && Proved(fn, maxAtoms, budget) && Conditions(fn).unknowns == {}
    requires Bounded(EntryState(fn), 0)
    ensures Clean(Conditions(fn)) && Clean(Run(fn.body, EntryState(fn), EntryLog(fn)).log)
  {
    hide OkFunction, Run, Conditions, Models, Bounded, EntryState, EntryLog, Judge;
    var log := Conditions(fn);
    ConditionsSplit(fn);
    ConditionsPlain(fn, globals);
    forall c | c in log.conditions ensures forall m :: Models(c.formula, m) {
      var i :| 0 <= i < |log.conditions| && log.conditions[i] == c;
      JudgedTrue(c.formula, maxAtoms, budget);
    }
    CleanBefore(Run(fn.body, EntryState(fn), EntryLog(fn)).log, log);
  }

  lemma EntryPlain(fn: Function)
    ensures Plainly(EntryLog(fn)) && EntryLog(fn).counter == 0
  {
    hide SeedOlds, AllOf;
  }

  lemma JudgedTrue(f: Formula, maxAtoms: nat, budget: nat)
    requires Judge(f, maxAtoms, budget) == Yes && Dpll.PlainFormula(f)
    ensures forall m :: Models(f, m)
  {
    hide Models, Dpll.PlainFormula, Dpll.Unambiguous, Approximate;
    Dpll.PlainUnambiguous(f);
    Dpll.IsValidExact(f, maxAtoms, budget);
  }

  ghost function EnsuresScope(fn: Function): set<string> {
    set e, x | e in fn.ensures_ && x in NamesOf(e) :: x
  }

  lemma EnsuresNames(fn: Function, globals: set<string>, k: nat)
    requires OkFunction(fn, globals)
    ensures AllNamed(fn.ensures_, EnsuresScope(fn)) && AllBelow(EnsuresScope(fn), k)
  {
    hide NamesOf, Name, Plain, OldKey, NamesBelow, OkSeq;
    forall x | x in EnsuresScope(fn) ensures x in NamesBelow(k) {
      if Name(x) {
        NameBelow(x, k);
      } else {
        var a :| a in OldArgsOf(fn.ensures_) && x == OldKey(a);
        OldKeyIsKey(a, k);
      }
    }
  }

  /** The names a postcondition can count on at the end: the globals, the parameters and, when every path
      returns a value, the result. */
  ghost function AtEnd(fn: Function, globals: set<string>): set<string> {
    Scope(fn, globals) - {"result"} + if ReturnsValue(fn.body) then {"result"} else {}
  }

  lemma EndBinds(fn: Function, globals: View, args: View, fuel: nat)
    requires OkFunction(fn, globals.Keys) && args.Keys == set p | p in fn.params
    requires Call(fn, globals, args, fuel).Some?
    ensures AtEnd(fn, globals.Keys) <= Call(fn, globals, args, fuel).value.Keys
  {
    hide OkStmt, Name, NamesOf, Plain, OldKey, ExecSeq, Visible, Evolves, OldArgsOf, SomeReturns, AllGiveValues, NoReturns;
    var st: Store := [globals, args];
    var g := Untracked(fn, globals.Keys);
    TwoScopes(globals, args);
    assert Visible(st).Keys == Scope(fn, globals.Keys);
    SeqKeeps(fn.body, st, fuel, g);
    SeqReturns(fn.body, st, fuel, g);
    var o := ExecSeq(fn.body, st, fuel);
    EvolvesKeys(st, o.st, g);
  }

  lemma EvolvesKeys(before: Store, after: Store, globals: set<string>)
    requires Evolves(before, after, globals)
    ensures Visible(before).Keys <= Visible(after).Keys
  {
    GrownKeys(before, after);
  }

  /** Soundness of the verifier. For every function of the fragment, whatever the globals and the arguments:
      if every condition is proved and no term was taken for an unknown, a call whose precondition holds and
      that ends, ends with every postcondition true. What a postcondition reads must be there to be read: it
      is, by the last clause, when it reads the globals, the parameters, what `old` captured and, every path
      returning a value, the result. */
  lemma FunctionSound(fn: Function, globals: View, args: View, fuel: nat, maxAtoms: nat, budget: nat)
    requires OkFunction(fn, globals.Keys) && Proved(fn, maxAtoms, budget) && Conditions(fn).unknowns == {}
    requires args.Keys == set p | p in fn.params
    requires forall r :: r in fn.requires_ ==> EvalTest(r, globals + args, None) == Some(true)
    ensures Call(fn, globals, args, fuel).Some? ==>
      forall e :: e in fn.ensures_ ==>
        var final := Call(fn, globals, args, fuel).value;
        && EvalTest(e, final, Some(globals + args)) != Some(false)
        && (CurrentNames(e) <= final.Keys ==> EvalTest(e, final, Some(globals + args)) == Some(true))
        && (CurrentNames(e) <= AtEnd(fn, globals.Keys) ==> EvalTest(e, final, Some(globals + args)) == Some(true))
  {
    hide EvalTest, OkFunction, Proved, Conditions, AtEnd, CurrentNames;
    if Call(fn, globals, args, fuel).Some? {
      CallKeeps(fn, globals, args, fuel, maxAtoms, budget);
      EndBinds(fn, globals, args, fuel);
    }
  }

  lemma CallKeeps(fn: Function, globals: View, args: View, fuel: nat, maxAtoms: nat, budget: nat)
    requires OkFunction(fn, globals.Keys) && Proved(fn, maxAtoms, budget) && Conditions(fn).unknowns == {}
    requires args.Keys == set p | p in fn.params
    requires forall r :: r in fn.requires_ ==> EvalTest(r, globals + args, None) == Some(true)
    ensures Call(fn, globals, args, fuel).Some? ==> PromisesKept(fn, Call(fn, globals, args, fuel).value, globals + args)
  {
    hide EvalTest, EvalNum, Run, Name, Plain, OldKey, NamesOf, Conditions, OkSeq, Follows, Clean, ExecSeq, Captured, Bounded, Tracks,
      Proved, FinalView, EntryState, EntryLog, Visible, KeepsPromise, AllEvaluate;
    var entry, olds := globals + args, Captured(OldArgsOf(fn.ensures_), globals + args);
    var st, g := [globals, args], Untracked(fn, globals.Keys);
    EntryFollows(fn, globals, args, EntryValuation(entry));
    EntryReads(fn, globals, args, EntryValuation(entry));
    FollowsNamed(EntryState(fn), st, olds, g, 0, EntryValuation(entry));
    ProvedClean(fn, globals.Keys, maxAtoms, budget);
    EntryPlain(fn);
    assert entry.Keys == Scope(fn, globals.Keys);
    hide RunFrom;
    RunIsRunFrom(fn);
    RunPre(fn.body, EntryState(fn), EntryLog(fn));
    var end, s := RunFromSound(fn.body, st, fuel, [EntryState(fn)], EntryState(fn), EntryLog(fn), EntryValuation(entry), olds, g);
    var x := ExecSeq(fn.body, st, fuel);
    if x.Normal? {
      FollowsNamed(end, x.st, olds, g, Run(fn.body, EntryState(fn), EntryLog(fn)).log.counter, s);
      FinalLess(x.st);
      TracksLess(end, FinalView(x.st, None), Visible(x.st), olds, s);
      PostSound(fn, globals.Keys, entry, end, FinalView(x.st, None), s);
    } else if x.Returned? {
      PostSound(fn, globals.Keys, entry, end, FinalView(x.st, x.result), s);
    }
  }

  // The precondition is carried along unchanged.

  ghost predicate AllPre(states: seq<State>, pre: Formula) {
    forall s :: s in states ==> s.pre == pre
  }

  lemma {:induction false} StepPre(stmt: Stmt, state: State, log: Log)
    ensures AllPre(Step(stmt, state, log).states, state.pre)
    decreases stmt, 1, 0
  {
    hide ToFormula, ToLinear, Run, LoopConditions, EnterLoop, LoopTopLog;
    match stmt
    case If(test, thn, alt) =>
      var t := ToFormula(test, state.env);
      var taken := Run(thn, Fork(state, t.f), Seen(log, t.unknowns));
      RunPre(thn, Fork(state, t.f), Seen(log, t.unknowns));
      if alt.Some? && alt.value.Block? {
        RunPre(alt.value.body, Fork(state, Negated(t.f)), taken.log);
      }
    case Block(body) => RunPre(body, state, log);
    case _ =>
  }

  lemma {:induction false} RunPre(stmts: seq<Stmt>, state: State, log: Log)
    ensures AllPre(Run(stmts, state, log).states, state.pre)
    decreases stmts, 4, 0
  {
    RunFromPre(stmts, [state], log, state.pre);
  }

  lemma {:induction false} RunFromPre(stmts: seq<Stmt>, states: seq<State>, log: Log, pre: Formula)
    requires AllPre(states, pre)
    ensures AllPre(RunFrom(stmts, states, log).states, pre)
    decreases stmts, 3, 0
  {
    hide StepAll;
    if stmts != [] {
      StepAllPre(stmts[0], states, log, pre);
      var o := StepAll(stmts[0], states, log);
      if |o.states| <= MAX_PATHS {
        RunFromPre(stmts[1..], o.states, o.log, pre);
      }
    }
  }

  lemma {:induction false} StepAllPre(stmt: Stmt, states: seq<State>, log: Log, pre: Formula)
    requires AllPre(states, pre)
    ensures AllPre(StepAll(stmt, states, log).states, pre)
    decreases stmt, 2, |states|
  {
    hide Step;
    if states != [] {
      assert states[0] in states;
      StepPre(stmt, states[0], log);
      var first := if states[0].returned then Out([states[0]], log) else Step(stmt, states[0], log);
      StepAllPre(stmt, states[1..], first.log, pre);
    }
  }

  lemma RunIsRunFrom(fn: Function)
    ensures Run(fn.body, EntryState(fn), EntryLog(fn)) == RunFrom(fn.body, [EntryState(fn)], EntryLog(fn))
  {
    hide RunFrom, EntryState, EntryLog;
  }

  lemma FinalLess(st: Store)
    ensures Restricts(FinalView(st, None), Visible(st))
  {
    hide Visible;
  }

  /** A postcondition is never false at the end, and it is true when every name it reads there is bound. */
  ghost predicate KeepsPromise(e: Expr, final: View, entry: View) {
    && EvalTest(e, final, Some(entry)) != Some(false)
    && (CurrentNames(e) <= final.Keys ==> EvalTest(e, final, Some(entry)) == Some(true))
  }

  ghost predicate PromisesKept(fn: Function, final: View, entry: View) {
    forall e :: e in fn.ensures_ ==> KeepsPromise(e, final, entry)
  }

  lemma {:induction false} NoUnknownsIn(es: seq<Expr>, e: Expr, env: Env)
    requires e in es && AllOf(es, env).unknowns == {}
    ensures ToFormula(e, env).unknowns == {}
  {
    hide ToFormula, Conj;
    if es[0] != e {
      NoUnknownsIn(es[1..], e, env);
    }
  }

  lemma PostSound(fn: Function, globals: set<string>, entry: View, end: State, final: View, s: Valuation)
    requires OkFunction(fn, globals) && Clean(Conditions(fn)) && end in Run(fn.body, EntryState(fn), EntryLog(fn)).states
    requires Tracks(end, final, Captured(OldArgsOf(fn.ensures_), entry), s) && end.pre == EntryState(fn).pre
    requires Conditions(fn).unknowns == {} && AllEvaluate(OldArgsOf(fn.ensures_), Some(entry))
    ensures PromisesKept(fn, final, entry)
  {
    hide EvalTest, EvalNum, Run, Name, Plain, OldKey, NamesOf, Conditions, OkSeq, Captured, AllOf, Models, Conj, Implies, Vals, DenTest,
      OldArgs, Plainly, EntryState, EntryLog, Postconditions, NamesAre;
    if fn.ensures_ != [] {
      var o := Run(fn.body, EntryState(fn), EntryLog(fn));
      var pre := EntryState(fn).pre;
      ConditionsSplit(fn);
      PostMember(o.states, end, fn.ensures_, pre, o.log);
      var post := AllOf(fn.ensures_, end.env).f;
      var f := Implies(Conj([pre, end.path]), post);
      assert Models(f, At(s)) by { assert Condition(Postcondition, f) in Conditions(fn).conditions; }
      ImpliesMeans(Conj([pre, end.path]), post, At(s));
      Conj2Means(pre, end.path, At(s));
      AllOfDenotes(fn.ensures_, end.env, At(s));
      var v := Vals(end.env, s);
      forall e | e in fn.ensures_ ensures KeepsPromise(e, final, entry) {
        OldArgsMember(fn.ensures_, e);
        Remembered(fn, globals, entry, v, OldArgs(e));
        TestAgrees(e, final, Some(entry), v);
        if CurrentNames(e) <= final.Keys {
          NoUnknownsIn(fn.ensures_, e, end.env);
          TestEvaluates(e, final, Some(entry), end.env, s);
        }
      }
    }
  }

  lemma {:induction false} OldArgsMember(es: seq<Expr>, e: Expr)
    requires e in es
    ensures forall a :: a in OldArgs(e) ==> a in OldArgsOf(es)
  {
    hide OldArgs;
    if es[0] != e {
      OldArgsMember(es[1..], e);
    }
  }

  lemma Remembered(fn: Function, globals: set<string>, entry: View, v: Assignment, args: seq<Expr>)
    requires OkFunction(fn, globals) && Reads(v, Captured(OldArgsOf(fn.ensures_), entry))
    requires forall a :: a in args ==> a in OldArgsOf(fn.ensures_)
    ensures Remembers(v, args, Some(entry))
  {
    hide EvalNum, Name, Plain, OldKey, NamesOf, OkSeq, Captured, OldArgsOf, NamesAre;
    forall a | a in args && EvalNum(a, entry, None).Some? ensures v(OldKey(a)) == EvalNum(a, entry, None).value {
      CapturedValue(OldArgsOf(fn.ensures_), entry, a);
    }
  }
}
