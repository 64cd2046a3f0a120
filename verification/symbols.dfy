/** Symbolic execution stays within the solver's domain: the symbols a state or a condition uses are older
    than the next fresh one, and no name in a condition holds a blank. */
module Symbols {
  import opened Rational
  import opened LinearExpr
  import opened Formulas
  import opened FourierMotzkin
  import opened Programs
  import opened VcGen
  import opened Denotation
  import opened Fragment
  import Dpll

  // ---- symbols of a state ---------------------------------------------------------------------------

  ghost function At(s: Valuation): Interp {
    Interp(s, _ => false)
  }

  /** Every symbol of the state is older than the next fresh one. */
  ghost predicate Bounded(state: State, k: nat) {
    && (forall x :: x in state.env ==> Plain(x) && Mentions(state.env[x], NamesBelow(k)))
    && Over(state.path, NamesBelow(k)) && Over(state.pre, NamesBelow(k))
  }

  ghost predicate AllBelow(names: set<string>, k: nat) {
    forall x :: x in names ==> x in NamesBelow(k)
  }

  lemma NamesAreBelow(names: set<string>, k: nat)
    requires NamesAre(names)
    ensures AllBelow(names, k)
  {
    hide Name;
    forall x | x in names ensures x in NamesBelow(k) { NameBelow(x, k); }
  }

  ghost predicate EnvBelow(env: Env, names: iset<string>) {
    forall x :: x in env ==> Mentions(env[x], names)
  }

  lemma {:induction false} LinearBelow(e: Expr, env: Env, names: iset<string>)
    requires ToLinear(e, env).unknowns == {} && EnvBelow(env, names) && forall x :: x in NamesOf(e) ==> x in names
    ensures Mentions(ToLinear(e, env).l, names)
  {
    hide SyntaxKey, Val, Mentions;
    match e
    case Num(value, _) => ConstantMentions(value, names);
    case Ident(x) => if x !in env { VariableMentions(x, names); }
    case Neg(a) =>
      LinearBelow(a, env, names);
      OperationsMention(ToLinear(a, env).l, ToLinear(a, env).l, Zero(), names);
    case Bin(op, a, b) =>
      if op.Divide? {
        LinearBelow(b, env, names);
        var l, r := ToLinear(a, env), ToLinear(b, env);
        if IsConstant(r.l) && !IsZero(r.l.constant) {
          NonZeroValue(r.l.constant);
          LinearBelow(a, env, names);
          OperationsMention(l.l, l.l, Div(One(), r.l.constant), names);
        }
      } else if op.Plus? || op.Minus? || op.Times? {
        LinearBelow(a, env, names);
        LinearBelow(b, env, names);
        var l, r := ToLinear(a, env).l, ToLinear(b, env).l;
        OperationsMention(l, r, r.constant, names);
        OperationsMention(r, l, l.constant, names);
      }
    case Old(a) => if OldKey(a) !in env { VariableMentions(OldKey(a), names); }
    case _ =>
  }

  lemma ConstantMentions(r: Rat, names: iset<string>)
    ensures Mentions(Constant(r), names)
  {
  }

  lemma VariableMentions(x: string, names: iset<string>)
    requires x in names
    ensures Mentions(Variable(x), names)
  {
  }

  lemma {:induction false} FormulaBelow(e: Expr, env: Env, names: iset<string>)
    requires ToFormula(e, env).unknowns == {} && EnvBelow(env, names) && forall x :: x in NamesOf(e) ==> x in names
    ensures Over(ToFormula(e, env).f, names)
  {
    hide SyntaxKey, Mentions, ToLinear, Conj, Disj, Comparison;
    match e
    case Not(a) => FormulaBelow(a, env, names);
    case Logic(_, a, b) =>
      FormulaBelow(a, env, names);
      FormulaBelow(b, env, names);
      Conj2Over(ToFormula(a, env).f, ToFormula(b, env).f, names);
    case Bin(op, a, b) =>
      if IsComparison(op) {
        LinearBelow(a, env, names);
        LinearBelow(b, env, names);
        ComparisonBelow(op, ToLinear(a, env).l, ToLinear(b, env).l, names);
      }
    case _ =>
  }

  lemma ComparisonBelow(op: BinOp, l: Linear, r: Linear, names: iset<string>)
    requires IsComparison(op) && Mentions(l, names) && Mentions(r, names)
    ensures Over(Comparison(op, l, r), names)
  {
    hide Mentions, LinearExpr.Minus;
    OperationsMention(l, r, Zero(), names);
    OperationsMention(r, l, Zero(), names);
  }

  lemma {:induction false} FormulasBelow(es: seq<Expr>, env: Env, names: iset<string>)
    requires ToFormulas(es, env).unknowns == {} && EnvBelow(env, names)
    requires forall e :: e in es ==> forall x :: x in NamesOf(e) ==> x in names
    ensures AllOver(ToFormulas(es, env).fs, names)
  {
    hide NamesOf, ToFormula, Over, EnvBelow;
    if es != [] {
      assert es[0] in es;
      FormulaBelow(es[0], env, names);
      FormulasBelow(es[1..], env, names);
    }
  }

  lemma AllOfBelow(es: seq<Expr>, env: Env, scope: set<string>, k: nat)
    requires AllOf(es, env).unknowns == {} && EnvBelow(env, NamesBelow(k)) && AllNamed(es, scope) && AllBelow(scope, k)
    ensures Over(AllOf(es, env).f, NamesBelow(k))
  {
    hide ToFormulas, Over, EnvBelow, Conj;
    FormulasBelow(es, env, NamesBelow(k));
    ConjOver(ToFormulas(es, env).fs, NamesBelow(k));
  }

  ghost predicate Plainly(log: Log) {
    forall c :: c in log.conditions ==> Dpll.PlainFormula(c.formula)
  }

  lemma BelowPlain(f: Formula, k: nat)
    requires Over(f, NamesBelow(k))
    ensures Dpll.PlainFormula(f)
  {
    OverMonotone(f, NamesBelow(k), Dpll.PlainSet());
  }

  lemma {:induction false} EnvGrows(env: Env, k: nat, k': nat)
    requires EnvBelow(env, NamesBelow(k)) && k <= k'
    ensures EnvBelow(env, NamesBelow(k'))
  {
    BelowGrows(k, k');
  }

  lemma BoundedGrows(state: State, k: nat, k': nat)
    requires Bounded(state, k) && k <= k'
    ensures Bounded(state, k')
  {
    hide Over;
    BelowGrows(k, k');
    OverMonotone(state.path, NamesBelow(k), NamesBelow(k'));
    OverMonotone(state.pre, NamesBelow(k), NamesBelow(k'));
  }

  lemma ForgetBounded(env: Env, prefix: char, k: nat)
    requires prefix == '$' || prefix == '?'
    requires forall x :: x in env ==> Plain(x)
    ensures EnvBelow(Forget(env, prefix, k), NamesBelow(k + 1))
    ensures Forget(env, prefix, k).Keys == env.Keys
  {
    hide Plain, Mentions;
    forall x | x in env ensures Mentions(Forget(env, prefix, k)[x], NamesBelow(k + 1)) {
      FreshBelow(prefix, x, k);
      VariableMentions(Fresh(prefix, x, k), NamesBelow(k + 1));
    }
  }

  // ---- the conditions are within the solver's domain ---------------------------------------------------

  /** All states bounded, all conditions plain: what the walk keeps. */
  ghost predicate Tidy(states: seq<State>, log: Log) {
    Plainly(log) && forall s :: s in states ==> Bounded(s, log.counter)
  }

  lemma TidyGrows(states: seq<State>, log: Log, k: nat)
    requires (forall s :: s in states ==> Bounded(s, k)) && k <= log.counter && Plainly(log)
    ensures Tidy(states, log)
  {
    hide Bounded;
    forall s | s in states ensures Bounded(s, log.counter) { BoundedGrows(s, k, log.counter); }
  }

  lemma RecordPlain(log: Log, kind: Kind, f: Formula, unknowns: set<string>, k: nat)
    requires Plainly(log) && Over(f, NamesBelow(k))
    ensures Plainly(Record(log, kind, f, unknowns))
  {
    BelowPlain(f, k);
  }

  lemma {:induction false} StepTidy(stmt: Stmt, state: State, log: Log, scope: set<string>, globals: set<string>)
    requires OkStmt(stmt, scope, globals) && NamesAre(scope) && Bounded(state, log.counter) && Plainly(log)
    requires Step(stmt, state, log).log.unknowns == {}
    ensures Tidy(Step(stmt, state, log).states, Step(stmt, state, log).log)
    decreases stmt, 1, 0
  {
    hide Name, NamesOf, Over, ToFormula, ToLinear, Mentions, Run, Loop, Plain, OkSeq, Conj, Plainly;
    NamesAreBelow(scope, log.counter);
    match stmt
    case Declare(x, e) =>
      NamePlain(x);
      SetBounded(state, x, e, log.counter, scope, state.returned);
      PlainlySeen(log, ToLinear(e, state.env).unknowns);
    case Assign(x, e) =>
      NamePlain(x);
      SetBounded(state, x, e, log.counter, scope, state.returned);
      PlainlySeen(log, ToLinear(e, state.env).unknowns);
    case ExprStmt(_) =>
    case Return(None) => assert Bounded(state.(returned := true), log.counter);
    case Return(Some(e)) =>
      ResultPlain();
      SetBounded(state, "result", e, log.counter, scope, true);
      PlainlySeen(log, ToLinear(e, state.env).unknowns);
    case If(test, thn, alt) => IfTidy(stmt, state, log, scope, globals);
    case Block(body) => RunTidy(body, state, log, scope, globals);
    case While(test, invariants, variant, body) => LoopTidy(stmt, state, log, scope, globals);
    case _ =>
  }

  lemma NamePlain(x: string)
    requires Name(x)
    ensures Plain(x)
  {
  }

  lemma ResultPlain()
    ensures Plain("result")
  {
  }

  lemma SetBounded(state: State, x: string, e: Expr, k: nat, scope: set<string>, returned: bool)
    requires Bounded(state, k) && Plain(x) && NamesOf(e) <= scope && AllBelow(scope, k) && ToLinear(e, state.env).unknowns == {}
    ensures Bounded(state.(env := state.env[x := ToLinear(e, state.env).l], returned := returned), k)
  {
    hide Over, ToLinear, NamesOf, Mentions, Plain;
    LinearBelow(e, state.env, NamesBelow(k));
  }

  lemma ForkBounded(state: State, f: Formula, k: nat)
    requires Bounded(state, k) && Over(f, NamesBelow(k))
    ensures Bounded(Fork(state, f), k)
  {
    hide Over, Conj;
    Conj2Over(state.path, f, NamesBelow(k));
  }

  lemma TestBelow(test: Expr, env: Env, scope: set<string>, k: nat)
    requires NamesOf(test) <= scope && AllBelow(scope, k) && EnvBelow(env, NamesBelow(k)) && ToFormula(test, env).unknowns == {}
    ensures Over(ToFormula(test, env).f, NamesBelow(k)) && Over(Negated(ToFormula(test, env).f), NamesBelow(k))
  {
    hide ToFormula, NamesOf, EnvBelow;
    FormulaBelow(test, env, NamesBelow(k));
  }

  lemma {:induction false} IfTidy(stmt: Stmt, state: State, log: Log, scope: set<string>, globals: set<string>)
    requires stmt.If? && OkStmt(stmt, scope, globals) && NamesAre(scope) && Bounded(state, log.counter) && Plainly(log)
    requires Step(stmt, state, log).log.unknowns == {}
    ensures Tidy(Step(stmt, state, log).states, Step(stmt, state, log).log)
    decreases stmt, 0, 1
  {
    hide Name, NamesOf, Over, ToFormula, ToLinear, Mentions, Run, Plain, OkSeq, Bounded, Negated, Fork, Plainly, NamesAre;
    var test := stmt.test;
    var t := ToFormula(test, state.env);
    NamesAreBelow(scope, log.counter);
    BoundedEnv(state, log.counter);
    TestBelow(test, state.env, scope, log.counter);
    ForkBounded(state, t.f, log.counter);
    ForkBounded(state, Negated(t.f), log.counter);
    var log1 := Seen(log, t.unknowns);
    PlainlySeen(log, t.unknowns);
    var taken := Run(stmt.thn, Fork(state, t.f), log1);
    RunTidy(stmt.thn, Fork(state, t.f), log1, scope, globals);
    var skipped := Fork(state, Negated(t.f));
    BoundedGrows(skipped, log.counter, taken.log.counter);
    if stmt.alt.Some? {
      RunTidy(stmt.alt.value.body, skipped, taken.log, scope, globals);
      var other := Run(stmt.alt.value.body, skipped, taken.log);
      TidyGrows(taken.states, other.log, taken.log.counter);
    }
  }

  lemma PlainlySeen(log: Log, unknowns: set<string>)
    requires Plainly(log)
    ensures Plainly(Seen(log, unknowns)) && Plainly(log.(unknowns := unknowns))
    ensures forall k: nat :: Plainly(log.(counter := k))
  {
  }

  lemma BoundedEnv(state: State, k: nat)
    requires Bounded(state, k)
    ensures EnvBelow(state.env, NamesBelow(k)) && forall x :: x in state.env ==> Plain(x)
    ensures Over(state.path, NamesBelow(k)) && Over(state.pre, NamesBelow(k))
  {
  }

  lemma {:induction false} RunTidy(stmts: seq<Stmt>, state: State, log: Log, scope: set<string>, globals: set<string>)
    requires OkSeq(stmts, scope, globals) && NamesAre(scope) && Bounded(state, log.counter) && Plainly(log)
    requires Run(stmts, state, log).log.unknowns == {}
    ensures Tidy(Run(stmts, state, log).states, Run(stmts, state, log).log)
    decreases stmts, 4, 0
  {
    hide OkSeq, RunFrom, NamesAre, Bounded;
    RunFromTidy(stmts, [state], log, scope, globals);
  }

  lemma {:induction false} RunFromTidy(stmts: seq<Stmt>, states: seq<State>, log: Log, scope: set<string>, globals: set<string>)
    requires OkSeq(stmts, scope, globals) && NamesAre(scope) && Tidy(states, log)
    requires RunFrom(stmts, states, log).log.unknowns == {}
    ensures Tidy(RunFrom(stmts, states, log).states, RunFrom(stmts, states, log).log)
    decreases stmts, 3, 0
  {
    hide OkStmt, NamesOf, Bounded, StepAll, Name;
    if stmts != [] {
      var o := StepAll(stmts[0], states, log);
      StepAllTidy(stmts[0], states, log, scope, globals);
      if |o.states| <= MAX_PATHS {
        DeclaredNamed(stmts[0], scope, globals);
        RunFromTidy(stmts[1..], o.states, o.log, scope + Declared(stmts[0]), globals);
      }
    }
  }

  lemma DeclaredNamed(stmt: Stmt, scope: set<string>, globals: set<string>)
    requires OkStmt(stmt, scope, globals) && NamesAre(scope)
    ensures NamesAre(scope + Declared(stmt))
  {
  }

  lemma {:induction false} StepAllTidy(stmt: Stmt, states: seq<State>, log: Log, scope: set<string>, globals: set<string>)
    requires OkStmt(stmt, scope, globals) && NamesAre(scope) && Tidy(states, log)
    requires StepAll(stmt, states, log).log.unknowns == {}
    ensures Tidy(StepAll(stmt, states, log).states, StepAll(stmt, states, log).log)
    decreases stmt, 2, |states|
  {
    hide OkStmt, Bounded, Step, Plainly, NamesAre;
    if states != [] {
      var first := if states[0].returned then Out([states[0]], log) else Step(stmt, states[0], log);
      if !states[0].returned {
        StepTidy(stmt, states[0], log, scope, globals);
      }
      TidyGrows(states[1..], first.log, log.counter);
      StepAllTidy(stmt, states[1..], first.log, scope, globals);
      var rest := StepAll(stmt, states[1..], first.log);
      TidyGrows(first.states, rest.log, first.log.counter);
    }
  }

  lemma {:induction false} LoopTidy(stmt: Stmt, state: State, log: Log, scope: set<string>, globals: set<string>)
    requires stmt.While? && OkStmt(stmt, scope, globals) && NamesAre(scope) && Bounded(state, log.counter) && Plainly(log)
    requires Loop(stmt, stmt.test, stmt.invariants, stmt.variant, stmt.body, state, log).log.unknowns == {}
    ensures var o := Loop(stmt, stmt.test, stmt.invariants, stmt.variant, stmt.body, state, log); Tidy(o.states, o.log)
    decreases stmt, 0, 0
  {
    hide Name, NamesOf, Over, Mentions, Run, Plain, OkSeq, Bounded, Plainly, NamesAre, EnterLoop, LoopTop, LoopTopLog,
      LoopConditions, LeaveLoop, AllNamed, Forget;
    var test, invs, variant := stmt.test, stmt.invariants, stmt.variant;
    BoundedEnv(state, log.counter);
    if invs == [] && variant.None? {
      ForgetBounded(state.env, '?', log.counter);
      BoundedGrows(state, log.counter, log.counter + 1);
      ReplaceEnv(state, Forget(state.env, '?', log.counter), log.counter + 1);
      PlainlySeen(log, log.unknowns);
    } else {
      var log1 := EnterLoop(invs, state, log);
      EnterTidy(invs, state, log, scope);
      var top := Forget(state.env, '$', log1.counter);
      var log2 := LoopTopLog(test, invs, variant, top, log1);
      LoopTopTidy(test, invs, variant, state, log1, scope);
      var pass := Run(stmt.body, LoopTop(test, invs, top, state.pre), log2);
      RunTidy(stmt.body, LoopTop(test, invs, top, state.pre), log2, scope, globals);
      TopUnknowns(test, invs, variant, top, log1);
      LoopConditionsTidy(pass.states, test, invs, variant, state.env, log1.counter, pass.log, scope);
      var log3 := LoopConditions(pass.states, test, invs, variant, top, pass.log);
      LeaveTidy(test, invs, state, log.counter, log3, scope);
    }
  }

  lemma TopUnknowns(test: Expr, invs: seq<Expr>, variant: Option<Expr>, top: Env, log: Log)
    requires LoopTopLog(test, invs, variant, top, log).unknowns == {}
    ensures AllOf(invs, top).unknowns == {} && ToFormula(test, top).unknowns == {} && VariantTerm(variant, top).unknowns == {}
  {
    hide AllOf, ToFormula, VariantTerm;
  }

  lemma ReplaceEnv(state: State, env: Env, k: nat)
    requires Bounded(state, k) && EnvBelow(env, NamesBelow(k)) && env.Keys == state.env.Keys
    ensures Bounded(state.(env := env), k)
  {
    hide Over, Mentions, Plain;
  }

  lemma EnterTidy(invs: seq<Expr>, state: State, log: Log, scope: set<string>)
    requires Plainly(log) && Bounded(state, log.counter) && AllNamed(invs, scope) && NamesAre(scope)
    requires EnterLoop(invs, state, log).unknowns == {}
    ensures Plainly(EnterLoop(invs, state, log))
  {
    hide Over, NamesAre, AllNamed, AllOf, Implies, Conj, Plainly;
    var k := log.counter;
    NamesAreBelow(scope, k);
    BoundedEnv(state, k);
    AllOfBelow(invs, state.env, scope, k);
    Conj2Over(state.pre, state.path, NamesBelow(k));
    Conj2Over(Conj([state.pre, state.path]), AllOf(invs, state.env).f, NamesBelow(k));
    RecordPlain(log, LoopEstablished, Implies(Conj([state.pre, state.path]), AllOf(invs, state.env).f),
                AllOf(invs, state.env).unknowns, k);
  }

  lemma LoopTopTidy(test: Expr, invs: seq<Expr>, variant: Option<Expr>, state: State, log1: Log, scope: set<string>)
    requires Plainly(log1) && Bounded(state, log1.counter) && AllNamed(invs, scope) && NamesAre(scope) && NamesOf(test) <= scope
    requires LoopTopLog(test, invs, variant, Forget(state.env, '$', log1.counter), log1).unknowns == {}
    ensures var top := Forget(state.env, '$', log1.counter);
      var log2 := LoopTopLog(test, invs, variant, top, log1);
      Plainly(log2) && Bounded(LoopTop(test, invs, top, state.pre), log2.counter)
  {
    hide Over, NamesAre, AllNamed, AllOf, ToFormula, Conj, Plainly, NamesOf, Forget, VariantTerm;
    var k := log1.counter + 1;
    var top := Forget(state.env, '$', log1.counter);
    NamesAreBelow(scope, k);
    BoundedEnv(state, log1.counter);
    BoundedGrows(state, log1.counter, k);
    BoundedEnv(state, k);
    ForgetBounded(state.env, '$', log1.counter);
    AllOfBelow(invs, top, scope, k);
    TestBelow(test, top, scope, k);
    Conj2Over(AllOf(invs, top).f, ToFormula(test, top).f, NamesBelow(k));
    TopBounded(test, invs, top, state, k);
    PlainlySeen(log1, LoopTopLog(test, invs, variant, top, log1).unknowns);
    PlainlySeen(log1.(unknowns := {}), {});
  }

  lemma TopBounded(test: Expr, invs: seq<Expr>, top: Env, state: State, k: nat)
    requires EnvBelow(top, NamesBelow(k)) && top.Keys == state.env.Keys && Bounded(state, k)
    requires Over(Conj([AllOf(invs, top).f, ToFormula(test, top).f]), NamesBelow(k))
    ensures Bounded(LoopTop(test, invs, top, state.pre), k)
  {
    hide Over, Mentions, Plain, AllOf, ToFormula, Conj;
  }

  lemma {:induction false} PassConditionsTidy(ends: seq<State>, invs: seq<Expr>, variant: Option<Expr>, before: Linear,
                                              log: Log, k: nat, scope: set<string>)
    requires Plainly(log) && AllNamed(invs, scope) && AllBelow(scope, k) && Mentions(before, NamesBelow(k))
    requires (forall s :: s in ends ==> Bounded(s, k)) && (variant.Some? ==> NamesOf(variant.value) <= scope)
    requires PassConditions(ends, invs, variant, before, log).unknowns == {}
    ensures Plainly(PassConditions(ends, invs, variant, before, log))
  {
    hide Over, AllNamed, AllOf, ToLinear, Plainly, NamesOf, Mentions, Bounded, Implies, AllBelow;
    if ends != [] {
      var s := ends[0];
      BoundedEnv(s, k);
      var restored := AllOf(invs, s.env);
      var log1 := Record(log, LoopPreserved, Implies(s.path, restored.f), restored.unknowns);
      var v := VariantTerm(variant, s.env);
      var log2 := if variant.None? then log1 else
        Record(log1, VariantDecreases, Implies(s.path, Atom(Lt, LinearExpr.Minus(v.l, before))), v.unknowns);
      assert PassConditions(ends, invs, variant, before, log) == PassConditions(ends[1..], invs, variant, before, log2);
      AllOfBelow(invs, s.env, scope, k);
      Conj2Over(s.path, restored.f, NamesBelow(k));
      RecordPlain(log, LoopPreserved, Implies(s.path, restored.f), restored.unknowns, k);
      if variant.Some? {
        VariantBelow(variant.value, s.env, before, scope, k);
        Conj2Over(s.path, Atom(Lt, LinearExpr.Minus(v.l, before)), NamesBelow(k));
        RecordPlain(log1, VariantDecreases, Implies(s.path, Atom(Lt, LinearExpr.Minus(v.l, before))), v.unknowns, k);
      }
      PassConditionsTidy(ends[1..], invs, variant, before, log2, k, scope);
    }
  }

  lemma VariantBelow(e: Expr, env: Env, before: Linear, scope: set<string>, k: nat)
    requires NamesOf(e) <= scope && AllBelow(scope, k) && EnvBelow(env, NamesBelow(k)) && Mentions(before, NamesBelow(k))
    requires ToLinear(e, env).unknowns == {}
    ensures Over(Atom(Lt, LinearExpr.Minus(ToLinear(e, env).l, before)), NamesBelow(k))
  {
    hide ToLinear, NamesOf, Mentions, EnvBelow;
    LinearBelow(e, env, NamesBelow(k));
    OperationsMention(ToLinear(e, env).l, before, Zero(), NamesBelow(k));
  }

  lemma LoopConditionsTidy(ends: seq<State>, test: Expr, invs: seq<Expr>, variant: Option<Expr>, env: Env, k: nat, log: Log,
                           scope: set<string>)
    requires Tidy(ends, log) && k + 1 <= log.counter && AllNamed(invs, scope) && NamesAre(scope) && NamesOf(test) <= scope
    requires (variant.Some? ==> NamesOf(variant.value) <= scope) && (forall x :: x in env ==> Plain(x))
    requires AllOf(invs, Forget(env, '$', k)).unknowns == {} && ToFormula(test, Forget(env, '$', k)).unknowns == {}
    requires VariantTerm(variant, Forget(env, '$', k)).unknowns == {}
    requires LoopConditions(ends, test, invs, variant, Forget(env, '$', k), log).unknowns == {}
    ensures Plainly(LoopConditions(ends, test, invs, variant, Forget(env, '$', k), log))
  {
    hide Over, AllNamed, AllOf, ToLinear, ToFormula, Plainly, NamesOf, Mentions, Bounded, Implies, Plain, Forget, NamesAre, Conj;
    var top := Forget(env, '$', k);
    var kk := log.counter;
    NamesAreBelow(scope, kk);
    ForgetBounded(env, '$', k);
    EnvGrows(top, k + 1, kk);
    var before := VariantTerm(variant, top).l;
    if variant.Some? {
      LinearBelow(variant.value, top, NamesBelow(kk));
    } else {
      ConstantMentions(Zero(), NamesBelow(kk));
    }
    PassConditionsTidy(ends, invs, variant, before, log, kk, scope);
    if variant.Some? {
      AllOfBelow(invs, top, scope, kk);
      TestBelow(test, top, scope, kk);
      Conj2Over(AllOf(invs, top).f, ToFormula(test, top).f, NamesBelow(kk));
      NonNegativeBelow(before, kk);
      var goal := Atom(Le, LinearExpr.Minus(Constant(Zero()), before));
      Conj2Over(LoopTop(test, invs, top, True).path, goal, NamesBelow(kk));
      RecordPlain(PassConditions(ends, invs, variant, before, log), VariantNonNegative,
                  Implies(LoopTop(test, invs, top, True).path, goal), {}, kk);
    }
  }

  lemma NonNegativeBelow(before: Linear, k: nat)
    requires Mentions(before, NamesBelow(k))
    ensures Over(Atom(Le, LinearExpr.Minus(Constant(Zero()), before)), NamesBelow(k))
  {
    hide Mentions;
    ConstantMentions(Zero(), NamesBelow(k));
    OperationsMention(Constant(Zero()), before, Zero(), NamesBelow(k));
  }

  lemma LeaveTidy(test: Expr, invs: seq<Expr>, state: State, k0: nat, log: Log, scope: set<string>)
    requires Plainly(log) && Bounded(state, k0) && k0 <= log.counter && AllNamed(invs, scope) && NamesAre(scope)
    requires NamesOf(test) <= scope && LeaveLoop(test, invs, state, log).log.unknowns == {}
    ensures Tidy(LeaveLoop(test, invs, state, log).states, LeaveLoop(test, invs, state, log).log)
  {
    hide Over, NamesAre, AllNamed, AllOf, ToFormula, Conj, Plainly, NamesOf, Forget, Bounded, Negated;
    var k := log.counter + 1;
    var after := Forget(state.env, '$', log.counter);
    NamesAreBelow(scope, k);
    BoundedEnv(state, k0);
    BoundedGrows(state, k0, k);
    BoundedEnv(state, k);
    ForgetBounded(state.env, '$', log.counter);
    AllOfBelow(invs, after, scope, k);
    TestBelow(test, after, scope, k);
    var parts := [state.path, AllOf(invs, after).f, Negated(ToFormula(test, after).f)];
    ConjOver(parts, NamesBelow(k));
    ReplaceEnv(state, after, k);
    ReplacePath(state.(env := after), Conj(parts), k);
    PlainlySeen(log, log.unknowns + (AllOf(invs, after).unknowns + ToFormula(test, after).unknowns));
    PlainlySeen(log.(unknowns := {}), {});
  }

  lemma ReplacePath(state: State, path: Formula, k: nat)
    requires Bounded(state, k) && Over(path, NamesBelow(k))
    ensures Bounded(state.(path := path), k)
  {
    hide Over, Mentions, Plain;
  }
}
