/** What a refutation is worth: a refuted condition is false of a model whatever the unknowns stand for; and
    in a function without loops it comes from a call that breaks the promise. */
module Refutation {
  import opened Rational
  import opened LinearExpr
  import opened Formulas
  import opened FourierMotzkin
  import opened Programs
  import opened VcGen
  import opened Denotation
  import opened Fragment
  import opened Symbols
  import opened Soundness
  import opened Descent
  import Dpll

  // ---- one condition ------------------------------------------------------------------------------------

  /** The symbols that stand for something the program has, not for what the verifier could not model. */
  ghost predicate Known(v: string) {
    |v| == 0 || v[0] != '?'
  }

  ghost predicate SameKnown(m: Interp, m': Interp) {
    forall v :: Known(v) ==> m'.num(v) == m.num(v)
  }

  /** The model falsifies the formula whatever number or truth value the unknowns are given. */
  ghost predicate FalseAnyway(f: Formula, m: Interp) {
    forall m' :: SameKnown(m, m') ==> !Models(f, m')
  }

  ghost predicate NoTruths(f: Formula) {
    match f
    case BoolAtom(_) => false
    case Not(g) => NoTruths(g)
    case And(parts) => forall i :: 0 <= i < |parts| ==> NoTruths(parts[i])
    case Or(parts) => forall i :: 0 <= i < |parts| ==> NoTruths(parts[i])
    case _ => true
  }

  ghost predicate OverKnown(f: Formula) {
    NoTruths(f) && Over(f, iset v | Known(v))
  }

  lemma {:induction false} ApproximateIsUnknown(f: Formula)
    ensures Approximate(f) <==> !OverKnown(f)
  {
    match f
    case Atom(_, l) =>
      if !Approximate(f) {
        forall t | t in l.coeffs ensures Known(t.v) {
          var i :| 0 <= i < |l.coeffs| && l.coeffs[i] == t;
        }
      } else {
        var i :| 0 <= i < |l.coeffs| && |l.coeffs[i].v| > 0 && l.coeffs[i].v[0] == '?';
        assert l.coeffs[i] in l.coeffs;
      }
    case Not(g) => ApproximateIsUnknown(g);
    case And(parts) =>
      forall i | 0 <= i < |parts| ensures Approximate(parts[i]) <==> !OverKnown(parts[i]) { ApproximateIsUnknown(parts[i]); }
    case Or(parts) =>
      forall i | 0 <= i < |parts| ensures Approximate(parts[i]) <==> !OverKnown(parts[i]) { ApproximateIsUnknown(parts[i]); }
    case _ =>
  }

  lemma {:induction false} KnownAgree(f: Formula, m: Interp, m': Interp)
    requires OverKnown(f) && SameKnown(m, m')
    ensures Models(f, m) <==> Models(f, m')
  {
    match f
    case Atom(op, l) => EvalAgrees(l.coeffs, m.num, m'.num, iset v | Known(v));
    case Not(g) => KnownAgree(g, m, m');
    case And(parts) =>
      forall i | 0 <= i < |parts| ensures Models(parts[i], m) <==> Models(parts[i], m') { KnownAgree(parts[i], m, m'); }
    case Or(parts) =>
      forall i | 0 <= i < |parts| ensures Models(parts[i], m) <==> Models(parts[i], m') { KnownAgree(parts[i], m, m'); }
    case _ =>
  }

  /** The verdict on a condition. Proved means true of every model, and refuted that some rational model
      falsifies it, with nothing resting on an unknown. Given the room, exactly what is true of every model is
      proved, and what rests on no unknown gets an answer. */
  lemma JudgeMeans(f: Formula, maxAtoms: nat, budget: nat)
    requires Dpll.Unambiguous(f)
    ensures Judge(f, maxAtoms, budget) == Yes ==> forall m :: Models(f, m)
    ensures Judge(f, maxAtoms, budget) == No ==> exists m: Interp :: RationalPoint(m.num) && FalseAnyway(f, m)
    ensures |Dpll.AtomsIn(f)| <= maxAtoms && |Dpll.AtomsIn(f)| <= Dpll.MAX_DISEQUALITIES
            && Room(3 * |Dpll.AtomsIn(f)|, |Dpll.VarsIn(Dpll.AtomsIn(f))|) <= budget ==>
      && (Judge(f, maxAtoms, budget) == Yes <==> forall m :: Models(f, m))
      && (OverKnown(f) ==> Judge(f, maxAtoms, budget) != Unknown)
  {
    hide Models, Dpll.Unambiguous, RationalPoint, Dpll.IsValid, Dpll.AtomsIn, Room, Approximate, OverKnown, Dpll.VarsIn;
    Dpll.IsValidExact(f, maxAtoms, budget);
    ApproximateIsUnknown(f);
    if Judge(f, maxAtoms, budget) == No {
      var m: Interp :| RationalPoint(m.num) && !Models(f, m);
      forall m' | SameKnown(m, m') ensures !Models(f, m') { KnownAgree(f, m, m'); }
    }
    if |Dpll.AtomsIn(f)| <= maxAtoms && |Dpll.AtomsIn(f)| <= Dpll.MAX_DISEQUALITIES
       && Room(3 * |Dpll.AtomsIn(f)|, |Dpll.VarsIn(Dpll.AtomsIn(f))|) <= budget {
      Dpll.IsValidDecides(f, maxAtoms, budget);
    }
  }

  // ---- at most one path ---------------------------------------------------------------------------------

  /** Under the valuation the path of one state at most holds. */
  ghost predicate Exclusive(states: seq<State>, s: Valuation) {
    forall i, j :: 0 <= i < j < |states| ==> !(Models(states[i].path, At(s)) && Models(states[j].path, At(s)))
  }

  /** Every path that holds continues the path given. */
  ghost predicate Continues(states: seq<State>, path: Formula, s: Valuation) {
    forall t :: t in states && Models(t.path, At(s)) ==> Models(path, At(s))
  }

  lemma OneState(state: State, path: Formula, s: Valuation)
    requires Models(state.path, At(s)) ==> Models(path, At(s))
    ensures Exclusive([state], s) && Continues([state], path, s)
  {
  }

  lemma JoinExclusive(a: seq<State>, b: seq<State>, s: Valuation, p: Formula, q: Formula)
    requires Exclusive(a, s) && Exclusive(b, s) && Continues(a, p, s) && Continues(b, q, s)
    requires !(Models(p, At(s)) && Models(q, At(s)))
    ensures Exclusive(a + b, s)
  {
    hide Models;
    var c := a + b;
    forall i, j | 0 <= i < j < |c| ensures !(Models(c[i].path, At(s)) && Models(c[j].path, At(s))) {
      if i < |a| <= j {
        assert c[i] in a && c[j] in b;
      }
    }
  }

  lemma {:induction false} StepExclusive(stmt: Stmt, state: State, log: Log, s: Valuation)
    ensures Exclusive(Step(stmt, state, log).states, s) && Continues(Step(stmt, state, log).states, state.path, s)
    decreases stmt, 1, 0
  {
    hide ToFormula, ToLinear, Run, LoopConditions, EnterLoop, LoopTopLog, Models, Exclusive, Continues, AllOf, Forget, LeaveLoop;
    match stmt
    case If(test, thn, alt) => IfExclusive(stmt, state, log, s);
    case Block(body) => RunExclusive(body, state, log, s);
    case While(test, invs, variant, body) => LoopExclusive(stmt, test, state, log, s);
    case ForRange(_, _, invs, variant, body) => LoopExclusive(stmt, BoolLit(true), state, log, s);
    case Declare(x, e) => OneState(state.(env := state.env[x := ToLinear(e, state.env).l]), state.path, s);
    case Assign(x, e) => OneState(state.(env := state.env[x := ToLinear(e, state.env).l]), state.path, s);
    case ExprStmt(_) => OneState(state, state.path, s);
    case Return(None) => OneState(state.(returned := true), state.path, s);
    case Return(Some(e)) =>
      OneState(state.(env := state.env["result" := ToLinear(e, state.env).l], returned := true), state.path, s);
    case _ => OneState(state.(env := Forget(state.env, '?', log.counter)), state.path, s);
  }

  lemma LoopExclusive(loop: Stmt, test: Expr, state: State, log: Log, s: Valuation)
    requires loop.While? || loop.ForRange?
    ensures var o := Loop(loop, test, loop.invariants, loop.variant, loop.body, state, log);
      Exclusive(o.states, s) && Continues(o.states, state.path, s)
  {
    hide ToFormula, Run, LoopConditions, EnterLoop, LoopTopLog, Models, Exclusive, Continues, AllOf, Forget, Conj, Negated;
    var invs, variant := loop.invariants, loop.variant;
    if invs == [] && variant.None? {
      OneState(state.(env := Forget(state.env, '?', log.counter)), state.path, s);
    } else {
      var log1 := EnterLoop(invs, state, log);
      var top := Forget(state.env, '$', log1.counter);
      var log2 := LoopTopLog(test, invs, variant, top, log1);
      var pass := Run(loop.body, LoopTop(test, invs, top, state.pre), log2);
      var log3 := LoopConditions(pass.states, test, invs, variant, top, pass.log);
      var after := Forget(state.env, '$', log3.counter);
      var left := state.(env := after, path := Conj([state.path, AllOf(invs, after).f, Negated(ToFormula(test, after).f)]));
      Conj3Means(state.path, AllOf(invs, after).f, Negated(ToFormula(test, after).f), At(s));
      OneState(left, state.path, s);
      assert LeaveLoop(test, invs, state, log3).states == [left];
    }
  }

  lemma {:induction false} IfExclusive(stmt: Stmt, state: State, log: Log, s: Valuation)
    requires stmt.If?
    ensures Exclusive(Step(stmt, state, log).states, s) && Continues(Step(stmt, state, log).states, state.path, s)
    decreases stmt, 0, 1
  {
    hide ToFormula, Run, Models, Exclusive, Conj, Negated;
    var t := ToFormula(stmt.test, state.env);
    var yes, no := Fork(state, t.f), Fork(state, Negated(t.f));
    var taken := Run(stmt.thn, yes, Seen(log, t.unknowns));
    Conj2Means(state.path, t.f, At(s));
    Conj2Means(state.path, Negated(t.f), At(s));
    NegatedMeans(t.f, At(s));
    RunExclusive(stmt.thn, yes, Seen(log, t.unknowns), s);
    if stmt.alt.Some? && stmt.alt.value.Block? {
      RunExclusive(stmt.alt.value.body, no, taken.log, s);
      JoinExclusive(taken.states, Run(stmt.alt.value.body, no, taken.log).states, s, yes.path, no.path);
    } else {
      OneState(no, no.path, s);
      JoinExclusive(taken.states, [no], s, yes.path, no.path);
    }
  }

  lemma {:induction false} RunExclusive(stmts: seq<Stmt>, state: State, log: Log, s: Valuation)
    ensures Exclusive(Run(stmts, state, log).states, s) && Continues(Run(stmts, state, log).states, state.path, s)
    decreases stmts, 4, 0
  {
    hide Models, Exclusive, RunFrom;
    OneState(state, state.path, s);
    RunFromExclusive(stmts, [state], log, s, state.path);
  }

  lemma {:induction false} RunFromExclusive(stmts: seq<Stmt>, states: seq<State>, log: Log, s: Valuation, path: Formula)
    requires Exclusive(states, s) && Continues(states, path, s)
    ensures Exclusive(RunFrom(stmts, states, log).states, s) && Continues(RunFrom(stmts, states, log).states, path, s)
    decreases stmts, 3, 0
  {
    hide StepAll, Models, Exclusive, Continues;
    if stmts != [] {
      StepAllExclusive(stmts[0], states, log, s, path);
      var o := StepAll(stmts[0], states, log);
      if |o.states| <= MAX_PATHS {
        RunFromExclusive(stmts[1..], o.states, o.log, s, path);
      } else {
        FewerExclusive(o.states, MAX_PATHS, s, path);
      }
    }
  }

  lemma FewerExclusive(states: seq<State>, n: nat, s: Valuation, path: Formula)
    requires Exclusive(states, s) && Continues(states, path, s) && n <= |states|
    ensures Exclusive(states[..n], s) && Continues(states[..n], path, s)
  {
    hide Models;
  }

  lemma FirstAlone(states: seq<State>, s: Valuation)
    requires Exclusive(states, s) && states != [] && Models(states[0].path, At(s))
    ensures forall t :: t in states[1..] ==> !Models(t.path, At(s))
  {
    hide Models;
  }

  lemma RestExclusive(states: seq<State>, s: Valuation, path: Formula)
    requires Exclusive(states, s) && Continues(states, path, s) && states != []
    ensures Exclusive(states[1..], s) && Continues(states[1..], path, s) && Continues([states[0]], path, s)
  {
    hide Models;
  }

  lemma JoinContinue(a: seq<State>, b: seq<State>, p: Formula, path: Formula, s: Valuation)
    requires Continues(a, p, s) && (Models(p, At(s)) ==> Models(path, At(s))) && Continues(b, path, s)
    ensures Continues(a + b, path, s)
  {
    hide Models;
  }

  /** Steps from states that exclude one another: what comes of one excludes what comes of another. */
  lemma {:induction false} StepAllExclusive(stmt: Stmt, states: seq<State>, log: Log, s: Valuation, path: Formula)
    requires Exclusive(states, s) && Continues(states, path, s)
    ensures Exclusive(StepAll(stmt, states, log).states, s) && Continues(StepAll(stmt, states, log).states, path, s)
    ensures forall t :: t in StepAll(stmt, states, log).states && Models(t.path, At(s)) ==>
      exists u :: u in states && Models(u.path, At(s))
    decreases stmt, 2, |states|
  {
    hide Step, Models, Exclusive;
    if states != [] {
      RestExclusive(states, s, path);
      var u := states[0];
      var first := if u.returned then Out([u], log) else Step(stmt, u, log);
      if u.returned { OneState(u, u.path, s); } else { StepExclusive(stmt, u, log, s); }
      StepAllExclusive(stmt, states[1..], first.log, s, path);
      var rest := StepAll(stmt, states[1..], first.log);
      var other: Formula := if Models(u.path, At(s)) then False else True;
      if Models(u.path, At(s)) { FirstAlone(states, s); }
      ConstantsMean(s);
      JoinExclusive(first.states, rest.states, s, u.path, other);
      JoinContinue(first.states, rest.states, u.path, path, s);
      assert u in states;
      assert forall w :: w in states[1..] ==> w in states;
    }
  }

  lemma ConstantsMean(s: Valuation)
    ensures Models(True, At(s)) && !Models(False, At(s))
  {
  }

  lemma AtMostOne(states: seq<State>, a: State, b: State, s: Valuation)
    requires Exclusive(states, s) && a in states && b in states && Models(a.path, At(s)) && Models(b.path, At(s))
    ensures a == b
  {
    hide Models;
    var i :| 0 <= i < |states| && states[i] == a;
    var j :| 0 <= j < |states| && states[j] == b;
  }
}
