/** From an annotated function to verification conditions: forward symbolic execution with path splitting,
    and the loop rule (src/verify.js). */
module VcGen {
  import opened Rational
  import opened LinearExpr
  import opened Formulas
  import opened FourierMotzkin
  import opened Programs
  import opened Text
  import Dpll

  // ---- names ---------------------------------------------------------------------------------------

  function OpText(op: BinOp): string {
    match op
    case Plus => "+"
    case Minus => "-"
    case Times => "*"
    case Divide => "/"
    case Power => "**"
    case Modulo => "%"
    case Less => "<"
    case AtMost => "<="
    case Greater => ">"
    case AtLeast => ">="
    case Equals => "=="
    case Differs => "!="
  }

  /** `syntaxKey`: the same text for the same syntax. */
  function SyntaxKey(e: Expr): string {
    match e
    case Num(_, text) => "n" + text
    case BoolLit(b) => if b then "btrue" else "bfalse"
    case Ident(x) => x
    case Neg(a) => "(-" + SyntaxKey(a) + ")"
    case Not(a) => "(not" + SyntaxKey(a) + ")"
    case Bin(op, a, b) => "(" + SyntaxKey(a) + OpText(op) + SyntaxKey(b) + ")"
    case Logic(_, _, _) => "?Logical"
    case Old(a) => "old(" + SyntaxKey(a) + ")"
    case Foreign(key) => key
  }

  function OldKey(a: Expr): string {
    "old(" + SyntaxKey(a) + ")"
  }

  /** `$x#k` is an arbitrary value of x at the top of a loop, `?x#k` a value of x that was forgotten. One
      number serves all the names of a scope; the names themselves keep the symbols apart. */
  function Fresh(prefix: char, x: string, k: nat): string {
    [prefix] + x + ['#'] + Digits(k)
  }

  // ---- expressions ------------------------------------------------------------------------------------

  type Env = map<string, Linear>

  /** A linear term and the keys of the subterms that became unknowns. */
  datatype Lin = Lin(l: Linear, unknowns: set<string>)

  datatype Form = Form(f: Formula, unknowns: set<string>)

  /** The unknown that stands for a key: one per key, whatever the state. */
  function Unmodelled(e: Expr): Lin {
    Lin(Variable("?" + SyntaxKey(e)), {SyntaxKey(e)})
  }

  function ToLinear(e: Expr, env: Env): Lin {
    match e
    case Num(value, _) => Lin(Constant(value), {})
    case Ident(x) => Lin(if x in env then env[x] else Variable(x), {})
    case Neg(a) =>
      var r := ToLinear(a, env);
      Lin(Negate(r.l), r.unknowns)
    case Bin(Plus, a, b) =>
      var l, r := ToLinear(a, env), ToLinear(b, env);
      Lin(LinearExpr.Plus(l.l, r.l), l.unknowns + r.unknowns)
    case Bin(Minus, a, b) =>
      var l, r := ToLinear(a, env), ToLinear(b, env);
      Lin(LinearExpr.Minus(l.l, r.l), l.unknowns + r.unknowns)
    case Bin(Times, a, b) =>
      var l, r := ToLinear(a, env), ToLinear(b, env);
      var seen := l.unknowns + r.unknowns;
      if IsConstant(l.l) then Lin(Scale(r.l, l.l.constant), seen)
      else if IsConstant(r.l) then Lin(Scale(l.l, r.l.constant), seen)
      else Lin(Unmodelled(e).l, seen + {SyntaxKey(e)})
    case Bin(Divide, a, b) =>
      var r := ToLinear(b, env);
      if IsConstant(r.l) && !IsZero(r.l.constant) then
        NonZeroValue(r.l.constant);
        var l := ToLinear(a, env);
        Lin(Scale(l.l, Div(One(), r.l.constant)), l.unknowns + r.unknowns)
      else Lin(Unmodelled(e).l, r.unknowns + {SyntaxKey(e)})
    case Old(a) => Lin(if OldKey(a) in env then env[OldKey(a)] else Variable(OldKey(a)), {})
    case _ => Unmodelled(e)
  }

  predicate IsComparison(op: BinOp) {
    op.Less? || op.AtMost? || op.Greater? || op.AtLeast? || op.Equals? || op.Differs?
  }

  function Comparison(op: BinOp, l: Linear, r: Linear): Formula
    requires IsComparison(op)
  {
    match op
    case Less => Atom(Lt, LinearExpr.Minus(l, r))
    case AtMost => Atom(Le, LinearExpr.Minus(l, r))
    case Greater => Atom(Lt, LinearExpr.Minus(r, l))
    case AtLeast => Atom(Le, LinearExpr.Minus(r, l))
    case Equals => Atom(Eq, LinearExpr.Minus(l, r))
    case Differs => Negated(Atom(Eq, LinearExpr.Minus(l, r)))
  }

  function ToFormula(e: Expr, env: Env): Form {
    match e
    case BoolLit(b) => Form(if b then True else False, {})
    case Logic(isAnd, a, b) =>
      var l, r := ToFormula(a, env), ToFormula(b, env);
      Form(if isAnd then Conj([l.f, r.f]) else Disj([l.f, r.f]), l.unknowns + r.unknowns)
    case Not(a) =>
      var r := ToFormula(a, env);
      Form(Negated(r.f), r.unknowns)
    case Bin(op, a, b) =>
      if IsComparison(op) then
        var l, r := ToLinear(a, env), ToLinear(b, env);
        Form(Comparison(op, l.l, r.l), l.unknowns + r.unknowns)
      else Form(BoolAtom(SyntaxKey(e)), {SyntaxKey(e)})
    case _ => Form(BoolAtom(SyntaxKey(e)), {SyntaxKey(e)})
  }

  datatype Forms = Forms(fs: seq<Formula>, unknowns: set<string>)

  function ToFormulas(es: seq<Expr>, env: Env): Forms {
    if es == [] then Forms([], {}) else
      var head, rest := ToFormula(es[0], env), ToFormulas(es[1..], env);
      Forms([head.f] + rest.fs, head.unknowns + rest.unknowns)
  }

  /** `and(...clauses)`. */
  function AllOf(es: seq<Expr>, env: Env): Form {
    var r := ToFormulas(es, env);
    Form(Conj(r.fs), r.unknowns)
  }

  // ---- symbolic states -----------------------------------------------------------------------------------

  datatype State = State(env: Env, path: Formula, pre: Formula, returned: bool)

  datatype Kind = Postcondition | LoopEstablished | LoopPreserved | VariantDecreases | VariantNonNegative

  datatype Condition = Condition(kind: Kind, formula: Formula)

  /** What a verifier accumulates: the conditions, the keys taken for unknowns, the next fresh number, and
      whether the paths were cut. */
  datatype Log = Log(conditions: seq<Condition>, unknowns: set<string>, counter: nat, tooMany: bool)

  datatype Out = Out(states: seq<State>, log: Log)

  const MAX_PATHS := 64

  ghost predicate Extends(before: Log, after: Log) {
    && before.conditions <= after.conditions
    && before.unknowns <= after.unknowns
    && before.counter <= after.counter
    && (before.tooMany ==> after.tooMany)
  }

  lemma ExtendsTransitive(a: Log, b: Log, c: Log)
    requires Extends(a, b) && Extends(b, c)
    ensures Extends(a, c)
  {
  }

  function Record(log: Log, kind: Kind, formula: Formula, unknowns: set<string>): (r: Log)
    ensures Extends(log, r)
  {
    log.(conditions := log.conditions + [Condition(kind, formula)], unknowns := log.unknowns + unknowns)
  }

  function Seen(log: Log, unknowns: set<string>): (r: Log)
    ensures Extends(log, r)
  {
    log.(unknowns := log.unknowns + unknowns)
  }

  /** Every name of the scope becomes an arbitrary value. */
  function Forget(env: Env, prefix: char, k: nat): Env {
    map x | x in env :: Variable(Fresh(prefix, x, k))
  }

  function Fork(state: State, condition: Formula): State {
    state.(path := Conj([state.path, condition]))
  }

  // ---- statements -----------------------------------------------------------------------------------------

  function Run(stmts: seq<Stmt>, state: State, log: Log): (o: Out)
    ensures Extends(log, o.log)
    decreases stmts, 4, 0
  {
    RunFrom(stmts, [state], log)
  }

  function RunFrom(stmts: seq<Stmt>, states: seq<State>, log: Log): (o: Out)
    ensures Extends(log, o.log)
    decreases stmts, 3, 0
  {
    if stmts == [] then Out(states, log) else
      var o := StepAll(stmts[0], states, log);
      if |o.states| > MAX_PATHS then Out(o.states[..MAX_PATHS], o.log.(tooMany := true))
      else RunFrom(stmts[1..], o.states, o.log)
  }

  function StepAll(stmt: Stmt, states: seq<State>, log: Log): (o: Out)
    ensures Extends(log, o.log)
    decreases stmt, 2, |states|
  {
    if states == [] then Out([], log) else
      var first := if states[0].returned then Out([states[0]], log) else Step(stmt, states[0], log);
      var rest := StepAll(stmt, states[1..], first.log);
      Out(first.states + rest.states, rest.log)
  }

  function Step(stmt: Stmt, state: State, log: Log): (o: Out)
    ensures Extends(log, o.log)
    decreases stmt, 1, 0
  {
    match stmt
    case Declare(x, e) =>
      var v := ToLinear(e, state.env);
      Out([state.(env := state.env[x := v.l])], Seen(log, v.unknowns))
    case Assign(x, e) =>
      var v := ToLinear(e, state.env);
      Out([state.(env := state.env[x := v.l])], Seen(log, v.unknowns))
    case ExprStmt(_) => Out([state], log)
    case Return(None) => Out([state.(returned := true)], log)
    case Return(Some(e)) =>
      var v := ToLinear(e, state.env);
      Out([state.(env := state.env["result" := v.l], returned := true)], Seen(log, v.unknowns))
    case If(test, thn, alt) =>
      var t := ToFormula(test, state.env);
      var taken := Run(thn, Fork(state, t.f), Seen(log, t.unknowns));
      var skipped := Fork(state, Negated(t.f));
      if alt.Some? && alt.value.Block? then
        var other := Run(alt.value.body, skipped, taken.log);
        Out(taken.states + other.states, other.log)
      else
        // anything but a block after `else` is passed over
        Out(taken.states + [skipped], taken.log)
    case Block(body) => Run(body, state, log)
    case While(test, invariants, variant, body) => Loop(stmt, test, invariants, variant, body, state, log)
    case ForRange(_, _, invariants, variant, body) =>
      // a `for` has no test; it is read as `true`
      Loop(stmt, BoolLit(true), invariants, variant, body, state, log)
    case _ =>
      // not modelled: forget what it might have changed
      Out([state.(env := Forget(state.env, '?', log.counter))], log.(counter := log.counter + 1))
  }

  /** A loop without an annotation can only be forgotten; with one it contributes its conditions and is
      summarised by its invariants and the negated test. */
  function Loop(stmt: Stmt, test: Expr, invariants: seq<Expr>, variant: Option<Expr>, body: seq<Stmt>,
                state: State, log: Log): (o: Out)
    requires (stmt.While? || stmt.ForRange?) && body == stmt.body
    ensures Extends(log, o.log)
    decreases stmt, 0, 0
  {
    if invariants == [] && variant.None? then
      Out([state.(env := Forget(state.env, '?', log.counter))], log.(counter := log.counter + 1))
    else
      var log1 := EnterLoop(invariants, state, log);
      var top := Forget(state.env, '$', log1.counter);
      var log2 := LoopTopLog(test, invariants, variant, top, log1);
      var pass := Run(body, LoopTop(test, invariants, top, state.pre), log2);
      var log3 := LoopConditions(pass.states, test, invariants, variant, top, pass.log);
      hide Extends;
      ExtendsTransitive(log, log1, log2);
      ExtendsTransitive(log, log2, pass.log);
      ExtendsTransitive(log, pass.log, log3);
      ExtendsTransitive(log, log3, LeaveLoop(test, invariants, state, log3).log);
      LeaveLoop(test, invariants, state, log3)
  }

  /** The invariants hold on entry. */
  function EnterLoop(invariants: seq<Expr>, state: State, log: Log): (r: Log)
    ensures Extends(log, r) && r.counter == log.counter && r.tooMany == log.tooMany
  {
    var entry := AllOf(invariants, state.env);
    Record(log, LoopEstablished, Implies(Conj([state.pre, state.path]), entry.f), entry.unknowns)
  }

  /** An arbitrary state that satisfies the invariants and the test. */
  function LoopTop(test: Expr, invariants: seq<Expr>, top: Env, pre: Formula): State {
    State(top, Conj([AllOf(invariants, top).f, ToFormula(test, top).f]), pre, false)
  }

  function VariantTerm(variant: Option<Expr>, env: Env): Lin {
    if variant.Some? then ToLinear(variant.value, env) else Lin(Constant(Zero()), {})
  }

  function LoopTopLog(test: Expr, invariants: seq<Expr>, variant: Option<Expr>, top: Env, log: Log): (r: Log)
    ensures Extends(log, r) && r.counter == log.counter + 1 && r.tooMany == log.tooMany
  {
    log.(counter := log.counter + 1,
         unknowns := log.unknowns + (AllOf(invariants, top).unknowns + ToFormula(test, top).unknowns
                                     + VariantTerm(variant, top).unknowns))
  }

  function LoopConditions(ends: seq<State>, test: Expr, invariants: seq<Expr>, variant: Option<Expr>, top: Env,
                          log: Log): (r: Log)
    ensures Extends(log, r) && r.counter == log.counter && r.tooMany == log.tooMany
  {
    var before := VariantTerm(variant, top).l;
    var checked := PassConditions(ends, invariants, variant, before, log);
    if variant.None? then checked else
      Record(checked, VariantNonNegative,
             Implies(LoopTop(test, invariants, top, True).path, Atom(Le, LinearExpr.Minus(Constant(Zero()), before))), {})
  }

  /** Afterwards the invariants hold of some state, and the test does not. */
  function LeaveLoop(test: Expr, invariants: seq<Expr>, state: State, log: Log): (o: Out)
    ensures Extends(log, o.log) && o.log.tooMany == log.tooMany
  {
    var after := Forget(state.env, '$', log.counter);
    var atExit, t := AllOf(invariants, after), ToFormula(test, after);
    Out([state.(env := after, path := Conj([state.path, atExit.f, Negated(t.f)]))],
        log.(counter := log.counter + 1, unknowns := log.unknowns + (atExit.unknowns + t.unknowns)))
  }

  /** For every way a pass can end: the invariant is restored and the variant has gone down. */
  function PassConditions(ends: seq<State>, invariants: seq<Expr>, variant: Option<Expr>, before: Linear, log: Log): (r: Log)
    ensures Extends(log, r) && r.counter == log.counter && r.tooMany == log.tooMany
  {
    if ends == [] then log else
      var restored := AllOf(invariants, ends[0].env);
      var log1 := Record(log, LoopPreserved, Implies(ends[0].path, restored.f), restored.unknowns);
      var log2 := if variant.None? then log1 else
        var v := ToLinear(variant.value, ends[0].env);
        Record(log1, VariantDecreases, Implies(ends[0].path, Atom(Lt, LinearExpr.Minus(v.l, before))), v.unknowns);
      PassConditions(ends[1..], invariants, variant, before, log2)
  }

  // ---- functions -----------------------------------------------------------------------------------------------

  /** The arguments of every `old(...)` in an expression, outermost first. */
  function OldArgs(e: Expr): seq<Expr> {
    match e
    case Neg(a) => OldArgs(a)
    case Not(a) => OldArgs(a)
    case Bin(_, a, b) => OldArgs(a) + OldArgs(b)
    case Logic(_, a, b) => OldArgs(a) + OldArgs(b)
    case Old(a) => [a] + OldArgs(a)
    case _ => []
  }

  function OldArgsOf(es: seq<Expr>): seq<Expr> {
    if es == [] then [] else OldArgs(es[0]) + OldArgsOf(es[1..])
  }

  function SeedParams(params: seq<string>): Env {
    map p | p in params :: Variable(p)
  }

  datatype Seeded = Seeded(env: Env, unknowns: set<string>)

  /** `old(e)` names the value of e on entry. */
  function SeedOlds(olds: seq<Expr>, env: Env): Seeded {
    if olds == [] then Seeded(env, {}) else
      var v := ToLinear(olds[0], env);
      var rest := SeedOlds(olds[1..], env[OldKey(olds[0]) := v.l]);
      Seeded(rest.env, v.unknowns + rest.unknowns)
  }

  function Postconditions(ends: seq<State>, ensures_: seq<Expr>, pre: Formula, log: Log): (r: Log)
    ensures Extends(log, r) && r.tooMany == log.tooMany
  {
    if ends == [] then log else
      var post := AllOf(ensures_, ends[0].env);
      Postconditions(ends[1..], ensures_, pre,
                     Record(log, Postcondition, Implies(Conj([pre, ends[0].path]), post.f), post.unknowns))
  }

  function Conditions(fn: Function): Log {
    var seeded := SeedOlds(OldArgsOf(fn.ensures_), SeedParams(fn.params));
    var pre := AllOf(fn.requires_, seeded.env);
    var o := Run(fn.body, State(seeded.env, True, pre.f, false), Log([], seeded.unknowns + pre.unknowns, 0, false));
    if fn.ensures_ == [] then o.log else Postconditions(o.states, fn.ensures_, pre.f, o.log)
  }

  /** `isApproximate`: a boolean unknown, or a symbol that stands for something unmodelled. */
  predicate Approximate(f: Formula) {
    match f
    case Atom(_, l) => exists i :: 0 <= i < |l.coeffs| && |l.coeffs[i].v| > 0 && l.coeffs[i].v[0] == '?'
    case BoolAtom(_) => true
    case Not(g) => Approximate(g)
    case And(parts) => exists i :: 0 <= i < |parts| && Approximate(parts[i])
    case Or(parts) => exists i :: 0 <= i < |parts| && Approximate(parts[i])
    case _ => false
  }

  /** The verdict on one condition; a refutation that rests on an approximation is not one. */
  function Judge(f: Formula, maxAtoms: nat, budget: nat): Answer {
    var r := Dpll.IsValid(f, maxAtoms, budget);
    if r == No && Approximate(f) then Unknown else r
  }

  /** Every condition is proved and no path was cut. */
  predicate Proved(fn: Function, maxAtoms: nat, budget: nat) {
    var log := Conditions(fn);
    !log.tooMany && forall i :: 0 <= i < |log.conditions| ==> Judge(log.conditions[i].formula, maxAtoms, budget) == Yes
  }

  lemma StepAllUnfold(stmt: Stmt, states: seq<State>, j: nat, log: Log)
    requires j < |states|
    ensures var first := if states[j].returned then Out([states[j]], log) else Step(stmt, states[j], log);
      var rest := StepAll(stmt, states[j + 1..], first.log);
      StepAll(stmt, states[j..], log) == Out(first.states + rest.states, rest.log)
  {
    hide Step, Extends;
    assert states[j..][0] == states[j] && states[j..][1..] == states[j + 1..];
  }

  // ---- the verifier as an object -----------------------------------------------------------------------------

  /** The source's `Verifier`: conditions are pushed onto a list as the walk goes, and the fresh-symbol
      counter and the table of unknowns are shared by all the states of the walk. */
  class Verifier {
    var conditions: seq<Condition>
    var unknowns: set<string>
    var counter: nat
    var tooManyPaths: bool

    constructor (seen: set<string>)
      ensures Contents() == Log([], seen, 0, false)
    {
      conditions, unknowns, counter, tooManyPaths := [], seen, 0, false;
    }

    function Contents(): Log
      reads this
    {
      Log(conditions, unknowns, counter, tooManyPaths)
    }

    method Add(kind: Kind, formula: Formula, seen: set<string>)
      modifies this
      ensures Contents() == Record(old(Contents()), kind, formula, seen)
    {
      conditions := conditions + [Condition(kind, formula)];
      unknowns := unknowns + seen;
    }

    method RunAll(stmts: seq<Stmt>, state: State) returns (states: seq<State>)
      modifies this
      ensures Out(states, Contents()) == Run(stmts, state, old(Contents()))
      decreases stmts, 4, 0
    {
      hide Step, Extends;
      states := [state];
      ghost var start := Contents();
      for i := 0 to |stmts|
        invariant RunFrom(stmts[i..], states, Contents()) == Run(stmts, state, start)
      {
        assert stmts[i..][0] == stmts[i] && stmts[i..][1..] == stmts[i + 1..];
        states := StepStates(stmts[i], states);
        if |states| > MAX_PATHS {
          tooManyPaths := true;
          return states[..MAX_PATHS];
        }
      }
    }

    method StepStates(stmt: Stmt, states: seq<State>) returns (next: seq<State>)
      modifies this
      ensures Out(next, Contents()) == StepAll(stmt, states, old(Contents()))
      decreases stmt, 2, 0
    {
      hide Step, Extends;
      next := [];
      ghost var start := Contents();
      for j := 0 to |states|
        invariant StepAll(stmt, states, start).states == next + StepAll(stmt, states[j..], Contents()).states
        invariant StepAll(stmt, states, start).log == StepAll(stmt, states[j..], Contents()).log
      {
        ghost var before := Contents();
        StepAllUnfold(stmt, states, j, before);
        var reached := [states[j]];
        if !states[j].returned {
          reached := StepOne(stmt, states[j]);
        }
        AppendAssoc(next, reached, StepAll(stmt, states[j + 1..], Contents()).states);
        next := next + reached;
      }
    }

    method StepOne(stmt: Stmt, state: State) returns (states: seq<State>)
      modifies this
      ensures Out(states, Contents()) == Step(stmt, state, old(Contents()))
      decreases stmt, 1, 0
    {
      hide Extends, ToLinear, ToFormula, Loop;
      match stmt {
        case Declare(x, e) =>
          var v := ToLinear(e, state.env);
          unknowns := unknowns + v.unknowns;
          return [state.(env := state.env[x := v.l])];
        case Assign(x, e) =>
          var v := ToLinear(e, state.env);
          unknowns := unknowns + v.unknowns;
          return [state.(env := state.env[x := v.l])];
        case ExprStmt(_) => return [state];
        case Return(None) => return [state.(returned := true)];
        case Return(Some(e)) =>
          var v := ToLinear(e, state.env);
          unknowns := unknowns + v.unknowns;
          return [state.(env := state.env["result" := v.l], returned := true)];
        case If(test, thn, alt) =>
          var t := ToFormula(test, state.env);
          unknowns := unknowns + t.unknowns;
          states := RunAll(thn, Fork(state, t.f));
          var skipped := Fork(state, Negated(t.f));
          if alt.Some? && alt.value.Block? {
            var other := RunAll(alt.value.body, skipped);
            states := states + other;
          } else {
            states := states + [skipped];
          }
        case Block(body) => states := RunAll(body, state);
        case While(test, invariants, variant, body) =>
          states := LoopOne(stmt, test, invariants, variant, body, state);
        case ForRange(_, _, invariants, variant, body) =>
          states := LoopOne(stmt, BoolLit(true), invariants, variant, body, state);
        case _ =>
          states := [state.(env := Forget(state.env, '?', counter))];
          counter := counter + 1;
      }
    }

    method LoopOne(stmt: Stmt, test: Expr, invariants: seq<Expr>, variant: Option<Expr>, body: seq<Stmt>,
                   state: State) returns (states: seq<State>)
      requires (stmt.While? || stmt.ForRange?) && body == stmt.body
      modifies this
      ensures Out(states, Contents()) == Loop(stmt, test, invariants, variant, body, state, old(Contents()))
      decreases stmt, 0, 0
    {
      hide Extends, Run, AllOf, LoopConditions, EnterLoop, LoopTopLog, LoopTop, LeaveLoop;
      if invariants == [] && variant.None? {
        states := [state.(env := Forget(state.env, '?', counter))];
        counter := counter + 1;
        return;
      }
      Establish(invariants, state);
      var top := Havoc(test, invariants, variant, state);
      var ends := RunAll(body, LoopTop(test, invariants, top, state.pre));
      CheckPasses(ends, test, invariants, variant, top);
      states := Leave(test, invariants, state);
    }

    method Establish(invariants: seq<Expr>, state: State)
      modifies this
      ensures Contents() == EnterLoop(invariants, state, old(Contents()))
    {
      hide Extends, AllOf, Conj, Implies;
      var entry := AllOf(invariants, state.env);
      Add(LoopEstablished, Implies(Conj([state.pre, state.path]), entry.f), entry.unknowns);
    }

    method Havoc(test: Expr, invariants: seq<Expr>, variant: Option<Expr>, state: State) returns (top: Env)
      modifies this
      ensures top == Forget(state.env, '$', old(counter))
      ensures Contents() == LoopTopLog(test, invariants, variant, top, old(Contents()))
    {
      hide Extends, AllOf, ToFormula, ToLinear;
      top := Forget(state.env, '$', counter);
      counter := counter + 1;
      unknowns := unknowns + (AllOf(invariants, top).unknowns + ToFormula(test, top).unknowns
                              + VariantTerm(variant, top).unknowns);
    }

    method Leave(test: Expr, invariants: seq<Expr>, state: State) returns (states: seq<State>)
      modifies this
      ensures Out(states, Contents()) == LeaveLoop(test, invariants, state, old(Contents()))
    {
      hide Extends, AllOf, ToFormula, Conj;
      var after := Forget(state.env, '$', counter);
      counter := counter + 1;
      var atExit, t := AllOf(invariants, after), ToFormula(test, after);
      unknowns := unknowns + (atExit.unknowns + t.unknowns);
      states := [state.(env := after, path := Conj([state.path, atExit.f, Negated(t.f)]))];
    }

    method CheckPasses(ends: seq<State>, test: Expr, invariants: seq<Expr>, variant: Option<Expr>, top: Env)
      modifies this
      ensures Contents() == LoopConditions(ends, test, invariants, variant, top, old(Contents()))
    {
      hide Extends, ToLinear, ToFormula, AllOf, Conj, Implies;
      var before := VariantTerm(variant, top).l;
      ghost var ran := Contents();
      for i := 0 to |ends|
        invariant PassConditions(ends[i..], invariants, variant, before, Contents())
          == PassConditions(ends, invariants, variant, before, ran)
      {
        assert ends[i..][0] == ends[i] && ends[i..][1..] == ends[i + 1..];
        var restored := AllOf(invariants, ends[i].env);
        Add(LoopPreserved, Implies(ends[i].path, restored.f), restored.unknowns);
        if variant.Some? {
          var v := ToLinear(variant.value, ends[i].env);
          Add(VariantDecreases, Implies(ends[i].path, Atom(Lt, LinearExpr.Minus(v.l, before))), v.unknowns);
        }
      }
      if variant.Some? {
        Add(VariantNonNegative,
            Implies(LoopTop(test, invariants, top, True).path, Atom(Le, LinearExpr.Minus(Constant(Zero()), before))), {});
      }
    }
  }
}
