/** The step limit and the depth limit together make every run end: each pass of a loop is charged a step
    and each call a level, so a run needs no more fuel than what is left of the two. */
module Ending {
  import opened Lang
  import opened Bindings
  import opened Scopes
  import opened Walker
  import opened Fuel

  function Left(limit: nat, used: nat): nat {
    if used <= limit then limit - used else 0
  }

  function Need(st: State, lim: Limits): nat {
    Left(lim.steps, st.steps) + Left(lim.depth, st.depth)
  }

  lemma {:induction false} EvalEnds(e: Expr, st: State, fuel: nat, lim: Limits)
    requires Need(st, lim) < fuel
    ensures !Eval(e, st, fuel, lim).o.OutOfFuel?
    decreases fuel, e, 0
  {
    hide Kept, Sane, Lookup, Operate, Assigned, Invoke, EvalAll;
    match e
    case Binary(_, left, right, _) =>
      EvalEnds(left, st, fuel, lim);
      EvalEnds(right, Eval(left, st, fuel, lim).st, fuel, lim);
    case Logical(_, left, right) =>
      EvalEnds(left, st, fuel, lim);
      EvalEnds(right, Eval(left, st, fuel, lim).st, fuel, lim);
    case Not(operand) => EvalEnds(operand, st, fuel, lim);
    case Neg(operand, _) => EvalEnds(operand, st, fuel, lim);
    case Assign(name, value, line, _) =>
      EvalEnds(value, st, fuel, lim);
      AssignedEnds(name, Eval(value, st, fuel, lim), line);
    case Call(callee, args, line) =>
      EvalEnds(callee, st, fuel, lim);
      var f := Eval(callee, st, fuel, lim);
      if f.o.Done? {
        EvalAllEnds(args, f.st, fuel, lim);
        var a := EvalAll(args, f.st, fuel, lim);
        if a.Args? && f.o.value.Closure? {
          InvokeEnds(f.o.value, a.values, line, a.st, fuel - 1, lim);
        }
      }
    case _ =>
  }

  lemma AssignedEnds(name: string, v: Res, line: nat)
    ensures v.o.Done? ==> !Assigned(name, v.o.value, line, v.st).o.OutOfFuel?
  {
  }

  lemma {:induction false} EvalAllEnds(args: seq<Expr>, st: State, fuel: nat, lim: Limits)
    requires Need(st, lim) < fuel
    ensures EvalAll(args, st, fuel, lim).Stopped? ==> !EvalAll(args, st, fuel, lim).o.OutOfFuel?
    decreases fuel, args, 0
  {
    hide Kept, Sane, Eval;
    if args != [] {
      EvalEnds(args[0], st, fuel, lim);
      EvalAllEnds(args[1..], Eval(args[0], st, fuel, lim).st, fuel, lim);
    }
  }

  lemma {:induction false} InvokeEnds(f: Value, args: seq<Value>, line: nat, st: State, fuel: nat, lim: Limits)
    requires f.Closure? && Need(st, lim) <= fuel
    ensures !Invoke(f, args, line, st, fuel, lim).o.OutOfFuel?
    decreases fuel, f, 0
  {
    hide Kept, Sane, ExecAll;
    if |args| == |f.fn.params| && st.depth < lim.depth {
      ExecAllEnds(f.fn.body, Nil, Frame(f.fn, f.env, args, st), fuel, lim);
    }
  }

  lemma {:induction false} ExecEnds(s: Stmt, st0: State, fuel: nat, lim: Limits)
    requires Need(st0, lim) < fuel
    ensures !Exec(s, st0, fuel, lim).o.OutOfFuel?
    decreases fuel, s, 1
  {
    hide Kept, Sane, Eval, Subject, ExecBlock, ExecFor, WhileLoop, Declared, Binds, Captures;
    var t := Tick(s.line, st0, lim);
    if t.o.Done? {
      var st := t.st;
      match s
      case ExprStmt(e, _) => EvalEnds(e, st, fuel, lim);
      case Return(Some(e), _) => EvalEnds(e, st, fuel, lim);
      case Declare(name, e, mutable, line) =>
        EvalEnds(e, st, fuel, lim);
        var v := Eval(e, st, fuel, lim);
        if v.o.Done? { DeclaredEnds(name, v.o.value, mutable, line, v.st); }
      case FnDecl(fn, line) => DeclaredEnds(fn.name, Closure(fn, st.env, st.made), false, line, st.(made := st.made + 1));
      case If(test, thn, alt, _) =>
        EvalEnds(test, st, fuel, lim);
        var b := Eval(test, st, fuel, lim);
        ExecBlockEnds(thn, b.st, fuel, lim);
        if alt.Some? {
          if alt.value.Block? { ExecBlockEnds(alt.value.body, b.st, fuel, lim); } else { ExecEnds(alt.value, b.st, fuel, lim); }
        }
      case Block(body, _) => ExecBlockEnds(body, st, fuel, lim);
      case While(_, body, _) =>
        if !Captures(body) && Binds(body) {
          WhileEnds(s, |st.heap.scopes|, Inner([], st).(env := st.env), fuel, lim);
        } else {
          WhileEnds(s, 0, st, fuel, lim);
        }
      case For(_, _, _, _) =>
        SubjectEnds(s, st, fuel, lim);
        var items := Subject(s, st, fuel, lim);
        if items.o.Done? && items.o.value.List? { ExecForEnds(s, items.o.value.items, items.st, fuel, lim); }
      case _ =>
    }
  }

  lemma {:induction false} SubjectEnds(s: Stmt, st: State, fuel: nat, lim: Limits)
    requires s.For? && Need(st, lim) < fuel
    ensures !Subject(s, st, fuel, lim).o.OutOfFuel?
    decreases fuel, s, 0
  {
    hide Kept, Sane, Eval, EvalAll, MeansRange, RangeBounds, RangeItems;
    if lim.counts && IsCounted(s.iter) && MeansRange(st) {
      EvalAllEnds(s.iter.args, st, fuel, lim);
    } else {
      EvalEnds(s.iter, st, fuel, lim);
    }
  }

  lemma DeclaredEnds(name: string, value: Value, mutable: bool, line: nat, st: State)
    ensures !Declared(name, value, mutable, line, st).o.OutOfFuel?
  {
  }

  lemma {:induction false} ExecAllEnds(body: seq<Stmt>, last: Value, st: State, fuel: nat, lim: Limits)
    requires Need(st, lim) < fuel
    ensures !ExecAll(body, last, st, fuel, lim).o.OutOfFuel?
    decreases fuel, body, 0
  {
    hide Kept, Sane, Exec;
    if body != [] {
      ExecEnds(body[0], st, fuel, lim);
      var r := Exec(body[0], st, fuel, lim);
      if r.o.Done? {
        ExecAllEnds(body[1..], if body[0].ExprStmt? then r.o.value else Nil, r.st, fuel, lim);
      }
    }
  }

  lemma {:induction false} ExecBlockEnds(body: seq<Stmt>, st: State, fuel: nat, lim: Limits)
    requires Need(st, lim) < fuel
    ensures !ExecBlock(body, st, fuel, lim).o.OutOfFuel?
    decreases fuel, body, 1
  {
    hide Kept, Sane, ExecAll, Binds;
    ExecAllEnds(body, Nil, ScopeFor(body, st), fuel, lim);
  }

  lemma {:induction false} WhileEnds(s: Stmt, shared: nat, st: State, fuel: nat, lim: Limits)
    requires s.While? && Need(st, lim) < fuel
    ensures !WhileLoop(s, shared, st, fuel, lim).o.OutOfFuel?
    decreases fuel, s, 0
  {
    hide Kept, Sane, ExecAll, Eval, Binds, Captures;
    EvalEnds(s.test, st, fuel, lim);
    var b := Eval(s.test, st, fuel, lim);
    if b.o.Done? && Truthy(b.o.value) {
      var t := Tick(s.line, b.st, lim);
      if t.o.Done? {
        var inside := WhileScope(s.body, shared, t.st);
        ExecAllEnds(s.body, Nil, inside, fuel - 1, lim);
        var r := ExecAll(s.body, Nil, inside, fuel - 1, lim);
        if r.o.Done? || r.o.Continuing? {
          WhileEnds(s, shared, r.st.(env := st.env), fuel - 1, lim);
        }
      }
    }
  }

  lemma {:induction false} ExecForEnds(s: Stmt, items: seq<Value>, st: State, fuel: nat, lim: Limits)
    requires s.For? && Need(st, lim) < fuel
    ensures !ExecFor(s, items, st, fuel, lim).o.OutOfFuel?
    decreases fuel, s, 0, |items| + 1
  {
    hide Kept, Sane, ForLoop, Captures, NewCell;
    if Captures(s.body) {
      ForEnds(s, items, 0, 0, st, fuel, lim);
    } else {
      var cell := |st.heap.cells|;
      var st1 := Inner([Bound(s.name, cell)], st.(heap := NewCell(st.heap, Nil, false))).(env := st.env);
      ForEnds(s, items, |st.heap.scopes|, cell, st1, fuel, lim);
    }
  }

  lemma {:induction false} ForEnds(s: Stmt, items: seq<Value>, shared: nat, cell: nat, st: State, fuel: nat, lim: Limits)
    requires s.For? && Need(st, lim) < fuel
    ensures !ForLoop(s, items, shared, cell, st, fuel, lim).o.OutOfFuel?
    decreases fuel, s, 0, |items|
  {
    hide Kept, Sane, ExecAll, RangeCell, Binds, Captures;
    if items != [] {
      var t := Tick(s.line, st, lim);
      if t.o.Done? {
        var inside := ForScope(s, items[0], shared, cell, t.st);
        ExecAllEnds(s.body, Nil, inside, fuel - 1, lim);
        var r := ExecAll(s.body, Nil, inside, fuel - 1, lim);
        if r.o.Done? || r.o.Continuing? {
          ForEnds(s, items[1..], shared, cell, r.st.(env := st.env), fuel - 1, lim);
        }
      }
    }
  }

  lemma {:induction false} RunAllEnds(body: seq<Stmt>, last: Value, st: State, fuel: nat, lim: Limits)
    requires Need(st, lim) < fuel
    ensures !RunAll(body, last, st, fuel, lim).o.OutOfFuel?
    decreases |body|
  {
    hide Kept, Sane, Exec;
    if body != [] {
      ExecEnds(body[0], st, fuel, lim);
      var r := Exec(body[0], st, fuel, lim);
      if r.o.Done? { RunAllEnds(body[1..], r.o.value, r.st, fuel, lim); }
    }
  }

  /** Every program ends, in a value or a failure, and with one and the same state whatever fuel beyond the
      limits it is given. */
  lemma EveryProgramEnds(body: seq<Stmt>, st: State, fuel: nat, lim: Limits)
    requires Need(st, lim) < fuel
    ensures var r := RunProgram(body, st, fuel, lim);
      (r.o.Done? || r.o.Failed?) && r == RunProgram(body, st, Need(st, lim) + 1, lim)
  {
    hide Kept, Sane, RunAll;
    RunAllEnds(body, Nil, st, Need(st, lim) + 1, lim);
    RunAllEnds(body, Nil, st, fuel, lim);
    ProgramMore(body, st, Need(st, lim) + 1, fuel, lim);
  }
}
