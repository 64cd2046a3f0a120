/** Fuel is only there to make the specification total: once a program has ended, more of it changes
    nothing. */
module Fuel {
  import opened Lang
  import opened Bindings
  import opened Scopes
  import opened Walker

  lemma {:induction false} EvalMore(e: Expr, st: State, fuel: nat, more: nat, lim: Limits)
    requires fuel <= more && !Eval(e, st, fuel, lim).o.OutOfFuel?
    ensures Eval(e, st, more, lim) == Eval(e, st, fuel, lim)
    decreases fuel, e, 0
  {
    hide Kept, Sane, Lookup, Operate, Builtin, Assigned, Invoke, EvalAll;
    match e
    case Binary(_, left, right, _) =>
      EvalMore(left, st, fuel, more, lim);
      var l := Eval(left, st, fuel, lim);
      if l.o.Done? { EvalMore(right, l.st, fuel, more, lim); }
    case Logical(isAnd, left, right) =>
      EvalMore(left, st, fuel, more, lim);
      var l := Eval(left, st, fuel, lim);
      if l.o.Done? && Truthy(l.o.value) == isAnd { EvalMore(right, l.st, fuel, more, lim); }
    case Not(operand) => EvalMore(operand, st, fuel, more, lim);
    case Neg(operand, _) => EvalMore(operand, st, fuel, more, lim);
    case Assign(_, value, _, _) => EvalMore(value, st, fuel, more, lim);
    case Call(callee, args, line) =>
      EvalMore(callee, st, fuel, more, lim);
      var f := Eval(callee, st, fuel, lim);
      if f.o.Done? {
        EvalAllMore(args, f.st, fuel, more, lim);
        var a := EvalAll(args, f.st, fuel, lim);
        if a.Args? && f.o.value.Closure? { InvokeMore(f.o.value, a.values, line, a.st, fuel - 1, more - 1, lim); }
      }
    case _ =>
  }

  lemma {:induction false} EvalAllMore(args: seq<Expr>, st: State, fuel: nat, more: nat, lim: Limits)
    requires fuel <= more && !(EvalAll(args, st, fuel, lim).Stopped? && EvalAll(args, st, fuel, lim).o.OutOfFuel?)
    ensures EvalAll(args, st, more, lim) == EvalAll(args, st, fuel, lim)
    decreases fuel, args, 0
  {
    hide Kept, Sane, Eval;
    if args != [] {
      EvalMore(args[0], st, fuel, more, lim);
      var v := Eval(args[0], st, fuel, lim);
      if v.o.Done? { EvalAllMore(args[1..], v.st, fuel, more, lim); }
    }
  }

  lemma {:induction false} InvokeMore(f: Value, args: seq<Value>, line: nat, st: State, fuel: nat, more: nat, lim: Limits)
    requires f.Closure? && fuel <= more && !Invoke(f, args, line, st, fuel, lim).o.OutOfFuel?
    ensures Invoke(f, args, line, st, more, lim) == Invoke(f, args, line, st, fuel, lim)
    decreases fuel, f, 0
  {
    hide Kept, Sane, ExecAll, Frame;
    if |args| == |f.fn.params| && st.depth < lim.depth {
      ExecAllMore(f.fn.body, Nil, Frame(f.fn, f.env, args, st), fuel, more, lim);
    }
  }

  lemma {:induction false} ExecMore(s: Stmt, st0: State, fuel: nat, more: nat, lim: Limits)
    requires fuel <= more && !Exec(s, st0, fuel, lim).o.OutOfFuel?
    ensures Exec(s, st0, more, lim) == Exec(s, st0, fuel, lim)
    decreases fuel, s, 1
  {
    hide Kept, Sane, Eval, Subject, ExecBlock, ExecFor, WhileLoop, Declared, Inner, Binds, Captures;
    var t := Tick(s.line, st0, lim);
    if t.o.Done? {
      var st := t.st;
      match s
      case ExprStmt(e, _) => EvalMore(e, st, fuel, more, lim);
      case Return(Some(e), _) => EvalMore(e, st, fuel, more, lim);
      case Declare(_, e, _, _) => EvalMore(e, st, fuel, more, lim);
      case If(test, thn, alt, _) =>
        EvalMore(test, st, fuel, more, lim);
        var b := Eval(test, st, fuel, lim);
        if b.o.Done? {
          if Truthy(b.o.value) {
            ExecBlockMore(thn, b.st, fuel, more, lim);
          } else if alt.Some? && alt.value.Block? {
            ExecBlockMore(alt.value.body, b.st, fuel, more, lim);
          } else if alt.Some? {
            ExecMore(alt.value, b.st, fuel, more, lim);
          }
        }
      case Block(body, _) => ExecBlockMore(body, st, fuel, more, lim);
      case While(_, body, _) =>
        if !Captures(body) && Binds(body) {
          WhileMore(s, |st.heap.scopes|, Inner([], st).(env := st.env), fuel, more, lim);
        } else {
          WhileMore(s, 0, st, fuel, more, lim);
        }
      case For(_, _, _, _) =>
        SubjectMore(s, st, fuel, more, lim);
        var items := Subject(s, st, fuel, lim);
        if items.o.Done? && items.o.value.List? { ExecForMore(s, items.o.value.items, items.st, fuel, more, lim); }
      case _ =>
    }
  }

  lemma {:induction false} SubjectMore(s: Stmt, st: State, fuel: nat, more: nat, lim: Limits)
    requires s.For? && fuel <= more && !Subject(s, st, fuel, lim).o.OutOfFuel?
    ensures Subject(s, st, more, lim) == Subject(s, st, fuel, lim)
    decreases fuel, s, 0
  {
    hide Kept, Sane, Eval, EvalAll, Builtin, MeansRange;
    if lim.counts && IsCounted(s.iter) && MeansRange(st) {
      EvalAllMore(s.iter.args, st, fuel, more, lim);
    } else {
      EvalMore(s.iter, st, fuel, more, lim);
    }
  }

  lemma {:induction false} ExecAllMore(body: seq<Stmt>, last: Value, st: State, fuel: nat, more: nat, lim: Limits)
    requires fuel <= more && !ExecAll(body, last, st, fuel, lim).o.OutOfFuel?
    ensures ExecAll(body, last, st, more, lim) == ExecAll(body, last, st, fuel, lim)
    decreases fuel, body, 0
  {
    hide Kept, Sane, Exec;
    if body != [] {
      ExecMore(body[0], st, fuel, more, lim);
      var r := Exec(body[0], st, fuel, lim);
      if r.o.Done? {
        ExecAllMore(body[1..], if body[0].ExprStmt? then r.o.value else Nil, r.st, fuel, more, lim);
      }
    }
  }

  lemma {:induction false} ExecBlockMore(body: seq<Stmt>, st: State, fuel: nat, more: nat, lim: Limits)
    requires fuel <= more && !ExecBlock(body, st, fuel, lim).o.OutOfFuel?
    ensures ExecBlock(body, st, more, lim) == ExecBlock(body, st, fuel, lim)
    decreases fuel, body, 1
  {
    hide Kept, Sane, ExecAll, ScopeFor;
    ExecAllMore(body, Nil, ScopeFor(body, st), fuel, more, lim);
  }

  lemma {:induction false} WhileMore(s: Stmt, shared: nat, st: State, fuel: nat, more: nat, lim: Limits)
    requires s.While? && fuel <= more && !WhileLoop(s, shared, st, fuel, lim).o.OutOfFuel?
    ensures WhileLoop(s, shared, st, more, lim) == WhileLoop(s, shared, st, fuel, lim)
    decreases fuel, s, 0
  {
    hide Kept, Sane, ExecAll, Eval, WhileScope;
    EvalMore(s.test, st, fuel, more, lim);
    var b := Eval(s.test, st, fuel, lim);
    if b.o.Done? && Truthy(b.o.value) {
      var t := Tick(s.line, b.st, lim);
      if t.o.Done? {
        var inside := WhileScope(s.body, shared, t.st);
        ExecAllMore(s.body, Nil, inside, fuel - 1, more - 1, lim);
        var r := ExecAll(s.body, Nil, inside, fuel - 1, lim);
        if r.o.Done? || r.o.Continuing? {
          WhileMore(s, shared, r.st.(env := st.env), fuel - 1, more - 1, lim);
        }
      }
    }
  }

  lemma {:induction false} ExecForMore(s: Stmt, items: seq<Value>, st: State, fuel: nat, more: nat, lim: Limits)
    requires s.For? && fuel <= more && !ExecFor(s, items, st, fuel, lim).o.OutOfFuel?
    ensures ExecFor(s, items, st, more, lim) == ExecFor(s, items, st, fuel, lim)
    decreases fuel, s, 0, |items| + 1
  {
    hide Kept, Sane, ForLoop, Captures, Inner, NewCell;
    if Captures(s.body) {
      ForMore(s, items, 0, 0, st, fuel, more, lim);
    } else {
      var cell := |st.heap.cells|;
      var st1 := Inner([Bound(s.name, cell)], st.(heap := NewCell(st.heap, Nil, false))).(env := st.env);
      ForMore(s, items, |st.heap.scopes|, cell, st1, fuel, more, lim);
    }
  }

  lemma {:induction false} ForMore(s: Stmt, items: seq<Value>, shared: nat, cell: nat, st: State, fuel: nat, more: nat, lim: Limits)
    requires s.For? && fuel <= more && !ForLoop(s, items, shared, cell, st, fuel, lim).o.OutOfFuel?
    ensures ForLoop(s, items, shared, cell, st, more, lim) == ForLoop(s, items, shared, cell, st, fuel, lim)
    decreases fuel, s, 0, |items|
  {
    hide Kept, Sane, ExecAll, ForScope, RangeCell;
    if items != [] {
      var t := Tick(s.line, st, lim);
      if t.o.Done? {
        var inside := ForScope(s, items[0], shared, cell, t.st);
        ExecAllMore(s.body, Nil, inside, fuel - 1, more - 1, lim);
        var r := ExecAll(s.body, Nil, inside, fuel - 1, lim);
        if r.o.Done? || r.o.Continuing? {
          ForMore(s, items[1..], shared, cell, r.st.(env := st.env), fuel - 1, more - 1, lim);
        }
      }
    }
  }

  lemma {:induction false} RunAllMore(body: seq<Stmt>, last: Value, st: State, fuel: nat, more: nat, lim: Limits)
    requires fuel <= more && !RunAll(body, last, st, fuel, lim).o.OutOfFuel?
    ensures RunAll(body, last, st, more, lim) == RunAll(body, last, st, fuel, lim)
    decreases |body|
  {
    hide Kept, Sane, Exec;
    if body != [] {
      ExecMore(body[0], st, fuel, more, lim);
      var r := Exec(body[0], st, fuel, lim);
      if r.o.Done? { RunAllMore(body[1..], r.o.value, r.st, fuel, more, lim); }
    }
  }

  /** The result of a program that ends does not depend on the fuel it was given. */
  lemma ProgramMore(body: seq<Stmt>, st: State, fuel: nat, more: nat, lim: Limits)
    requires fuel <= more && !RunProgram(body, st, fuel, lim).o.OutOfFuel?
    ensures RunProgram(body, st, more, lim) == RunProgram(body, st, fuel, lim)
  {
    hide Kept, Sane, RunAll;
    RunAllMore(body, Nil, st, fuel, more, lim);
  }
}
