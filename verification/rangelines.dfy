/** The one thing in which the engines differ: a counted loop reports a bad `range` at its own line, the
    tree-walker at the line of the call, and a loop may be written over several lines. The state they leave
    is always the same, and so is the outcome unless that is what happened. */
module RangeLines {
  import opened Lang
  import opened Bindings
  import opened Scopes
  import opened Walker

  /** Pairs of lines: that of the call of `range`, and that of the loop over it. */
  type Lines = iset<(nat, nat)>

  // ---- the loops of a program and of the closures it may call -------------------------------------------------

  /** Every counted loop in the closures of the value stands on the line of its call, or at a listed pair. */
  ghost predicate ValueAt(v: Value, ls: Lines) {
    match v
    case List(items) => forall i :: 0 <= i < |items| ==> ValueAt(items[i], ls)
    case Closure(fn, _, _) => BodyAt(fn.body, ls)
    case _ => true
  }

  ghost predicate ExprAt(e: Expr, ls: Lines) {
    match e
    case Const(v) => ValueAt(v, ls)
    case Ident(_, _, _) => true
    case Binary(_, l, r, _) => ExprAt(l, ls) && ExprAt(r, ls)
    case Logical(_, l, r) => ExprAt(l, ls) && ExprAt(r, ls)
    case Not(a) => ExprAt(a, ls)
    case Neg(a, _) => ExprAt(a, ls)
    case Assign(_, a, _, _) => ExprAt(a, ls)
    case Call(f, args, _) => ExprAt(f, ls) && forall i :: 0 <= i < |args| ==> ExprAt(args[i], ls)
    case Lambda(fn) => BodyAt(fn.body, ls)
  }

  ghost predicate StmtAt(s: Stmt, ls: Lines) {
    match s
    case ExprStmt(e, _) => ExprAt(e, ls)
    case Return(e, _) => e.Some? ==> ExprAt(e.value, ls)
    case Declare(_, e, _, _) => ExprAt(e, ls)
    case FnDecl(fn, _) => BodyAt(fn.body, ls)
    case If(t, thn, alt, _) => ExprAt(t, ls) && BodyAt(thn, ls) && (alt.Some? ==> StmtAt(alt.value, ls))
    case Block(body, _) => BodyAt(body, ls)
    case While(t, body, _) => ExprAt(t, ls) && BodyAt(body, ls)
    case For(_, iter, body, line) =>
      && ExprAt(iter, ls) && BodyAt(body, ls)
      && (IsCounted(iter) && iter.line != line ==> (iter.line, line) in ls)
    case _ => true
  }

  ghost predicate BodyAt(body: seq<Stmt>, ls: Lines) {
    forall i :: 0 <= i < |body| ==> StmtAt(body[i], ls)
  }

  ghost predicate ArgsAt(args: seq<Expr>, ls: Lines) {
    forall i :: 0 <= i < |args| ==> ExprAt(args[i], ls)
  }

  ghost predicate ValuesAt(values: seq<Value>, ls: Lines) {
    forall i :: 0 <= i < |values| ==> ValueAt(values[i], ls)
  }

  ghost predicate StateAt(st: State, ls: Lines) {
    forall i :: 0 <= i < |st.heap.cells| ==> ValueAt(st.heap.cells[i].value, ls)
  }

  // ---- alike ------------------------------------------------------------------------------------------------------

  /** A complaint of `range`, reported at the two lines of a listed pair. */
  ghost predicate TwoLines(walked: Outcome, counted: Outcome, ls: Lines) {
    && walked.Failed? && counted.Failed? && walked.error.kind == counted.error.kind
    && (walked.error.kind.RangeArgument? || walked.error.kind.RangeStep?)
    && walked.error.line.Some? && counted.error.line.Some?
    && (walked.error.line.value, counted.error.line.value) in ls
  }

  ghost predicate Alike(walked: Outcome, counted: Outcome, ls: Lines) {
    walked == counted || TwoLines(walked, counted, ls)
  }

  ghost predicate OutcomeAt(o: Outcome, ls: Lines) {
    match o
    case Done(v) => ValueAt(v, ls)
    case Returning(v, _) => ValueAt(v, ls)
    case _ => true
  }

  ghost predicate Same(walked: Res, counted: Res, ls: Lines) {
    && walked.st == counted.st && Alike(walked.o, counted.o, ls)
    && StateAt(walked.st, ls) && OutcomeAt(walked.o, ls) && Sane(walked.st)
  }

  ghost predicate Ready(st: State, lim: Limits, ls: Lines) {
    Sane(st) && lim.counts && StateAt(st, ls)
  }

  // ---- what the scope operations keep --------------------------------------------------------------------------------

  lemma CellAtAt(st: State, cell: nat, ls: Lines)
    requires StateAt(st, ls)
    ensures ValueAt(CellAt(st.heap, cell).value, ls)
  {
  }

  lemma NewCellAt(st: State, v: Value, mutable: bool, ls: Lines)
    requires StateAt(st, ls) && ValueAt(v, ls)
    ensures StateAt(st.(heap := NewCell(st.heap, v, mutable)), ls)
  {
  }

  lemma WriteAt(st: State, cell: nat, v: Value, ls: Lines)
    requires StateAt(st, ls) && ValueAt(v, ls)
    ensures StateAt(st.(heap := Write(st.heap, cell, v)), ls)
  {
  }

  lemma CellsAt(a: State, b: State, ls: Lines)
    requires StateAt(a, ls) && b.heap.cells == a.heap.cells
    ensures StateAt(b, ls)
  {
  }

  lemma DeclaredAt(name: string, v: Value, mutable: bool, line: nat, st: State, ls: Lines)
    requires Sane(st) && StateAt(st, ls) && ValueAt(v, ls)
    ensures var r := Declared(name, v, mutable, line, st); Same(r, r, ls)
  {
    hide ValueAt, NewCell, Put, Sane;
    PlainValues(ls);
    NewCellAt(st, v, mutable, ls);
    var r := Declared(name, v, mutable, line, st);
    if name !in Slots(st.heap, st.env) {
      PutCells(NewCell(st.heap, v, mutable), st.env, name, |st.heap.cells|);
      CellsAt(st.(heap := NewCell(st.heap, v, mutable)), r.st, ls);
    }
  }

  lemma PutCells(h: Heap, at: nat, name: string, cell: nat)
    ensures PutIn(h, at, name, cell).cells == h.cells && ClearIn(h, at).cells == h.cells
  {
  }

  lemma FrameAt(fn: Fn, parent: nat, args: seq<Value>, st: State, ls: Lines)
    requires |args| == |fn.params| && StateAt(st, ls) && ValuesAt(args, ls)
    ensures StateAt(Frame(fn, parent, args, st), ls)
  {
    hide ValueAt, Adopt, Retake, Captures, Fill, Kept;
    var r := Frame(fn, parent, args, st);
    if Escapes(fn, parent, st.pools) || !Reusable(fn, st) {
      forall i | 0 <= i < |r.heap.cells| ensures ValueAt(r.heap.cells[i].value, ls) {
        if i >= |st.heap.cells| {
          assert r.heap.cells[i] == FrameCells(args)[i - |st.heap.cells|];
        }
      }
    } else {
      var env := st.pools.frames[(fn, st.depth)];
      var bs := Retake(st.heap.scopes[env].stored.bound, fn.params);
      FillAt(Holding(st.heap, env, Arrays(bs)), bs, args, ls);
    }
  }

  ghost predicate CellsAre(h: Heap, ls: Lines) {
    forall i :: 0 <= i < |h.cells| ==> ValueAt(h.cells[i].value, ls)
  }

  lemma {:induction false} FillAt(h: Heap, bs: seq<Bound<nat>>, args: seq<Value>, ls: Lines)
    requires CellsAre(h, ls) && ValuesAt(args, ls)
    ensures CellsAre(Fill(h, bs, args), ls)
    decreases |bs|
  {
    hide ValueAt;
    if bs != [] && args != [] {
      ItemAt(args, ls);
      FillAt(Write(h, bs[0].to, args[0]), bs[1..], args[1..], ls);
    }
  }

  lemma OperateAt(op: Op, l: Value, r: Value, line: nat, ls: Lines)
    requires ValueAt(l, ls) && ValueAt(r, ls)
    ensures Operate(op, l, r, line).Ok? ==> ValueAt(Operate(op, l, r, line).value, ls)
  {
    hide Product;
  }

  lemma {:induction false} RangeItemsAt(start: real, stop: real, step: real, ls: Lines)
    requires step != 0.0
    ensures ValuesAt(RangeItems(start, stop, step), ls)
    decreases Remaining(start, stop, step)
  {
    if Goes(start, stop, step) {
      RemainingShrinks(start, stop, step);
      RangeItemsAt(start + step, stop, step, ls);
    }
  }

  /** The builtin is indifferent to the line it is called from, but for reporting it. */
  lemma BuiltinAt(args: seq<Value>, line: nat, line': nat, st: State, ls: Lines)
    requires 1 <= |args| <= 3 && StateAt(st, ls) && Sane(st) && (line != line' ==> (line, line') in ls)
    ensures Same(Builtin(RangeFn, args, line, st), Builtin(RangeFn, args, line', st), ls)
  {
    hide Sane, StateAt;
    var b := RangeBounds(args, line);
    if b.Bounds? { RangeItemsAt(b.start, b.stop, b.step, ls); }
  }

  lemma BuiltinSame(f: Value, args: seq<Value>, line: nat, st: State, ls: Lines)
    requires StateAt(st, ls) && Sane(st)
    ensures var r := Builtin(f, args, line, st); Same(r, r, ls)
  {
    hide Sane, StateAt;
    if f.RangeFn? && 1 <= |args| <= 3 { BuiltinAt(args, line, line, st, ls); }
  }

  lemma AssignedAt(name: string, v: Value, line: nat, st: State, ls: Lines)
    requires Sane(st) && StateAt(st, ls) && ValueAt(v, ls)
    ensures var r := Assigned(name, v, line, st); Same(r, r, ls)
  {
    hide ValueAt, Sane, Lookup;
    var cell := Lookup(st.heap, st.env, name);
    if cell.Some? { WriteAt(st, cell.value, v, ls); }
  }

  lemma ForScopeAt(s: Stmt, item: Value, shared: nat, cell: nat, st: State, ls: Lines)
    requires s.For? && StateAt(st, ls) && ValueAt(item, ls)
    ensures StateAt(ForScope(s, item, shared, cell, st), ls)
  {
    hide ValueAt, Put, Clear, Captures, Binds;
    var r := ForScope(s, item, shared, cell, st);
    if Captures(s.body) {
      NewCellAt(st, item, false, ls);
      CellsAt(st.(heap := NewCell(st.heap, item, false)), r, ls);
    } else {
      var cleared := if Binds(s.body) then PutIn(ClearIn(st.heap, shared), shared, s.name, cell) else st.heap;
      PutCells(ClearIn(st.heap, shared), shared, s.name, cell);
      PutCells(st.heap, shared, s.name, cell);
      CellsAt(st, st.(heap := cleared), ls);
      WriteAt(st.(heap := cleared), cell, item, ls);
      CellsAt(st.(heap := Write(cleared, cell, item)), r, ls);
    }
  }

  lemma WhileScopeAt(body: seq<Stmt>, shared: nat, st: State, ls: Lines)
    requires StateAt(st, ls)
    ensures StateAt(WhileScope(body, shared, st), ls)
  {
    hide Captures, Binds;
    PutCells(st.heap, shared, "", 0);
    CellsAt(st, WhileScope(body, shared, st), ls);
  }

  lemma ItemAt(items: seq<Value>, ls: Lines)
    requires items != [] && ValuesAt(items, ls)
    ensures ValueAt(items[0], ls) && ValuesAt(items[1..], ls)
  {
    hide ValueAt;
  }

  // ---- the subject of a loop ----------------------------------------------------------------------------------------

  /** When the name means the builtin the subject is the list of the range, and evaluating it does nothing
      else. */
  lemma CountedSubject(iter: Expr, st: State, fuel: nat, lim: Limits)
    requires Sane(st) && IsCounted(iter) && MeansRange(st)
    ensures var a := EvalAll(iter.args, st, fuel, lim);
      Eval(iter, st, fuel, lim) == if a.Stopped? then Res(a.o, a.st) else Builtin(RangeFn, a.values, iter.line, a.st)
  {
    hide EvalAll, Builtin, Lookup, Kept;
    assert Eval(iter.callee, st, fuel, lim) == Res(Done(RangeFn), st);
  }

  lemma {:induction false} SubjectSame(s: Stmt, st: State, fuel: nat, lim: Limits, ls: Lines)
    requires s.For? && Ready(st, lim, ls) && StmtAt(s, ls)
    ensures Same(Subject(s, st, fuel, Walking(lim)), Subject(s, st, fuel, lim), ls)
    decreases fuel, s, 0, 0
  {
    hide Kept, Eval, EvalAll, Builtin, MeansRange, ValueAt, StateAt;
    if IsCounted(s.iter) && MeansRange(st) {
      CountedSubject(s.iter, st, fuel, Walking(lim));
      EvalAllSame(s.iter.args, st, fuel, lim, ls);
      var a := EvalAll(s.iter.args, st, fuel, Walking(lim));
      if a.Args? { BuiltinAt(a.values, s.iter.line, s.line, a.st, ls); }
    } else {
      EvalSame(s.iter, st, fuel, lim, ls);
    }
  }

  // ---- expressions ----------------------------------------------------------------------------------------------------

  lemma {:induction false} EvalSame(e: Expr, st: State, fuel: nat, lim: Limits, ls: Lines)
    requires Ready(st, lim, ls) && ExprAt(e, ls)
    ensures Same(Eval(e, st, fuel, Walking(lim)), Eval(e, st, fuel, lim), ls)
    decreases fuel, e, 1
  {
    hide Kept, Sane, Lookup, Operate, Builtin, Assigned, Invoke, EvalAll, ValueAt, StateAt, BodyAt;
    match e
    case Const(_) =>
    case Ident(name, _, _) =>
      var cell := Lookup(st.heap, st.env, name);
      if cell.Some? { CellAtAt(st, cell.value, ls); }
    case Binary(op, left, right, line) =>
      EvalSame(left, st, fuel, lim, ls);
      var l := Eval(left, st, fuel, lim);
      if l.o.Done? {
        EvalSame(right, l.st, fuel, lim, ls);
        var r := Eval(right, l.st, fuel, lim);
        if r.o.Done? { OperateAt(op, l.o.value, r.o.value, line, ls); }
      }
    case Logical(isAnd, left, right) =>
      EvalSame(left, st, fuel, lim, ls);
      var l := Eval(left, st, fuel, lim);
      if l.o.Done? && Truthy(l.o.value) == isAnd { EvalSame(right, l.st, fuel, lim, ls); }
    case Not(operand) =>
      EvalSame(operand, st, fuel, lim, ls);
      PlainValues(ls);
    case Neg(operand, _) =>
      EvalSame(operand, st, fuel, lim, ls);
      PlainValues(ls);
    case Assign(name, value, line, _) =>
      EvalSame(value, st, fuel, lim, ls);
      var v := Eval(value, st, fuel, lim);
      if v.o.Done? { AssignedAt(name, v.o.value, line, v.st, ls); }
    case Call(_, _, _) => CallSame(e, st, fuel, lim, ls);
    case Lambda(fn) =>
      LambdaAt(fn, st, ls);
      SaneSteps(st, st.(made := st.made + 1));
  }

  lemma PlainValues(ls: Lines)
    ensures forall b :: ValueAt(Bool(b), ls)
    ensures forall n :: ValueAt(Num(n), ls)
    ensures ValueAt(Nil, ls)
  {
  }

  lemma LambdaAt(fn: Fn, st: State, ls: Lines)
    requires StateAt(st, ls) && BodyAt(fn.body, ls)
    ensures ValueAt(Closure(fn, st.env, st.made), ls) && StateAt(st.(made := st.made + 1), ls)
  {
  }

  lemma ClosureAt(f: Value, ls: Lines)
    requires f.Closure? && ValueAt(f, ls)
    ensures BodyAt(f.fn.body, ls)
  {
  }

  lemma {:induction false} CallSame(e: Expr, st: State, fuel: nat, lim: Limits, ls: Lines)
    requires e.Call? && Ready(st, lim, ls) && ExprAt(e, ls)
    ensures Same(Eval(e, st, fuel, Walking(lim)), Eval(e, st, fuel, lim), ls)
    decreases fuel, e, 0
  {
    hide Kept, Sane, Builtin, Invoke, EvalAll, ValueAt, StateAt, BodyAt;
    EvalSame(e.callee, st, fuel, lim, ls);
    var f := Eval(e.callee, st, fuel, lim);
    if f.o.Done? {
      EvalAllSame(e.args, f.st, fuel, lim, ls);
      var a := EvalAll(e.args, f.st, fuel, lim);
      if a.Args? {
        if f.o.value.Closure? {
          if fuel > 0 { InvokeSame(f.o.value, a.values, e.line, a.st, fuel - 1, lim, ls); }
        } else {
          BuiltinSame(f.o.value, a.values, e.line, a.st, ls);
        }
      }
    }
  }

  ghost predicate SameArgs(walked: Args, counted: Args, ls: Lines) {
    && walked.st == counted.st && StateAt(walked.st, ls) && Sane(walked.st)
    && (walked.Args? <==> counted.Args?)
    && (walked.Args? ==> walked.values == counted.values && ValuesAt(walked.values, ls))
    && (walked.Stopped? ==> Alike(walked.o, counted.o, ls) && OutcomeAt(walked.o, ls))
  }

  lemma {:induction false} EvalAllSame(args: seq<Expr>, st: State, fuel: nat, lim: Limits, ls: Lines)
    requires Ready(st, lim, ls) && ArgsAt(args, ls)
    ensures SameArgs(EvalAll(args, st, fuel, Walking(lim)), EvalAll(args, st, fuel, lim), ls)
    decreases fuel, args, 0
  {
    hide Kept, Sane, Eval, ValueAt, StateAt, ExprAt;
    if args != [] {
      EvalSame(args[0], st, fuel, lim, ls);
      var v := Eval(args[0], st, fuel, lim);
      if v.o.Done? { EvalAllSame(args[1..], v.st, fuel, lim, ls); }
    }
  }

  lemma {:induction false} InvokeSame(f: Value, args: seq<Value>, line: nat, st: State, fuel: nat, lim: Limits, ls: Lines)
    requires f.Closure? && Ready(st, lim, ls) && ValueAt(f, ls) && ValuesAt(args, ls)
    ensures Same(Invoke(f, args, line, st, fuel, Walking(lim)), Invoke(f, args, line, st, fuel, lim), ls)
    decreases fuel, f, 0
  {
    hide Sane, ExecAll, Frame, ValueAt, StateAt, BodyAt;
    if |args| == |f.fn.params| && st.depth < lim.depth {
      ClosureAt(f, ls);
      FrameAt(f.fn, f.env, args, st, ls);
      PlainValues(ls);
      var inside := Frame(f.fn, f.env, args, st);
      ExecAllSame(f.fn.body, Nil, inside, fuel, lim, ls);
      var r := ExecAll(f.fn.body, Nil, inside, fuel, lim);
      BackIn(st, r.st, ls);
    }
  }

  /** Coming back to the scope that was current. */
  lemma BackIn(st: State, end: State, ls: Lines)
    requires Sane(st) && Sane(end) && StateAt(end, ls)
    ensures Sane(end.(env := st.env)) && Sane(end.(env := st.env, depth := st.depth))
    ensures StateAt(end.(env := st.env), ls) && StateAt(end.(env := st.env, depth := st.depth), ls)
  {
  }

  // ---- statements --------------------------------------------------------------------------------------------------------

  lemma {:induction false} ExecSame(s: Stmt, st0: State, fuel: nat, lim: Limits, ls: Lines)
    requires Ready(st0, lim, ls) && StmtAt(s, ls)
    ensures Same(Exec(s, st0, fuel, Walking(lim)), Exec(s, st0, fuel, lim), ls)
    decreases fuel, s, 1
  {
    hide Kept, Sane, Eval, Subject, ExecBlock, ExecFor, WhileLoop, Declared, Inner, Binds, Captures, ValueAt, ExprAt, BodyAt,
      StateAt;
    var t := Tick(s.line, st0, lim);
    CellsAt(st0, t.st, ls);
    SaneSteps(st0, t.st);
    PlainValues(ls);
    if t.o.Done? {
      var st := t.st;
      match s
      case ExprStmt(e, _) => EvalSame(e, st, fuel, lim, ls);
      case Return(None, _) =>
      case Return(Some(e), _) => EvalSame(e, st, fuel, lim, ls);
      case Declare(name, e, mutable, line) =>
        EvalSame(e, st, fuel, lim, ls);
        var v := Eval(e, st, fuel, lim);
        if v.o.Done? { DeclaredAt(name, v.o.value, mutable, line, v.st, ls); }
      case FnDecl(fn, line) =>
        LambdaAt(fn, st, ls);
        SaneSteps(st, st.(made := st.made + 1));
        DeclaredAt(fn.name, Closure(fn, st.env, st.made), false, line, st.(made := st.made + 1), ls);
      case If(test, thn, alt, _) =>
        EvalSame(test, st, fuel, lim, ls);
        var b := Eval(test, st, fuel, lim);
        if b.o.Done? {
          if Truthy(b.o.value) {
            ExecBlockSame(thn, b.st, fuel, lim, ls);
          } else if alt.Some? && alt.value.Block? {
            ExecBlockSame(alt.value.body, b.st, fuel, lim, ls);
          } else if alt.Some? {
            ExecSame(alt.value, b.st, fuel, lim, ls);
          }
        }
      case Block(body, _) => ExecBlockSame(body, st, fuel, lim, ls);
      case While(_, body, _) => EnterWhileSame(s, st, fuel, lim, ls);
      case For(_, iter, _, _) => LoopSame(s, st, fuel, lim, ls);
      case _ =>
    }
  }

  lemma SaneSteps(a: State, b: State)
    requires Sane(a) && b.heap == a.heap && b.env == a.env && b.pools == a.pools
    ensures Sane(b)
  {
  }

  lemma {:induction false} EnterWhileSame(s: Stmt, st: State, fuel: nat, lim: Limits, ls: Lines)
    requires s.While? && Ready(st, lim, ls) && StmtAt(s, ls)
    ensures !Captures(s.body) && Binds(s.body) ==>
      var st1 := Inner([], st).(env := st.env);
      Same(WhileLoop(s, |st.heap.scopes|, st1, fuel, Walking(lim)), WhileLoop(s, |st.heap.scopes|, st1, fuel, lim), ls)
    ensures Captures(s.body) || !Binds(s.body) ==>
      Same(WhileLoop(s, 0, st, fuel, Walking(lim)), WhileLoop(s, 0, st, fuel, lim), ls)
    decreases fuel, s, 0, 1
  {
    hide WhileLoop, Binds, Captures, ValueAt, StmtAt;
    if !Captures(s.body) && Binds(s.body) {
      CellsAt(st, Inner([], st).(env := st.env), ls);
      WhileSame(s, |st.heap.scopes|, Inner([], st).(env := st.env), fuel, lim, ls);
    } else {
      WhileSame(s, 0, st, fuel, lim, ls);
    }
  }

  lemma {:induction false} LoopSame(s: Stmt, st: State, fuel: nat, lim: Limits, ls: Lines)
    requires s.For? && Ready(st, lim, ls) && StmtAt(s, ls)
    ensures var w, c := Subject(s, st, fuel, Walking(lim)), Subject(s, st, fuel, lim);
      && Same(w, c, ls)
      && (c.o.Done? && c.o.value.List? ==>
        Same(ExecFor(s, c.o.value.items, c.st, fuel, Walking(lim)), ExecFor(s, c.o.value.items, c.st, fuel, lim), ls))
    decreases fuel, s, 0, 2
  {
    hide Subject, ExecFor, Sane, StmtAt, StateAt;
    SubjectSame(s, st, fuel, lim, ls);
    var c := Subject(s, st, fuel, lim);
    if c.o.Done? && c.o.value.List? {
      ExecForSame(s, c.o.value.items, c.st, fuel, lim, ls);
    }
  }

  lemma {:induction false} ExecAllSame(body: seq<Stmt>, last: Value, st: State, fuel: nat, lim: Limits, ls: Lines)
    requires Ready(st, lim, ls) && BodyAt(body, ls) && ValueAt(last, ls)
    ensures Same(ExecAll(body, last, st, fuel, Walking(lim)), ExecAll(body, last, st, fuel, lim), ls)
    decreases fuel, body, 0
  {
    hide Kept, Sane, Exec, ValueAt, StateAt, StmtAt;
    if body != [] {
      ExecSame(body[0], st, fuel, lim, ls);
      PlainValues(ls);
      var r := Exec(body[0], st, fuel, lim);
      if r.o.Done? {
        ExecAllSame(body[1..], if body[0].ExprStmt? then r.o.value else Nil, r.st, fuel, lim, ls);
      }
    }
  }

  lemma {:induction false} ExecBlockSame(body: seq<Stmt>, st: State, fuel: nat, lim: Limits, ls: Lines)
    requires Ready(st, lim, ls) && BodyAt(body, ls)
    ensures Same(ExecBlock(body, st, fuel, Walking(lim)), ExecBlock(body, st, fuel, lim), ls)
    decreases fuel, body, 1
  {
    hide Sane, ExecAll, Binds, ValueAt, BodyAt;
    var inside := ScopeFor(body, st);
    CellsAt(st, inside, ls);
    PlainValues(ls);
    ExecAllSame(body, Nil, inside, fuel, lim, ls);
    BackIn(st, ExecAll(body, Nil, inside, fuel, lim).st, ls);
  }

  lemma {:induction false} WhileSame(s: Stmt, shared: nat, st: State, fuel: nat, lim: Limits, ls: Lines)
    requires s.While? && Ready(st, lim, ls) && StmtAt(s, ls)
    requires LoopScope(st, shared) || Captures(s.body) || !Binds(s.body)
    ensures Same(WhileLoop(s, shared, st, fuel, Walking(lim)), WhileLoop(s, shared, st, fuel, lim), ls)
    decreases fuel, s, 0, 0
  {
    hide Sane, ExecAll, Eval, WhileScope, ValueAt, StateAt, BodyAt, ExprAt, Captures, Binds;
    EvalSame(s.test, st, fuel, lim, ls);
    PlainValues(ls);
    var b := Eval(s.test, st, fuel, lim);
    if b.o.Done? && Truthy(b.o.value) {
      var t := Tick(s.line, b.st, lim);
      CellsAt(b.st, t.st, ls);
      SaneSteps(b.st, t.st);
      if t.o.Done? && fuel > 0 {
        var inside := WhileScope(s.body, shared, t.st);
        WhileScopeAt(s.body, shared, t.st, ls);
        ExecAllSame(s.body, Nil, inside, fuel - 1, lim, ls);
        var r := ExecAll(s.body, Nil, inside, fuel - 1, lim);
        BackIn(st, r.st, ls);
        if r.o.Done? || r.o.Continuing? {
          WhileSame(s, shared, r.st.(env := st.env), fuel - 1, lim, ls);
        }
      }
    }
  }

  lemma {:induction false} ExecForSame(s: Stmt, items: seq<Value>, st: State, fuel: nat, lim: Limits, ls: Lines)
    requires s.For? && Ready(st, lim, ls) && StmtAt(s, ls) && ValuesAt(items, ls)
    ensures Same(ExecFor(s, items, st, fuel, Walking(lim)), ExecFor(s, items, st, fuel, lim), ls)
    decreases fuel, s, 0, 1
  {
    hide ForLoop, Captures, ValueAt, StmtAt;
    if Captures(s.body) {
      ForSame(s, items, 0, 0, st, fuel, lim, ls);
    } else {
      var cell := |st.heap.cells|;
      PlainValues(ls);
      NewCellAt(st, Nil, false, ls);
      var st1 := Inner([Bound(s.name, cell)], st.(heap := NewCell(st.heap, Nil, false))).(env := st.env);
      CellsAt(st.(heap := NewCell(st.heap, Nil, false)), st1, ls);
      ForSame(s, items, |st.heap.scopes|, cell, st1, fuel, lim, ls);
    }
  }

  lemma {:induction false} ForSame(s: Stmt, items: seq<Value>, shared: nat, cell: nat, st: State, fuel: nat, lim: Limits, ls: Lines)
    requires s.For? && Ready(st, lim, ls) && StmtAt(s, ls) && ValuesAt(items, ls)
    requires Captures(s.body) || (LoopScope(st, shared) && cell != RangeCell(st))
    ensures Same(ForLoop(s, items, shared, cell, st, fuel, Walking(lim)), ForLoop(s, items, shared, cell, st, fuel, lim), ls)
    decreases fuel, s, 0, 0, |items|
  {
    hide Sane, ExecAll, ForScope, RangeCell, ValueAt, StateAt, ExprAt, Captures, BodyAt;
    PlainValues(ls);
    if items != [] {
      var t := Tick(s.line, st, lim);
      CellsAt(st, t.st, ls);
      SaneSteps(st, t.st);
      if t.o.Done? && fuel > 0 {
        SameRange(st, t.st);
        ItemAt(items, ls);
        var inside := ForScope(s, items[0], shared, cell, t.st);
        ForScopeAt(s, items[0], shared, cell, t.st, ls);
        ExecAllSame(s.body, Nil, inside, fuel - 1, lim, ls);
        var r := ExecAll(s.body, Nil, inside, fuel - 1, lim);
        BackIn(st, r.st, ls);
        SameRange(r.st, r.st.(env := st.env));
        if r.o.Done? || r.o.Continuing? {
          ForSame(s, items[1..], shared, cell, r.st.(env := st.env), fuel - 1, lim, ls);
        }
      }
    }
  }

  lemma SameRange(a: State, b: State)
    requires a.heap == b.heap
    ensures RangeCell(a) == RangeCell(b)
  {
  }

  // ---- programs ----------------------------------------------------------------------------------------------------------

  lemma {:induction false} RunAllSame(body: seq<Stmt>, last: Value, st: State, fuel: nat, lim: Limits, ls: Lines)
    requires Ready(st, lim, ls) && BodyAt(body, ls) && ValueAt(last, ls)
    ensures Same(RunAll(body, last, st, fuel, Walking(lim)), RunAll(body, last, st, fuel, lim), ls)
    decreases |body|
  {
    hide Kept, Sane, Exec, ValueAt, StateAt, StmtAt;
    if body != [] {
      ExecSame(body[0], st, fuel, lim, ls);
      var r := Exec(body[0], st, fuel, lim);
      if r.o.Done? { RunAllSame(body[1..], r.o.value, r.st, fuel, lim, ls); }
    }
  }

  /** Counting through ranges changes nothing but the line of a bad range, and that only at a loop that
      stands on another line than its call. */
  lemma CountingSame(body: seq<Stmt>, st: State, fuel: nat, lim: Limits, ls: Lines)
    requires Sane(st) && lim.counts && BodyAt(body, ls) && StateAt(st, ls)
    ensures var w, c := RunProgram(body, st, fuel, Walking(lim)), RunProgram(body, st, fuel, lim);
      w.st == c.st && Alike(w.o, c.o, ls)
  {
    hide Sane, RunAll, ValueAt, StateAt, BodyAt;
    PlainValues(ls);
    RunAllSame(body, Nil, st, fuel, lim, ls);
  }

  // ---- exactly when ---------------------------------------------------------------------------------------------------------

  ghost predicate Anything(p: (nat, nat)) {
    true
  }

  ghost function AnyLines(): Lines {
    iset p: (nat, nat) | Anything(p)
  }

  lemma {:induction false} AnyExpr(e: Expr)
    ensures ExprAt(e, AnyLines())
    decreases e, 0
  {
    match e
    case Const(v) => AnyValue(v);
    case Binary(_, l, r, _) => AnyExpr(l); AnyExpr(r);
    case Logical(_, l, r) => AnyExpr(l); AnyExpr(r);
    case Not(a) => AnyExpr(a);
    case Neg(a, _) => AnyExpr(a);
    case Assign(_, a, _, _) => AnyExpr(a);
    case Call(f, args, _) =>
      AnyExpr(f);
      forall i | 0 <= i < |args| ensures ExprAt(args[i], AnyLines()) { AnyExpr(args[i]); }
    case Lambda(fn) => AnyBody(fn.body);
    case _ =>
  }

  lemma {:induction false} AnyValue(v: Value)
    ensures ValueAt(v, AnyLines())
    decreases v, 0
  {
    match v
    case List(items) =>
      forall i | 0 <= i < |items| ensures ValueAt(items[i], AnyLines()) { AnyValue(items[i]); }
    case Closure(fn, _, _) => AnyBody(fn.body);
    case _ =>
  }

  lemma {:induction false} AnyStmt(s: Stmt)
    ensures StmtAt(s, AnyLines())
    decreases s, 0
  {
    match s
    case ExprStmt(e, _) => AnyExpr(e);
    case Return(e, _) => if e.Some? { AnyExpr(e.value); }
    case Declare(_, e, _, _) => AnyExpr(e);
    case FnDecl(fn, _) => AnyBody(fn.body);
    case If(t, thn, alt, _) =>
      AnyExpr(t);
      AnyBody(thn);
      if alt.Some? { AnyStmt(alt.value); }
    case Block(body, _) => AnyBody(body);
    case While(t, body, _) => AnyExpr(t); AnyBody(body);
    case For(_, iter, body, _) => AnyExpr(iter); AnyBody(body);
    case _ =>
  }

  lemma {:induction false} AnyBody(body: seq<Stmt>)
    ensures BodyAt(body, AnyLines())
    decreases body, 0
  {
    hide StmtAt;
    forall i | 0 <= i < |body| ensures StmtAt(body[i], AnyLines()) { AnyStmt(body[i]); }
  }

  /** Whatever the program, both ways of running it leave one state, and end alike but for the line of a
      complaint of `range`. */
  lemma AlwaysAlike(body: seq<Stmt>, st: State, fuel: nat, lim: Limits)
    requires Sane(st) && lim.counts
    ensures var w, c := RunProgram(body, st, fuel, Walking(lim)), RunProgram(body, st, fuel, lim);
      w.st == c.st && Alike(w.o, c.o, AnyLines())
  {
    hide ValueAt, BodyAt, Sane, Alike, RunProgram;
    var ls := AnyLines();
    AnyBody(body);
    AnyCells(st);
    CountingSame(body, st, fuel, lim, ls);
  }

  /** At a loop over a bad range, the complaint is the same in both if and only if the call stands on the
      line of the loop. */
  lemma BadRangeLine(s: Stmt, st: State, fuel: nat, lim: Limits)
    requires s.For? && Sane(st) && lim.counts && IsCounted(s.iter) && MeansRange(st)
    ensures var a := EvalAll(s.iter.args, st, fuel, Walking(lim));
      a.Args? && RangeBounds(a.values, s.line).BadBounds? ==>
        var w, c := Subject(s, st, fuel, Walking(lim)), Subject(s, st, fuel, lim);
        && w == Res(Failed(RangeBounds(a.values, s.iter.line).error), a.st)
        && c == Res(Failed(RangeBounds(a.values, s.line).error), a.st)
        && (w == c <==> s.iter.line == s.line)
  {
    hide EvalAll, Eval, Sane, MeansRange, ValueAt, ExprAt, StateAt;
    var ls := AnyLines();
    forall i | 0 <= i < |s.iter.args| ensures ExprAt(s.iter.args[i], ls) { AnyExpr(s.iter.args[i]); }
    assert StateAt(st, ls) by { AnyCells(st); }
    EvalAllSame(s.iter.args, st, fuel, lim, ls);
    CountedSubject(s.iter, st, fuel, Walking(lim));
  }

  lemma AnyCells(st: State)
    ensures StateAt(st, AnyLines())
  {
    hide ValueAt;
    forall i | 0 <= i < |st.heap.cells| ensures ValueAt(st.heap.cells[i].value, AnyLines()) {
      AnyValue(st.heap.cells[i].value);
    }
  }

  /** `for i in`, and on the next line `range(nil) { }`. */
  const SPREAD := For("i", Call(Ident("range", 2, 0), [Const(Nil)], 2), [], 1)

  const FRESH := State(Heap([Scope(None, Mapped(map["range" := 0]), None), Scope(Some(0), Arrays([]), None)], [Cell(RangeFn, false)]), 1, 0, 0, 0, NO_FRAMES)

  /** A program on which they part: walked, it fails at line 2; compiled, at line 1. */
  lemma PartingProgram(lim: Limits)
    requires lim.counts && lim.steps >= 1
    ensures Sane(FRESH)
    ensures RunProgram([SPREAD], FRESH, 0, Walking(lim)).o == Failed(Error(RangeArgument, Some(2)))
    ensures RunProgram([SPREAD], FRESH, 0, lim).o == Failed(Error(RangeArgument, Some(1)))
  {
    hide EvalAll, Eval;
    var st := FRESH.(steps := 1);
    assert MeansRange(st) by { assert Lookup(st.heap, 1, "range") == Lookup(st.heap, 0, "range") == Some(0); }
    OneNil(st, 0, Walking(lim));
    BadRangeLine(SPREAD, st, 0, lim);
    assert Exec(SPREAD, FRESH, 0, Walking(lim)).o == Failed(Error(RangeArgument, Some(2)));
    assert Exec(SPREAD, FRESH, 0, lim).o == Failed(Error(RangeArgument, Some(1)));
    hide Exec;
    assert [SPREAD][0] == SPREAD;
  }

  lemma OneNil(st: State, fuel: nat, lim: Limits)
    ensures EvalAll([Const(Nil)], st, fuel, lim) == Args([Nil], st)
  {
    var args := [Const(Nil)];
    assert args[1..] == [];
    assert EvalAll([], st, fuel, lim) == Args([], st);
  }
}
