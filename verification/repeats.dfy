/** The condition on a program under which inline caches are right: none of its functions repeats a parameter.
    It is kept by everything a run does. */
module Repeats {
  import opened Lang
  import opened Bindings
  import opened Scopes
  import opened Walker

  // ---- programs ---------------------------------------------------------------------------------------------

  ghost predicate FnOnce(fn: Fn) {
    Distinct(fn.params) && BodyOnce(fn.body)
  }

  ghost predicate ValueOnce(v: Value) {
    match v
    case List(items) => forall i :: 0 <= i < |items| ==> ValueOnce(items[i])
    case Closure(fn, _, _) => FnOnce(fn)
    case _ => true
  }

  ghost predicate ExprOnce(e: Expr) {
    match e
    case Const(v) => ValueOnce(v)
    case Ident(_, _, _) => true
    case Binary(_, l, r, _) => ExprOnce(l) && ExprOnce(r)
    case Logical(_, l, r) => ExprOnce(l) && ExprOnce(r)
    case Not(a) => ExprOnce(a)
    case Neg(a, _) => ExprOnce(a)
    case Assign(_, a, _, _) => ExprOnce(a)
    case Call(f, args, _) => ExprOnce(f) && forall i :: 0 <= i < |args| ==> ExprOnce(args[i])
    case Lambda(fn) => FnOnce(fn)
  }

  ghost predicate StmtOnce(s: Stmt) {
    match s
    case ExprStmt(e, _) => ExprOnce(e)
    case Return(e, _) => e.Some? ==> ExprOnce(e.value)
    case Declare(_, e, _, _) => ExprOnce(e)
    case FnDecl(fn, _) => FnOnce(fn)
    case If(t, thn, alt, _) => ExprOnce(t) && BodyOnce(thn) && (alt.Some? ==> StmtOnce(alt.value))
    case Block(body, _) => BodyOnce(body)
    case While(t, body, _) => ExprOnce(t) && BodyOnce(body)
    case For(_, iter, body, _) => ExprOnce(iter) && BodyOnce(body)
    case _ => true
  }

  ghost predicate BodyOnce(body: seq<Stmt>) {
    forall i :: 0 <= i < |body| ==> StmtOnce(body[i])
  }

  ghost predicate ArgsOnce(args: seq<Expr>) {
    forall i :: 0 <= i < |args| ==> ExprOnce(args[i])
  }

  ghost predicate ValuesOnce(values: seq<Value>) {
    forall i :: 0 <= i < |values| ==> ValueOnce(values[i])
  }

  // ---- heaps ------------------------------------------------------------------------------------------------

  /** No function that a cell holds repeats a parameter, and no scope binds a name twice. */
  ghost predicate HeapOnce(h: Heap) {
    Unrepeated(h) && CellsOnce(h.cells)
  }

  ghost predicate CellsOnce(cells: seq<Cell>) {
    forall i :: 0 <= i < |cells| ==> ValueOnce(cells[i].value)
  }

  lemma PlainOnce()
    ensures ValueOnce(Nil) && (forall b :: ValueOnce(Bool(b))) && forall n :: ValueOnce(Num(n))
  {
  }

  lemma CellOnce(h: Heap, cell: nat)
    requires HeapOnce(h)
    ensures ValueOnce(CellAt(h, cell).value)
  {
  }

  lemma ScopeOnce(h: Heap, scope: Scope)
    requires HeapOnce(h) && Single(scope.stored)
    ensures HeapOnce(NewScope(h, scope))
  {
    hide ValueOnce, Single;
  }

  lemma NewCellOnce(h: Heap, v: Value, mutable: bool)
    requires HeapOnce(h) && ValueOnce(v)
    ensures HeapOnce(NewCell(h, v, mutable))
  {
    hide ValueOnce, Single;
  }

  lemma WriteOnce(h: Heap, cell: nat, v: Value)
    requires HeapOnce(h) && ValueOnce(v)
    ensures HeapOnce(Write(h, cell, v))
  {
    hide ValueOnce, Single;
  }

  lemma HoldingOnce(h: Heap, at: nat, stored: Stored<nat>)
    requires HeapOnce(h) && Single(stored)
    ensures HeapOnce(Holding(h, at, stored))
  {
    hide ValueOnce, Single;
  }

  lemma PutOnce(h: Heap, at: nat, name: string, cell: nat)
    requires HeapOnce(h)
    ensures HeapOnce(PutIn(h, at, name, cell)) && Single(StoredAt(h, at))
  {
    hide ValueOnce, Put;
    FoundPut(StoredAt(h, at), name, cell);
    HoldingOnce(h, at, Put(StoredAt(h, at), name, cell));
  }

  lemma ClearOnce(h: Heap, at: nat)
    requires HeapOnce(h)
    ensures HeapOnce(ClearIn(h, at))
  {
    HoldingOnce(h, at, Clear(StoredAt(h, at)));
  }

  lemma ArgumentsOnce(h: Heap, args: seq<Value>)
    requires HeapOnce(h) && ValuesOnce(args)
    ensures HeapOnce(h.(cells := h.cells + FrameCells(args)))
  {
    hide ValueOnce, Single;
  }

  lemma FrameScopeOnce(fn: Fn, parent: nat, first: nat)
    requires Distinct(fn.params)
    ensures Single(FrameScope(fn, parent, first).stored)
  {
    AdoptOnce(fn.params, Consecutive(first, |fn.params|));
  }

  lemma {:induction false} FillOnce(h: Heap, bs: seq<Bound<nat>>, args: seq<Value>)
    requires HeapOnce(h) && ValuesOnce(args)
    ensures HeapOnce(Fill(h, bs, args))
    decreases |bs|
  {
    hide ValueOnce, HeapOnce;
    if bs != [] && args != [] {
      WriteOnce(h, bs[0].to, args[0]);
      FillOnce(Write(h, bs[0].to, args[0]), bs[1..], args[1..]);
    }
  }

  // ---- values -----------------------------------------------------------------------------------------------

  lemma OperateOnce(op: Op, l: Value, r: Value, line: nat)
    requires ValueOnce(l) && ValueOnce(r)
    ensures Operate(op, l, r, line).Ok? ==> ValueOnce(Operate(op, l, r, line).value)
  {
    hide Product;
  }

  lemma {:induction false} RangeOnce(start: real, stop: real, step: real)
    requires step != 0.0
    ensures ValuesOnce(RangeItems(start, stop, step))
    decreases Remaining(start, stop, step)
  {
    if Goes(start, stop, step) {
      RemainingShrinks(start, stop, step);
      RangeOnce(start + step, stop, step);
    }
  }

  lemma ClosureOnce(f: Value)
    requires f.Closure? && ValueOnce(f)
    ensures Distinct(f.fn.params) && BodyOnce(f.fn.body)
  {
  }
}
