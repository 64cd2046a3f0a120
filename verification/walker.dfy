/** The tree-walking engine, which is the specification of the language: statements that leave early do so
    by an exception, carried here in the outcome. */
module Walker {
  import opened Lang
  import opened Bindings
  import opened Scopes

  /** The limits of a run, and the one thing in which the engines differ: whether a loop over `range` reads
      the range itself (`counts`), as compiled loops do, and so reports a bad one at its own line. The
      tree-walker does not. */
  datatype Limits = Limits(steps: nat, depth: nat, counts: bool)

  function Walking(lim: Limits): Limits {
    lim.(counts := false)
  }

  /** The frames kept for the next call: of each declaration that makes no closure, by depth, as long as its
      functions close over one scope. Both engines call through them. */
  datatype Pools = Pools(closures: map<Fn, Option<nat>>, frames: map<(Fn, nat), nat>)

  const NO_FRAMES := Pools(map[], map[])

  /** `made` numbers the closures. */
  datatype State = State(heap: Heap, env: nat, steps: nat, depth: nat, made: nat, pools: Pools)

  datatype Outcome =
    | Done(value: Value)
    | Returning(result: Value, line: nat)
    | Breaking(line: nat)
    | Continuing(line: nat)
    | Failed(error: Error)
    | OutOfFuel

  datatype Res = Res(o: Outcome, st: State)

  datatype Args = Args(values: seq<Value>, st: State) | Stopped(o: Outcome, st: State)

  function Failing(kind: Kind, line: nat, st: State): Res {
    Res(Failed(Error(kind, Some(line))), st)
  }

  function Finish(r: Result, st: State): Res {
    match r
    case Ok(v) => Res(Done(v), st)
    case Err(e) => Res(Failed(e), st)
  }

  // ---- the builtin `range` is where the prelude put it ---------------------------------------------------

  const PRELUDE := 0

  /** The prelude binds `range` to the builtin, the program's scopes lie above it, and the frames that are kept
      are frames of what they are kept for. */
  ghost predicate Sane(st: State) {
    st.env != PRELUDE && RangeBound(st.heap) && Framed(st.heap) && Pooled(st.heap, st.pools)
  }

  ghost predicate RangeBound(h: Heap) {
    && |h.scopes| > 0 && h.scopes[0].params.None?
    && "range" in Slots(h, PRELUDE) && BuiltinCell(h) < |h.cells| && h.cells[BuiltinCell(h)] == Cell(RangeFn, false)
  }

  function BuiltinCell(h: Heap): nat {
    if "range" in Slots(h, PRELUDE) then Slots(h, PRELUDE)["range"] else 0
  }

  function RangeCell(st: State): nat {
    BuiltinCell(st.heap)
  }

  /** While it is stored in order, the frame of a call begins with its parameters, each in a cell of its own that
      is not the builtin's. */
  ghost predicate Framed(h: Heap) {
    forall e :: 0 <= e < |h.scopes| ==> FrameOk(h.scopes[e], BuiltinCell(h), |h.cells|)
  }

  ghost predicate FrameOk(s: Scope, builtin: nat, size: nat) {
    s.params.Some? && s.stored.Arrays? ==>
      Begins(s.stored.bound, s.params.value) && Separate(s.stored.bound, |s.params.value|, builtin, size)
  }

  ghost predicate Separate(bs: seq<Bound<nat>>, n: nat, builtin: nat, size: nat) {
    && (forall i :: 0 <= i < n && i < |bs| ==> bs[i].to != builtin && bs[i].to < size)
    && (forall i, j :: 0 <= i < j < n && j < |bs| ==> bs[i].to != bs[j].to)
  }

  /** A frame that is kept is one of the declaration it is kept for, under the one scope its functions have closed
      over so far, and is kept for one depth. */
  ghost predicate Pooled(h: Heap, pools: Pools) {
    (forall k :: k in pools.frames ==> PooledOk(h, pools, k)) && KeptOnce(pools.frames)
  }

  ghost predicate KeptOnce(frames: map<(Fn, nat), nat>) {
    forall k, l :: k in frames && l in frames && k != l ==> frames[k] != frames[l]
  }

  ghost predicate PooledOk(h: Heap, pools: Pools, k: (Fn, nat))
    requires k in pools.frames
  {
    var e := pools.frames[k];
    && e < |h.scopes| && h.scopes[e].params == Some(k.0.params) && k.0 in pools.closures
    && (pools.closures[k.0].Some? ==> h.scopes[e].parent == pools.closures[k.0])
  }

  /** Scopes stay where they are and the frames they are. */
  ghost predicate Grown(a: Heap, b: Heap) {
    |a.scopes| <= |b.scopes| && forall e :: 0 <= e < |a.scopes| ==> b.scopes[e].params == a.scopes[e].params
  }

  /** What every step keeps: `range` stays the builtin, in its cell, and frames stay frames. */
  ghost predicate Kept(before: State, after: State) {
    Sane(before) ==> Sane(after) && RangeCell(after) == RangeCell(before) && Grown(before.heap, after.heap)
  }

  /** A scope that a loop has made for its passes. */
  ghost predicate LoopScope(st: State, shared: nat) {
    PRELUDE < shared < |st.heap.scopes| && st.heap.scopes[shared].params.None?
  }

  // ---- what the heap operations keep ----------------------------------------------------------------------------

  lemma NewScopeKept(st: State, scope: Scope, env: nat)
    requires FrameOk(scope, RangeCell(st), |st.heap.cells|) && env != PRELUDE
    ensures Kept(st, st.(heap := NewScope(st.heap, scope), env := env))
  {
    hide FrameOk, Found;
    if Sane(st) {
      var h := NewScope(st.heap, scope);
      assert h.scopes[0] == st.heap.scopes[0];
    }
  }

  lemma SamePooled(a: Heap, b: Heap, pools: Pools)
    requires Pooled(a, pools) && |a.scopes| <= |b.scopes|
    requires forall e :: 0 <= e < |a.scopes| ==> b.scopes[e].params == a.scopes[e].params && b.scopes[e].parent == a.scopes[e].parent
    ensures Pooled(b, pools)
  {
    forall k | k in pools.frames ensures PooledOk(b, pools, k) {
      assert PooledOk(a, pools, k);
    }
  }

  lemma CellsKept(st: State, cells: seq<Cell>)
    requires |st.heap.cells| <= |cells|
    requires RangeCell(st) < |st.heap.cells| ==> cells[RangeCell(st)] == st.heap.cells[RangeCell(st)]
    ensures Kept(st, st.(heap := st.heap.(cells := cells)))
  {
    hide Found, PooledOk;
    var h := st.heap.(cells := cells);
    forall e | 0 <= e < |h.scopes| && FrameOk(st.heap.scopes[e], BuiltinCell(st.heap), |st.heap.cells|)
      ensures FrameOk(h.scopes[e], BuiltinCell(h), |h.cells|)
    {
    }
    hide FrameOk;
    if Sane(st) { SamePooled(st.heap, h, st.pools); }
  }

  lemma HoldingKept(st: State, at: nat, stored: Stored<nat>)
    requires at != PRELUDE && (at < |st.heap.scopes| ==> FrameOk(st.heap.scopes[at].(stored := stored), RangeCell(st), |st.heap.cells|))
    ensures Kept(st, st.(heap := Holding(st.heap, at, stored)))
  {
    hide FrameOk, Found;
  }

  lemma PutKept(st: State, name: string, cell: nat)
    requires name !in Slots(st.heap, st.env) && cell != RangeCell(st)
    ensures Kept(st, st.(heap := PutIn(st.heap, st.env, name, cell)))
  {
    hide First, Last, IndexOf;
    if Sane(st) && st.env < |st.heap.scopes| {
      var s := st.heap.scopes[st.env];
      if s.stored.Arrays? { FirstKeys(s.stored.bound, name); }
      assert FrameOk(s, RangeCell(st), |st.heap.cells|);
      HoldingKept(st, st.env, Put(s.stored, name, cell));
    }
  }

  // ---- scopes -------------------------------------------------------------------------------------------------

  /** Binds a new cell in the current scope. */
  function Declared(name: string, value: Value, mutable: bool, line: nat, st: State): (r: Res)
    ensures Kept(st, r.st)
    ensures r.st.env == st.env && r.st.depth == st.depth && st.steps <= r.st.steps
  {
    if name in Slots(st.heap, st.env) then Failing(NameError, line, st) else
      DeclaredKept(name, value, mutable, st);
      Res(Done(Nil), st.(heap := PutIn(NewCell(st.heap, value, mutable), st.env, name, |st.heap.cells|)))
  }

  lemma DeclaredKept(name: string, value: Value, mutable: bool, st: State)
    requires name !in Slots(st.heap, st.env)
    ensures Kept(st, st.(heap := PutIn(NewCell(st.heap, value, mutable), st.env, name, |st.heap.cells|)))
  {
    hide Put, Found, Framed, Pooled;
    var st1 := st.(heap := NewCell(st.heap, value, mutable));
    CellsKept(st, st1.heap.cells);
    if Sane(st) { PutKept(st1, name, |st.heap.cells|); }
  }

  function FrameCells(args: seq<Value>): (r: seq<Cell>)
    ensures |r| == |args|
  {
    seq(|args|, i requires 0 <= i < |args| => Cell(args[i], false))
  }

  function Consecutive(first: nat, n: nat): (r: seq<nat>)
    ensures |r| == n
  {
    seq(n, i requires 0 <= i < n => first + i)
  }

  /** A new call frame: a scope under the closure's, a new cell for each parameter. */
  function NewFrame(fn: Fn, parent: nat, args: seq<Value>, st: State): (r: State)
    requires |args| == |fn.params|
    ensures Kept(st, r)
    ensures r.depth == st.depth && r.steps == st.steps && r.made == st.made && r.pools == st.pools && r.env == |st.heap.scopes|
  {
    NewFrameKept(fn, parent, args, st);
    var h := st.heap.(cells := st.heap.cells + FrameCells(args));
    st.(heap := NewScope(h, FrameScope(fn, parent, |st.heap.cells|)), env := |st.heap.scopes|)
  }

  function FrameScope(fn: Fn, parent: nat, first: nat): Scope {
    Scope(Some(parent), Arrays(Adopt(fn.params, Consecutive(first, |fn.params|))), Some(fn.params))
  }

  lemma FrameScopeOk(fn: Fn, parent: nat, first: nat, builtin: nat)
    requires builtin < first
    ensures FrameOk(FrameScope(fn, parent, first), builtin, first + |fn.params|)
  {
  }

  lemma NewFrameKept(fn: Fn, parent: nat, args: seq<Value>, st: State)
    requires |args| == |fn.params|
    ensures var h := st.heap.(cells := st.heap.cells + FrameCells(args));
      Kept(st, st.(heap := NewScope(h, FrameScope(fn, parent, |st.heap.cells|)), env := |st.heap.scopes|))
  {
    hide Found, Framed, Pooled;
    var cells := st.heap.cells + FrameCells(args);
    var st1 := st.(heap := st.heap.(cells := cells));
    CellsKept(st, cells);
    if Sane(st) {
      FrameScopeOk(fn, parent, |st.heap.cells|, RangeCell(st));
      NewScopeKept(st1, FrameScope(fn, parent, |st.heap.cells|), |st.heap.scopes|);
    }
  }

  /** New values in the cells of the first bindings. */
  function Fill(h: Heap, bs: seq<Bound<nat>>, args: seq<Value>): Heap
    decreases |bs|
  {
    if bs == [] || args == [] then h else Fill(Write(h, bs[0].to, args[0]), bs[1..], args[1..])
  }

  lemma {:induction false} FillScopes(h: Heap, bs: seq<Bound<nat>>, args: seq<Value>)
    ensures Fill(h, bs, args).scopes == h.scopes && |Fill(h, bs, args).cells| == |h.cells|
    decreases |bs|
  {
    if bs != [] && args != [] { FillScopes(Write(h, bs[0].to, args[0]), bs[1..], args[1..]); }
  }

  lemma {:induction false} FillOthers(h: Heap, bs: seq<Bound<nat>>, args: seq<Value>, cell: nat)
    requires cell < |h.cells| && forall i :: 0 <= i < |bs| && i < |args| ==> bs[i].to != cell
    ensures |Fill(h, bs, args).cells| == |h.cells| && Fill(h, bs, args).cells[cell] == h.cells[cell]
    decreases |bs|
  {
    if bs != [] && args != [] {
      assert forall i :: 0 <= i < |bs[1..]| && i < |args[1..]| ==> bs[1..][i] == bs[i + 1];
      FillOthers(Write(h, bs[0].to, args[0]), bs[1..], args[1..], cell);
    }
  }

  /** A frame taken back: the locals go, the parameters keep their cells with new values. */
  function Retaken(fn: Fn, env: nat, args: seq<Value>, st: State): (r: State)
    requires |args| == |fn.params| && env < |st.heap.scopes| && st.heap.scopes[env].stored.Arrays?
    ensures Sane(st) && st.heap.scopes[env].params == Some(fn.params) ==> Kept(st, r)
    ensures r.depth == st.depth && r.steps == st.steps && r.made == st.made && r.pools == st.pools && r.env == env
  {
    RetakenKept(fn, env, args, st);
    var bs := Retake(st.heap.scopes[env].stored.bound, fn.params);
    st.(heap := Fill(Holding(st.heap, env, Arrays(bs)), bs, args), env := env)
  }

  lemma RetakenKept(fn: Fn, env: nat, args: seq<Value>, st: State)
    requires |args| == |fn.params| && env < |st.heap.scopes| && st.heap.scopes[env].stored.Arrays?
    ensures var bs := Retake(st.heap.scopes[env].stored.bound, fn.params);
      Sane(st) && st.heap.scopes[env].params == Some(fn.params) ==>
        Kept(st, st.(heap := Fill(Holding(st.heap, env, Arrays(bs)), bs, args), env := env))
  {
    if Sane(st) && st.heap.scopes[env].params == Some(fn.params) {
      hide Pooled, Found, Fill;
      assert FrameOk(st.heap.scopes[env], RangeCell(st), |st.heap.cells|);
      var was := st.heap.scopes[env].stored.bound;
      var bs := Retake(was, fn.params);
      RetakeBegins(was, fn.params);
      var st1 := st.(heap := Holding(st.heap, env, Arrays(bs)));
      hide Retake;
      HoldingKept(st, env, Arrays(bs));
      hide Framed;
      FillScopes(st1.heap, bs, args);
      FillOthers(st1.heap, bs, args, RangeCell(st));
      assert st1.(heap := Fill(st1.heap, bs, args)).heap == st1.heap.(cells := Fill(st1.heap, bs, args).cells);
      CellsKept(st1, Fill(st1.heap, bs, args).cells);
    }
  }

  /** The body makes a function, which would capture the frame, or its functions close over different scopes. */
  predicate Escapes(fn: Fn, parent: nat, pools: Pools) {
    Captures(fn.body) || (fn in pools.closures && pools.closures[fn] != Some(parent))
  }

  predicate Reusable(fn: Fn, st: State) {
    var k := (fn, st.depth);
    k in st.pools.frames && st.pools.frames[k] < |st.heap.scopes| && st.heap.scopes[st.pools.frames[k]].stored.Arrays?
  }

  /** A call frame: the one that an earlier call at this depth has left, if it may be kept and is still stored
      in order; otherwise a new one. */
  function Frame(fn: Fn, parent: nat, args: seq<Value>, st: State): (r: State)
    requires |args| == |fn.params|
    ensures Kept(st, r)
    ensures r.depth == st.depth + 1 && r.steps == st.steps && r.made == st.made
  {
    FrameKept(fn, parent, args, st);
    EnterFrame(fn, parent, args, st).(depth := st.depth + 1)
  }

  function EnterFrame(fn: Fn, parent: nat, args: seq<Value>, st: State): (r: State)
    requires |args| == |fn.params|
    ensures r.depth == st.depth && r.steps == st.steps && r.made == st.made
  {
    if Escapes(fn, parent, st.pools) then
      NewFrame(fn, parent, args, st).(pools := GivenUp(fn, st.pools))
    else
      var pools := st.pools.(closures := st.pools.closures[fn := Some(parent)]);
      if Reusable(fn, st) then Retaken(fn, st.pools.frames[(fn, st.depth)], args, st).(pools := pools)
      else NewFrame(fn, parent, args, st).(pools := pools.(frames := pools.frames[(fn, st.depth) := |st.heap.scopes|]))
  }

  /** A declaration whose functions close over different scopes keeps no frames from then on. */
  function GivenUp(fn: Fn, pools: Pools): (r: Pools)
    ensures r.frames == pools.frames
  {
    if Captures(fn.body) then pools else pools.(closures := pools.closures[fn := None])
  }

  lemma FrameKept(fn: Fn, parent: nat, args: seq<Value>, st: State)
    requires |args| == |fn.params|
    ensures Kept(st, EnterFrame(fn, parent, args, st).(depth := st.depth + 1))
  {
    hide Captures, Retaken, RangeBound, Framed, BuiltinCell;
    var r := NewFrame(fn, parent, args, st);
    assert r.heap.scopes[|st.heap.scopes|] == FrameScope(fn, parent, |st.heap.cells|);
    hide NewFrame;
  }

  /** A scope under the current one. */
  function Inner(bound: seq<Bound<nat>>, st: State): (r: State)
    ensures Kept(st, r)
    ensures r.heap.scopes == st.heap.scopes + [Scope(Some(st.env), Arrays(bound), None)] && r.env == |st.heap.scopes|
    ensures r.steps == st.steps && r.depth == st.depth
  {
    NewScopeKept(st, Scope(Some(st.env), Arrays(bound), None), if |st.heap.scopes| == 0 then 1 else |st.heap.scopes|);
    st.(heap := NewScope(st.heap, Scope(Some(st.env), Arrays(bound), None)), env := |st.heap.scopes|)
  }

  function ScopeFor(body: seq<Stmt>, st: State): (r: State)
    ensures Kept(st, r)
  {
    if Binds(body) then Inner([], st) else st
  }

  // ---- expressions --------------------------------------------------------------------------------------------

  function Tick(line: nat, st: State, lim: Limits): (r: Res)
    ensures Kept(st, r.st)
    ensures r.st.env == st.env && r.st.depth == st.depth && st.steps <= r.st.steps && (r.o.Done? || r.o.Failed?)
  {
    var st1 := st.(steps := st.steps + 1);
    if st1.steps > lim.steps then Failing(StepLimitError, line, st1) else Res(Done(Nil), st1)
  }

  predicate Plain(o: Outcome) {
    o.Done? || o.Failed? || o.OutOfFuel?
  }

  function Eval(e: Expr, st: State, fuel: nat, lim: Limits): (r: Res)
    ensures Kept(st, r.st)
    ensures r.st.env == st.env && r.st.depth == st.depth && st.steps <= r.st.steps && Plain(r.o)
    decreases fuel, e, 0
  {
    hide RangeBound, Framed, Pooled, BuiltinCell;
    match e
    case Const(v) => Res(Done(v), st)
    case Ident(name, line, _) =>
      var cell := Lookup(st.heap, st.env, name);
      if cell.None? then Failing(NameError, line, st) else Res(Done(CellAt(st.heap, cell.value).value), st)
    case Binary(op, left, right, line) =>
      var l := Eval(left, st, fuel, lim);
      if !l.o.Done? then l else
        var r := Eval(right, l.st, fuel, lim);
        if !r.o.Done? then r else Finish(Operate(op, l.o.value, r.o.value, line), r.st)
    case Logical(isAnd, left, right) =>
      var l := Eval(left, st, fuel, lim);
      if !l.o.Done? || Truthy(l.o.value) != isAnd then l else Eval(right, l.st, fuel, lim)
    case Not(operand) =>
      var v := Eval(operand, st, fuel, lim);
      if !v.o.Done? then v else Res(Done(Bool(!Truthy(v.o.value))), v.st)
    case Neg(operand, line) =>
      var v := Eval(operand, st, fuel, lim);
      if !v.o.Done? then v
      else if !v.o.value.Num? then Failing(TypeError, line, v.st)
      else Res(Done(Num(-v.o.value.n)), v.st)
    case Assign(name, value, line, _) =>
      var v := Eval(value, st, fuel, lim);
      if !v.o.Done? then v else Assigned(name, v.o.value, line, v.st)
    case Call(callee, args, line) =>
      var f := Eval(callee, st, fuel, lim);
      if !f.o.Done? then f else
        var a := EvalAll(args, f.st, fuel, lim);
        if a.Stopped? then Res(a.o, a.st)
        else if !f.o.value.Closure? then Builtin(f.o.value, a.values, line, a.st)
        else if fuel == 0 then Res(OutOfFuel, a.st)
        else Invoke(f.o.value, a.values, line, a.st, fuel - 1, lim)
    case Lambda(fn) => Res(Done(Closure(fn, st.env, st.made)), st.(made := st.made + 1))
  }

  function Assigned(name: string, value: Value, line: nat, st: State): (r: Res)
    ensures Kept(st, r.st)
    ensures r.st.env == st.env && r.st.depth == st.depth && st.steps <= r.st.steps && Plain(r.o)
  {
    var cell := Lookup(st.heap, st.env, name);
    if cell.None? then Failing(NameError, line, st)
    else if !CellAt(st.heap, cell.value).mutable then Failing(ImmutableError, line, st)
    else Res(Done(value), st.(heap := Write(st.heap, cell.value, value)))
  }

  function EvalAll(args: seq<Expr>, st: State, fuel: nat, lim: Limits): (r: Args)
    ensures Kept(st, r.st)
    ensures r.st.env == st.env && r.st.depth == st.depth && st.steps <= r.st.steps && (r.Stopped? ==> Plain(r.o) && !r.o.Done?)
    ensures r.Args? ==> |r.values| == |args|
    decreases fuel, args, 0
  {
    if args == [] then Args([], st) else
      var v := Eval(args[0], st, fuel, lim);
      if !v.o.Done? then Stopped(v.o, v.st) else
        var rest := EvalAll(args[1..], v.st, fuel, lim);
        if rest.Stopped? then rest else Args([v.o.value] + rest.values, rest.st)
  }

  /** Calling what is not a function of the program. */
  function Builtin(f: Value, args: seq<Value>, line: nat, st: State): (r: Res)
    ensures r.st == st && Plain(r.o)
  {
    if !f.RangeFn? then Failing(TypeError, line, st)
    else if !(1 <= |args| <= 3) then Failing(ArityError, line, st)
    else
      match RangeBounds(args, line)
      case BadBounds(e) => Res(Failed(e), st)
      case Bounds(start, stop, step) => Res(Done(List(RangeItems(start, stop, step))), st)
  }

  /** What a call makes of the way its body ended. */
  function Returned(o: Outcome): (r: Outcome)
    ensures Plain(r)
  {
    match o
    case Done(_) => Done(Nil)
    case Returning(v, _) => Done(v)
    case Breaking(line) => Failed(Error(ControlFlowError, Some(line)))
    case Continuing(line) => Failed(Error(ControlFlowError, Some(line)))
    case _ => o
  }

  function Invoke(f: Value, args: seq<Value>, line: nat, st: State, fuel: nat, lim: Limits): (r: Res)
    requires f.Closure?
    ensures Kept(st, r.st)
    ensures r.st.env == st.env && r.st.depth == st.depth && st.steps <= r.st.steps && Plain(r.o)
    decreases fuel, f, 0
  {
    if |args| != |f.fn.params| then Failing(ArityError, line, st)
    else if st.depth >= lim.depth then Failing(RecursionError, line, st)
    else
      var r := ExecAll(f.fn.body, Nil, Frame(f.fn, f.env, args, st), fuel, lim);
      Res(Returned(r.o), r.st.(env := st.env, depth := st.depth))
  }

  // ---- statements -------------------------------------------------------------------------------------------------

  function Exec(s: Stmt, st0: State, fuel: nat, lim: Limits): (r: Res)
    ensures Kept(st0, r.st)
    ensures r.st.env == st0.env && r.st.depth == st0.depth && st0.steps <= r.st.steps
    decreases fuel, s, 1
  {
    hide RangeBound, Framed, Pooled, BuiltinCell, Captures, Binds;
    var t := Tick(s.line, st0, lim);
    if !t.o.Done? then t else
    var st := t.st;
    match s
    case ExprStmt(e, _) => Eval(e, st, fuel, lim)
    case Return(None, line) => Res(Returning(Nil, line), st)
    case Return(Some(e), line) =>
      var v := Eval(e, st, fuel, lim);
      if !v.o.Done? then v else Res(Returning(v.o.value, line), v.st)
    case Break(line) => Res(Breaking(line), st)
    case Continue(line) => Res(Continuing(line), st)
    case Declare(name, e, mutable, line) =>
      var v := Eval(e, st, fuel, lim);
      if !v.o.Done? then v else Declared(name, v.o.value, mutable, line, v.st)
    case FnDecl(fn, line) =>
      Declared(fn.name, Closure(fn, st.env, st.made), false, line, st.(made := st.made + 1))
    case If(test, thn, alt, _) =>
      var b := Eval(test, st, fuel, lim);
      if !b.o.Done? then b
      else if Truthy(b.o.value) then ExecBlock(thn, b.st, fuel, lim)
      else if alt.None? then Res(Done(Nil), b.st)
      else if alt.value.Block? then ExecBlock(alt.value.body, b.st, fuel, lim)
      else Exec(alt.value, b.st, fuel, lim)
    case Block(body, _) => ExecBlock(body, st, fuel, lim)
    case While(_, body, _) =>
      if !Captures(body) && Binds(body) then
        WhileLoop(s, |st.heap.scopes|, Inner([], st).(env := st.env), fuel, lim)
      else
        WhileLoop(s, 0, st, fuel, lim)
    case For(name, iter, body, line) =>
      var items := Subject(s, st, fuel, lim);
      if !items.o.Done? then items
      else if !items.o.value.List? then Failing(TypeError, line, items.st)
      else ExecFor(s, items.o.value.items, items.st, fuel, lim)
  }

  /** The loop's subject is literally a call of the name `range` with one to three arguments. */
  predicate IsCounted(iter: Expr) {
    iter.Call? && iter.callee.Ident? && iter.callee.name == "range" && 1 <= |iter.args| <= 3
  }

  /** And the name still means the builtin. */
  predicate MeansRange(st: State) {
    "range" in Slots(st.heap, PRELUDE) && Lookup(st.heap, st.env, "range") == Some(Slots(st.heap, PRELUDE)["range"])
  }

  /** What a `for` goes through. A loop that counts applies the builtin to the arguments itself, at its own
      line; otherwise the subject is an expression like any other. */
  function Subject(s: Stmt, st: State, fuel: nat, lim: Limits): (r: Res)
    requires s.For?
    ensures Kept(st, r.st)
    ensures r.st.env == st.env && r.st.depth == st.depth && st.steps <= r.st.steps && Plain(r.o)
    decreases fuel, s, 0
  {
    if lim.counts && IsCounted(s.iter) && MeansRange(st) then
      var a := EvalAll(s.iter.args, st, fuel, lim);
      if a.Stopped? then Res(a.o, a.st) else Builtin(RangeFn, a.values, s.line, a.st)
    else Eval(s.iter, st, fuel, lim)
  }

  /** Statements in order. What a block evaluates to is the value of its last statement, if that is an
      expression. */
  function ExecAll(body: seq<Stmt>, last: Value, st: State, fuel: nat, lim: Limits): (r: Res)
    ensures Kept(st, r.st)
    ensures r.st.env == st.env && r.st.depth == st.depth && st.steps <= r.st.steps
    decreases fuel, body, 0
  {
    if body == [] then Res(Done(last), st) else
      var r := Exec(body[0], st, fuel, lim);
      if !r.o.Done? then r
      else ExecAll(body[1..], if body[0].ExprStmt? then r.o.value else Nil, r.st, fuel, lim)
  }

  function ExecBlock(body: seq<Stmt>, st: State, fuel: nat, lim: Limits): (r: Res)
    ensures Kept(st, r.st)
    ensures r.st.env == st.env && r.st.depth == st.depth && st.steps <= r.st.steps
    decreases fuel, body, 1
  {
    var r := ExecAll(body, Nil, ScopeFor(body, st), fuel, lim);
    Res(r.o, r.st.(env := st.env))
  }

  /** The scope of a pass: its own if the body makes closures, the loop's, cleared, if the body binds
      names, and otherwise the enclosing one. */
  function WhileScope(body: seq<Stmt>, shared: nat, st: State): (r: State)
    ensures LoopScope(st, shared) || Captures(body) || !Binds(body) ==> Kept(st, r)
  {
    if Captures(body) then Inner([], st)
    else if Binds(body) then st.(heap := ClearIn(st.heap, shared), env := shared)
    else st
  }

  lemma BackKept(st: State, end: State)
    ensures Kept(end, end) && (Kept(st, end) ==> Kept(st, end.(env := st.env)))
  {
    hide RangeBound, Framed, Pooled, BuiltinCell;
  }

  function WhileLoop(s: Stmt, shared: nat, st: State, fuel: nat, lim: Limits): (r: Res)
    requires s.While?
    ensures LoopScope(st, shared) || Captures(s.body) || !Binds(s.body) ==> Kept(st, r.st)
    ensures r.st.env == st.env && r.st.depth == st.depth && st.steps <= r.st.steps
    decreases fuel, s, 0
  {
    hide Sane, BuiltinCell, Captures, Binds;
    var b := Eval(s.test, st, fuel, lim);
    if !b.o.Done? then b
    else if !Truthy(b.o.value) then Res(Done(Nil), b.st)
    else
      var t := Tick(s.line, b.st, lim);
      if !t.o.Done? then t
      else if fuel == 0 then Res(OutOfFuel, t.st)
      else
        var r := ExecAll(s.body, Nil, WhileScope(s.body, shared, t.st), fuel - 1, lim);
        BackKept(st, r.st);
        var back := r.st.(env := st.env);
        match r.o
        case Done(_) => WhileLoop(s, shared, back, fuel - 1, lim)
        case Continuing(_) => WhileLoop(s, shared, back, fuel - 1, lim)
        case Breaking(_) => Res(Done(Nil), back)
        case _ => Res(r.o, back)
  }

  function ExecFor(s: Stmt, items: seq<Value>, st: State, fuel: nat, lim: Limits): (r: Res)
    requires s.For?
    ensures Kept(st, r.st)
    ensures r.st.env == st.env && r.st.depth == st.depth && st.steps <= r.st.steps
    decreases fuel, s, 0, |items| + 1
  {
    if Captures(s.body) then ForLoop(s, items, 0, 0, st, fuel, lim) else
      var cell := |st.heap.cells|;
      var st1 := Inner([Bound(s.name, cell)], st.(heap := NewCell(st.heap, Nil, false))).(env := st.env);
      ForLoop(s, items, |st.heap.scopes|, cell, st1, fuel, lim)
  }

  lemma ForScopeKept(s: Stmt, item: Value, shared: nat, cell: nat, st: State)
    requires s.For?
    ensures Kept(st, st.(heap := NewCell(st.heap, item, false)))
    ensures LoopScope(st, shared) && cell != RangeCell(st) ==>
      && Kept(st, st.(heap := Write(st.heap, cell, item), env := shared))
      && Kept(st, st.(heap := Write(PutIn(ClearIn(st.heap, shared), shared, s.name, cell), cell, item), env := shared))
  {
    hide Found, Put, Clear;
    CellsKept(st, NewCell(st.heap, item, false).cells);
    if Sane(st) && LoopScope(st, shared) && cell != RangeCell(st) {
      var st1 := st.(heap := ClearIn(st.heap, shared));
      HoldingKept(st, shared, Clear(StoredAt(st.heap, shared)));
      var st2 := st.(heap := PutIn(st1.heap, shared, s.name, cell));
      HoldingKept(st1, shared, Put(StoredAt(st1.heap, shared), s.name, cell));
      hide Framed, Pooled, BuiltinCell;
      CellsKept(st2, Write(st2.heap, cell, item).cells);
      CellsKept(st, Write(st.heap, cell, item).cells);
    }
  }

  /** The scope of a pass, with the item in the loop's variable. */
  function ForScope(s: Stmt, item: Value, shared: nat, cell: nat, st: State): (r: State)
    requires s.For?
    ensures Captures(s.body) || (LoopScope(st, shared) && cell != RangeCell(st)) ==> Kept(st, r)
  {
    hide Framed, Pooled, RangeBound, BuiltinCell, Put, Clear, Captures, Binds;
    ForScopeKept(s, item, shared, cell, st);
    if Captures(s.body) then Inner([Bound(s.name, |st.heap.cells|)], st.(heap := NewCell(st.heap, item, false)))
    else
      var cleared := if Binds(s.body) then PutIn(ClearIn(st.heap, shared), shared, s.name, cell) else st.heap;
      st.(heap := Write(cleared, cell, item), env := shared)
  }

  function ForLoop(s: Stmt, items: seq<Value>, shared: nat, cell: nat, st: State, fuel: nat, lim: Limits): (r: Res)
    requires s.For?
    ensures Captures(s.body) || (LoopScope(st, shared) && cell != RangeCell(st)) ==> Kept(st, r.st)
    ensures r.st.env == st.env && r.st.depth == st.depth && st.steps <= r.st.steps
    decreases fuel, s, 0, |items|
  {
    hide RangeBound, Framed, Pooled, BuiltinCell, Captures, Binds;
    if items == [] then Res(Done(Nil), st) else
      var t := Tick(s.line, st, lim);
      if !t.o.Done? then t
      else if fuel == 0 then Res(OutOfFuel, t.st)
      else
        var r := ExecAll(s.body, Nil, ForScope(s, items[0], shared, cell, t.st), fuel - 1, lim);
        var back := r.st.(env := st.env);
        match r.o
        case Done(_) => ForLoop(s, items[1..], shared, cell, back, fuel - 1, lim)
        case Continuing(_) => ForLoop(s, items[1..], shared, cell, back, fuel - 1, lim)
        case Breaking(_) => Res(Done(Nil), back)
        case _ => Res(r.o, back)
  }

  // ---- programs -----------------------------------------------------------------------------------------------------

  /** At the top every statement's value counts. */
  function RunAll(body: seq<Stmt>, last: Value, st: State, fuel: nat, lim: Limits): (r: Res)
    ensures Kept(st, r.st)
    ensures r.st.env == st.env && r.st.depth == st.depth && st.steps <= r.st.steps
    decreases |body|
  {
    if body == [] then Res(Done(last), st) else
      var r := Exec(body[0], st, fuel, lim);
      if !r.o.Done? then r else RunAll(body[1..], r.o.value, r.st, fuel, lim)
  }

  /** A `return`, `break` or `continue` that nothing caught is a failure of the program. */
  function Escaped(o: Outcome): Outcome {
    match o
    case Returning(_, line) => Failed(Error(ControlFlowError, Some(line)))
    case Breaking(line) => Failed(Error(ControlFlowError, Some(line)))
    case Continuing(line) => Failed(Error(ControlFlowError, Some(line)))
    case _ => o
  }

  function RunProgram(body: seq<Stmt>, st: State, fuel: nat, lim: Limits): (r: Res)
    ensures Kept(st, r.st)
  {
    var r := RunAll(body, Nil, st, fuel, lim);
    Res(Escaped(r.o), r.st)
  }
}
