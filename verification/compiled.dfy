/** The compiling engine: one method for each kind of node, working on the interpreter's own fields, with
    sentinels in place of exceptions, names resolved through inline caches, and loops over `range` counted
    rather than listed. Every method is proved to leave the state, and to end the way, that the
    tree-walking engine would. */
module Compiled {
  import opened Lang
  import opened Bindings
  import opened Scopes
  import opened Walker
  import opened Repeats
  import opened RangeLines

  datatype Signal = SigReturn | SigBreak | SigContinue

  /** A compiled statement returns a value or a sentinel, or throws. What a `return` carries, and the line a
      sentinel came from, are fields of the engine. */
  datatype Completion = Val(value: Value) | Sig(signal: Signal) | Thrown(error: Error) | Exhausted

  predicate Agree(c: Completion, o: Outcome, retval: Value, sigLine: nat) {
    match o
    case Done(v) => c == Val(v)
    case Returning(v, line) => c == Sig(SigReturn) && retval == v && sigLine == line
    case Breaking(line) => c == Sig(SigBreak) && sigLine == line
    case Continuing(line) => c == Sig(SigContinue) && sigLine == line
    case Failed(e) => c == Thrown(e)
    case OutOfFuel => c.Exhausted?
  }

  /** The completion stands for the outcome, or both are complaints of `range` at the two lines of a listed
      pair. */
  ghost predicate AgreeBut(c: Completion, walked: Outcome, ls: Lines) {
    match c
    case Val(v) => walked == Done(v)
    case Thrown(e) => Alike(walked, Failed(e), ls)
    case Exhausted => walked == OutOfFuel
    case Sig(_) => false
  }

  ghost predicate Good(c: Completion) {
    c.Val? ==> ValueOnce(c.value)
  }

  function Throw(kind: Kind, line: nat): Completion {
    Thrown(Error(kind, Some(line)))
  }

  // ---- all the caches at once -----------------------------------------------------------------------------

  type Caches = map<(nat, string), Cache>

  ghost predicate AllCoherent(h: Heap, vs: Versions, caches: Caches) {
    forall k :: k in caches ==> Coherent(h, vs, k.1, caches[k])
  }

  lemma AllNewScope(h: Heap, vs: Versions, caches: Caches, scope: Scope)
    requires AllCoherent(h, vs, caches)
    ensures AllCoherent(NewScope(h, scope), vs, caches)
  {
    forall k | k in caches ensures Coherent(NewScope(h, scope), vs, k.1, caches[k]) {
      CoherentNewScope(h, vs, scope, k.1, caches[k]);
    }
  }

  lemma AllCells(h: Heap, vs: Versions, caches: Caches, cells: seq<Cell>)
    requires AllCoherent(h, vs, caches)
    ensures AllCoherent(h.(cells := cells), vs, caches)
  {
    forall k | k in caches ensures Coherent(h.(cells := cells), vs, k.1, caches[k]) {
      CoherentCells(h, vs, cells, k.1, caches[k]);
    }
  }

  lemma AllWrite(h: Heap, vs: Versions, caches: Caches, cell: nat, value: Value)
    requires AllCoherent(h, vs, caches)
    ensures AllCoherent(Write(h, cell, value), vs, caches)
  {
    AllCells(h, vs, caches, Write(h, cell, value).cells);
  }

  lemma AllPut(h: Heap, vs: Versions, caches: Caches, at: nat, name: string, cell: nat)
    requires AllCoherent(h, vs, caches) && Single(StoredAt(h, at))
    ensures AllCoherent(PutIn(h, at, name, cell), Bump(vs, multiset{name}), caches)
  {
    hide Coherent, PutIn;
    forall k | k in caches ensures Coherent(PutIn(h, at, name, cell), Bump(vs, multiset{name}), k.1, caches[k]) {
      CoherentPut(h, vs, at, name, cell, k.1, caches[k]);
    }
  }

  lemma AllClear(h: Heap, vs: Versions, caches: Caches, at: nat)
    requires AllCoherent(h, vs, caches)
    ensures AllCoherent(ClearIn(h, at), Bump(vs, Held(StoredAt(h, at))), caches)
  {
    hide Coherent, ClearIn;
    forall k | k in caches ensures Coherent(ClearIn(h, at), Bump(vs, Held(StoredAt(h, at))), k.1, caches[k]) {
      CoherentClear(h, vs, at, k.1, caches[k]);
    }
  }

  lemma AllRetake(h: Heap, vs: Versions, caches: Caches, at: nat, params: seq<string>)
    requires AllCoherent(h, vs, caches) && at < |h.scopes|
    requires StoredAt(h, at).Arrays? && Begins(StoredAt(h, at).bound, params)
    ensures var bs := StoredAt(h, at).bound;
      AllCoherent(Holding(h, at, Arrays(Retake(bs, params))), Bump(vs, Names(bs[|params|..])), caches)
  {
    hide Coherent, Holding, Names, Retake;
    var bs := StoredAt(h, at).bound;
    forall k | k in caches
      ensures Coherent(Holding(h, at, Arrays(Retake(bs, params))), Bump(vs, Names(bs[|params|..])), k.1, caches[k])
    {
      CoherentRetake(h, vs, at, params, k.1, caches[k]);
    }
  }

  lemma Remember(h: Heap, vs: Versions, caches: Caches, site: nat, env: nat, name: string)
    requires AllCoherent(h, vs, caches) && Lookup(h, env, name).Some?
    ensures AllCoherent(h, vs, caches[(site, name) := Warm(env, Version(vs, name), Lookup(h, env, name).value)])
  {
  }

  // ---- one step of a run of arguments or statements -----------------------------------------------------------

  function After(values: seq<Value>, a: Args): Args {
    if a.Stopped? then a else Args(values + a.values, a.st)
  }

  lemma AfterOne(values: seq<Value>, args: seq<Expr>, st: State, fuel: nat, lim: Limits)
    requires args != []
    ensures var v := Eval(args[0], st, fuel, lim);
      After(values, EvalAll(args, st, fuel, lim)) ==
        if !v.o.Done? then Stopped(v.o, v.st) else After(values + [v.o.value], EvalAll(args[1..], v.st, fuel, lim))
  {
    hide Eval, Kept;
    var v := Eval(args[0], st, fuel, lim);
    if v.o.Done? {
      var rest := EvalAll(args[1..], v.st, fuel, lim);
      if rest.Args? {
        assert values + ([v.o.value] + rest.values) == (values + [v.o.value]) + rest.values;
      }
    }
  }

  /** A list of statements, in a block or at the top. */
  function InOrder(body: seq<Stmt>, keepAll: bool, last: Value, st: State, fuel: nat, lim: Limits): Res {
    if keepAll then RunAll(body, last, st, fuel, lim) else ExecAll(body, last, st, fuel, lim)
  }

  lemma InOrderOne(body: seq<Stmt>, keepAll: bool, last: Value, st: State, fuel: nat, lim: Limits)
    requires body != []
    ensures var r := Exec(body[0], st, fuel, lim);
      InOrder(body, keepAll, last, st, fuel, lim) ==
        if !r.o.Done? then r
        else InOrder(body[1..], keepAll, if keepAll || body[0].ExprStmt? then r.o.value else Nil, r.st, fuel, lim)
  {
    hide Exec, Kept;
  }

  lemma InOrderNone(body: seq<Stmt>, keepAll: bool, last: Value, st: State, fuel: nat, lim: Limits)
    requires body == []
    ensures InOrder(body, keepAll, last, st, fuel, lim) == Res(Done(last), st)
  {
  }

  /** One item of a loop, and none. */
  lemma ForLoopOne(s: Stmt, items: seq<Value>, shared: nat, cell: nat, st: State, fuel: nat, lim: Limits)
    requires s.For?
    ensures items == [] ==> ForLoop(s, items, shared, cell, st, fuel, lim) == Res(Done(Nil), st)
    ensures items != [] ==>
      var t := Walker.Tick(s.line, st, lim);
      ForLoop(s, items, shared, cell, st, fuel, lim) ==
        if !t.o.Done? then t
        else if fuel == 0 then Res(OutOfFuel, t.st)
        else
          var r := ExecAll(s.body, Nil, ForScope(s, items[0], shared, cell, t.st), fuel - 1, lim);
          var back := r.st.(env := st.env);
          if r.o.Done? || r.o.Continuing? then ForLoop(s, items[1..], shared, cell, back, fuel - 1, lim)
          else if r.o.Breaking? then Res(Done(Nil), back)
          else Res(r.o, back)
  {
    hide ExecAll, ForScope, Walker.Tick, Kept;
  }

  class Engine {
    var heap: Heap
    var env: nat
    var steps: nat
    var depth: nat
    var made: nat
    var pools: Pools
    var versions: Versions
    var caches: Caches
    var retval: Value
    var sigLine: nat
    const lim: Limits

    /** The engine stands at the tree-walker's state, with cold caches. */
    constructor (st: State, lim: Limits)
      requires Sane(st) && lim.counts && HeapOnce(st.heap)
      ensures Ok() && St() == st && this.lim == lim
    {
      heap, env, steps, depth, made, pools := st.heap, st.env, st.steps, st.depth, st.made, st.pools;
      versions, caches, retval, sigLine := map[], map[], Nil, 0;
      this.lim := lim;
    }

    ghost function St(): State
      reads this
    {
      State(heap, env, steps, depth, made, pools)
    }

    ghost predicate Ok()
      reads this
    {
      Sane(St()) && lim.counts && AllCoherent(heap, versions, caches) && HeapOnce(heap) && ValueOnce(retval)
    }

    // ---- scopes ---------------------------------------------------------------------------------------------

    /** A new scope becomes the current one. */
    method Enter(parent: nat, bound: seq<Bound<nat>>)
      requires Ok() && |bound| <= 1
      modifies this
      ensures Ok() && RangeCell(St()) == RangeCell(old(St()))
      ensures St() == old(St()).(heap := NewScope(old(heap), Scope(Some(parent), Arrays(bound), None)), env := |old(heap.scopes)|)
      ensures retval == old(retval) && sigLine == old(sigLine)
    {
      hide AllCoherent, HeapOnce, Framed, Pooled, Found;
      var scope := Scope(Some(parent), Arrays(bound), None);
      AllNewScope(heap, versions, caches, scope);
      ScopeOnce(heap, scope);
      NewScopeKept(St(), scope, |heap.scopes|);
      heap, env := NewScope(heap, scope), |heap.scopes|;
    }

    /** A name that is new in the current scope, or the variable of a loop in the loop's scope. */
    method PutSlot(at: nat, name: string, cell: nat)
      requires Ok() && cell != RangeCell(St()) && (LoopScope(St(), at) || (at == env && name !in Slots(heap, at)))
      modifies this
      ensures Ok() && St() == old(St()).(heap := PutIn(old(heap), at, name, cell)) && RangeCell(St()) == RangeCell(old(St()))
      ensures Grown(old(heap), heap)
      ensures retval == old(retval) && sigLine == old(sigLine)
    {
      hide AllCoherent, HeapOnce, RangeBound, Framed, Pooled, Found, Put;
      PutOnce(heap, at, name, cell);
      AllPut(heap, versions, caches, at, name, cell);
      if LoopScope(St(), at) { HoldingKept(St(), at, Put(StoredAt(heap, at), name, cell)); } else { PutKept(St(), name, cell); }
      heap, versions := PutIn(heap, at, name, cell), Bump(versions, multiset{name});
    }

    method ClearVars(at: nat)
      requires Ok() && LoopScope(St(), at)
      modifies this
      ensures Ok() && St() == old(St()).(heap := ClearIn(old(heap), at)) && RangeCell(St()) == RangeCell(old(St()))
      ensures LoopScope(St(), at)
      ensures retval == old(retval) && sigLine == old(sigLine)
    {
      hide AllCoherent, HeapOnce, RangeBound, Framed, Pooled, BuiltinCell, Found, Clear;
      ClearOnce(heap, at);
      AllClear(heap, versions, caches, at);
      HoldingKept(St(), at, Clear(StoredAt(heap, at)));
      heap, versions := ClearIn(heap, at), Bump(versions, Held(StoredAt(heap, at)));
    }

    method MakeCell(value: Value, mutable: bool) returns (cell: nat)
      requires Ok() && ValueOnce(value)
      modifies this
      ensures Ok() && St() == old(St()).(heap := NewCell(old(heap), value, mutable)) && cell == |old(heap.cells)|
      ensures cell != RangeCell(St()) && RangeCell(St()) == RangeCell(old(St()))
      ensures retval == old(retval) && sigLine == old(sigLine)
    {
      hide AllCoherent, HeapOnce, Framed, Pooled, Found, ValueOnce;
      AllCells(heap, versions, caches, NewCell(heap, value, mutable).cells);
      NewCellOnce(heap, value, mutable);
      CellsKept(St(), NewCell(heap, value, mutable).cells);
      cell := |heap.cells|;
      heap := NewCell(heap, value, mutable);
    }

    method WriteCell(cell: nat, value: Value)
      requires Ok() && cell != RangeCell(St()) && ValueOnce(value)
      modifies this
      ensures Ok() && St() == old(St()).(heap := Write(old(heap), cell, value)) && RangeCell(St()) == RangeCell(old(St()))
      ensures retval == old(retval) && sigLine == old(sigLine)
    {
      hide AllCoherent, HeapOnce, RangeBound, Framed, Pooled, BuiltinCell, ValueOnce;
      AllWrite(heap, versions, caches, cell, value);
      WriteOnce(heap, cell, value);
      CellsKept(St(), Write(heap, cell, value).cells);
      heap := Write(heap, cell, value);
    }

    /** Through the site's cache: the remembered cell if the scope is the same and the counter has not moved,
        a full walk otherwise. */
    method Resolve(name: string, site: nat) returns (cell: Option<nat>)
      requires Ok()
      modifies this`caches
      ensures Ok() && cell == Lookup(heap, env, name)
    {
      hide Lookup, Sane, HeapOnce, ValueOnce;
      var c := if (site, name) in caches then caches[(site, name)] else Cold;
      if Hit(c, versions, env, name) {
        assert Coherent(heap, versions, (site, name).1, caches[(site, name)]);
        return Some(c.cell);
      }
      cell := Lookup(heap, env, name);
      if cell.Some? {
        Remember(heap, versions, caches, site, env, name);
        caches := caches[(site, name) := Warm(env, Version(versions, name), cell.value)];
      }
    }

    // ---- expressions -------------------------------------------------------------------------------------------

    method Tick(line: nat) returns (c: Completion)
      requires Ok()
      modifies this
      ensures Ok() && St() == Walker.Tick(line, old(St()), lim).st
      ensures Agree(c, Walker.Tick(line, old(St()), lim).o, retval, sigLine) && Good(c)
    {
      hide AllCoherent, HeapOnce, RangeBound, Framed, Pooled, ValueOnce;
      PlainOnce();
      steps := steps + 1;
      c := if steps > lim.steps then Throw(StepLimitError, line) else Val(Nil);
    }

    method EvalExpr(e: Expr, fuel: nat) returns (c: Completion)
      requires Ok() && ExprOnce(e)
      modifies this
      ensures Ok() && Good(c) && St() == Eval(e, old(St()), fuel, lim).st
      ensures Agree(c, Eval(e, old(St()), fuel, lim).o, retval, sigLine)
      decreases fuel, e, 1
    {
      hide AllCoherent, HeapOnce, ValueOnce, FnOnce, Sane, Lookup, Kept, Operate;
      PlainOnce();
      match e
      case Const(v) => c := Val(v);
      case Ident(name, line, site) =>
        var cell := Resolve(name, site);
        if cell.Some? { CellOnce(heap, cell.value); }
        c := if cell.None? then Throw(NameError, line) else Val(CellAt(heap, cell.value).value);
      case Binary(_, _, _, _) => c := EvalBinary(e, fuel);
      case Logical(isAnd, left, right) =>
        c := EvalExpr(left, fuel);
        if c.Val? && Truthy(c.value) == isAnd { c := EvalExpr(right, fuel); }
      case Not(operand) =>
        c := EvalExpr(operand, fuel);
        if c.Val? { c := Val(Bool(!Truthy(c.value))); }
      case Neg(operand, line) =>
        c := EvalExpr(operand, fuel);
        if c.Val? { c := if c.value.Num? then Val(Num(-c.value.n)) else Throw(TypeError, line); }
      case Assign(_, _, _, _) => c := EvalAssign(e, fuel);
      case Call(_, _, _) => c := EvalCall(e, fuel);
      case Lambda(fn) =>
        LambdaOnce(fn, env, made);
        SaneSteps(St(), St().(made := made + 1));
        c := Val(Closure(fn, env, made));
        made := made + 1;
    }

    /** Two names are read in place; two numbers are combined at once. */
    method EvalBinary(e: Expr, fuel: nat) returns (c: Completion)
      requires Ok() && ExprOnce(e) && e.Binary?
      modifies this
      ensures Ok() && Good(c) && St() == Eval(e, old(St()), fuel, lim).st
      ensures Agree(c, Eval(e, old(St()), fuel, lim).o, retval, sigLine)
      decreases fuel, e, 0
    {
      hide AllCoherent, HeapOnce, ValueOnce, FnOnce, Sane, Lookup, Kept, Operate, Fast;
      if IsFast(e.op) && e.left.Ident? && e.right.Ident? {
        var lc := Resolve(e.left.name, e.left.site);
        if lc.None? { return Throw(NameError, e.left.line); }
        var l := CellAt(heap, lc.value).value;
        var rc := Resolve(e.right.name, e.right.site);
        if rc.None? { return Throw(NameError, e.right.line); }
        var r := CellAt(heap, rc.value).value;
        CellOnce(heap, lc.value);
        CellOnce(heap, rc.value);
        c := Combine(e.op, l, r, e.line);
        return;
      }
      c := EvalExpr(e.left, fuel);
      if !c.Val? { return; }
      var l := c.value;
      c := EvalExpr(e.right, fuel);
      if !c.Val? { return; }
      c := Combine(e.op, l, c.value, e.line);
    }

    method Combine(op: Op, l: Value, r: Value, line: nat) returns (c: Completion)
      requires ValueOnce(l) && ValueOnce(r)
      ensures c == (match Operate(op, l, r, line) case Ok(v) => Val(v) case Err(e) => Thrown(e)) && Good(c)
    {
      OperateOnce(op, l, r, line);
      if IsFast(op) && l.Num? && r.Num? {
        FastIsOperate(op, l.n, r.n, line);
        return Val(Fast(op, l.n, r.n));
      }
      var v := Operate(op, l, r, line);
      c := if v.Ok? then Val(v.value) else Thrown(v.error);
    }

    method EvalAssign(e: Expr, fuel: nat) returns (c: Completion)
      requires Ok() && ExprOnce(e) && e.Assign?
      modifies this
      ensures Ok() && Good(c) && St() == Eval(e, old(St()), fuel, lim).st
      ensures Agree(c, Eval(e, old(St()), fuel, lim).o, retval, sigLine)
      decreases fuel, e, 0
    {
      hide AllCoherent, HeapOnce, ValueOnce, FnOnce, Lookup, Kept, Framed, Pooled, Found;
      c := EvalExpr(e.value_, fuel);
      if !c.Val? { return; }
      var cell := Resolve(e.name, e.site);
      if cell.None? { return Throw(NameError, e.line); }
      if !CellAt(heap, cell.value).mutable { return Throw(ImmutableError, e.line); }
      WriteCell(cell.value, c.value);
    }

    method EvalArgs(args: seq<Expr>, fuel: nat) returns (values: seq<Value>, c: Completion)
      requires Ok() && ArgsOnce(args)
      modifies this
      ensures Ok() && ValuesOnce(values) && St() == EvalAll(args, old(St()), fuel, lim).st
      ensures var a := EvalAll(args, old(St()), fuel, lim);
        if a.Args? then c.Val? && values == a.values else !c.Val? && Agree(c, a.o, retval, sigLine)
      decreases fuel, args, 2
    {
      hide AllCoherent, HeapOnce, ValueOnce, ArgsOnce, Sane, Kept, Eval;
      ghost var st0 := St();
      values, c := [], Val(Nil);
      assert args[0..] == args;
      for i := 0 to |args|
        invariant Ok() && |values| == i && c.Val? && ValuesOnce(values)
        invariant EvalAll(args, st0, fuel, lim) == After(values, EvalAll(args[i..], St(), fuel, lim))
      {
        ghost var st := St();
        assert args[i..][0] == args[i] && args[i..][1..] == args[i + 1..];
        ArgOnceAt(args, i);
        c := EvalExpr(args[i], fuel);
        AfterOne(values, args[i..], st, fuel, lim);
        if !c.Val? { return; }
        values := values + [c.value];
      }
      assert args[|args|..] == [];
      assert values + [] == values;
    }

    method EvalCall(e: Expr, fuel: nat) returns (c: Completion)
      requires Ok() && ExprOnce(e) && e.Call?
      modifies this
      ensures Ok() && Good(c) && St() == Eval(e, old(St()), fuel, lim).st
      ensures Agree(c, Eval(e, old(St()), fuel, lim).o, retval, sigLine)
      decreases fuel, e, 0
    {
      hide AllCoherent, HeapOnce, ValueOnce, FnOnce, Sane, Kept, Lookup, EvalAll, Invoke, RangeItems, RangeBounds;
      c := EvalExpr(e.callee, fuel);
      if !c.Val? { return; }
      var f := c.value;
      var args;
      args, c := EvalArgs(e.args, fuel);
      if !c.Val? { return; }
      if f.Closure? {
        if fuel == 0 { return Exhausted; }
        c := CallFunction(f, args, e.line, fuel - 1);
      } else if !f.RangeFn? {
        c := Throw(TypeError, e.line);
      } else if !(1 <= |args| <= 3) {
        c := Throw(ArityError, e.line);
      } else {
        var b := RangeBounds(args, e.line);
        if b.Bounds? {
          StepNotZero(args, e.line);
          ListOnce(b.start, b.stop, b.step);
        }
        c := if b.BadBounds? then Thrown(b.error) else Val(List(RangeItems(b.start, b.stop, b.step)));
      }
    }

    /** Runs a body in a frame of its own; here the sentinels become values and failures again. */
    method CallFunction(f: Value, args: seq<Value>, line: nat, fuel: nat) returns (c: Completion)
      requires Ok() && f.Closure? && ValueOnce(f) && ValuesOnce(args)
      modifies this
      ensures Ok() && Good(c) && St() == Invoke(f, args, line, old(St()), fuel, lim).st
      ensures Agree(c, Invoke(f, args, line, old(St()), fuel, lim).o, retval, sigLine)
      decreases fuel, f, 1
    {
      hide AllCoherent, HeapOnce, ValueOnce, BodyOnce, RangeBound, Framed, Pooled, BuiltinCell, ExecAll, Frame;
      if |args| != |f.fn.params| { return Throw(ArityError, line); }
      if depth >= lim.depth { return Throw(RecursionError, line); }
      var savedEnv := env;
      ClosureOnce(f);
      PlainOnce();
      MakeFrame(f, args);
      c := RunStmts(f.fn.body, false, fuel);
      env, depth := savedEnv, depth - 1;
      match c {
        case Val(_) => c := Val(Nil);
        case Sig(SigReturn) =>
          c := Val(retval);
          retval := Nil;
        case Sig(_) => c := Throw(ControlFlowError, sigLine);
        case _ =>
      }
    }

    /** The frame of a call: an earlier one at this depth taken back, or a new one. */
    method MakeFrame(f: Value, args: seq<Value>)
      requires Ok() && f.Closure? && |args| == |f.fn.params| && Distinct(f.fn.params) && ValuesOnce(args)
      modifies this
      ensures Ok() && St() == Frame(f.fn, f.env, args, old(St()))
    {
      hide AllCoherent, HeapOnce, ValueOnce, Distinct, Sane, Captures, NewFrame, Retaken, Kept;
      ghost var st := St();
      FrameKept(f.fn, f.env, args, st);
      if Escapes(f.fn, f.env, pools) {
        BuildFrame(f, args);
        pools := GivenUp(f.fn, pools);
      } else {
        var k := (f.fn, depth);
        if k in pools.frames && pools.frames[k] < |heap.scopes| && heap.scopes[pools.frames[k]].stored.Arrays? {
          PooledFrame(St(), k);
          TakeBack(f, pools.frames[k], args);
          pools := pools.(closures := pools.closures[f.fn := Some(f.env)]);
        } else {
          BuildFrame(f, args);
          pools := Pools(pools.closures[f.fn := Some(f.env)], pools.frames[k := env]);
        }
      }
      depth := depth + 1;
      assert Sane(St()) by { hide *; assert Kept(st, St()); KeptSane(st, St()); }
    }

    method BuildFrame(f: Value, args: seq<Value>)
      requires Ok() && f.Closure? && |args| == |f.fn.params| && Distinct(f.fn.params) && ValuesOnce(args)
      modifies this
      ensures Ok() && St() == NewFrame(f.fn, f.env, args, old(St())) && retval == old(retval)
    {
      hide AllCoherent, HeapOnce, ValueOnce, Distinct, Sane, Kept;
      var cells := heap.cells + FrameCells(args);
      var scope := FrameScope(f.fn, f.env, |heap.cells|);
      KeptSane(St(), NewFrame(f.fn, f.env, args, St()));
      AllCells(heap, versions, caches, cells);
      ArgumentsOnce(heap, args);
      AllNewScope(heap.(cells := cells), versions, caches, scope);
      FrameScopeOnce(f.fn, f.env, |heap.cells|);
      ScopeOnce(heap.(cells := cells), scope);
      env := |heap.scopes|;
      heap := NewScope(heap.(cells := cells), scope);
    }

    /** The locals of the earlier call go and their counters move; the parameters get new values in their
        cells, and theirs do not. */
    method TakeBack(f: Value, at: nat, args: seq<Value>)
      requires Ok() && f.Closure? && |args| == |f.fn.params| && ValuesOnce(args)
      requires at < |heap.scopes| && heap.scopes[at].stored.Arrays? && heap.scopes[at].params == Some(f.fn.params)
      modifies this
      ensures Ok() && St() == Retaken(f.fn, at, args, old(St())) && retval == old(retval)
    {
      hide AllCoherent, HeapOnce, ValueOnce, Pooled, BuiltinCell, Held, Names, Retake, Once, First;
      ghost var st := St();
      assert at != PRELUDE;
      hide RangeBound;
      var params, was := f.fn.params, heap.scopes[at].stored.bound;
      assert FrameOk(heap.scopes[at], RangeCell(St()), |heap.cells|);
      assert Once(was) by { SingleAt(heap, at); }
      RetakeBegins(was, params);
      var bs := Retake(was, params);
      AllRetake(heap, versions, caches, at, params);
      HoldingOnce(heap, at, Arrays(bs));
      HoldingKept(St(), at, Arrays(bs));
      hide Framed;
      heap, versions := Holding(heap, at, Arrays(bs)), Bump(versions, Names(was[|params|..]));
      ghost var h := heap;
      for i := 0 to |params|
        invariant Ok() && RangeCell(St()) == RangeCell(st) && Fill(h, bs, args) == Fill(heap, bs[i..], args[i..])
        invariant St() == st.(heap := heap) && retval == old(retval)
      {
        assert bs[i..][0] == bs[i] && bs[i..][1..] == bs[i + 1..] && args[i..][0] == args[i] && args[i..][1..] == args[i + 1..];
        WriteCell(bs[i].to, args[i]);
      }
      env := at;
      assert Sane(St()) by { KeptSane(st, Retaken(f.fn, at, args, st)); }
    }

    // ---- statements ----------------------------------------------------------------------------------------------

    method RunStmt(s: Stmt, fuel: nat) returns (c: Completion)
      requires Ok() && StmtOnce(s)
      modifies this
      ensures Ok() && Good(c) && St() == Exec(s, old(St()), fuel, lim).st
      ensures Agree(c, Exec(s, old(St()), fuel, lim).o, retval, sigLine)
      decreases fuel, s, 1
    {
      hide AllCoherent, HeapOnce, ValueOnce, ExprOnce, BodyOnce, FnOnce, Sane, Kept, Lookup, Eval, Subject, ExecBlock, ExecFor,
        WhileLoop, Binds, Captures, Declared;
      PlainOnce();
      c := Tick(s.line);
      if !c.Val? { return; }
      match s
      case ExprStmt(e, _) => c := EvalExpr(e, fuel);
      case Return(None, line) =>
        retval, sigLine := Nil, line;
        c := Sig(SigReturn);
      case Return(Some(e), line) =>
        c := EvalExpr(e, fuel);
        if c.Val? {
          retval, sigLine := c.value, line;
          c := Sig(SigReturn);
        }
      case Break(line) =>
        sigLine := line;
        c := Sig(SigBreak);
      case Continue(line) =>
        sigLine := line;
        c := Sig(SigContinue);
      case Declare(name, e, mutable, line) =>
        c := EvalExpr(e, fuel);
        if c.Val? { c := Declare(name, c.value, mutable, line); }
      case FnDecl(fn, line) =>
        var closure := Closure(fn, env, made);
        LambdaOnce(fn, env, made);
        SaneSteps(St(), St().(made := made + 1));
        made := made + 1;
        c := Declare(fn.name, closure, false, line);
      case If(test, thn, alt, _) =>
        c := EvalExpr(test, fuel);
        if c.Val? {
          if Truthy(c.value) {
            c := RunScoped(thn, fuel);
          } else if alt.None? {
            c := Val(Nil);
          } else if alt.value.Block? {
            c := RunScoped(alt.value.body, fuel);
          } else {
            c := RunStmt(alt.value, fuel);
          }
        }
      case Block(body, _) => c := RunScoped(body, fuel);
      case While(_, _, _) => c := RunWhile(s, fuel);
      case For(_, _, _, _) => c := RunFor(s, fuel);
    }

    method Declare(name: string, value: Value, mutable: bool, line: nat) returns (c: Completion)
      requires Ok() && ValueOnce(value)
      modifies this
      ensures Ok() && Good(c) && St() == Declared(name, value, mutable, line, old(St())).st
      ensures Agree(c, Declared(name, value, mutable, line, old(St())).o, retval, sigLine)
    {
      hide AllCoherent, HeapOnce, ValueOnce, Sane, Lookup, PutIn, RangeCell, Found;
      PlainOnce();
      if name in Slots(heap, env) { return Throw(NameError, line); }
      var cell := MakeCell(value, mutable);
      PutSlot(env, name, cell);
      c := Val(Nil);
    }

    /** Stops at the first sentinel. With one statement there is no loop at all. */
    method RunStmts(body: seq<Stmt>, keepAll: bool, fuel: nat) returns (c: Completion)
      requires Ok() && BodyOnce(body)
      modifies this
      ensures Ok() && Good(c) && St() == InOrder(body, keepAll, Nil, old(St()), fuel, lim).st
      ensures Agree(c, InOrder(body, keepAll, Nil, old(St()), fuel, lim).o, retval, sigLine)
      decreases fuel, body, 2
    {
      hide AllCoherent, HeapOnce, ValueOnce, BodyOnce, Sane, Kept, Exec, InOrder;
      PlainOnce();
      if |body| == 0 {
        InOrderNone(body, keepAll, Nil, St(), fuel, lim);
        return Val(Nil);
      }
      if |body| == 1 {
        InOrderOne(body, keepAll, Nil, St(), fuel, lim);
        OnceAt(body, 0);
        c := RunStmt(body[0], fuel);
        if c.Val? {
          InOrderNone(body[1..], keepAll, if keepAll || body[0].ExprStmt? then c.value else Nil, St(), fuel, lim);
          if !(keepAll || body[0].ExprStmt?) { c := Val(Nil); }
        }
        return;
      }
      ghost var st0 := St();
      var last := Nil;
      assert body[0..] == body;
      for i := 0 to |body|
        invariant Ok() && ValueOnce(last)
        invariant InOrder(body, keepAll, Nil, st0, fuel, lim) == InOrder(body[i..], keepAll, last, St(), fuel, lim)
      {
        assert body[i..][0] == body[i] && body[i..][1..] == body[i + 1..];
        InOrderOne(body[i..], keepAll, last, St(), fuel, lim);
        OnceAt(body, i);
        c := RunStmt(body[i], fuel);
        if !c.Val? { return; }
        last := if keepAll || body[i].ExprStmt? then c.value else Nil;
      }
      InOrderNone(body[|body|..], keepAll, last, St(), fuel, lim);
      c := Val(last);
    }

    method RunScoped(body: seq<Stmt>, fuel: nat) returns (c: Completion)
      requires Ok() && BodyOnce(body)
      modifies this
      ensures Ok() && Good(c) && St() == ExecBlock(body, old(St()), fuel, lim).st
      ensures Agree(c, ExecBlock(body, old(St()), fuel, lim).o, retval, sigLine)
      decreases fuel, body, 3
    {
      hide AllCoherent, HeapOnce, ValueOnce, BodyOnce, RangeBound, Framed, Pooled, BuiltinCell, Kept, ExecAll, Binds;
      var saved := env;
      if Binds(body) { Enter(env, []); }
      c := RunStmts(body, false, fuel);
      env := saved;
    }

    // ---- loops ---------------------------------------------------------------------------------------------------

    method RunWhile(s: Stmt, fuel: nat) returns (c: Completion)
      requires Ok() && StmtOnce(s) && s.While?
      modifies this
      ensures var own := !Captures(s.body) && Binds(s.body);
        var st1 := if own then Inner([], old(St())).(env := old(env)) else old(St());
        var r := WhileLoop(s, if own then |old(heap.scopes)| else 0, st1, fuel, lim);
        Ok() && Good(c) && St() == r.st && Agree(c, r.o, retval, sigLine)
      decreases fuel, s, 0, 1
    {
      hide AllCoherent, HeapOnce, ValueOnce, StmtOnce, RangeBound, Framed, Pooled, BuiltinCell, Kept, Binds, Captures, WhileLoop;
      var saved, shared := env, 0;
      if !Captures(s.body) && Binds(s.body) {
        shared := |heap.scopes|;
        Enter(env, []);
        env := saved;
      }
      c := WhilePasses(s, shared, fuel);
    }

    method WhilePasses(s: Stmt, shared: nat, fuel: nat) returns (c: Completion)
      requires Ok() && StmtOnce(s) && s.While? && (LoopScope(St(), shared) || Captures(s.body) || !Binds(s.body))
      modifies this
      ensures var r := WhileLoop(s, shared, old(St()), fuel, lim);
        Ok() && Good(c) && St() == r.st && Agree(c, r.o, retval, sigLine)
      decreases fuel, s, 0, 0
    {
      hide AllCoherent, HeapOnce, ValueOnce, ExprOnce, BodyOnce, Sane, BuiltinCell, ExecAll, Eval, Binds, Captures, WhileScope;
      PlainOnce();
      var saved, left := env, fuel;
      while true
        invariant Ok() && env == saved && 0 <= left <= fuel
        invariant LoopScope(St(), shared) || Captures(s.body) || !Binds(s.body)
        invariant WhileLoop(s, shared, old(St()), fuel, lim) == WhileLoop(s, shared, St(), left, lim)
        decreases left
      {
        c := EvalExpr(s.test, left);
        if !c.Val? { return; }
        if !Truthy(c.value) { return Val(Nil); }
        c := Tick(s.line);
        if !c.Val? { return; }
        if left == 0 { return Exhausted; }
        c := WhilePass(s, shared, left - 1);
        left := left - 1;
        if c == Sig(SigBreak) { return Val(Nil); }
        if c == Sig(SigReturn) || c.Thrown? || c.Exhausted? { return; }
      }
    }

    method WhilePass(s: Stmt, shared: nat, fuel: nat) returns (c: Completion)
      requires Ok() && StmtOnce(s) && s.While? && (LoopScope(St(), shared) || Captures(s.body) || !Binds(s.body))
      modifies this
      ensures var r := ExecAll(s.body, Nil, WhileScope(s.body, shared, old(St())), fuel, lim);
        Ok() && Good(c) && St() == r.st.(env := old(env)) && Agree(c, r.o, retval, sigLine)
      ensures Grown(old(heap), heap)
      decreases fuel, s.body, 4
    {
      hide AllCoherent, HeapOnce, ValueOnce, BodyOnce, RangeBound, Framed, Pooled, BuiltinCell, ExecAll, Binds, Captures, ClearIn;
      var saved := env;
      if Captures(s.body) {
        Enter(env, []);
      } else if Binds(s.body) {
        ClearVars(shared);
        env := shared;
      }
      assert St() == WhileScope(s.body, shared, old(St()));
      c := RunStmts(s.body, false, fuel);
      env := saved;
    }

    method RunFor(s: Stmt, fuel: nat) returns (c: Completion)
      requires Ok() && StmtOnce(s) && s.For?
      modifies this
      ensures var items := Subject(s, old(St()), fuel, lim);
        var r := if !items.o.Done? then items
          else if !items.o.value.List? then Failing(TypeError, s.line, items.st)
          else ExecFor(s, items.o.value.items, items.st, fuel, lim);
        Ok() && Good(c) && St() == r.st && Agree(c, r.o, retval, sigLine)
      decreases fuel, s, 0, 1
    {
      hide AllCoherent, HeapOnce, ValueOnce, BodyOnce, Sane, ExecAll, Eval, EvalAll, Binds, Captures, ExecFor, Lookup, RangeBounds,
        RangeItems, Kept;
      if IsCounted(s.iter) {
        var meant := Lookup(heap, env, "range");
        if "range" in Slots(heap, PRELUDE) && meant == Some(Slots(heap, PRELUDE)["range"]) {
          var args;
          args, c := EvalArgs(s.iter.args, fuel);
          if !c.Val? { return; }
          var b := RangeBounds(args, s.line);
          if b.BadBounds? { return Thrown(b.error); }
          StepNotZero(args, s.line);
          c := Counted(s, b, fuel);
          return;
        }
      }
      c := EvalExpr(s.iter, fuel);
      if !c.Val? { return; }
      if !c.value.List? { return Throw(TypeError, s.line); }
      ItemsOnce(c.value);
      c := Listed(s, c.value.items, fuel);
    }

    /** The scope that the passes of a loop share, and its variable's cell. */
    method MakeLoopScope(s: Stmt) returns (shared: nat, cell: nat)
      requires Ok() && StmtOnce(s) && s.For? && !Captures(s.body)
      modifies this
      ensures Ok() && shared == |old(heap.scopes)| && cell == |old(heap.cells)| && LoopScope(St(), shared) && cell != RangeCell(St())
      ensures St() == Inner([Bound(s.name, cell)], old(St()).(heap := NewCell(old(heap), Nil, false))).(env := old(env))
      ensures retval == old(retval) && sigLine == old(sigLine)
    {
      hide AllCoherent, HeapOnce, ValueOnce, RangeBound, Framed, Pooled, BuiltinCell, Captures, StmtOnce;
      PlainOnce();
      var saved := env;
      shared := |heap.scopes|;
      cell := MakeCell(Nil, false);
      Enter(env, [Bound(s.name, cell)]);
      env := saved;
    }

    /** One pass over an item. */
    method Pass(s: Stmt, item: Value, shared: nat, cell: nat, fuel: nat) returns (c: Completion)
      requires Ok() && StmtOnce(s) && s.For? && ValueOnce(item) && (Captures(s.body) || (LoopScope(St(), shared) && cell != RangeCell(St())))
      modifies this
      ensures var r := ExecAll(s.body, Nil, ForScope(s, item, shared, cell, old(St())), fuel, lim);
        Ok() && Good(c) && St() == r.st.(env := old(env)) && Agree(c, r.o, retval, sigLine)
      ensures RangeCell(St()) == RangeCell(old(St())) && Grown(old(heap), heap)
      decreases fuel, s.body, 4
    {
      hide AllCoherent, HeapOnce, ValueOnce, BodyOnce, RangeBound, Framed, Pooled, BuiltinCell, ExecAll, Binds, Captures, PutIn, ClearIn;
      var saved := env;
      if Captures(s.body) {
        var own := MakeCell(item, false);
        Enter(env, [Bound(s.name, own)]);
      } else {
        if Binds(s.body) {
          ClearVars(shared);
          PutSlot(shared, s.name, cell);
        }
        WriteCell(cell, item);
        env := shared;
      }
      assert St() == ForScope(s, item, shared, cell, old(St()));
      c := RunStmts(s.body, false, fuel);
      env := saved;
    }

    /** Counts through the range. */
    method Counted(s: Stmt, b: Bounds, fuel: nat) returns (c: Completion)
      requires Ok() && StmtOnce(s) && s.For? && b.Bounds? && b.step != 0.0
      modifies this
      ensures var r := ExecFor(s, RangeItems(b.start, b.stop, b.step), old(St()), fuel, lim);
        Ok() && Good(c) && St() == r.st && Agree(c, r.o, retval, sigLine)
      decreases fuel, s, 0, 0
    {
      hide AllCoherent, HeapOnce, ValueOnce, StmtOnce, ExecAll, Captures, RangeItems, Remaining, Kept, Sane, ForScope, ForLoop,
        BuiltinCell;
      PlainOnce();
      var saved, shared, cell, left := env, 0, 0, fuel;
      if !Captures(s.body) { shared, cell := MakeLoopScope(s); }
      ghost var items, st1 := RangeItems(b.start, b.stop, b.step), St();
      var v := b.start;
      while Goes(v, b.stop, b.step)
        invariant Ok() && env == saved && 0 <= left <= fuel
        invariant Captures(s.body) || (LoopScope(St(), shared) && cell != RangeCell(St()))
        invariant ForLoop(s, items, shared, cell, st1, fuel, lim)
          == ForLoop(s, RangeItems(v, b.stop, b.step), shared, cell, St(), left, lim)
        decreases left
      {
        RangeOne(v, b.stop, b.step);
        ForLoopOne(s, RangeItems(v, b.stop, b.step), shared, cell, St(), left, lim);
        c := Tick(s.line);
        if !c.Val? { return; }
        if left == 0 { return Exhausted; }
        c := Pass(s, Num(v), shared, cell, left - 1);
        left := left - 1;
        if c == Sig(SigBreak) { return Val(Nil); }
        if c == Sig(SigReturn) || c.Thrown? || c.Exhausted? { return; }
        v := v + b.step;
      }
      RangeNone(v, b.stop, b.step);
      ForLoopOne(s, [], shared, cell, St(), left, lim);
      c := Val(Nil);
    }

    method Listed(s: Stmt, items: seq<Value>, fuel: nat) returns (c: Completion)
      requires Ok() && StmtOnce(s) && s.For? && ValuesOnce(items)
      modifies this
      ensures var r := ExecFor(s, items, old(St()), fuel, lim);
        Ok() && Good(c) && St() == r.st && Agree(c, r.o, retval, sigLine)
      decreases fuel, s, 0, 0
    {
      hide AllCoherent, HeapOnce, ValueOnce, StmtOnce, ValuesOnce, ExecAll, Captures, Kept, Sane, ForScope,
        ForLoop, BuiltinCell;
      PlainOnce();
      var saved, shared, cell, left := env, 0, 0, fuel;
      if !Captures(s.body) { shared, cell := MakeLoopScope(s); }
      ghost var st1 := St();
      assert items[0..] == items;
      for k := 0 to |items|
        invariant Ok() && env == saved && 0 <= left <= fuel
        invariant Captures(s.body) || (LoopScope(St(), shared) && cell != RangeCell(St()))
        invariant ForLoop(s, items, shared, cell, st1, fuel, lim) == ForLoop(s, items[k..], shared, cell, St(), left, lim)
      {
        assert items[k..][0] == items[k] && items[k..][1..] == items[k + 1..];
        ForLoopOne(s, items[k..], shared, cell, St(), left, lim);
        c := Tick(s.line);
        if !c.Val? { return; }
        if left == 0 { return Exhausted; }
        ValueOnceAt(items, k);
        c := Pass(s, items[k], shared, cell, left - 1);
        left := left - 1;
        if c == Sig(SigBreak) { return Val(Nil); }
        if c == Sig(SigReturn) || c.Thrown? || c.Exhausted? { return; }
      }
      ForLoopOne(s, items[|items|..], shared, cell, St(), left, lim);
      c := Val(Nil);
    }

    // ---- programs ------------------------------------------------------------------------------------------------

    /** A whole program. The tree-walker is the walker that does not count: the same scopes, cells and count
        of steps always; the same result or the same failure, line and all, when every counted loop of the
        program and of the closures it starts with stands on the line of its call; and otherwise the same but
        for the line of a complaint of `range`, which is then one of the loop's two. */
    method Run(body: seq<Stmt>, fuel: nat) returns (c: Completion)
      requires Ok() && BodyOnce(body)
      modifies this
      ensures Ok() && St() == RunProgram(body, old(St()), fuel, Walking(lim)).st
      ensures Agree(c, RunProgram(body, old(St()), fuel, lim).o, retval, sigLine)
      ensures BodyAt(body, iset{}) && StateAt(old(St()), iset{}) ==>
        Agree(c, RunProgram(body, old(St()), fuel, Walking(lim)).o, retval, sigLine)
      ensures forall ls: Lines :: BodyAt(body, ls) && StateAt(old(St()), ls) ==>
        AgreeBut(c, RunProgram(body, old(St()), fuel, Walking(lim)).o, ls)
      ensures !c.Sig?
    {
      hide AllCoherent, HeapOnce, ValueOnce, RunAll, Kept, Sane, StateAt, BodyAt, BodyOnce;
      ghost var st := St();
      AlwaysAlike(body, st, fuel, lim);
      forall ls: Lines | BodyAt(body, ls) && StateAt(st, ls)
        ensures Alike(RunProgram(body, st, fuel, Walking(lim)).o, RunProgram(body, st, fuel, lim).o, ls)
      {
        CountingSame(body, st, fuel, lim, ls);
      }
      c := RunStmts(body, true, fuel);
      if c.Sig? { c := Throw(ControlFlowError, sigLine); }
    }
  }

  lemma OnceAt(body: seq<Stmt>, i: nat)
    requires BodyOnce(body) && i < |body|
    ensures StmtOnce(body[i])
  {
  }

  lemma ArgOnceAt(args: seq<Expr>, i: nat)
    requires ArgsOnce(args) && i < |args|
    ensures ExprOnce(args[i])
  {
  }

  lemma ValueOnceAt(values: seq<Value>, i: nat)
    requires ValuesOnce(values) && i < |values|
    ensures ValueOnce(values[i])
  {
  }

  lemma LambdaOnce(fn: Fn, env: nat, made: nat)
    requires FnOnce(fn)
    ensures ValueOnce(Closure(fn, env, made))
  {
  }

  lemma ListOnce(start: real, stop: real, step: real)
    requires step != 0.0
    ensures ValueOnce(List(RangeItems(start, stop, step)))
  {
    RangeOnce(start, stop, step);
  }

  lemma ItemsOnce(v: Value)
    requires v.List? && ValueOnce(v)
    ensures ValuesOnce(v.items)
  {
  }

  lemma KeptSane(before: State, after: State)
    requires Sane(before) && Kept(before, after)
    ensures Sane(after)
  {
  }

  lemma PooledFrame(st: State, k: (Fn, nat))
    requires Sane(st) && k in st.pools.frames
    ensures st.pools.frames[k] < |st.heap.scopes| && st.heap.scopes[st.pools.frames[k]].params == Some(k.0.params)
  {
  }

  lemma SingleAt(h: Heap, at: nat)
    requires HeapOnce(h) && at < |h.scopes| && h.scopes[at].stored.Arrays?
    ensures Once(h.scopes[at].stored.bound)
  {
  }

  lemma FastIsOperate(op: Op, l: real, r: real, line: nat)
    requires IsFast(op)
    ensures Operate(op, Num(l), Num(r), line) == Ok(Fast(op, l, r))
  {
    hide Product;
    assert Num(l) == Num(r) <==> l == r;
  }

  lemma StepNotZero(args: seq<Value>, line: nat)
    requires 1 <= |args| <= 3 && RangeBounds(args, line).Bounds?
    ensures RangeBounds(args, line).step != 0.0
  {
  }

  lemma RangeOne(v: real, stop: real, step: real)
    requires step != 0.0 && Goes(v, stop, step)
    ensures RangeItems(v, stop, step) == [Num(v)] + RangeItems(v + step, stop, step)
  {
    RemainingShrinks(v, stop, step);
  }

  lemma RangeNone(v: real, stop: real, step: real)
    requires step != 0.0 && !Goes(v, stop, step)
    ensures RangeItems(v, stop, step) == []
  {
  }
}
