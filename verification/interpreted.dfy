/** What the verifier takes a program to mean is what the tree-walker does with it: run by the tree-walker on
    numbers, a program goes through the steps that the verifier reasons about, with values in cells and scopes on
    a heap, whether it ends, returns, breaks or continues. */
module Interpreted {
  import opened Rational
  import opened Scopes
  import opened Bindings
  import P = Programs
  import L = Lang
  import W = Walker
  import Fragment
  import Denotation

  // ---- one program, in two syntaxes --------------------------------------------------------------------

  ghost predicate SharedOp(op: P.BinOp) {
    !op.Power? && !op.Modulo?
  }

  /** The expression is in both languages. */
  ghost predicate Shared(e: P.Expr) {
    match e
    case Neg(a) => Shared(a)
    case Not(a) => Shared(a)
    case Bin(op, a, b) => SharedOp(op) && Shared(a) && Shared(b)
    case Logic(_, a, b) => Shared(a) && Shared(b)
    case Old(_) => false
    case Foreign(_) => false
    case _ => true
  }

  ghost function LowerOp(op: P.BinOp): L.Op
    requires SharedOp(op)
  {
    match op
    case Plus => L.Add
    case Minus => L.Sub
    case Times => L.Mul
    case Divide => L.Div
    case Less => L.Lt
    case AtMost => L.Le
    case Greater => L.Gt
    case AtLeast => L.Ge
    case Equals => L.Eq
    case Differs => L.Ne
  }

  ghost function LowerE(e: P.Expr): L.Expr
    requires Shared(e)
  {
    match e
    case Num(v, _) => L.Const(L.Num(Val(v)))
    case BoolLit(b) => L.Const(L.Bool(b))
    case Ident(x) => L.Ident(x, 0, 0)
    case Neg(a) => L.Neg(LowerE(a), 0)
    case Not(a) => L.Not(LowerE(a))
    case Bin(op, a, b) => L.Binary(LowerOp(op), LowerE(a), LowerE(b), 0)
    case Logic(isAnd, a, b) => L.Logical(isAnd, LowerE(a), LowerE(b))
  }

  ghost predicate SharedStmt(s: P.Stmt)
    decreases s, 1
  {
    match s
    case Declare(_, e) => Shared(e)
    case Assign(_, e) => Shared(e)
    case Return(e) => e.Some? ==> Shared(e.value)
    case If(test, thn, alt) => Shared(test) && SharedAll(thn) && (alt.Some? ==> alt.value.Block? && SharedAll(alt.value.body))
    case Block(body) => SharedAll(body)
    case While(test, _, _, body) => Shared(test) && SharedAll(body)
    case Break => true
    case Continue => true
    case _ => false
  }

  ghost predicate SharedAll(body: seq<P.Stmt>)
    decreases body, 2
  {
    body == [] || (SharedStmt(body[0]) && SharedAll(body[1..]))
  }

  /** Annotations are the verifier's own; what is declared may be assigned. */
  ghost function Lower(s: P.Stmt): L.Stmt
    requires SharedStmt(s)
    decreases s, 1
  {
    match s
    case Declare(x, e) => L.Declare(x, LowerE(e), true, 0)
    case Assign(x, e) => L.ExprStmt(L.Assign(x, LowerE(e), 0, 0), 0)
    case Return(e) => L.Return(if e.None? then L.None else L.Some(LowerE(e.value)), 0)
    case If(test, thn, alt) =>
      L.If(LowerE(test), LowerAll(thn), if alt.None? then L.None else L.Some(L.Block(LowerAll(alt.value.body), 0)), 0)
    case Block(body) => L.Block(LowerAll(body), 0)
    case While(test, _, _, body) => L.While(LowerE(test), LowerAll(body), 0)
    case Break => L.Break(0)
    case Continue => L.Continue(0)
  }

  ghost function LowerAll(body: seq<P.Stmt>): (r: seq<L.Stmt>)
    requires SharedAll(body)
    ensures |r| == |body|
    decreases body, 2
  {
    if body == [] then [] else [Lower(body[0])] + LowerAll(body[1..])
  }

  // ---- names in scope -------------------------------------------------------------------------------------

  /** Nothing in view is declared again, and only what is in view and not fixed is assigned. */
  ghost predicate InScope(s: P.Stmt, scope: set<string>, fixed: set<string>)
    decreases s, 1
  {
    match s
    case Declare(x, _) => x !in scope
    case Assign(x, _) => x in scope && x !in fixed
    case If(_, thn, alt) =>
      InScopeAll(thn, scope, fixed) && (alt.Some? && alt.value.Block? ==> InScopeAll(alt.value.body, scope, fixed))
    case Block(body) => InScopeAll(body, scope, fixed)
    case While(_, _, _, body) => InScopeAll(body, scope, fixed)
    case _ => true
  }

  ghost predicate InScopeAll(body: seq<P.Stmt>, scope: set<string>, fixed: set<string>)
    decreases body, 2
  {
    body == [] || (InScope(body[0], scope, fixed) && InScopeAll(body[1..], scope + Fragment.Declared(body[0]), fixed))
  }

  /** The fragment keeps to its scope. */
  lemma {:induction false} OkInScope(s: P.Stmt, scope: set<string>, fixed: set<string>)
    requires Fragment.OkStmt(s, scope, fixed)
    ensures InScope(s, scope, fixed)
    decreases s, 1
  {
    hide Fragment.OkSeq, InScopeAll, Denotation.NamesOf, Denotation.Name, Denotation.AllNamed;
    match s
    case If(_, thn, alt) =>
      OkAllInScope(thn, scope, fixed);
      if alt.Some? { OkAllInScope(alt.value.body, scope, fixed); }
    case Block(body) => OkAllInScope(body, scope, fixed);
    case While(_, _, _, body) => OkAllInScope(body, scope, fixed);
    case _ =>
  }

  lemma {:induction false} OkAllInScope(body: seq<P.Stmt>, scope: set<string>, fixed: set<string>)
    requires Fragment.OkSeq(body, scope, fixed)
    ensures InScopeAll(body, scope, fixed)
    decreases body, 2
  {
    hide Fragment.OkStmt, InScope;
    if body != [] {
      OkInScope(body[0], scope, fixed);
      OkAllInScope(body[1..], scope + Fragment.Declared(body[0]), fixed);
    }
  }

  /** However a run ends, no name in view is lost or shadowed, and the fixed names keep their values. */
  ghost predicate Keeps(before: P.Store, o: P.Outcome, fixed: set<string>) {
    o.Normal? || o.Returned? || o.Broke? || o.Continued? ==> Fragment.Evolves(before, o.st, fixed)
  }

  ghost predicate KeysAre(o: P.Outcome, names: set<string>) {
    o.Normal? || o.Broke? || o.Continued? ==> P.Visible(o.st).Keys == names
  }

  lemma {:induction false} StmtKeeps(s: P.Stmt, st: P.Store, fuel: nat, fixed: set<string>)
    requires st != [] && SharedStmt(s) && InScope(s, P.Visible(st).Keys, fixed)
    ensures Keeps(st, P.ExecStmt(s, st, fuel), fixed)
    ensures P.ExecStmt(s, st, fuel).Normal? ==>
      P.Visible(P.ExecStmt(s, st, fuel).st).Keys == P.Visible(st).Keys + Fragment.Declared(s)
    decreases fuel, s, 1
  {
    hide P.EvalNum, P.EvalTest, Fragment.Evolves, P.Visible, Shared, SharedAll, InScopeAll;
    Fragment.EvolvesSame(st, fixed);
    match s
    case Declare(x, e) =>
      var v := P.EvalNum(e, P.Visible(st), P.None);
      if v.Some? { Fragment.DeclareEvolves(st, x, v.value, fixed); }
    case Assign(x, e) =>
      var v := P.EvalNum(e, P.Visible(st), P.None);
      if v.Some? { Fragment.AssignEvolves(st, x, v.value, fixed); }
    case If(test, thn, alt) =>
      BlockKeeps(thn, st, fuel, fixed);
      if alt.Some? {
        BlockKeeps(alt.value.body, st, fuel, fixed);
        assert P.ExecStmt(alt.value, st, fuel) == P.ExecBlock(alt.value.body, st, fuel);
      }
    case Block(body) => BlockKeeps(body, st, fuel, fixed);
    case While(_, _, _, _) => WhileKeeps(s, st, fuel, fixed);
    case _ =>
  }

  lemma {:induction false} BlockKeeps(body: seq<P.Stmt>, st: P.Store, fuel: nat, fixed: set<string>)
    requires st != [] && SharedAll(body) && InScopeAll(body, P.Visible(st).Keys, fixed)
    ensures Keeps(st, P.ExecBlock(body, st, fuel), fixed) && KeysAre(P.ExecBlock(body, st, fuel), P.Visible(st).Keys)
    decreases fuel, body, 2
  {
    hide Fragment.Evolves, InScopeAll, SharedAll, P.Visible;
    P.PushVisible(st);
    PushNonempty(st);
    SeqKeeps(body, P.Push(st), fuel, fixed);
    var o := P.ExecSeq(body, P.Push(st), fuel);
    if o.Normal? || o.Returned? || o.Broke? || o.Continued? { Fragment.LeaveBlock(st, o.st, fixed); }
  }

  lemma {:induction false} SeqKeeps(body: seq<P.Stmt>, st: P.Store, fuel: nat, fixed: set<string>)
    requires st != [] && SharedAll(body) && InScopeAll(body, P.Visible(st).Keys, fixed)
    ensures Keeps(st, P.ExecSeq(body, st, fuel), fixed)
    decreases fuel, body, 0
  {
    hide Fragment.Evolves, InScope, SharedStmt, P.Visible, P.ExecStmt;
    if body == [] {
      Fragment.EvolvesSame(st, fixed);
    } else {
      StmtKeeps(body[0], st, fuel, fixed);
      var o := P.ExecStmt(body[0], st, fuel);
      if o.Normal? {
        Fragment.EvolvesNonempty(st, o.st, fixed);
        SeqKeeps(body[1..], o.st, fuel, fixed);
        var o' := P.ExecSeq(body[1..], o.st, fuel);
        if o'.Normal? || o'.Returned? || o'.Broke? || o'.Continued? { Fragment.EvolvesTransitive(st, o.st, o'.st, fixed); }
      }
    }
  }

  lemma {:induction false} WhileKeeps(s: P.Stmt, st: P.Store, fuel: nat, fixed: set<string>)
    requires s.While? && st != [] && SharedStmt(s) && InScope(s, P.Visible(st).Keys, fixed)
    ensures Keeps(st, P.ExecWhile(s, st, fuel), fixed) && KeysAre(P.ExecWhile(s, st, fuel), P.Visible(st).Keys)
    ensures !P.ExecWhile(s, st, fuel).Broke? && !P.ExecWhile(s, st, fuel).Continued?
    decreases fuel, s, 0
  {
    hide Fragment.Evolves, InScopeAll, SharedAll, P.Visible, P.EvalTest, P.ExecBlock, Shared;
    Fragment.EvolvesSame(st, fixed);
    if fuel > 0 {
      BlockKeeps(s.body, st, fuel - 1, fixed);
      var o := P.ExecBlock(s.body, st, fuel - 1);
      if o.Normal? || o.Continued? {
        Fragment.EvolvesNonempty(st, o.st, fixed);
        WhileKeeps(s, o.st, fuel - 1, fixed);
        var o' := P.ExecWhile(s, o.st, fuel - 1);
        if o'.Normal? || o'.Returned? { Fragment.EvolvesTransitive(st, o.st, o'.st, fixed); }
      }
    }
  }

  // ---- a heap stands for a view ------------------------------------------------------------------------

  ghost predicate Holds(h: Heap, env: nat, x: string, v: real) {
    var c := Lookup(h, env, x);
    c.Some? && c.value < |h.cells| && h.cells[c.value].value == L.Num(v)
  }

  ghost predicate Loose(h: Heap, env: nat, x: string) {
    var c := Lookup(h, env, x);
    c.Some? && CellAt(h, c.value).mutable
  }

  /** Every name in view is found in a cell of its own, with its value. */
  ghost predicate Seen(view: P.View, h: Heap, env: nat) {
    && env < |h.scopes| && Unrepeated(h)
    && (forall x :: x in view ==> Holds(h, env, x, view[x]))
    && (forall x, y :: x in view && y in view && x != y ==> Lookup(h, env, x) != Lookup(h, env, y))
  }

  /** And what is not fixed can be changed, and the current scope binds nothing that is not in view. */
  ghost predicate Stands(view: P.View, h: Heap, env: nat, fixed: set<string>) {
    && Seen(view, h, env)
    && (forall x :: x in view && x !in fixed ==> Loose(h, env, x))
    && BindsOnly(h, env, view.Keys)
  }

  ghost predicate BindsOnly(h: Heap, env: nat, names: set<string>) {
    forall x :: x in Slots(h, env) ==> x in names
  }

  /** The names are found where they were. */
  ghost predicate Anchored(names: set<string>, a: Heap, b: Heap, env: nat) {
    forall x :: x in names ==> Lookup(b, env, x) == Lookup(a, env, x)
  }

  /** The scopes below n are as they were. */
  ghost predicate SameBelow(a: Heap, b: Heap, n: nat) {
    n <= |a.scopes| <= |b.scopes| && forall e :: 0 <= e < n ==> b.scopes[e] == a.scopes[e]
  }

  /** All scopes are as they were, but for what has been declared in the current one. */
  ghost predicate Only(a: Heap, b: Heap, env: nat, declares: bool) {
    && |a.scopes| <= |b.scopes| && (env < |a.scopes| ==> b.scopes[env].parent == a.scopes[env].parent)
    && forall e :: 0 <= e < |a.scopes| && (declares ==> e != env) ==> b.scopes[e] == a.scopes[e]
  }

  lemma {:induction false} LookupSame(a: Heap, b: Heap, n: nat, env: nat, x: string)
    requires SameBelow(a, b, n) && env < n
    ensures Lookup(b, env, x) == Lookup(a, env, x)
    decreases env
  {
    hide Found;
    var up := a.scopes[env].parent;
    if up.Some? && up.value < env { LookupSame(a, b, n, up.value, x); }
  }

  lemma OnlyJoin(a: Heap, b: Heap, c: Heap, env: nat, d1: bool, d2: bool)
    requires Only(a, b, env, d1) && Only(b, c, env, d2)
    ensures Only(a, c, env, d1 || d2)
  {
  }

  // ---- expressions ---------------------------------------------------------------------------------------

  /** The operators mean the same. */
  lemma OperatesAlike(op: P.BinOp, x: real, y: real)
    requires SharedOp(op)
    ensures P.Arith(op, x, y).Some? ==> L.Operate(LowerOp(op), L.Num(x), L.Num(y), 0) == L.Ok(L.Num(P.Arith(op, x, y).value))
    ensures P.Compare(op, x, y).Some? ==> L.Operate(LowerOp(op), L.Num(x), L.Num(y), 0) == L.Ok(L.Bool(P.Compare(op, x, y).value))
  {
  }

  lemma BinaryIs(op: L.Op, a: L.Expr, b: L.Expr, st: W.State, fuel: nat, lim: W.Limits, x: L.Value, y: L.Value)
    requires W.Eval(a, st, fuel, lim) == W.Res(W.Done(x), st) && W.Eval(b, st, fuel, lim) == W.Res(W.Done(y), st)
    ensures W.Eval(L.Binary(op, a, b, 0), st, fuel, lim) == W.Finish(L.Operate(op, x, y, 0), st)
  {
    hide L.Operate, W.Kept;
  }

  lemma {:induction false} NumRuns(e: P.Expr, view: P.View, st: W.State, fuel: nat, lim: W.Limits, fixed: set<string>)
    requires Shared(e) && Stands(view, st.heap, st.env, fixed) && P.EvalNum(e, view, P.None).Some?
    ensures W.Eval(LowerE(e), st, fuel, lim) == W.Res(W.Done(L.Num(P.EvalNum(e, view, P.None).value)), st)
  {
    match e
    case Bin(op, a, b) =>
      hide Stands, W.Eval, L.Operate, P.Arith, LowerOp, Val;
      var x, y := P.EvalNum(a, view, P.None).value, P.EvalNum(b, view, P.None).value;
      NumRuns(a, view, st, fuel, lim, fixed);
      NumRuns(b, view, st, fuel, lim, fixed);
      BinaryIs(LowerOp(op), LowerE(a), LowerE(b), st, fuel, lim, L.Num(x), L.Num(y));
      OperatesAlike(op, x, y);
    case Ident(x) =>
      hide Stands, Lookup, CellAt, W.Kept;
      FoundCell(view, st, x, fixed);
    case Neg(a) =>
      hide Stands, W.Kept, Val;
      NumRuns(a, view, st, fuel, lim, fixed);
    case _ => hide Stands, W.Kept, Val;
  }

  lemma FoundCell(view: P.View, st: W.State, x: string, fixed: set<string>)
    requires Stands(view, st.heap, st.env, fixed) && x in view
    ensures var c := Lookup(st.heap, st.env, x);
      c.Some? && c.value < |st.heap.cells| && CellAt(st.heap, c.value).value == L.Num(view[x])
  {
    hide Lookup;
    assert Holds(st.heap, st.env, x, view[x]);
  }

  lemma {:induction false} TestRuns(e: P.Expr, view: P.View, st: W.State, fuel: nat, lim: W.Limits, fixed: set<string>)
    requires Shared(e) && Stands(view, st.heap, st.env, fixed) && P.EvalTest(e, view, P.None).Some?
    ensures W.Eval(LowerE(e), st, fuel, lim) == W.Res(W.Done(L.Bool(P.EvalTest(e, view, P.None).value)), st)
  {
    match e
    case Bin(op, a, b) =>
      hide Stands, W.Eval, L.Operate, P.Compare, LowerOp, Val, P.EvalNum;
      var x, y := P.EvalNum(a, view, P.None).value, P.EvalNum(b, view, P.None).value;
      NumRuns(a, view, st, fuel, lim, fixed);
      NumRuns(b, view, st, fuel, lim, fixed);
      BinaryIs(LowerOp(op), LowerE(a), LowerE(b), st, fuel, lim, L.Num(x), L.Num(y));
      OperatesAlike(op, x, y);
    case Not(a) =>
      hide Stands, W.Kept, Val, P.EvalNum;
      TestRuns(a, view, st, fuel, lim, fixed);
    case Logic(_, a, b) =>
      hide Stands, W.Kept, Val, P.EvalNum;
      TestRuns(a, view, st, fuel, lim, fixed);
      if P.EvalTest(b, view, P.None).Some? { TestRuns(b, view, st, fuel, lim, fixed); }
    case _ => hide Stands, W.Kept, Val, P.EvalNum;
  }

  // ---- one statement against another -----------------------------------------------------------------------

  ghost predicate SameResult(result: P.Option<real>, v: L.Value) {
    v == if result.None? then L.Nil else L.Num(result.value)
  }

  /** Stopped by a limit, and by nothing else. */
  ghost predicate Limited(o: W.Outcome) {
    o.OutOfFuel? || (o.Failed? && (o.error.kind.StepLimitError? || o.error.kind.RecursionError?))
  }

  ghost predicate EndAlike(o: P.Outcome, w: W.Outcome) {
    || (o.Normal? && w.Done?)
    || (o.Returned? && w.Returning? && SameResult(o.result, w.result))
    || (o.Broke? && w.Breaking?)
    || (o.Continued? && w.Continuing?)
  }

  /** The two runs end alike, in a heap that stands for the store; or the tree-walker's was stopped by a limit, or
      the other was stuck. */
  ghost predicate Alike(o: P.Outcome, r: W.Res, st: P.Store, was: W.State, declares: bool, fixed: set<string>) {
    Limited(r.o) || o.Stuck? ||
    (&& EndAlike(o, r.o)
     && r.st.env == was.env && Stands(P.Visible(o.st), r.st.heap, r.st.env, fixed)
     && Anchored(P.Visible(st).Keys, was.heap, r.st.heap, was.env) && Only(was.heap, r.st.heap, was.env, declares))
  }

  lemma TickKeeps(st: W.State, lim: W.Limits, line: nat)
    ensures var t := W.Tick(line, st, lim); if t.o.Done? then t.st.heap == st.heap && t.st.env == st.env else Limited(t.o)
  {
  }

  lemma AssignStands(view: P.View, st: W.State, x: string, v: real, fixed: set<string>)
    requires Stands(view, st.heap, st.env, fixed) && x in view && x !in fixed
    ensures var r := W.Assigned(x, L.Num(v), 0, st);
      && r.o.Done? && r.st.env == st.env && r.st.heap.scopes == st.heap.scopes && Stands(view[x := v], r.st.heap, st.env, fixed)
      && Anchored(view.Keys, st.heap, r.st.heap, st.env)
  {
    hide Lookup, Single;
    var r := W.Assigned(x, L.Num(v), 0, st);
    FoundCell(view, st, x, fixed);
    assert Loose(st.heap, st.env, x);
    forall y ensures Lookup(r.st.heap, st.env, y) == Lookup(st.heap, st.env, y) {
      LookupCells(st.heap, r.st.heap.cells, st.env, y);
    }
    var view' := view[x := v];
    forall y | y in view' ensures Holds(r.st.heap, st.env, y, view'[y]) && (y !in fixed ==> Loose(r.st.heap, st.env, y)) {
      assert Holds(st.heap, st.env, y, view[y]);
      assert y !in fixed ==> Loose(st.heap, st.env, y);
    }
  }

  lemma DeclareStands(view: P.View, st: W.State, x: string, v: real, fixed: set<string>)
    requires Stands(view, st.heap, st.env, fixed) && x !in view
    ensures var r := W.Declared(x, L.Num(v), true, 0, st);
      && r.o.Done? && r.st.env == st.env && Stands(view[x := v], r.st.heap, st.env, fixed)
      && Anchored(view.Keys, st.heap, r.st.heap, st.env) && Only(st.heap, r.st.heap, st.env, true)
  {
    hide Found, Put, Single, Lookup;
    var r := W.Declared(x, L.Num(v), true, 0, st);
    assert x !in Slots(st.heap, st.env);
    var h1 := NewCell(st.heap, L.Num(v), true);
    var cell: nat := |st.heap.cells|;
    var s := StoredAt(h1, st.env);
    var s' := Put(s, x, cell);
    assert Single(s);
    FoundPut(s, x, cell);
    HoldingSingle(h1, st.env, s');
    PutFound(h1, st.env, x, cell);
    forall y | y in view ensures Lookup(r.st.heap, st.env, y) == Lookup(st.heap, st.env, y) {
      LookupCells(st.heap, h1.cells, st.env, y);
      LookupHolding(h1, st.env, s', st.env, y);
    }
    var view' := view[x := v];
    forall y | y in view' ensures Holds(r.st.heap, st.env, y, view'[y]) && (y !in fixed ==> Loose(r.st.heap, st.env, y)) {
      if y != x {
        assert Holds(st.heap, st.env, y, view[y]);
        assert y !in fixed ==> Loose(st.heap, st.env, y);
      }
    }
    forall y | y in view ensures Lookup(r.st.heap, st.env, y) != Lookup(r.st.heap, st.env, x) {
      assert Holds(st.heap, st.env, y, view[y]);
    }
  }

  lemma PutFound(h: Heap, env: nat, x: string, cell: nat)
    requires env < |h.scopes| && Single(h.scopes[env].stored)
    ensures Lookup(PutIn(h, env, x, cell), env, x) == L.Some(cell)
  {
    hide Found, Put, Single;
    FoundPut(h.scopes[env].stored, x, cell);
  }

  // ---- scopes of blocks ----------------------------------------------------------------------------------------

  /** In a new scope with nothing in it everything is found where it was. */
  lemma InnerStands(view: P.View, h: Heap, env: nat, inner: nat, fixed: set<string>)
    requires Stands(view, h, env, fixed) && env < inner < |h.scopes|
    requires h.scopes[inner].parent == L.Some(env) && Found(h.scopes[inner].stored) == map[]
    ensures Stands(view, h, inner, fixed) && Anchored2(view.Keys, h, env, inner)
  {
    hide Found, Single;
    assert forall x :: Lookup(h, inner, x) == Lookup(h, env, x);
    hide Lookup;
    forall x | x in view ensures Holds(h, inner, x, view[x]) && (x !in fixed ==> Loose(h, inner, x)) {
      assert Holds(h, env, x, view[x]);
      assert x !in fixed ==> Loose(h, env, x);
    }
  }

  /** The names are found alike from both scopes. */
  ghost predicate Anchored2(names: set<string>, h: Heap, env: nat, inner: nat) {
    forall x :: x in names ==> Lookup(h, inner, x) == Lookup(h, env, x)
  }

  /** Leaving the scope of a block: what was in view is found where it was, with the values it ended with. */
  lemma OuterStands(small: P.View, big: P.View, a: Heap, b: Heap, env: nat, inner: nat, fixed: set<string>)
    requires Stands(big, b, inner, fixed) && env < inner && env < |a.scopes| <= |b.scopes|
    requires forall x :: x in small ==> x in big && big[x] == small[x]
    requires Anchored2(small.Keys, a, env, inner) && Anchored(small.Keys, a, b, inner) && Anchored(small.Keys, a, b, env)
    requires BindsOnly(b, env, small.Keys)
    ensures Stands(small, b, env, fixed)
  {
    hide Lookup, Single;
    assert forall x :: x in small ==> Lookup(b, env, x) == Lookup(b, inner, x);
    forall x | x in small ensures Holds(b, env, x, small[x]) && (x !in fixed ==> Loose(b, env, x)) {
      assert Holds(b, inner, x, big[x]);
      assert x !in fixed ==> Loose(b, inner, x);
    }
  }

  lemma LessStands(small: P.View, big: P.View, h: Heap, env: nat, fixed: set<string>)
    requires Stands(big, h, env, fixed) && BindsOnly(h, env, small.Keys)
    requires forall x :: x in small ==> x in big && big[x] == small[x]
    ensures Stands(small, h, env, fixed)
  {
    hide Lookup, Single;
    forall x | x in small ensures Holds(h, env, x, small[x]) && (x !in fixed ==> Loose(h, env, x)) {
      assert Holds(h, env, x, big[x]);
      assert x !in fixed ==> Loose(h, env, x);
    }
  }

  lemma NewScopeStands(view: P.View, h: Heap, env: nat, params: L.Option<seq<string>>, fixed: set<string>)
    requires Stands(view, h, env, fixed)
    ensures var h' := NewScope(h, Scope(L.Some(env), Arrays([]), params));
      Stands(view, h', env, fixed) && Anchored(view.Keys, h, h', env) && Only(h, h', env, false)
  {
    hide Lookup;
    var scope := Scope(L.Some(env), Arrays([]), params);
    var h' := NewScope(h, scope);
    forall x ensures Lookup(h', env, x) == Lookup(h, env, x) { LookupNewScope(h, scope, env, x); }
    forall x | x in view ensures Holds(h', env, x, view[x]) && (x !in fixed ==> Loose(h', env, x)) {
      assert Holds(h, env, x, view[x]);
      assert x !in fixed ==> Loose(h, env, x);
    }
  }

  // ---- no closure is made ----------------------------------------------------------------------------------------

  lemma {:induction false} NoClosureE(e: P.Expr)
    requires Shared(e)
    ensures !L.MakesClosureE(LowerE(e))
  {
    hide Val;
    match e
    case Neg(a) => NoClosureE(a);
    case Not(a) => NoClosureE(a);
    case Bin(_, a, b) => NoClosureE(a); NoClosureE(b);
    case Logic(_, a, b) => NoClosureE(a); NoClosureE(b);
    case _ =>
  }

  lemma {:induction false} NoClosure(s: P.Stmt)
    requires SharedStmt(s)
    ensures !L.MakesClosure(Lower(s))
    decreases s, 1
  {
    hide L.MakesClosureE, LowerE, L.Captures;
    match s
    case Declare(_, e) => NoClosureE(e);
    case Assign(x, e) => NoClosureE(e); AssignNoClosure(x, e);
    case Return(e) => if e.Some? { NoClosureE(e.value); }
    case If(test, thn, alt) =>
      NoClosureE(test);
      NoClosures(thn);
      if alt.Some? { NoClosures(alt.value.body); }
    case Block(body) => NoClosures(body);
    case While(test, _, _, body) => NoClosureE(test); NoClosures(body);
    case _ =>
  }

  lemma AssignNoClosure(x: string, e: P.Expr)
    requires Shared(e) && !L.MakesClosureE(LowerE(e))
    ensures !L.MakesClosureE(L.Assign(x, LowerE(e), 0, 0))
  {
    hide LowerE;
  }

  lemma {:induction false} NoClosures(body: seq<P.Stmt>)
    requires SharedAll(body)
    ensures !L.Captures(LowerAll(body))
    decreases body, 2
  {
    hide SharedStmt, Lower, L.MakesClosure;
    if body != [] {
      NoClosure(body[0]);
      NoClosures(body[1..]);
      var all := LowerAll(body);
      assert all[0] == Lower(body[0]) && all[1..] == LowerAll(body[1..]);
      forall t | t in all ensures !L.MakesClosure(t) {
        var i :| 0 <= i < |all| && all[i] == t;
        if i > 0 { assert all[1..][i - 1] == t; }
      }
    }
  }

  /** The first statement or a later one binds a name. */
  lemma BindsFirst(s: P.Stmt, rest: seq<P.Stmt>)
    requires SharedStmt(s) && SharedAll(rest)
    ensures L.Binds([Lower(s)] + LowerAll(rest)) <==> s.Declare? || L.Binds(LowerAll(rest))
  {
    hide SharedAll, LowerAll;
    var tail := LowerAll(rest);
    var all := [Lower(s)] + tail;
    assert all[0] == Lower(s) && all[1..] == tail;
    if L.Binds(tail) {
      var t :| t in tail && (t.Declare? || t.FnDecl?);
      assert t in all;
    }
    if L.Binds(all) {
      var t :| t in all && (t.Declare? || t.FnDecl?);
      assert t == Lower(s) || t in tail;
    }
  }

  // ---- statements --------------------------------------------------------------------------------------------------

  lemma {:induction false} StmtRuns(s: P.Stmt, st: P.Store, was: W.State, fuel: nat, lim: W.Limits, fixed: set<string>)
    requires SharedStmt(s) && st != [] && InScope(s, P.Visible(st).Keys, fixed)
    requires Stands(P.Visible(st), was.heap, was.env, fixed)
    ensures Alike(P.ExecStmt(s, st, fuel + 1), W.Exec(Lower(s), was, fuel, lim), st, was, s.Declare?, fixed)
    decreases fuel, s, 1
  {
    hide P.EvalNum, P.EvalTest, P.Visible, Shared, LowerE, SharedAll, LowerAll, W.Eval, W.ExecBlock, P.ExecBlock, P.ExecWhile,
      W.WhileLoop, Stands, Anchored, Only, W.Tick, L.Binds, L.Captures, W.Assigned, W.Declared,
      P.DeclareIn, P.AssignIn, Lookup, W.Inner;
    var view := P.Visible(st);
    var t := W.Tick(0, was, lim);
    TickKeeps(was, lim, 0);
    if t.o.Done? {
      var now := t.st;
      SameHeap(view, was.heap, was.env, fixed);
      match s
      case Declare(x, e) =>
        var v := P.EvalNum(e, view, P.None);
        if v.Some? {
          NumRuns(e, view, now, fuel, lim, fixed);
          DeclareStands(view, now, x, v.value, fixed);
          P.DeclareVisible(st, x, v.value);
        }
      case Assign(x, e) =>
        var v := P.EvalNum(e, view, P.None);
        if v.Some? {
          NumRuns(e, view, now, fuel, lim, fixed);
          AssignIs(x, LowerE(e), now, fuel, lim, L.Num(v.value));
          AssignStands(view, now, x, v.value, fixed);
          P.AssignVisible(st, x, v.value);
          var r := W.Assigned(x, L.Num(v.value), 0, now);
          if r.o.Done? { SameScopesOnly(was.heap, r.st.heap, was.env); }
        }
      case Return(e) =>
        if e.Some? && P.EvalNum(e.value, view, P.None).Some? { NumRuns(e.value, view, now, fuel, lim, fixed); }
      case If(test, thn, alt) =>
        if P.EvalTest(test, view, P.None).Some? {
          TestRuns(test, view, now, fuel, lim, fixed);
          BlockRuns(thn, st, now, fuel, lim, fixed);
          if alt.Some? {
            BlockRuns(alt.value.body, st, now, fuel, lim, fixed);
            assert P.ExecStmt(alt.value, st, fuel + 1) == P.ExecBlock(alt.value.body, st, fuel + 1);
          }
        }
      case Block(body) => BlockRuns(body, st, now, fuel, lim, fixed);
      case While(_, _, _, body) =>
        NoClosures(body);
        LoopRuns(s, st, now, fuel, lim, fixed);
      case _ =>
    }
  }

  lemma SameHeap(view: P.View, h: Heap, env: nat, fixed: set<string>)
    requires Stands(view, h, env, fixed)
    ensures Anchored(view.Keys, h, h, env) && Only(h, h, env, false) && Only(h, h, env, true) && env < |h.scopes|
  {
  }

  lemma SameScopesOnly(a: Heap, b: Heap, env: nat)
    requires a.scopes == b.scopes
    ensures Only(a, b, env, false)
  {
  }

  lemma AssignIs(x: string, e: L.Expr, st: W.State, fuel: nat, lim: W.Limits, v: L.Value)
    requires W.Eval(e, st, fuel, lim) == W.Res(W.Done(v), st)
    ensures W.Eval(L.Assign(x, e, 0, 0), st, fuel, lim) == W.Assigned(x, v, 0, st)
  {
  }

  lemma {:induction false} BlockRuns(body: seq<P.Stmt>, st: P.Store, was: W.State, fuel: nat, lim: W.Limits, fixed: set<string>)
    requires SharedAll(body) && st != [] && InScopeAll(body, P.Visible(st).Keys, fixed)
    requires Stands(P.Visible(st), was.heap, was.env, fixed)
    ensures Alike(P.ExecBlock(body, st, fuel + 1), W.ExecBlock(LowerAll(body), was, fuel, lim), st, was, false, fixed)
    decreases fuel, body, 2
  {
    hide P.Visible, SharedAll, LowerAll, W.ExecAll, P.ExecSeq, Stands, Anchored, Only, L.Binds, Lookup, P.Push, P.Pop,
      Fragment.Evolves;
    P.PushVisible(st);
    PushNonempty(st);
    var all := LowerAll(body);
    var start := W.ScopeFor(all, was);
    var o, r := P.ExecSeq(body, P.Push(st), fuel + 1), W.ExecAll(all, L.Nil, start, fuel, lim);
    SameHeap(P.Visible(st), was.heap, was.env, fixed);
    SeqKeeps(body, P.Push(st), fuel + 1, fixed);
    if L.Binds(all) {
      NewScopeStands(P.Visible(st), was.heap, was.env, L.None, fixed);
      EmptyInner(was);
      InnerStands(P.Visible(st), start.heap, was.env, start.env, fixed);
      SeqRuns(body, P.Push(st), start, fuel, lim, fixed, L.Nil);
      if !(Limited(r.o) || o.Stuck?) {
        Fragment.LeaveBlock(st, o.st, fixed);
        LeaveInner(st, o.st, was.heap, was.env, start.heap, start.env, r.st.heap, fixed);
        BelowOnly(was.heap, r.st.heap, was.env);
      }
    } else {
      SeqRuns(body, P.Push(st), start, fuel, lim, fixed, L.Nil);
      if !(Limited(r.o) || o.Stuck?) {
        Fragment.LeaveBlock(st, o.st, fixed);
        SlotsSame(was.heap, r.st.heap, was.env, P.Visible(st), P.Visible(P.Pop(o.st)).Keys, fixed);
        LessStands(P.Visible(P.Pop(o.st)), P.Visible(o.st), r.st.heap, was.env, fixed);
      }
    }
  }

  lemma SlotsSame(a: Heap, b: Heap, env: nat, view: P.View, names: set<string>, fixed: set<string>)
    requires Stands(view, a, env, fixed) && Only(a, b, env, false) && names == view.Keys
    ensures BindsOnly(b, env, names)
  {
  }

  lemma BelowSlots(a: Heap, b: Heap, n: nat, env: nat, view: P.View, fixed: set<string>)
    requires Stands(view, a, env, fixed) && SameBelow(a, b, n) && env < n
    ensures BindsOnly(b, env, view.Keys)
  {
  }

  lemma PushNonempty(st: P.Store)
    ensures P.Push(st) != []
  {
  }

  lemma EmptyInner(was: W.State)
    ensures var start := W.Inner([], was);
      && start.env == |was.heap.scopes| && start.heap == NewScope(was.heap, Scope(L.Some(was.env), Arrays([]), L.None))
      && Found(start.heap.scopes[start.env].stored) == map[]
  {
  }

  /** Out of a scope of its own: the block has left the scopes below it alone. */
  lemma LeaveInner(st: P.Store, end: P.Store, a: Heap, env: nat, start: Heap, inner: nat, h: Heap, fixed: set<string>)
    requires Stands(P.Visible(st), a, env, fixed) && Stands(P.Visible(end), h, inner, fixed)
    requires env < inner < |start.scopes| && SameBelow(a, start, inner)
    requires Anchored2(P.Visible(st).Keys, start, env, inner)
    requires Anchored(P.Visible(st).Keys, start, h, inner) && Only(start, h, inner, true)
    requires P.Visible(P.Pop(end)).Keys == P.Visible(st).Keys
    requires forall x :: x in P.Visible(st) ==> x in P.Visible(end) && P.Visible(P.Pop(end))[x] == P.Visible(end)[x]
    ensures Stands(P.Visible(P.Pop(end)), h, env, fixed) && Anchored(P.Visible(st).Keys, a, h, env) && SameBelow(a, h, inner)
  {
    hide P.Visible, Lookup, P.Pop, Unrepeated, Holds;
    var names := P.Visible(st).Keys;
    assert SameBelow(start, h, inner);
    forall x | x in names
      ensures Lookup(start, env, x) == Lookup(a, env, x) == Lookup(h, env, x)
    {
      LookupSame(a, start, inner, env, x);
      LookupSame(start, h, inner, env, x);
    }
    BelowSlots(a, h, inner, env, P.Visible(st), fixed);
    OuterStands(P.Visible(P.Pop(end)), P.Visible(end), start, h, env, inner, fixed);
  }

  lemma {:induction false} SeqRuns(body: seq<P.Stmt>, st: P.Store, was: W.State, fuel: nat, lim: W.Limits, fixed: set<string>,
                                   last: L.Value)
    requires SharedAll(body) && st != [] && InScopeAll(body, P.Visible(st).Keys, fixed)
    requires Stands(P.Visible(st), was.heap, was.env, fixed)
    ensures Alike(P.ExecSeq(body, st, fuel + 1), W.ExecAll(LowerAll(body), last, was, fuel, lim), st, was, L.Binds(LowerAll(body)), fixed)
    decreases fuel, body, 0
  {
    hide P.Visible, SharedStmt, Lower, W.Exec, P.ExecStmt, Stands, Anchored, Only, L.Binds, InScope, Lookup, Fragment.Declared,
      Fragment.Evolves;
    SameHeap(P.Visible(st), was.heap, was.env, fixed);
    if body != [] {
      var all := LowerAll(body);
      assert all[0] == Lower(body[0]) && all[1..] == LowerAll(body[1..]);
      BindsFirst(body[0], body[1..]);
      StmtRuns(body[0], st, was, fuel, lim, fixed);
      StmtKeeps(body[0], st, fuel + 1, fixed);
      var o, r := P.ExecStmt(body[0], st, fuel + 1), W.Exec(all[0], was, fuel, lim);
      if !(Limited(r.o) || o.Stuck?) {
        if o.Normal? {
          Fragment.EvolvesNonempty(st, o.st, fixed);
          var next := if all[0].ExprStmt? then r.o.value else L.Nil;
          SeqRuns(body[1..], o.st, r.st, fuel, lim, fixed, next);
          var o2, r2 := P.ExecSeq(body[1..], o.st, fuel + 1), W.ExecAll(all[1..], next, r.st, fuel, lim);
          if !(Limited(r2.o) || o2.Stuck?) {
            KeysGrow(st, o.st, fixed);
            AnchoredJoin(P.Visible(st).Keys, P.Visible(o.st).Keys, was.heap, r.st.heap, r2.st.heap, was.env);
            OnlyJoin(was.heap, r.st.heap, r2.st.heap, was.env, body[0].Declare?, L.Binds(all[1..]));
          }
        } else {
          OnlyMore(was.heap, r.st.heap, was.env, body[0].Declare?, L.Binds(all));
        }
      }
    }
  }

  lemma KeysGrow(before: P.Store, after: P.Store, fixed: set<string>)
    requires Fragment.Evolves(before, after, fixed)
    ensures P.Visible(before).Keys <= P.Visible(after).Keys
  {
    Fragment.GrownKeys(before, after);
  }

  lemma AnchoredJoin(names: set<string>, more: set<string>, a: Heap, b: Heap, c: Heap, env: nat)
    requires Anchored(names, a, b, env) && Anchored(more, b, c, env) && names <= more
    ensures Anchored(names, a, c, env)
  {
    hide Lookup;
  }

  lemma OnlyMore(a: Heap, b: Heap, env: nat, d: bool, d': bool)
    requires Only(a, b, env, d) && (d ==> d')
    ensures Only(a, b, env, d')
  {
  }

  lemma BelowOnly(a: Heap, b: Heap, env: nat)
    requires SameBelow(a, b, |a.scopes|)
    ensures Only(a, b, env, false)
  {
  }

  // ---- loops -----------------------------------------------------------------------------------------------------

  /** The scope that a loop's passes share, if they need one, lies under the current one. */
  ghost predicate UnderLoop(h: Heap, env: nat, shared: nat) {
    env < shared < |h.scopes| && h.scopes[shared].parent == L.Some(env)
  }

  lemma {:induction false} LoopRuns(s: P.Stmt, st: P.Store, was: W.State, fuel: nat, lim: W.Limits, fixed: set<string>)
    requires s.While? && SharedStmt(s) && st != [] && InScope(s, P.Visible(st).Keys, fixed)
    requires Stands(P.Visible(st), was.heap, was.env, fixed)
    ensures var all := LowerAll(s.body);
      var r := if L.Binds(all) then W.WhileLoop(Lower(s), |was.heap.scopes|, W.Inner([], was).(env := was.env), fuel, lim)
        else W.WhileLoop(Lower(s), 0, was, fuel, lim);
      Alike(P.ExecWhile(s, st, fuel + 1), r, st, was, false, fixed)
    decreases fuel, s, 0, 1
  {
    hide P.Visible, LowerAll, W.WhileLoop, P.ExecWhile, Stands, Anchored, Only, L.Binds, InScope, Lookup;
    var all := LowerAll(s.body);
    var o := P.ExecWhile(s, st, fuel + 1);
    if L.Binds(all) {
      var shared := |was.heap.scopes|;
      var start := W.Inner([], was).(env := was.env);
      NewScopeStands(P.Visible(st), was.heap, was.env, L.None, fixed);
      EmptyInner(was);
      StandsIn(P.Visible(st), was.heap, was.env, fixed);
      PassesRun(s, st, start, shared, fuel, lim, fixed);
      var r := W.WhileLoop(Lower(s), shared, start, fuel, lim);
      if !(Limited(r.o) || o.Stuck?) {
        AnchoredJoin(P.Visible(st).Keys, P.Visible(st).Keys, was.heap, start.heap, r.st.heap, was.env);
        OnlyDrop(was.heap, start.heap, r.st.heap, was.env, shared);
      }
    } else {
      PassesRun(s, st, was, 0, fuel, lim, fixed);
      var r := W.WhileLoop(Lower(s), 0, was, fuel, lim);
      if !(Limited(r.o) || o.Stuck?) { OnlyMove(was.heap, r.st.heap, 0, was.env); }
    }
  }

  lemma StandsIn(view: P.View, h: Heap, env: nat, fixed: set<string>)
    requires Stands(view, h, env, fixed)
    ensures env < |h.scopes|
  {
  }

  /** A scope that was not there before is none of those that were. */
  lemma OnlyDrop(a: Heap, b: Heap, c: Heap, env: nat, fresh_: nat)
    requires Only(a, b, env, false) && Only(b, c, fresh_, true) && fresh_ >= |a.scopes|
    ensures Only(a, c, env, false)
  {
  }

  lemma OnlyMove(a: Heap, b: Heap, env: nat, env': nat)
    requires Only(a, b, env, false)
    ensures Only(a, b, env', false)
  {
  }

  lemma ClearStands(view: P.View, h: Heap, env: nat, shared: nat, fixed: set<string>)
    requires Stands(view, h, env, fixed) && UnderLoop(h, env, shared)
    ensures var h' := ClearIn(h, shared);
      && Stands(view, h', env, fixed) && UnderLoop(h', env, shared) && Found(h'.scopes[shared].stored) == map[]
      && SameBelow(h, h', shared) && Only(h, h', shared, true) && |h'.scopes| == |h.scopes|
      && Anchored(view.Keys, h, h', env)
  {
    hide Lookup;
    var h' := ClearIn(h, shared);
    forall x | x in view ensures Lookup(h', env, x) == Lookup(h, env, x) { LookupSame(h, h', shared, env, x); }
    forall x | x in view ensures Holds(h', env, x, view[x]) && (x !in fixed ==> Loose(h', env, x)) {
      assert Holds(h, env, x, view[x]);
      assert x !in fixed ==> Loose(h, env, x);
    }
    HoldingSingle(h, shared, Clear(StoredAt(h, shared)));
  }

  lemma {:induction false} PassesRun(s: P.Stmt, st: P.Store, was: W.State, shared: nat, fuel: nat, lim: W.Limits, fixed: set<string>)
    requires s.While? && SharedStmt(s) && st != [] && InScope(s, P.Visible(st).Keys, fixed)
    requires Stands(P.Visible(st), was.heap, was.env, fixed)
    requires L.Binds(LowerAll(s.body)) ==> UnderLoop(was.heap, was.env, shared)
    ensures var o, r := P.ExecWhile(s, st, fuel + 1), W.WhileLoop(Lower(s), shared, was, fuel, lim);
      Limited(r.o) || o.Stuck? ||
      (&& EndAlike(o, r.o) && r.st.env == was.env && Stands(P.Visible(o.st), r.st.heap, was.env, fixed)
       && Anchored(P.Visible(st).Keys, was.heap, r.st.heap, was.env)
       && Only(was.heap, r.st.heap, shared, L.Binds(LowerAll(s.body))))
    decreases fuel, s, 0, 0
  {
    hide P.Visible, Stands, Anchored, Only, L.Binds, L.Captures, Lookup, P.EvalTest, W.Eval, LowerE, Shared, SharedAll, LowerAll,
      W.ExecAll, P.ExecBlock, W.Tick, UnderLoop, W.WhileScope;
    var view, all, binds := P.Visible(st), LowerAll(s.body), L.Binds(LowerAll(s.body));
    SameHeap(view, was.heap, was.env, fixed);
    SameAnywhere(was.heap, shared, binds);
    if P.EvalTest(s.test, view, P.None).Some? {
      TestRuns(s.test, view, was, fuel, lim, fixed);
      var t := W.Tick(0, was, lim);
      TickKeeps(was, lim, 0);
      if P.EvalTest(s.test, view, P.None).value && t.o.Done? && fuel > 0 {
        PassRuns(s, st, was, t.st, shared, fuel, lim, fixed);
        var o1, r1 := P.ExecBlock(s.body, st, fuel), W.ExecAll(all, L.Nil, W.WhileScope(all, shared, t.st), fuel - 1, lim);
        if !(Limited(r1.o) || o1.Stuck?) && (o1.Normal? || o1.Continued?) {
          var back := r1.st.(env := was.env);
          PassesRun(s, o1.st, back, shared, fuel - 1, lim, fixed);
          var o2, r2 := P.ExecWhile(s, o1.st, fuel), W.WhileLoop(Lower(s), shared, back, fuel - 1, lim);
          if !(Limited(r2.o) || o2.Stuck?) {
            AnchoredJoin(view.Keys, view.Keys, was.heap, r1.st.heap, r2.st.heap, was.env);
            OnlyJoin(was.heap, r1.st.heap, r2.st.heap, shared, binds, binds);
          }
        }
      }
    }
  }

  lemma SameAnywhere(h: Heap, at: nat, d: bool)
    ensures Only(h, h, at, d)
  {
  }

  /** One pass, in the loop's scope, cleared, or in the current one. */
  lemma {:induction false} PassRuns(s: P.Stmt, st: P.Store, was: W.State, now: W.State, shared: nat, fuel: nat, lim: W.Limits,
                                    fixed: set<string>)
    requires s.While? && SharedStmt(s) && st != [] && InScope(s, P.Visible(st).Keys, fixed) && fuel > 0
    requires Stands(P.Visible(st), was.heap, was.env, fixed) && now.heap == was.heap && now.env == was.env
    requires L.Binds(LowerAll(s.body)) ==> UnderLoop(was.heap, was.env, shared)
    ensures var all := LowerAll(s.body);
      var o, r := P.ExecBlock(s.body, st, fuel), W.ExecAll(all, L.Nil, W.WhileScope(all, shared, now), fuel - 1, lim);
      Limited(r.o) || o.Stuck? ||
      (&& EndAlike(o, r.o) && o.st != [] && P.Visible(o.st).Keys == P.Visible(st).Keys
       && Stands(P.Visible(o.st), r.st.heap, was.env, fixed) && Anchored(P.Visible(st).Keys, was.heap, r.st.heap, was.env)
       && Only(was.heap, r.st.heap, shared, L.Binds(all)) && (L.Binds(all) ==> UnderLoop(r.st.heap, was.env, shared)))
    decreases fuel, s.body, 6
  {
    hide P.Visible, Stands, Anchored, Only, L.Binds, L.Captures, Lookup, SharedAll, LowerAll, W.ExecAll, P.ExecSeq, UnderLoop,
      Fragment.Evolves, P.Push, P.Pop, Shared;
    var body, all := s.body, LowerAll(s.body);
    var start := W.WhileScope(all, shared, now);
    NoClosures(body);
    P.PushVisible(st);
    PushNonempty(st);
    SeqKeeps(body, P.Push(st), fuel, fixed);
    var o, r := P.ExecSeq(body, P.Push(st), fuel), W.ExecAll(all, L.Nil, start, fuel - 1, lim);
    if L.Binds(all) {
      ClearStands(P.Visible(st), was.heap, was.env, shared, fixed);
      UnderIs(start.heap, was.env, shared);
      InnerStands(P.Visible(st), start.heap, was.env, shared, fixed);
      SeqRuns(body, P.Push(st), start, fuel - 1, lim, fixed, L.Nil);
      if !(Limited(r.o) || o.Stuck?) {
        Fragment.LeaveBlock(st, o.st, fixed);
        PopNonempty(st, P.Pop(o.st), fixed);
        LeaveInner(st, o.st, was.heap, was.env, start.heap, shared, r.st.heap, fixed);
        OnlyJoin(was.heap, start.heap, r.st.heap, shared, true, true);
        UnderStays(start.heap, r.st.heap, was.env, shared);
      }
    } else {
      SeqRuns(body, P.Push(st), start, fuel - 1, lim, fixed, L.Nil);
      if !(Limited(r.o) || o.Stuck?) {
        Fragment.LeaveBlock(st, o.st, fixed);
        PopNonempty(st, P.Pop(o.st), fixed);
        SlotsSame(was.heap, r.st.heap, was.env, P.Visible(st), P.Visible(P.Pop(o.st)).Keys, fixed);
        LessStands(P.Visible(P.Pop(o.st)), P.Visible(o.st), r.st.heap, was.env, fixed);
        OnlyMove(was.heap, r.st.heap, was.env, shared);
      }
    }
  }

  lemma UnderIs(h: Heap, env: nat, shared: nat)
    requires UnderLoop(h, env, shared)
    ensures env < shared < |h.scopes| && h.scopes[shared].parent == L.Some(env)
  {
  }

  lemma UnderStays(a: Heap, b: Heap, env: nat, shared: nat)
    requires UnderLoop(a, env, shared) && Only(a, b, shared, true)
    ensures UnderLoop(b, env, shared)
  {
  }

  lemma PopNonempty(before: P.Store, after: P.Store, fixed: set<string>)
    requires Fragment.Evolves(before, after, fixed)
    ensures after != []
  {
  }
}
