/** The part of the language the verifier reasons about, and what it means to run it: numbers, tests,
    lexical scopes, loops (src/interpreter.js, with exact arithmetic in place of floats). */
module Programs {
  import opened Rational

  datatype Option<+T> = None | Some(value: T)

  datatype BinOp =
    | Plus | Minus | Times | Divide | Power | Modulo
    | Less | AtMost | Greater | AtLeast | Equals | Differs

  datatype Expr =
    | Num(value: Rat, text: string)
    | BoolLit(b: bool)
    | Ident(name: string)
    | Neg(e: Expr)
    | Not(e: Expr)
    | Bin(op: BinOp, left: Expr, right: Expr)
    | Logic(isAnd: bool, left: Expr, right: Expr)
    | Old(e: Expr)
    | Foreign(key: string)  // a call, a field read, an index: nothing the verifier models

  datatype Stmt =
    | Declare(name: string, value: Expr)
    | Assign(name: string, value: Expr)
    | ExprStmt(e: Expr)
    | Return(result: Option<Expr>)
    | If(test: Expr, thn: seq<Stmt>, alt: Option<Stmt>)
    | Block(body: seq<Stmt>)
    | While(test: Expr, invariants: seq<Expr>, variant: Option<Expr>, body: seq<Stmt>)
    | ForRange(name: string, count: Expr, invariants: seq<Expr>, variant: Option<Expr>, body: seq<Stmt>)
    | Break
    | Continue

  datatype Function = Function(params: seq<string>, requires_: seq<Expr>, ensures_: seq<Expr>, body: seq<Stmt>)

  // ---- stores ------------------------------------------------------------------------------------

  type View = map<string, real>

  /** Scopes, outermost first. */
  type Store = seq<View>

  function Visible(st: Store): View {
    if st == [] then map[] else Visible(st[..|st| - 1]) + st[|st| - 1]
  }

  function DeclareIn(st: Store, x: string, v: real): Store
    requires st != []
  {
    st[|st| - 1 := st[|st| - 1][x := v]]
  }

  /** Assignment writes the innermost scope that binds the name. */
  function AssignIn(st: Store, x: string, v: real): Store {
    if st == [] then []
    else if x in st[|st| - 1] then DeclareIn(st, x, v)
    else AssignIn(st[..|st| - 1], x, v) + [st[|st| - 1]]
  }

  function Push(st: Store): Store {
    st + [map[]]
  }

  function Pop(st: Store): Store {
    if st == [] then [] else st[..|st| - 1]
  }

  // ---- expressions ---------------------------------------------------------------------------------

  function Arith(op: BinOp, l: real, r: real): Option<real> {
    match op
    case Plus => Some(l + r)
    case Minus => Some(l - r)
    case Times => Some(l * r)
    case Divide => if r == 0.0 then None else Some(l / r)
    case _ => None
  }

  function Compare(op: BinOp, l: real, r: real): Option<bool> {
    match op
    case Less => Some(l < r)
    case AtMost => Some(l <= r)
    case Greater => Some(l > r)
    case AtLeast => Some(l >= r)
    case Equals => Some(l == r)
    case Differs => Some(l != r)
    case _ => None
  }

  /** The number an expression has in a view, None when evaluation fails. `old(e)` reads the view at entry,
      which only a postcondition has. */
  ghost function EvalNum(e: Expr, view: View, entry: Option<View>): Option<real> {
    match e
    case Num(value, _) => Some(Val(value))
    case Ident(x) => if x in view then Some(view[x]) else None
    case Neg(a) =>
      var v := EvalNum(a, view, entry);
      if v.None? then None else Some(-v.value)
    case Bin(op, a, b) =>
      var l := EvalNum(a, view, entry);
      var r := EvalNum(b, view, entry);
      if l.None? || r.None? then None else Arith(op, l.value, r.value)
    case Old(a) => if entry.None? then None else EvalNum(a, entry.value, None)
    case _ => None
  }

  /** The truth value of a test, with short-circuiting. */
  ghost function EvalTest(e: Expr, view: View, entry: Option<View>): Option<bool> {
    match e
    case BoolLit(b) => Some(b)
    case Not(a) =>
      var v := EvalTest(a, view, entry);
      if v.None? then None else Some(!v.value)
    case Logic(isAnd, a, b) =>
      var l := EvalTest(a, view, entry);
      if l.None? then None
      else if l.value != isAnd then l
      else EvalTest(b, view, entry)
    case Bin(op, a, b) =>
      var l := EvalNum(a, view, entry);
      var r := EvalNum(b, view, entry);
      if l.None? || r.None? then None else Compare(op, l.value, r.value)
    case _ => None
  }

  // ---- statements ------------------------------------------------------------------------------------

  datatype Outcome =
    | Normal(st: Store)
    | Returned(st: Store, result: Option<real>)
    | Broke(st: Store)
    | Continued(st: Store)
    | Stuck
    | Timeout

  function Popped(o: Outcome): Outcome {
    match o
    case Normal(st) => Normal(Pop(st))
    case Returned(st, r) => Returned(Pop(st), r)
    case Broke(st) => Broke(Pop(st))
    case Continued(st) => Continued(Pop(st))
    case _ => o
  }

  ghost function ExecStmt(stmt: Stmt, st: Store, fuel: nat): Outcome
    decreases fuel, stmt, 1
  {
    if st == [] then Stuck else
    match stmt
    case Declare(x, e) =>
      var v := EvalNum(e, Visible(st), None);
      if v.None? || x in st[|st| - 1] then Stuck else Normal(DeclareIn(st, x, v.value))
    case Assign(x, e) =>
      var v := EvalNum(e, Visible(st), None);
      if v.None? || x !in Visible(st) then Stuck else Normal(AssignIn(st, x, v.value))
    case ExprStmt(e) => 
      if EvalNum(e, Visible(st), None).None? && EvalTest(e, Visible(st), None).None? then Stuck else Normal(st)
    case Return(None) => Returned(st, None)
    case Return(Some(e)) =>
      var v := EvalNum(e, Visible(st), None);
      if v.None? then Stuck else Returned(st, v)
    case If(test, thn, alt) =>
      var b := EvalTest(test, Visible(st), None);
      if b.None? then Stuck
      else if b.value then ExecBlock(thn, st, fuel)
      else if alt.None? then Normal(st)
      else ExecStmt(alt.value, st, fuel)
    case Block(body) => ExecBlock(body, st, fuel)
    case While(_, _, _, _) => ExecWhile(stmt, st, fuel)
    case ForRange(_, count, _, _, _) =>
      var n := EvalNum(count, Visible(st), None);
      if n.None? then Stuck else ExecFor(stmt, 0.0, n.value, st, fuel)
    case Break => Broke(st)
    case Continue => Continued(st)
  }

  ghost function ExecBlock(body: seq<Stmt>, st: Store, fuel: nat): Outcome
    decreases fuel, body, 2
  {
    Popped(ExecSeq(body, Push(st), fuel))
  }

  ghost function ExecSeq(body: seq<Stmt>, st: Store, fuel: nat): Outcome
    decreases fuel, body, 0
  {
    if body == [] then Normal(st) else
      var o := ExecStmt(body[0], st, fuel);
      if o.Normal? then ExecSeq(body[1..], o.st, fuel) else o
  }

  ghost function ExecWhile(loop: Stmt, st: Store, fuel: nat): Outcome
    requires loop.While?
    decreases fuel, loop, 0
  {
    var b := EvalTest(loop.test, Visible(st), None);
    if fuel == 0 then Timeout
    else if b.None? then Stuck
    else if !b.value then Normal(st)
    else
      var o := ExecBlock(loop.body, st, fuel - 1);
      match o
      case Normal(st') => ExecWhile(loop, st', fuel - 1)
      case Continued(st') => ExecWhile(loop, st', fuel - 1)
      case Broke(st') => Normal(st')
      case _ => o
  }

  /** `for name in range(count)`: the loop variable lives in the scope of the pass. */
  ghost function ExecFor(loop: Stmt, i: real, n: real, st: Store, fuel: nat): Outcome
    requires loop.ForRange?
    decreases fuel, loop, 0
  {
    if fuel == 0 then Timeout
    else if i >= n then Normal(st)
    else
      var o := Popped(ExecSeq(loop.body, st + [map[loop.name := i]], fuel - 1));
      match o
      case Normal(st') => ExecFor(loop, i + 1.0, n, st', fuel - 1)
      case Continued(st') => ExecFor(loop, i + 1.0, n, st', fuel - 1)
      case Broke(st') => Normal(st')
      case _ => o
  }

  /** What a postcondition can read at the end of a call: the variables, and the value returned. */
  function FinalView(st: Store, result: Option<real>): View {
    var v := Visible(st) - {"result"};
    if result.None? then v else v["result" := result.value]
  }

  /** A call: parameters in a frame over the globals. A body that falls off its end returns nothing. */
  ghost function Call(fn: Function, globals: View, args: View, fuel: nat): Option<View> {
    match ExecSeq(fn.body, [globals, args], fuel)
    case Normal(st) => Some(FinalView(st, None))
    case Returned(st, r) => Some(FinalView(st, r))
    case _ => None
  }

  // ---- stores, seen flat -------------------------------------------------------------------------------

  lemma DeclareVisible(st: Store, x: string, v: real)
    requires st != []
    ensures Visible(DeclareIn(st, x, v)) == Visible(st)[x := v]
  {
  }

  lemma {:induction false} AssignVisible(st: Store, x: string, v: real)
    requires x in Visible(st)
    ensures Visible(AssignIn(st, x, v)) == Visible(st)[x := v]
    ensures |AssignIn(st, x, v)| == |st|
    ensures forall i :: 0 <= i < |st| ==> AssignIn(st, x, v)[i].Keys == st[i].Keys
  {
    var n := |st| - 1;
    if x !in st[n] {
      AssignVisible(st[..n], x, v);
      ScopeOnTop(AssignIn(st[..n], x, v), st[n]);
      OverrideOutside(Visible(st[..n]), st[n], x, v);
    } else {
      DeclareVisible(st, x, v);
    }
  }

  lemma ScopeOnTop(st: Store, top: View)
    ensures Visible(st + [top]) == Visible(st) + top
  {
    assert (st + [top])[..|st|] == st;
  }

  lemma OverrideOutside(m: View, top: View, x: string, v: real)
    requires x !in top
    ensures m[x := v] + top == (m + top)[x := v]
  {
  }

  lemma PushVisible(st: Store)
    ensures Visible(Push(st)) == Visible(st) && Pop(Push(st)) == st
  {
    assert Push(st)[..|st|] == st;
  }

  /** Same scopes below, same names bound in each of them; the innermost may have gained names. */
  ghost predicate Grown(before: Store, after: Store) {
    && |before| == |after| > 0
    && (forall i :: 0 <= i < |before| - 1 ==> before[i].Keys == after[i].Keys)
    && before[|before| - 1].Keys <= after[|before| - 1].Keys
  }

  lemma {:induction false} SameKeysVisible(a: Store, b: Store)
    requires |a| == |b| && forall i :: 0 <= i < |a| ==> a[i].Keys == b[i].Keys
    ensures Visible(a).Keys == Visible(b).Keys
  {
    if a != [] {
      SameKeysVisible(a[..|a| - 1], b[..|b| - 1]);
    }
  }

  /** Leaving a block: the names of the outer scopes are what they were, and a name the block did not
      shadow keeps the value it ended with. */
  lemma PopVisible(before: Store, after: Store)
    requires before != [] && Grown(Push(before), after)
    ensures Pop(after) != [] && (forall i :: 0 <= i < |before| ==> before[i].Keys == Pop(after)[i].Keys)
    ensures |Pop(after)| == |before|
    ensures Visible(Pop(after)).Keys == Visible(before).Keys
    ensures forall x :: x in Visible(before) && x !in after[|before|] ==> Visible(Pop(after))[x] == Visible(after)[x]
  {
    var p := Push(before);
    assert forall i :: 0 <= i < |before| ==> p[i].Keys == before[i].Keys;
    SameKeysVisible(before, Pop(after));
  }
}
