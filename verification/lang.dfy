/** The part of the language that both engines run: numbers, booleans, nil, lists from `range`, closures;
    declarations, assignment, branches, loops, calls, and the three ways of leaving early. */
module Lang {
  datatype Option<T> = None | Some(value: T)

  datatype Op = Add | Sub | Mul | Div | Lt | Gt | Le | Ge | Eq | Ne

  /** A closure remembers the scope it was made in; no two of them are the same closure. */
  datatype Value =
    | Nil
    | Bool(b: bool)
    | Num(n: real)
    | List(items: seq<Value>)
    | Closure(fn: Fn, env: nat, id: nat)
    | RangeFn

  /** `id` is the identity of the declaration. */
  datatype Fn = Fn(name: string, params: seq<string>, body: seq<Stmt>, id: nat)

  /** `site` is the identity of the node: each occurrence of a name has its own. */
  datatype Expr =
    | Const(value: Value)
    | Ident(name: string, line: nat, site: nat)
    | Binary(op: Op, left: Expr, right: Expr, line: nat)
    | Logical(isAnd: bool, left: Expr, right: Expr)
    | Not(operand: Expr)
    | Neg(operand: Expr, line: nat)
    | Assign(name: string, value_: Expr, line: nat, site: nat)
    | Call(callee: Expr, args: seq<Expr>, line: nat)
    | Lambda(fn: Fn)

  datatype Stmt =
    | ExprStmt(e: Expr, line: nat)
    | Return(result: Option<Expr>, line: nat)
    | Break(line: nat)
    | Continue(line: nat)
    | Declare(name: string, init: Expr, mutable: bool, line: nat)
    | FnDecl(fn: Fn, line: nat)
    | If(test: Expr, thn: seq<Stmt>, alt: Option<Stmt>, line: nat)
    | Block(body: seq<Stmt>, line: nat)
    | While(test: Expr, body: seq<Stmt>, line: nat)
    | For(name: string, iter: Expr, body: seq<Stmt>, line: nat)

  /** `RangeArgument` and `RangeStep` are the two complaints of `range`. */
  datatype Kind = NameError | ImmutableError | TypeError | ArityError | ZeroDivisionError | RangeArgument | RangeStep
    | RecursionError | StepLimitError | ControlFlowError

  datatype Error = Error(kind: Kind, line: Option<nat>)

  /** Nil, false and zero do not take a branch. */
  predicate Truthy(v: Value) {
    v != Nil && v != Bool(false) && v != Num(0.0)
  }

  datatype Result = Ok(value: Value) | Err(error: Error)

  function Fail(kind: Kind, line: nat): Result {
    Err(Error(kind, Some(line)))
  }

  function Product(a: real, b: real): real {
    a * b
  }

  /** The operators, on any two values. */
  function Operate(op: Op, l: Value, r: Value, line: nat): Result {
    if op.Eq? then Ok(Bool(l == r))
    else if op.Ne? then Ok(Bool(l != r))
    else if op.Add? && l.List? && r.List? then Ok(List(l.items + r.items))
    else if !l.Num? || !r.Num? then Fail(TypeError, line)
    else if op.Add? then Ok(Num(l.n + r.n))
    else if op.Sub? then Ok(Num(l.n - r.n))
    else if op.Mul? then Ok(Num(Product(l.n, r.n)))
    else if op.Lt? then Ok(Bool(l.n < r.n))
    else if op.Gt? then Ok(Bool(l.n > r.n))
    else if op.Le? then Ok(Bool(l.n <= r.n))
    else if op.Ge? then Ok(Bool(l.n >= r.n))
    else if r.n == 0.0 then Fail(ZeroDivisionError, line)
    else Ok(Num(l.n / r.n))
  }

  predicate IsFast(op: Op) {
    !op.Div?
  }

  /** The operators on two numbers, as compiled code applies them. */
  function Fast(op: Op, l: real, r: real): Value
    requires IsFast(op)
  {
    match op
    case Add => Num(l + r)
    case Sub => Num(l - r)
    case Mul => Num(Product(l, r))
    case Lt => Bool(l < r)
    case Gt => Bool(l > r)
    case Le => Bool(l <= r)
    case Ge => Bool(l >= r)
    case Eq => Bool(l == r)
    case _ => Bool(l != r)
  }

  // ---- what is known about a block before it runs ------------------------------------------------------

  /** A block needs a scope of its own only if it binds a name. */
  predicate Binds(body: seq<Stmt>) {
    exists s :: s in body && (s.Declare? || s.FnDecl?)
  }

  predicate MakesClosureE(e: Expr) {
    match e
    case Lambda(_) => true
    case Binary(_, l, r, _) => MakesClosureE(l) || MakesClosureE(r)
    case Logical(_, l, r) => MakesClosureE(l) || MakesClosureE(r)
    case Not(a) => MakesClosureE(a)
    case Neg(a, _) => MakesClosureE(a)
    case Assign(_, a, _, _) => MakesClosureE(a)
    case Call(f, args, _) => MakesClosureE(f) || exists a :: a in args && MakesClosureE(a)
    case _ => false
  }

  /** Somewhere in it a function is made, which would capture the scope of the pass. */
  predicate MakesClosure(s: Stmt) {
    match s
    case ExprStmt(e, _) => MakesClosureE(e)
    case Return(e, _) => e.Some? && MakesClosureE(e.value)
    case Declare(_, e, _, _) => MakesClosureE(e)
    case FnDecl(_, _) => true
    case If(t, thn, alt, _) => MakesClosureE(t) || Captures(thn) || (alt.Some? && MakesClosure(alt.value))
    case Block(body, _) => Captures(body)
    case While(t, body, _) => MakesClosureE(t) || Captures(body)
    case For(_, e, body, _) => MakesClosureE(e) || Captures(body)
    case _ => false
  }

  predicate Captures(body: seq<Stmt>) {
    exists s :: s in body && MakesClosure(s)
  }

  // ---- range ------------------------------------------------------------------------------------------------

  function Remaining(start: real, stop: real, step: real): nat
    requires step != 0.0
  {
    var n := ((stop - start) / step).Floor + 1;
    if Goes(start, stop, step) && n > 0 then n else 0
  }

  predicate Goes(v: real, stop: real, step: real) {
    if step > 0.0 then v < stop else v > stop
  }

  lemma RemainingShrinks(start: real, stop: real, step: real)
    requires step != 0.0 && Goes(start, stop, step)
    ensures Remaining(start + step, stop, step) < Remaining(start, stop, step)
  {
    var q := (stop - start) / step;
    assert q > 0.0 by {
      if step > 0.0 { Positive(stop - start, step); } else { Positive(start - stop, -step); NegateBoth(stop - start, step); }
    }
    assert (stop - (start + step)) / step == q - 1.0 by { OneLess(stop - start, step); }
    assert (q - 1.0).Floor == q.Floor - 1;
    assert q.Floor >= 0;
  }

  lemma Positive(a: real, b: real)
    requires a > 0.0 && b > 0.0
    ensures a / b > 0.0
  {
  }

  lemma NegateBoth(a: real, b: real)
    requires b != 0.0
    ensures (-a) / (-b) == a / b
  {
  }

  lemma OneLess(a: real, b: real)
    requires b != 0.0
    ensures (a - b) / b == a / b - 1.0
  {
    var q := a / b;
    assert a == q * b;
    assert a - b == (q - 1.0) * b;
    DivideBack(a - b, q - 1.0, b);
  }

  lemma DivideBack(y: real, x: real, b: real)
    requires b != 0.0 && y == x * b
    ensures y / b == x
  {
  }

  /** The list `range` builds. */
  function RangeItems(start: real, stop: real, step: real): seq<Value>
    requires step != 0.0
    decreases Remaining(start, stop, step)
  {
    if !Goes(start, stop, step) then [] else
      RemainingShrinks(start, stop, step);
      [Num(start)] + RangeItems(start + step, stop, step)
  }

  datatype Bounds = Bounds(start: real, stop: real, step: real) | BadBounds(error: Error)

  /** One to three numbers, the last of them not zero. */
  function RangeBounds(args: seq<Value>, line: nat): Bounds
    requires 1 <= |args| <= 3
  {
    var start := if |args| == 1 then Num(0.0) else args[0];
    var stop := if |args| == 1 then args[0] else args[1];
    var step := if |args| == 3 then args[2] else Num(1.0);
    if !start.Num? || !stop.Num? || !step.Num? then BadBounds(Error(RangeArgument, Some(line)))
    else if step.n == 0.0 then BadBounds(Error(RangeStep, Some(line)))
    else Bounds(start.n, stop.n, step.n)
  }
}
