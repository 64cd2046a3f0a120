/** Total correctness, as far as a variant gives it: a proved function that counts in whole numbers ends. */
module Termination {
  import opened Rational
  import opened Programs
  import opened VcGen
  import opened Denotation
  import opened Fragment
  import opened Descent
  import opened Soundness

  // ---- fuel -----------------------------------------------------------------------------------------

  lemma {:induction false} StmtMore(stmt: Stmt, st: Store, f: nat, g: nat)
    requires f <= g && ExecStmt(stmt, st, f) != Timeout
    ensures ExecStmt(stmt, st, g) == ExecStmt(stmt, st, f)
    decreases f, stmt, 1
  {
    hide EvalNum, EvalTest, Visible, ExecWhile, ExecFor, DeclareIn, AssignIn;
    if st != [] {
      match stmt
      case If(test, thn, alt) =>
        var b := EvalTest(test, Visible(st), None);
        if b == Some(true) {
          BlockMore(thn, st, f, g);
        } else if b == Some(false) && alt.Some? {
          StmtMore(alt.value, st, f, g);
        }
      case Block(body) => BlockMore(body, st, f, g);
      case While(_, _, _, _) => WhileMore(stmt, st, f, g);
      case ForRange(_, count, _, _, _) =>
        var n := EvalNum(count, Visible(st), None);
        if n.Some? { ForMore(stmt, 0.0, n.value, st, f, g); }
      case _ =>
    }
  }

  lemma {:induction false} BlockMore(body: seq<Stmt>, st: Store, f: nat, g: nat)
    requires f <= g && ExecBlock(body, st, f) != Timeout
    ensures ExecBlock(body, st, g) == ExecBlock(body, st, f)
    decreases f, body, 2
  {
    SeqMore(body, Push(st), f, g);
  }

  lemma {:induction false} SeqMore(body: seq<Stmt>, st: Store, f: nat, g: nat)
    requires f <= g && ExecSeq(body, st, f) != Timeout
    ensures ExecSeq(body, st, g) == ExecSeq(body, st, f)
    decreases f, body, 0
  {
    hide ExecStmt;
    if body != [] {
      StmtMore(body[0], st, f, g);
      var o := ExecStmt(body[0], st, f);
      if o.Normal? { SeqMore(body[1..], o.st, f, g); }
    }
  }

  lemma {:induction false} WhileMore(loop: Stmt, st: Store, f: nat, g: nat)
    requires loop.While? && f <= g && ExecWhile(loop, st, f) != Timeout
    ensures ExecWhile(loop, st, g) == ExecWhile(loop, st, f)
    decreases f, loop, 0
  {
    hide EvalTest, Visible, ExecBlock;
    if EvalTest(loop.test, Visible(st), None) == Some(true) {
      BlockMore(loop.body, st, f - 1, g - 1);
      var o := ExecBlock(loop.body, st, f - 1);
      if o.Normal? || o.Continued? { WhileMore(loop, o.st, f - 1, g - 1); }
    }
  }

  lemma {:induction false} ForMore(loop: Stmt, i: real, n: real, st: Store, f: nat, g: nat)
    requires loop.ForRange? && f <= g && ExecFor(loop, i, n, st, f) != Timeout
    ensures ExecFor(loop, i, n, st, g) == ExecFor(loop, i, n, st, f)
    decreases f, loop, 0
  {
    hide ExecSeq;
    if i < n {
      var inner := st + [map[loop.name := i]];
      SeqMore(loop.body, inner, f - 1, g - 1);
      var o := Popped(ExecSeq(loop.body, inner, f - 1));
      if o.Normal? || o.Continued? { ForMore(loop, i + 1.0, n, o.st, f - 1, g - 1); }
    }
  }

  /** What descends with more fuel descends with less. */
  lemma {:induction false} StmtDescendsLess(stmt: Stmt, st: Store, f: nat, g: nat)
    requires f <= g && StmtDescends(stmt, st, g)
    ensures StmtDescends(stmt, st, f)
    decreases f, stmt, 1
  {
    hide EvalTest, Visible, SeqDescends, WhileDescends;
    match stmt
    case If(test, thn, alt) =>
      var b := EvalTest(test, Visible(st), None);
      if b == Some(true) {
        SeqDescendsLess(thn, Push(st), f, g);
      } else if b == Some(false) && alt.Some? {
        StmtDescendsLess(alt.value, st, f, g);
      }
    case Block(body) => SeqDescendsLess(body, Push(st), f, g);
    case While(_, _, _, _) => if Annotated(stmt) { WhileDescendsLess(stmt, st, f, g); }
    case _ =>
  }

  lemma {:induction false} SeqDescendsLess(body: seq<Stmt>, st: Store, f: nat, g: nat)
    requires f <= g && SeqDescends(body, st, g)
    ensures SeqDescends(body, st, f)
    decreases f, body, 0
  {
    hide StmtDescends, ExecStmt;
    if body != [] {
      StmtDescendsLess(body[0], st, f, g);
      var o := ExecStmt(body[0], st, f);
      if o.Normal? {
        StmtMore(body[0], st, f, g);
        SeqDescendsLess(body[1..], o.st, f, g);
      }
    }
  }

  lemma {:induction false} WhileDescendsLess(loop: Stmt, st: Store, f: nat, g: nat)
    requires loop.While? && f <= g && WhileDescends(loop, st, g)
    ensures WhileDescends(loop, st, f)
    decreases f, loop, 0
  {
    hide EvalTest, Visible, ExecBlock, SeqDescends, Starts, Drops, Push;
    if f > 0 && EvalTest(loop.test, Visible(st), None) == Some(true) {
      SeqDescendsLess(loop.body, Push(st), f - 1, g - 1);
      var o := ExecBlock(loop.body, st, f - 1);
      if o.Normal? || o.Continued? {
        BlockMore(loop.body, st, f - 1, g - 1);
        WhileDescendsLess(loop, o.st, f - 1, g - 1);
      }
    }
  }

  // ---- whole numbers ----------------------------------------------------------------------------------

  ghost predicate Whole(x: real) {
    x == x.Floor as real
  }

  ghost predicate WholeView(view: View) {
    forall x :: x in view ==> Whole(view[x])
  }

  ghost predicate WholeStore(st: Store) {
    forall i :: 0 <= i < |st| ==> WholeView(st[i])
  }

  /** No division, and only whole numbers written out. */
  ghost predicate WholeExpr(e: Expr) {
    match e
    case Num(value, _) => Whole(Val(value))
    case Neg(a) => WholeExpr(a)
    case Bin(op, a, b) => !op.Divide? && WholeExpr(a) && WholeExpr(b)
    case Old(_) => false
    case _ => true
  }

  /** Everything stored is whole, and every loop is a `while` with a whole variant. */
  ghost predicate Counts(stmt: Stmt)
    decreases stmt, 1
  {
    match stmt
    case Declare(_, e) => WholeExpr(e)
    case Assign(_, e) => WholeExpr(e)
    case If(_, thn, alt) => AllCount(thn) && (alt.Some? ==> Counts(alt.value))
    case Block(body) => AllCount(body)
    case While(_, _, variant, body) => variant.Some? && WholeExpr(variant.value) && AllCount(body)
    case ForRange(_, _, _, _, _) => false
    case _ => true
  }

  ghost predicate AllCount(stmts: seq<Stmt>)
    decreases stmts, 2
  {
    stmts == [] || (Counts(stmts[0]) && AllCount(stmts[1..]))
  }

  lemma WholeProduct(i: int, j: int)
    ensures (i as real) * (j as real) == (i * j) as real
  {
  }

  lemma IsWhole(x: real, i: int)
    requires x == i as real
    ensures Whole(x)
  {
  }

  lemma WholeArith(op: BinOp, x: real, y: real)
    requires Whole(x) && Whole(y) && !op.Divide?
    ensures Arith(op, x, y).Some? ==> Whole(Arith(op, x, y).value)
  {
    hide Whole;
    if op.Plus? {
      WholeSum(x, y);
    } else if op.Minus? {
      WholeNegated(y);
      WholeSum(x, -y);
    } else if op.Times? {
      WholeTimes(x, y);
    }
  }

  lemma WholeSum(x: real, y: real)
    requires Whole(x) && Whole(y)
    ensures Whole(x + y)
  {
    IsWhole(x + y, x.Floor + y.Floor);
  }

  lemma WholeTimes(x: real, y: real)
    requires Whole(x) && Whole(y)
    ensures Whole(x * y)
  {
    var i, j := x.Floor, y.Floor;
    WholeProduct(i, j);
    assert x * y == (i * j) as real;
    IsWhole(x * y, i * j);
  }

  lemma {:induction false} WholeValue(e: Expr, view: View)
    requires WholeExpr(e) && WholeView(view)
    ensures EvalNum(e, view, None).Some? ==> Whole(EvalNum(e, view, None).value)
  {
    hide Val, Whole, Arith;
    match e
    case Neg(a) =>
      WholeValue(a, view);
      var v := EvalNum(a, view, None);
      if v.Some? { WholeNegated(v.value); }
    case Bin(op, a, b) =>
      WholeValue(a, view);
      WholeValue(b, view);
      var l, r := EvalNum(a, view, None), EvalNum(b, view, None);
      if l.Some? && r.Some? { WholeArith(op, l.value, r.value); }
    case _ =>
  }

  lemma WholeNegated(x: real)
    requires Whole(x)
    ensures Whole(-x)
  {
    IsWhole(-x, -x.Floor);
  }

  lemma {:induction false} WholeVisible(st: Store)
    requires WholeStore(st)
    ensures WholeView(Visible(st))
  {
    hide Whole;
    if st != [] { WholeVisible(st[..|st| - 1]); }
  }

  lemma {:induction false} WholeAssign(st: Store, x: string, v: real)
    requires WholeStore(st) && Whole(v)
    ensures WholeStore(AssignIn(st, x, v))
  {
    hide Whole;
    if st != [] && x !in st[|st| - 1] { WholeAssign(st[..|st| - 1], x, v); }
  }

  lemma WholeScopes(st: Store)
    requires WholeStore(st)
    ensures WholeStore(Push(st)) && WholeStore(Pop(st))
  {
  }

  ghost predicate WholeOutcome(o: Outcome) {
    o.Normal? || o.Broke? || o.Continued? ==> WholeStore(o.st)
  }

  lemma WholePopped(o: Outcome)
    requires WholeOutcome(o)
    ensures WholeOutcome(Popped(o))
  {
    hide WholeStore, Pop;
    if o.Normal? || o.Broke? || o.Continued? { WholeScopes(o.st); }
  }

  lemma {:induction false} StmtWhole(stmt: Stmt, st: Store, fuel: nat)
    requires Counts(stmt) && WholeStore(st)
    ensures WholeOutcome(ExecStmt(stmt, st, fuel))
    decreases fuel, stmt, 1
  {
    hide EvalNum, EvalTest, Visible, ExecWhile, WholeExpr, ExecBlock, Whole;
    WholeVisible(st);
    if st != [] {
      match stmt
      case Declare(x, e) => WholeValue(e, Visible(st));
      case Assign(x, e) =>
        WholeValue(e, Visible(st));
        var v := EvalNum(e, Visible(st), None);
        if v.Some? { WholeAssign(st, x, v.value); }
      case If(test, thn, alt) =>
        BlockWhole(thn, st, fuel);
        if alt.Some? { StmtWhole(alt.value, st, fuel); }
      case Block(body) => BlockWhole(body, st, fuel);
      case While(_, _, _, _) => WhileWhole(stmt, st, fuel);
      case _ =>
    }
  }

  lemma {:induction false} BlockWhole(body: seq<Stmt>, st: Store, fuel: nat)
    requires AllCount(body) && WholeStore(st)
    ensures WholeOutcome(ExecBlock(body, st, fuel))
    decreases fuel, body, 2
  {
    hide WholeStore, WholeOutcome, Push, ExecSeq;
    WholeScopes(st);
    SeqWhole(body, Push(st), fuel);
    WholePopped(ExecSeq(body, Push(st), fuel));
  }

  lemma {:induction false} SeqWhole(body: seq<Stmt>, st: Store, fuel: nat)
    requires AllCount(body) && WholeStore(st)
    ensures WholeOutcome(ExecSeq(body, st, fuel))
    decreases fuel, body, 0
  {
    hide Counts, ExecStmt, WholeStore;
    if body != [] {
      StmtWhole(body[0], st, fuel);
      var o := ExecStmt(body[0], st, fuel);
      if o.Normal? { SeqWhole(body[1..], o.st, fuel); }
    }
  }

  lemma {:induction false} WhileWhole(loop: Stmt, st: Store, fuel: nat)
    requires loop.While? && Counts(loop) && WholeStore(st)
    ensures WholeOutcome(ExecWhile(loop, st, fuel))
    decreases fuel, loop, 0
  {
    hide EvalTest, Visible, ExecBlock, WholeStore, WholeExpr;
    if fuel > 0 {
      BlockWhole(loop.body, st, fuel - 1);
      var o := ExecBlock(loop.body, st, fuel - 1);
      if o.Normal? || o.Continued? { WhileWhole(loop, o.st, fuel - 1); }
    }
  }

  // ---- every run ends -----------------------------------------------------------------------------------

  ghost predicate AlwaysDescends(stmt: Stmt, st: Store) {
    forall fuel: nat :: StmtDescends(stmt, st, fuel)
  }

  ghost predicate SeqAlwaysDescends(body: seq<Stmt>, st: Store) {
    forall fuel: nat :: SeqDescends(body, st, fuel)
  }

  ghost predicate WhileAlwaysDescends(loop: Stmt, st: Store)
    requires loop.While?
  {
    forall fuel: nat :: WhileDescends(loop, st, fuel)
  }

  /** Some fuel is enough for a statement whose loops descend in whole numbers. */
  lemma {:induction false} StmtEnds(stmt: Stmt, st: Store) returns (fuel: nat)
    requires Counts(stmt) && WholeStore(st) && AlwaysDescends(stmt, st)
    ensures ExecStmt(stmt, st, fuel) != Timeout
    decreases stmt, 1, 0
  {
    hide EvalNum, EvalTest, Visible, ExecWhile, ExecBlock, SeqDescends, WhileDescends, WholeExpr, WholeStore, AssignIn;
    fuel := 0;
    if st != [] {
      match stmt
      case If(test, thn, alt) =>
        var b := EvalTest(test, Visible(st), None);
        if b == Some(true) {
          forall f: nat ensures SeqDescends(thn, Push(st), f) { assert StmtDescends(stmt, st, f); }
          fuel := BlockEnds(thn, st);
        } else if b == Some(false) && alt.Some? {
          forall f: nat ensures StmtDescends(alt.value, st, f) { assert StmtDescends(stmt, st, f); }
          fuel := StmtEnds(alt.value, st);
        }
      case Block(body) =>
        forall f: nat ensures SeqDescends(body, Push(st), f) { assert StmtDescends(stmt, st, f); }
        fuel := BlockEnds(body, st);
      case While(_, _, variant, _) =>
        forall f: nat ensures WhileDescends(stmt, st, f) { assert StmtDescends(stmt, st, f); }
        fuel := WhileEnds(stmt, st, PassesLeft(variant.value, st));
      case _ =>
    }
  }

  /** The passes that a variant falling in whole steps leaves room for. */
  ghost function PassesLeft(variant: Expr, st: Store): nat {
    var v := EvalNum(variant, Visible(st), None);
    if v.Some? && v.value >= 0.0 then v.value.Floor + 1 else 0
  }

  lemma {:induction false} BlockEnds(body: seq<Stmt>, st: Store) returns (fuel: nat)
    requires AllCount(body) && WholeStore(st) && SeqAlwaysDescends(body, Push(st))
    ensures ExecBlock(body, st, fuel) != Timeout
    decreases body, 2, 0
  {
    hide WholeStore, ExecSeq, SeqAlwaysDescends;
    WholeScopes(st);
    fuel := SeqEnds(body, Push(st));
  }

  lemma {:induction false} SeqEnds(body: seq<Stmt>, st: Store) returns (fuel: nat)
    requires AllCount(body) && WholeStore(st) && SeqAlwaysDescends(body, st)
    ensures ExecSeq(body, st, fuel) != Timeout
    decreases body, 0, 0
  {
    hide WholeStore, ExecStmt, StmtDescends, Counts;
    fuel := 0;
    if body != [] {
      forall f: nat ensures StmtDescends(body[0], st, f) { assert SeqDescends(body, st, f); }
      var first := StmtEnds(body[0], st);
      fuel := first;
      var o := ExecStmt(body[0], st, first);
      if o.Normal? {
        StmtWhole(body[0], st, first);
        forall f: nat ensures SeqDescends(body[1..], o.st, f) {
          var g := if f <= first then first else f;
          assert SeqDescends(body, st, g);
          StmtMore(body[0], st, first, g);
          SeqDescendsLess(body[1..], o.st, f, g);
        }
        var rest := SeqEnds(body[1..], o.st);
        fuel := if first <= rest then rest else first;
        SeqMore(body[1..], o.st, rest, fuel);
        StmtMore(body[0], st, first, fuel);
      }
    }
  }

  /** By induction on the passes left: a variant that falls in whole numbers falls by at least 1. */
  lemma {:induction false} WhileEnds(loop: Stmt, st: Store, left: nat) returns (fuel: nat)
    requires loop.While? && Counts(loop) && WholeStore(st) && WhileAlwaysDescends(loop, st)
    requires PassesLeft(loop.variant.value, st) <= left
    ensures ExecWhile(loop, st, fuel) != Timeout
    decreases loop, 0, left
  {
    hide EvalTest, EvalNum, Visible, ExecBlock, WholeStore, SeqDescends, WholeExpr, PassesLeft, Push, Starts, Drops;
    fuel := 1;
    if EvalTest(loop.test, Visible(st), None) == Some(true) {
      forall f: nat ensures SeqDescends(loop.body, Push(st), f) { assert WhileDescends(loop, st, f + 1); }
      var first := BlockEnds(loop.body, st);
      fuel := first + 1;
      var o := ExecBlock(loop.body, st, first);
      if o.Normal? || o.Continued? {
        BlockWhole(loop.body, st, first);
        forall f: nat ensures WhileDescends(loop, o.st, f) {
          var g := if f <= first then first else f;
          assert WhileDescends(loop, st, g + 1);
          BlockMore(loop.body, st, first, g);
          WhileDescendsLess(loop, o.st, f, g);
        }
        assert WhileDescends(loop, st, first + 1);
        FewerLeft(loop.variant.value, st, o.st);
        var rest := WhileEnds(loop, o.st, left - 1);
        fuel := (if first <= rest then rest else first) + 1;
        BlockMore(loop.body, st, first, fuel - 1);
        WhileMore(loop, o.st, rest, fuel - 1);
      }
    }
  }

  lemma FewerLeft(variant: Expr, before: Store, after: Store)
    requires WholeExpr(variant) && WholeStore(before) && WholeStore(after) && Drops(Some(variant), before, after)
    ensures PassesLeft(variant, after) < PassesLeft(variant, before)
  {
    hide EvalNum, Visible, WholeExpr;
    WholeVisible(before);
    WholeVisible(after);
    WholeValue(variant, Visible(before));
    WholeValue(variant, Visible(after));
  }

  /** Total correctness. A function of the fragment that is proved without unknowns, whose loops all have a
      variant and which divides nothing, ends in every call on whole numbers that meets its precondition; and
      it ends as it should, not in a failure, when it holds no statement that is evaluated for its effect. */
  lemma FunctionEnds(fn: Function, globals: View, args: View, maxAtoms: nat, budget: nat) returns (fuel: nat)
    requires OkFunction(fn, globals.Keys) && Proved(fn, maxAtoms, budget) && Conditions(fn).unknowns == {}
    requires args.Keys == set p | p in fn.params
    requires forall r :: r in fn.requires_ ==> EvalTest(r, globals + args, None) == Some(true)
    requires AllCount(fn.body) && WholeView(globals) && WholeView(args)
    ensures ExecSeq(fn.body, [globals, args], fuel) != Timeout
    ensures AllExamined(fn.body) ==> Call(fn, globals, args, fuel).Some?
  {
    hide Proved, Conditions, EvalTest, ExecSeq, SeqDescends, AllCount, WholeView, AllExamined, OkSeq, Visible, Name, OldKey,
      NamesOf, OldArgs;
    forall f: nat ensures SeqDescends(fn.body, [globals, args], f) {
      FunctionDescends(fn, globals, args, f, maxAtoms, budget);
    }
    fuel := SeqEnds(fn.body, [globals, args]);
    FunctionDescends(fn, globals, args, fuel, maxAtoms, budget);
    TwoScopes(globals, args);
    assert Visible([globals, args]).Keys == Scope(fn, globals.Keys);
    SeqKeeps(fn.body, [globals, args], fuel, Untracked(fn, globals.Keys));
  }
}
