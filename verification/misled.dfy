/** A program that repeats a parameter, and what becomes of it. In `f(1, 2)` the name x is first found in the
    cell of the first argument. By the second call of g the frame of f has come to bind nine names and is a map,
    in which x is the second argument. The frame of g is the same scope both times, and no counter of x has
    moved: the tree-walker finds 2, where compiled code still remembers the cell of 1. */
module Misled {
  import opened Lang
  import opened Bindings
  import opened Scopes
  import opened Walker
  import opened Repeats

  const READ := Ident("x", 1, 7)
  const G := Fn("g", [], [Return(Some(READ), 1)], 1)
  const CALL_G := Call(Ident("g", 1, 5), [], 1)
  const ZERO := Const(Num(0.0))

  function Let(name: string, e: Expr): Stmt {
    Declare(name, e, false, 1)
  }

  /** `let p = g()`, five names more, `return p == g()`. */
  const BODY := [FnDecl(G, 1), Let("p", CALL_G), Let("a", ZERO), Let("b", ZERO), Let("c", ZERO), Let("d", ZERO), Let("e", ZERO),
                 Return(Some(Binary(Op.Eq, Ident("p", 1, 8), CALL_G, 1)), 1)]
  const F := Fn("f", ["x", "x"], BODY, 0)
  const CALL_F := Call(Ident("f", 1, 9), [Const(Num(1.0)), Const(Num(2.0))], 1)
  const PROGRAM := [FnDecl(F, 1), ExprStmt(CALL_F, 1)]

  const OUTSIDE := [Scope(None, Mapped(map["range" := 0]), None), Scope(Some(0), Arrays([Bound("f", 1)]), None)]
  const NONE := Cell(Num(0.0), false)
  const CELLS := [Cell(RangeFn, false), Cell(Closure(F, 1, 0), false), Cell(Num(1.0), false), Cell(Num(2.0), false),
                  Cell(Closure(G, 2, 1), false), Cell(Num(1.0), false), NONE, NONE, NONE, NONE, NONE]
  const WITH_G := CELLS[..5]

  /** What the frame of f binds, in order; the ninth makes it a map. */
  const EIGHT: seq<Bound<nat>> := [Bound("x", 2), Bound("x", 3), Bound("g", 4), Bound("p", 5), Bound("a", 6), Bound("b", 7),
                                   Bound("c", 8), Bound("d", 9)]
  const NINTH: Stored<nat> := Mapped(Last(EIGHT)["e" := 10])
  const ONLY_G: seq<Bound<nat>> := EIGHT[..3]

  function FrameOfF(stored: Stored<nat>): Scope {
    Scope(Some(1), stored, Some(["x", "x"]))
  }

  const FRAME_OF_G := Scope(Some(2), Arrays([]), Some([]))

  /** In the body of f, before g has been called and after. */
  function Before(stored: Stored<nat>, cells: seq<Cell>, steps: nat): State {
    State(Heap(OUTSIDE + [FrameOfF(stored)], cells), 2, steps, 1, 2, NO_FRAMES)
  }

  function Since(stored: Stored<nat>, cells: seq<Cell>, steps: nat): State {
    State(Heap(OUTSIDE + [FrameOfF(stored), FRAME_OF_G], cells), 2, steps, 1, 2, Pools(map[G := Some(2)], map[(G, 1) := 3]))
  }

  // ---- one statement ---------------------------------------------------------------------------------------------

  lemma LetRuns(name: string, v: Value, st: State, fuel: nat, lim: Limits)
    requires name !in Slots(st.heap, st.env) && st.steps < lim.steps
    ensures Exec(Let(name, Const(v)), st, fuel, lim)
      == Res(Done(Nil), st.(steps := st.steps + 1, heap := PutIn(NewCell(st.heap, v, false), st.env, name, |st.heap.cells|)))
  {
    hide PutIn, Found, Kept, Sane;
    assert Eval(Const(v), st.(steps := st.steps + 1), fuel, lim) == Res(Done(v), st.(steps := st.steps + 1));
  }

  /** A new name in the frame of f. */
  lemma Bind(name: string, st: State, stored: Stored<nat>, cell: nat)
    requires |st.heap.scopes| >= 3 && st.env == 2 && st.heap.scopes[2] == FrameOfF(stored)
    ensures PutIn(st.heap, 2, name, cell) == st.heap.(scopes := st.heap.scopes[2 := FrameOfF(Put(stored, name, cell))])
    ensures Slots(st.heap, 2) == Found(stored)
  {
    hide Put;
  }

  /** The body of g, in its frame: what x is found to be. */
  lemma GRuns(st: State, cell: nat, fuel: nat, lim: Limits)
    requires Lookup(st.heap, st.env, "x") == Some(cell) && st.steps < lim.steps
    ensures ExecAll(G.body, Nil, st, fuel, lim) == Res(Returning(CellAt(st.heap, cell).value, 1), st.(steps := st.steps + 1))
  {
    hide Kept, Sane, Lookup;
    var st1 := st.(steps := st.steps + 1);
    assert Eval(READ, st1, fuel, lim) == Res(Done(CellAt(st.heap, cell).value), st1);
    assert Exec(G.body[0], st, fuel, lim) == Res(Returning(CellAt(st.heap, cell).value, 1), st1);
  }

  lemma NoClosureInG()
    ensures !Captures(G.body) && G.params == []
  {
    assert !MakesClosureE(READ);
    assert !MakesClosure(Return(Some(READ), 1));
  }

  lemma XFound(st: State, stored: Stored<nat>, cell: nat)
    requires |st.heap.scopes| >= 4 && st.heap.scopes[2] == FrameOfF(stored) && st.heap.scopes[3] == FRAME_OF_G
    requires "x" in Found(stored) && Found(stored)["x"] == cell
    ensures Lookup(st.heap, 3, "x") == Some(cell)
  {
    assert First<nat>([]) == map[];
    assert Lookup(st.heap, 2, "x") == Some(cell);
  }

  /** The callee and no arguments. */
  lemma GFound(st: State, fuel: nat, lim: Limits)
    requires fuel >= 1 && Lookup(st.heap, st.env, "g") == Some(4) && 4 < |st.heap.cells|
    requires st.heap.cells[4].value == Closure(G, 2, 1)
    ensures Eval(CALL_G, st, fuel, lim) == Invoke(Closure(G, 2, 1), [], 1, st, fuel - 1, lim)
  {
    hide Kept, Sane, Lookup, Invoke;
    assert Eval(CALL_G.callee, st, fuel, lim) == Res(Done(Closure(G, 2, 1)), st);
    assert EvalAll([], st, fuel, lim) == Args([], st);
  }

  lemma FirstFrame(st: State)
    requires st == Before(Arrays(ONLY_G), WITH_G, st.steps)
    ensures Frame(G, 2, [], st) == Since(Arrays(ONLY_G), WITH_G, st.steps).(env := 3, depth := 2)
  {
    hide Kept, Sane;
    NoClosureInG();
    hide Captures;
    assert FrameScope(G, 2, |WITH_G|) == FRAME_OF_G;
    assert WITH_G + FrameCells([]) == WITH_G;
    assert OUTSIDE + [FrameOfF(Arrays(ONLY_G))] + [FRAME_OF_G] == OUTSIDE + [FrameOfF(Arrays(ONLY_G)), FRAME_OF_G];
  }

  lemma LaterFrame(st: State, stored: Stored<nat>, cells: seq<Cell>)
    requires st == Since(stored, cells, st.steps)
    ensures Frame(G, 2, [], st) == st.(env := 3, depth := 2)
  {
    hide Kept, Sane;
    NoClosureInG();
    hide Captures;
    assert Retake<nat>([], []) == [];
    var h := Holding(st.heap, 3, Arrays([]));
    assert h.scopes == st.heap.scopes;
    assert Fill(h, [], []) == h;
    assert st.pools.closures[G := Some(2)] == st.pools.closures;
  }

  /** The first call of g makes a frame and finds 1. */
  lemma FirstCall(st: State, fuel: nat, lim: Limits)
    requires st == Before(Arrays(ONLY_G), WITH_G, st.steps) && fuel >= 1 && st.steps < lim.steps && lim.depth >= 2
    ensures Eval(CALL_G, st, fuel, lim) == Res(Done(Num(1.0)), Since(Arrays(ONLY_G), WITH_G, st.steps + 1))
  {
    hide Kept, Sane, Frame, ExecAll, Eval, Lookup;
    FirstAt(ONLY_G, "g", 2);
    FirstAt(ONLY_G, "x", 0);
    hide First;
    assert Lookup(st.heap, 2, "g") == Some(4) by { Here(st, Arrays(ONLY_G), "g"); }
    GFound(st, fuel, lim);
    FirstFrame(st);
    var inside := Frame(G, 2, [], st);
    XFound(inside, Arrays(ONLY_G), 2);
    GRuns(inside, 2, fuel - 1, lim);
  }

  lemma Here(st: State, stored: Stored<nat>, name: string)
    requires |st.heap.scopes| >= 3 && st.heap.scopes[2] == FrameOfF(stored) && name in Found(stored)
    ensures Lookup(st.heap, 2, name) == Some(Found(stored)[name])
  {
  }

  /** A later call takes the frame back, and finds whatever x has come to mean. */
  lemma LaterCall(st: State, stored: Stored<nat>, cells: seq<Cell>, cell: nat, fuel: nat, lim: Limits)
    requires st == Since(stored, cells, st.steps) && fuel >= 1 && st.steps < lim.steps && lim.depth >= 2
    requires "g" in Found(stored) && Found(stored)["g"] == 4 && 4 < |cells| && cells[4] == Cell(Closure(G, 2, 1), false)
    requires "x" in Found(stored) && Found(stored)["x"] == cell < |cells|
    ensures Eval(CALL_G, st, fuel, lim) == Res(Done(cells[cell].value), st.(steps := st.steps + 1))
  {
    hide Kept, Sane, Frame, ExecAll, Eval, Lookup, Found;
    Here(st, stored, "g");
    GFound(st, fuel, lim);
    LaterFrame(st, stored, cells);
    var inside := Frame(G, 2, [], st);
    XFound(inside, stored, cell);
    GRuns(inside, cell, fuel - 1, lim);
  }

  // ---- the body of f -----------------------------------------------------------------------------------------------

  /** One more name, while there is room. */
  lemma LetInside(name: string, bs: seq<Bound<nat>>, cells: seq<Cell>, steps: nat, fuel: nat, lim: Limits)
    requires Bare(bs, name) && steps < lim.steps
    ensures var stored := Put<nat>(Arrays(bs), name, |cells|);
      Exec(Let(name, ZERO), Since(Arrays(bs), cells, steps), fuel, lim)
        == Res(Done(Nil), Since(stored, cells + [Cell(Num(0.0), false)], steps + 1))
  {
    hide Exec, Put;
    var st := Since(Arrays(bs), cells, steps);
    FirstAt(bs, name, |bs|);
    hide First;
    Bind(name, st, Arrays(bs), 0);
    LetRuns(name, Num(0.0), st, fuel, lim);
    Bind(name, st.(heap := NewCell(st.heap, Num(0.0), false)), Arrays(bs), |cells|);
    var stored := Put<nat>(Arrays(bs), name, |cells|);
    assert st.heap.scopes[2 := FrameOfF(stored)] == Since(stored, cells, steps).heap.scopes;
  }

  lemma Unfold(body: seq<Stmt>, k: nat, st: State, fuel: nat, lim: Limits)
    requires k < |body| && !body[k].ExprStmt?
    ensures var r := Exec(body[k], st, fuel, lim);
      ExecAll(body[k..], Nil, st, fuel, lim) == if r.o.Done? then ExecAll(body[k + 1..], Nil, r.st, fuel, lim) else r
  {
    hide Exec, Kept;
    assert body[k..][0] == body[k] && body[k..][1..] == body[k + 1..];
  }

  /** When that many of the names after p are bound. */
  function After(k: nat, steps: nat): State
    requires k <= 5
  {
    Since(if k < 5 then Arrays(EIGHT[..4 + k]) else NINTH, CELLS[..6 + k], steps)
  }

  lemma NameAfter(k: nat, steps: nat, fuel: nat, lim: Limits)
    requires k <= 4 && steps < lim.steps
    ensures Exec(BODY[2 + k], After(k, steps), fuel, lim) == Res(Done(Nil), After(k + 1, steps + 1))
  {
    hide Exec, Put, Since;
    var name := if k < 4 then EIGHT[4 + k].name else "e";
    NewHere(k);
    assert BODY[2 + k] == Let(name, ZERO);
    LetInside(name, EIGHT[..4 + k], CELLS[..6 + k], steps, fuel, lim);
    assert CELLS[..7 + k] == CELLS[..6 + k] + [NONE];
  }

  lemma {:induction false} FiveNames(k: nat, steps: nat, fuel: nat, lim: Limits)
    requires k <= 5 && steps + 5 - k <= lim.steps
    ensures ExecAll(BODY[2 + k..], Nil, After(k, steps), fuel, lim) == ExecAll(BODY[7..], Nil, After(5, steps + 5 - k), fuel, lim)
    decreases 5 - k
  {
    hide ExecAll, Exec, After;
    if k < 5 {
      Unfold(BODY, 2 + k, After(k, steps), fuel, lim);
      NameAfter(k, steps, fuel, lim);
      FiveNames(k + 1, steps + 1, fuel, lim);
    }
  }

  lemma NewHere(k: nat)
    requires k <= 4
    ensures var name := if k < 4 then EIGHT[4 + k].name else "e";
      Bare(EIGHT[..4 + k], name)
      && Put<nat>(Arrays(EIGHT[..4 + k]), name, 6 + k) == if k < 4 then Arrays(EIGHT[..5 + k]) else NINTH
  {
    hide Last;
    var name := if k < 4 then EIGHT[4 + k].name else "e";
    var bs := EIGHT[..4 + k];
    assert |name| == 1 && forall j :: 0 <= j < 4 + k ==> EIGHT[j].name[0] != name[0];
    assert forall j :: 0 <= j < |bs| ==> bs[j] == EIGHT[j] && bs[j].name != name;
    assert IndexOf(bs, name) == 4 + k by { FirstAt(bs, name, 4 + k); }
    if k < 4 {
      assert EIGHT[4 + k] == Bound(name, 6 + k);
      assert EIGHT[..5 + k] == bs + [EIGHT[4 + k]];
    } else {
      assert bs == EIGHT;
    }
  }

  /** What each name is by then: x is the second argument. */
  lemma NinthMeans()
    ensures NINTH.Mapped? && "x" in NINTH.slots && "g" in NINTH.slots && "p" in NINTH.slots
    ensures NINTH.slots["x"] == 3 && NINTH.slots["g"] == 4 && NINTH.slots["p"] == 5
  {
    hide Last;
    LastAt(EIGHT, 1);
    LastAt(EIGHT, 2);
    LastAt(EIGHT, 3);
  }

  function Entered(steps: nat): State {
    State(Heap(OUTSIDE + [FrameOfF(Arrays(EIGHT[..2]))], CELLS[..4]), 2, steps, 1, 1, NO_FRAMES)
  }

  lemma EarlyPuts()
    ensures Put<nat>(Arrays(EIGHT[..2]), "g", 4) == Arrays(ONLY_G) && Put<nat>(Arrays(ONLY_G), "p", 5) == Arrays(EIGHT[..4])
  {
    assert EIGHT[..2] == [Bound("x", 2), Bound("x", 3)] && ONLY_G == EIGHT[..2] + [Bound("g", 4)];
    FirstAt(EIGHT[..2], "g", 2);
    FirstAt(ONLY_G, "p", 3);
    assert EIGHT[..4] == ONLY_G + [Bound("p", 5)];
  }

  lemma GDeclared(steps: nat, fuel: nat, lim: Limits)
    requires steps < lim.steps
    ensures Exec(BODY[0], Entered(steps), fuel, lim) == Res(Done(Nil), Before(Arrays(ONLY_G), WITH_G, steps + 1))
  {
    hide Kept, Sane, Put;
    var st := Entered(steps);
    var bs := EIGHT[..2];
    assert bs == [Bound("x", 2), Bound("x", 3)];
    EarlyPuts();
    FirstAt(bs, "g", 2);
    hide First;
    var h := NewCell(st.heap, Closure(G, 2, 1), false);
    Bind("g", st, Arrays(bs), 4);
    Bind("g", st.(heap := h), Arrays(bs), 4);
    assert WITH_G == CELLS[..4] + [CELLS[4]];
    assert h.scopes[2 := FrameOfF(Arrays(ONLY_G))] == OUTSIDE + [FrameOfF(Arrays(ONLY_G))];
  }

  lemma PDeclared(steps: nat, fuel: nat, lim: Limits)
    requires fuel >= 1 && steps + 2 <= lim.steps && lim.depth >= 2
    ensures Exec(BODY[1], Before(Arrays(ONLY_G), WITH_G, steps), fuel, lim) == Res(Done(Nil), After(0, steps + 2))
  {
    hide Kept, Sane, Put, Eval;
    var st := Before(Arrays(ONLY_G), WITH_G, steps);
    FirstCall(st.(steps := steps + 1), fuel, lim);
    var st1 := Since(Arrays(ONLY_G), WITH_G, steps + 2);
    var bs := ONLY_G;
    assert bs == [Bound("x", 2), Bound("x", 3), Bound("g", 4)];
    EarlyPuts();
    FirstAt(bs, "p", 3);
    hide First;
    var h := NewCell(st1.heap, Num(1.0), false);
    Bind("p", st1, Arrays(bs), 5);
    Bind("p", st1.(heap := h), Arrays(bs), 5);
    assert CELLS[..6] == WITH_G + [CELLS[5]];
    assert h.scopes[2 := FrameOfF(Arrays(EIGHT[..4]))] == OUTSIDE + [FrameOfF(Arrays(EIGHT[..4])), FRAME_OF_G];
  }

  lemma Compared(steps: nat, fuel: nat, lim: Limits)
    requires fuel >= 1 && steps + 2 <= lim.steps && lim.depth >= 2
    ensures ExecAll(BODY[7..], Nil, After(5, steps), fuel, lim) == Res(Returning(Bool(false), 1), After(5, steps + 2))
  {
    hide Kept, Sane, ExecAll, Lookup;
    NinthMeans();
    hide Last;
    var st := After(5, steps + 1);
    assert CELLS[..11] == CELLS;
    Here(st, NINTH, "p");
    assert Eval(Ident("p", 1, 8), st, fuel, lim) == Res(Done(Num(1.0)), st);
    LaterCall(st, NINTH, CELLS, 3, fuel, lim);
    assert Exec(BODY[7], After(5, steps), fuel, lim) == Res(Returning(Bool(false), 1), After(5, steps + 2));
    Unfold(BODY, 7, After(5, steps), fuel, lim);
  }

  lemma BodyRuns(steps: nat, fuel: nat, lim: Limits)
    requires fuel >= 1 && steps + 10 <= lim.steps && lim.depth >= 2
    ensures ExecAll(BODY, Nil, Entered(steps), fuel, lim) == Res(Returning(Bool(false), 1), After(5, steps + 10))
  {
    hide Kept, Sane, ExecAll, Exec, After, Entered, Before;
    assert BODY[0..] == BODY;
    Unfold(BODY, 0, Entered(steps), fuel, lim);
    GDeclared(steps, fuel, lim);
    Unfold(BODY, 1, Before(Arrays(ONLY_G), WITH_G, steps + 1), fuel, lim);
    PDeclared(steps + 1, fuel, lim);
    FiveNames(0, steps + 3, fuel, lim);
    Compared(steps + 8, fuel, lim);
  }

  // ---- the program ---------------------------------------------------------------------------------------------------

  const FRESH := State(Heap([Scope(None, Mapped(map["range" := 0]), None), Scope(Some(0), Arrays([]), None)], CELLS[..1]),
                       1, 0, 0, 0, NO_FRAMES)
  const WITH_F := State(Heap(OUTSIDE, CELLS[..2]), 1, 1, 0, 1, NO_FRAMES)

  lemma FDeclared(fuel: nat, lim: Limits)
    requires lim.steps >= 1
    ensures Exec(PROGRAM[0], FRESH, fuel, lim) == Res(Done(Nil), WITH_F)
  {
    hide Kept, Sane;
    assert First<nat>([]) == map[] && IndexOf<nat>([], "f") == 0;
    assert [] + [Bound("f", 1)] == [Bound("f", 1)];
    assert CELLS[..2] == CELLS[..1] + [CELLS[1]];
    var h := PutIn(NewCell(FRESH.heap, Closure(F, 1, 0), false), 1, "f", 1);
    assert h.scopes == OUTSIDE;
  }

  lemma FrameMade()
    ensures Frame(F, 1, [Num(1.0), Num(2.0)], WITH_F.(steps := 2)) == Entered(2)
  {
    hide Kept, Sane;
    assert Captures(F.body) by { assert BODY[0] in BODY && MakesClosure(BODY[0]); }
    hide Captures;
    var args := [Num(1.0), Num(2.0)];
    assert CELLS[..2] + FrameCells(args) == CELLS[..4];
    assert Adopt<nat>(F.params, Consecutive(2, 2)) == EIGHT[..2];
    assert OUTSIDE + [FrameOfF(Arrays(EIGHT[..2]))] == OUTSIDE + [FrameScope(F, 1, 2)];
  }

  lemma FFound(fuel: nat, lim: Limits)
    requires fuel >= 1
    ensures var st := WITH_F.(steps := 2);
      Eval(CALL_F, st, fuel, lim) == Invoke(Closure(F, 1, 0), [Num(1.0), Num(2.0)], 1, st, fuel - 1, lim)
  {
    hide Kept, Sane, Invoke;
    var st := WITH_F.(steps := 2);
    assert First<nat>([Bound("f", 1)]) == map["f" := 1] by { assert [Bound("f", 1)][1..] == []; }
    assert Lookup(st.heap, 1, "f") == Some(1);
    hide Lookup;
    assert Eval(CALL_F.callee, st, fuel, lim) == Res(Done(Closure(F, 1, 0)), st);
    var args := CALL_F.args;
    assert args[1..] == [Const(Num(2.0))] && args[1..][1..] == [];
    assert EvalAll([], st, fuel, lim) == Args([], st);
    assert EvalAll(args[1..], st, fuel, lim) == Args([Num(2.0)], st);
    assert EvalAll(args, st, fuel, lim) == Args([Num(1.0), Num(2.0)], st);
  }

  lemma FCalled(fuel: nat, lim: Limits)
    requires fuel >= 2 && lim.steps >= 12 && lim.depth >= 2
    ensures Eval(CALL_F, WITH_F.(steps := 2), fuel, lim).o == Done(Bool(false))
  {
    hide Kept, Sane, ExecAll, Frame, Entered, After;
    FFound(fuel, lim);
    FrameMade();
    BodyRuns(2, fuel - 1, lim);
    hide Eval;
    assert Invoke(Closure(F, 1, 0), [Num(1.0), Num(2.0)], 1, WITH_F.(steps := 2), fuel - 1, lim).o == Done(Bool(false));
  }

  lemma TopRuns(fuel: nat, lim: Limits)
    requires lim.steps >= 2 && Exec(PROGRAM[0], FRESH, fuel, lim) == Res(Done(Nil), WITH_F)
    requires Eval(CALL_F, WITH_F.(steps := 2), fuel, lim).o == Done(Bool(false))
    ensures RunProgram(PROGRAM, FRESH, fuel, lim).o == Done(Bool(false))
  {
    hide Kept, Sane, Eval;
    assert Exec(PROGRAM[1], WITH_F, fuel, lim).o == Done(Bool(false));
    hide Exec;
    var r := Exec(PROGRAM[1], WITH_F, fuel, lim);
    assert PROGRAM[1..][0] == PROGRAM[1] && PROGRAM[1..][1..] == [];
    assert RunAll([], Bool(false), r.st, fuel, lim).o == Done(Bool(false));
    assert RunAll(PROGRAM[1..], Nil, WITH_F, fuel, lim).o == Done(Bool(false));
    assert RunAll(PROGRAM, Nil, FRESH, fuel, lim).o == Done(Bool(false));
  }

  lemma FirstOnce(body: seq<Stmt>)
    requires body != [] && !StmtOnce(body[0])
    ensures !BodyOnce(body)
  {
    hide StmtOnce;
  }

  lemma Repeating()
    ensures Sane(FRESH) && HeapOnce(FRESH.heap) && !BodyOnce(PROGRAM)
  {
    assert !FnOnce(F) by { assert F.params[0] == F.params[1]; }
    hide FnOnce;
    assert !StmtOnce(PROGRAM[0]);
    FirstOnce(PROGRAM);
    assert CELLS[..1] == [CELLS[0]];
  }

  /** The program repeats a parameter, and the tree-walker finds that `p == g()` is false. */
  lemma RepeatedProgram(fuel: nat, lim: Limits)
    requires fuel >= 2 && lim.steps >= 12 && lim.depth >= 2
    ensures Sane(FRESH) && HeapOnce(FRESH.heap) && !BodyOnce(PROGRAM)
    ensures RunProgram(PROGRAM, FRESH, fuel, lim).o == Done(Bool(false))
  {
    hide *;
    Repeating();
    FDeclared(fuel, lim);
    FCalled(fuel, lim);
    TopRuns(fuel, lim);
  }

  /** The two reads of x stand in one scope, and only other names were bound in between: the occurrence's cache
      still hits, and answers for the cell that holds 1, where a walk finds the one that holds 2. With it
      `p == g()` is true. */
  lemma CacheMisled(vs: Versions)
    ensures var first, second := Since(Arrays(ONLY_G), WITH_G, 4).heap, After(5, 11).heap;
      && Lookup(first, 3, READ.name) == Some(2) && Lookup(second, 3, READ.name) == Some(3)
      && Hit(Warm(3, Version(vs, READ.name), 2), Bump(vs, multiset{"p", "a", "b", "c", "d", "e"}), 3, READ.name)
      && CellAt(second, 2).value == Num(1.0) && CellAt(second, 3).value == Num(2.0)
  {
    hide Lookup, Bump, First, Last;
    FirstAt(ONLY_G, "x", 0);
    NinthMeans();
    XFound(Since(Arrays(ONLY_G), WITH_G, 4), Arrays(ONLY_G), 2);
    XFound(After(5, 11), NINTH, 3);
    assert multiset{"p", "a", "b", "c", "d", "e"}["x"] == 0;
  }
}
