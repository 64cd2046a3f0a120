/** The verifier and the interpreter together: a proved function, called in the tree-walker, gives back a value
    that keeps its promise. */
module Promised {
  import opened Scopes
  import opened Bindings
  import opened Interpreted
  import P = Programs
  import L = Lang
  import W = Walker
  import Fragment
  import Denotation
  import VcGen
  import Soundness
  import Descent
  import Counterexample
  import Verdicts

  ghost function LowerFn(fn: P.Function, name: string, id: nat): L.Fn
    requires SharedAll(fn.body)
  {
    L.Fn(name, fn.params, LowerAll(fn.body), id)
  }

  ghost function Values(params: seq<string>, args: P.View): (r: seq<L.Value>)
    requires forall p :: p in params ==> p in args
    ensures |r| == |params|
  {
    seq(|params|, i requires 0 <= i < |params| => L.Num(args[params[i]]))
  }

  // ---- the frame of a call --------------------------------------------------------------------------------

  lemma FrameBinds(params: seq<string>, first: nat, x: string)
    requires Distinct(params)
    ensures var bs := Adopt(params, W.Consecutive(first, |params|));
      && Once(bs) && (x in First(bs) <==> x in params)
      && forall i :: 0 <= i < |params| && params[i] == x ==> x in First(bs) && First(bs)[x] == first + i
  {
    hide First;
    var bs := Adopt(params, W.Consecutive(first, |params|));
    FirstKeys(bs, x);
    var i := IndexOf(bs, x);
    if x in params {
      var j :| 0 <= j < |params| && params[j] == x;
      assert bs[j].name == x;
    }
  }

  lemma FrameHolds(fn: L.Fn, parent: nat, st: W.State, globals: P.View, args: P.View, h: Heap, x: string)
    requires Distinct(fn.params) && args.Keys == (set p | p in fn.params) && Seen(globals, st.heap, parent)
    requires h == st.heap.(cells := st.heap.cells + W.FrameCells(Values(fn.params, args))) && x in globals + args
    ensures var new_ := NewScope(h, W.FrameScope(fn, parent, |st.heap.cells|)); var env := |st.heap.scopes|;
      Holds(new_, env, x, (globals + args)[x]) && FoundIn(fn, |st.heap.cells|, st.heap, parent, new_, env, x)
  {
    hide Found, Lookup, Unrepeated;
    var n := |st.heap.cells|;
    OneFound(fn, parent, n, st.heap, h, x);
    if x in fn.params {
      var i :| 0 <= i < |fn.params| && fn.params[i] == x;
      assert h.cells[n + i] == W.FrameCells(Values(fn.params, args))[i];
    } else {
      assert Holds(st.heap, parent, x, globals[x]);
    }
  }

  lemma FrameUnrepeated(fn: L.Fn, parent: nat, h: Heap, first: nat)
    requires Distinct(fn.params) && Unrepeated(h)
    ensures Unrepeated(NewScope(h, W.FrameScope(fn, parent, first)))
  {
    FrameSingle(fn, parent, first);
    hide Single;
  }

  /** A new frame stands for the globals, seen from the function's scope, and the arguments. */
  lemma FrameStands(fn: L.Fn, parent: nat, st: W.State, globals: P.View, args: P.View)
    requires Distinct(fn.params) && args.Keys == (set p | p in fn.params) && Seen(globals, st.heap, parent)
    ensures var r := W.NewFrame(fn, parent, Values(fn.params, args), st); Stands(globals + args, r.heap, r.env, (globals + args).Keys)
  {
    hide Found, Lookup, Unrepeated, Holds, FoundIn, W.FrameScope, W.FrameCells;
    var r := W.NewFrame(fn, parent, Values(fn.params, args), st);
    var view, n := globals + args, |st.heap.cells|;
    var h := st.heap.(cells := st.heap.cells + W.FrameCells(Values(fn.params, args)));
    assert r.heap == NewScope(h, W.FrameScope(fn, parent, n)) && r.env == |st.heap.scopes|;
    assert Unrepeated(h) by { SameScopesUnrepeated(st.heap, h); }
    FrameUnrepeated(fn, parent, h, n);
    FrameBindsOnly(fn, parent, h, n, view.Keys);
    hide W.NewFrame, W.Kept, BindsOnly;
    forall x | x in view ensures Holds(r.heap, r.env, x, view[x]) && FoundIn(fn, n, st.heap, parent, r.heap, r.env, x) {
      FrameHolds(fn, parent, st, globals, args, h, x);
    }
    forall x, y | x in view && y in view && x != y ensures Lookup(r.heap, r.env, x) != Lookup(r.heap, r.env, y) {
      assert Holds(r.heap, r.env, x, view[x]) && Holds(r.heap, r.env, y, view[y]);
      FoundApart(fn, n, st.heap, parent, globals, r.heap, r.env, x, y);
    }
  }

  lemma FrameBindsOnly(fn: L.Fn, parent: nat, h: Heap, first: nat, names: set<string>)
    requires Distinct(fn.params) && forall p :: p in fn.params ==> p in names
    ensures BindsOnly(NewScope(h, W.FrameScope(fn, parent, first)), |h.scopes|, names)
  {
    hide First;
    forall x ensures x in First(Adopt(fn.params, W.Consecutive(first, |fn.params|))) <==> x in fn.params {
      FrameBinds(fn.params, first, x);
    }
  }

  lemma SameScopesUnrepeated(a: Heap, b: Heap)
    requires Unrepeated(a) && b.scopes == a.scopes
    ensures Unrepeated(b)
  {
    hide Single;
  }

  lemma FoundApart(fn: L.Fn, first: nat, a: Heap, parent: nat, globals: P.View, b: Heap, env: nat, x: string, y: string)
    requires FoundIn(fn, first, a, parent, b, env, x) && FoundIn(fn, first, a, parent, b, env, y) && x != y && first == |a.cells|
    requires Seen(globals, a, parent) && (x in fn.params || x in globals) && (y in fn.params || y in globals)
    ensures Lookup(b, env, x) != Lookup(b, env, y)
  {
    hide Lookup, Unrepeated;
    if x !in fn.params { assert Holds(a, parent, x, globals[x]); }
    if y !in fn.params { assert Holds(a, parent, y, globals[y]); }
  }

  lemma FrameSingle(fn: L.Fn, parent: nat, first: nat)
    requires Distinct(fn.params)
    ensures Single(W.FrameScope(fn, parent, first).stored)
  {
    FrameBinds(fn.params, first, "");
  }

  /** A parameter is in the cell made for it, any other name where it was. */
  ghost predicate FoundIn(fn: L.Fn, first: nat, a: Heap, parent: nat, b: Heap, env: nat, x: string) {
    if x in fn.params then exists i :: 0 <= i < |fn.params| && fn.params[i] == x && Lookup(b, env, x) == L.Some(first + i)
    else Lookup(b, env, x) == Lookup(a, parent, x)
  }

  lemma OneFound(fn: L.Fn, parent: nat, first: nat, a: Heap, h: Heap, x: string)
    requires Distinct(fn.params) && parent < |a.scopes| && h.scopes == a.scopes && first == |a.cells|
    ensures FoundIn(fn, first, a, parent, NewScope(h, W.FrameScope(fn, parent, first)), |a.scopes|, x)
    ensures forall i :: 0 <= i < |fn.params| && fn.params[i] == x ==>
      Lookup(NewScope(h, W.FrameScope(fn, parent, first)), |a.scopes|, x) == L.Some(first + i)
  {
    hide First;
    var scope := W.FrameScope(fn, parent, first);
    FrameBinds(fn.params, first, x);
    LookupNewScope(h, scope, parent, x);
    LookupCells(a, h.cells, parent, x);
    assert h == a.(cells := h.cells);
  }

  // ---- the call ---------------------------------------------------------------------------------------------

  /** With no frame kept for it a call runs its body in a new one. */
  lemma InvokeIs(fn: L.Fn, parent: nat, made: nat, values: seq<L.Value>, line: nat, st: W.State, fuel: nat, lim: W.Limits)
    requires |values| == |fn.params| && st.depth < lim.depth && !W.Reusable(fn, st)
    ensures var start := W.Frame(fn, parent, values, st);
      && start.heap == W.NewFrame(fn, parent, values, st).heap && start.env == W.NewFrame(fn, parent, values, st).env
      && W.Invoke(L.Closure(fn, parent, made), values, line, st, fuel, lim).o
         == W.Returned(W.ExecAll(fn.body, L.Nil, start, fuel, lim).o)
  {
    hide W.ExecAll, W.NewFrame, W.Escapes, W.Reusable;
  }

  ghost function GivenBack(final: P.View): L.Value {
    if "result" in final then L.Num(final["result"]) else L.Nil
  }

  lemma ResultGiven(st: P.Store, result: P.Option<real>, v: L.Value)
    requires SameResult(result, v)
    ensures GivenBack(P.FinalView(st, result)) == v
  {
    hide P.Visible;
  }

  /** The function assigns nothing but what it declares: a parameter cannot be changed. */
  ghost predicate AssignsItsOwn(fn: P.Function, globals: set<string>) {
    Fragment.OkSeq(fn.body, Soundness.Scope(fn, globals), Soundness.Scope(fn, globals))
  }

  /** A call of a function of the fragment is stopped by a limit of the tree-walker, or gives back the value that
      the verifier's call ends with. */
  lemma CallRuns(fn: P.Function, name: string, id: nat, globals: P.View, args: P.View, parent: nat, made: nat, line: nat,
                 st: W.State, fuel: nat, lim: W.Limits)
    requires SharedAll(fn.body) && Soundness.OkFunction(fn, globals.Keys) && AssignsItsOwn(fn, globals.Keys)
    requires args.Keys == (set p | p in fn.params)
    requires P.ExecSeq(fn.body, [globals, args], fuel + 1) != P.Stuck
    requires Seen(globals, st.heap, parent) && !W.Reusable(LowerFn(fn, name, id), st)
    ensures var r := W.Invoke(L.Closure(LowerFn(fn, name, id), parent, made), Values(fn.params, args), line, st, fuel, lim);
      Limited(r.o) ||
      (&& r.o.Done? && P.Call(fn, globals, args, fuel + 1).Some?
       && r.o.value == GivenBack(P.Call(fn, globals, args, fuel + 1).value))
  {
    hide SharedAll, LowerAll, P.ExecSeq, W.ExecAll, Stands, W.Reusable, W.NewFrame, Soundness.OkFunction, L.Binds, P.Visible,
      P.FinalView, Fragment.OkSeq, W.Frame, Fragment.Evolves;
    var low, values := LowerFn(fn, name, id), Values(fn.params, args);
    var g := Soundness.Scope(fn, globals.Keys);
    if st.depth < lim.depth {
      InvokeIs(low, parent, made, values, line, st, fuel, lim);
      OkDistinct(fn, globals.Keys);
      FrameStands(low, parent, st, globals, args);
      Counterexample.BodyOk(fn, globals, args);
      Soundness.TwoScopes(globals, args);
      var start := W.Frame(low, parent, values, st);
      OkAllInScope(fn.body, g, g);
      SeqRuns(fn.body, [globals, args], start, fuel, lim, g, L.Nil);
      Fragment.SeqKeeps(fn.body, [globals, args], fuel + 1, g);
      var o, r := P.ExecSeq(fn.body, [globals, args], fuel + 1), W.ExecAll(low.body, L.Nil, start, fuel, lim);
      if o.Normal? {
        ResultGiven(o.st, P.None, L.Nil);
      } else if o.Returned? && r.o.Returning? && SameResult(o.result, r.o.result) {
        ResultGiven(o.st, o.result, r.o.result);
      }
    }
  }

  lemma OkDistinct(fn: P.Function, globals: set<string>)
    requires Soundness.OkFunction(fn, globals)
    ensures Distinct(fn.params)
  {
  }

  /** A function of the fragment that is proved without unknowns, and in which nothing is passed over, keeps its
      promise in the interpreter: called on numbers that meet its precondition, the tree-walker runs into one of
      its limits, or gives back a value with which every postcondition is true that reads the globals, the
      parameters, what `old` captured and, where every path returns a value, the result. It fails in no other
      way. */
  lemma ProvedInInterpreter(fn: P.Function, name: string, id: nat, globals: P.View, args: P.View, parent: nat, made: nat,
                            line: nat, st: W.State, fuel: nat, lim: W.Limits, maxAtoms: nat, budget: nat)
    requires SharedAll(fn.body) && Fragment.AllExamined(fn.body) && AssignsItsOwn(fn, globals.Keys)
    requires Soundness.OkFunction(fn, globals.Keys) && VcGen.Proved(fn, maxAtoms, budget) && VcGen.Conditions(fn).unknowns == {}
    requires Verdicts.CalledRight(fn, globals.Keys, globals, args)
    requires Seen(globals, st.heap, parent) && !W.Reusable(LowerFn(fn, name, id), st)
    ensures var r := W.Invoke(L.Closure(LowerFn(fn, name, id), parent, made), Values(fn.params, args), line, st, fuel, lim);
      Limited(r.o) ||
      (&& r.o.Done? && P.Call(fn, globals, args, fuel + 1).Some?
       && r.o.value == GivenBack(P.Call(fn, globals, args, fuel + 1).value)
       && Verdicts.Fulfilled(fn, globals, args, P.Call(fn, globals, args, fuel + 1).value))
  {
    hide SharedAll, LowerAll, P.ExecSeq, Stands, W.Reusable, Soundness.OkFunction, Fragment.AllExamined, VcGen.Proved,
      VcGen.Conditions, P.Call, W.Invoke, Descent.SeqDescends, Verdicts.Fulfilled, P.EvalTest;
    Descent.FunctionDescends(fn, globals, args, fuel + 1, maxAtoms, budget);
    CallRuns(fn, name, id, globals, args, parent, made, line, st, fuel, lim);
    Verdicts.ProvedKeeps(fn, globals.Keys, maxAtoms, budget);
    assert P.Call(fn, globals, args, fuel + 1).Some? ==>
      Verdicts.Fulfilled(fn, globals, args, P.Call(fn, globals, args, fuel + 1).value);
  }
}
