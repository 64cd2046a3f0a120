/** The frame a call runs in, whether it is new or an earlier call's taken back: it hangs under the function's own
    scope, binds the parameters in order to the arguments and nothing else, and making it disturbs nothing but
    itself. */
module Frames {
  import opened Lang
  import opened Bindings
  import opened Scopes
  import opened Walker

  /** The scope binds the parameters, in order, each in a cell that holds its argument. */
  ghost predicate Binding(s: Scope, cells: seq<Cell>, params: seq<string>, args: seq<Value>)
    requires |params| == |args|
  {
    && s.stored.Arrays? && |s.stored.bound| == |params|
    && forall i :: 0 <= i < |params| ==>
      var b := s.stored.bound[i]; b.name == params[i] && b.to < |cells| && cells[b.to].value == args[i]
  }

  /** The other scopes are as they were, and so are the cells that the frame does not bind. */
  ghost predicate Undisturbed(before: Heap, after: Heap, env: nat, bs: seq<Bound<nat>>) {
    && |before.scopes| <= |after.scopes| && |before.cells| <= |after.cells|
    && (forall e :: 0 <= e < |before.scopes| && e != env ==> after.scopes[e] == before.scopes[e])
    && forall c :: 0 <= c < |before.cells| && Elsewhere(bs, c) ==> after.cells[c] == before.cells[c]
  }

  ghost predicate Elsewhere(bs: seq<Bound<nat>>, cell: nat) {
    forall i :: 0 <= i < |bs| ==> bs[i].to != cell
  }

  ghost predicate Proper(fn: Fn, parent: nat, args: seq<Value>, before: Heap, after: Heap, env: nat)
    requires |args| == |fn.params|
  {
    && env < |after.scopes| && after.scopes[env].parent == Some(parent)
    && Binding(after.scopes[env], after.cells, fn.params, args)
    && Undisturbed(before, after, env, after.scopes[env].stored.bound)
  }

  lemma {:induction false} FillHolds(h: Heap, bs: seq<Bound<nat>>, args: seq<Value>, i: nat)
    requires |bs| == |args| && i < |bs|
    requires forall k :: 0 <= k < |bs| ==> bs[k].to < |h.cells|
    requires forall k, l :: 0 <= k < l < |bs| ==> bs[k].to != bs[l].to
    ensures |Fill(h, bs, args).cells| == |h.cells| && Fill(h, bs, args).cells[bs[i].to].value == args[i]
    decreases |bs|
  {
    var h', rest, more := Write(h, bs[0].to, args[0]), bs[1..], args[1..];
    assert forall k :: 0 <= k < |rest| ==> rest[k] == bs[k + 1];
    if i == 0 {
      FillOthers(h', rest, more, bs[0].to);
    } else {
      FillHolds(h', rest, more, i - 1);
    }
  }

  lemma NewProper(fn: Fn, parent: nat, args: seq<Value>, st: State)
    requires |args| == |fn.params|
    ensures var r := NewFrame(fn, parent, args, st); Proper(fn, parent, args, st.heap, r.heap, r.env)
  {
    hide Kept, Adopt, Consecutive;
    var r := NewFrame(fn, parent, args, st);
    var first := |st.heap.cells|;
    var bs := r.heap.scopes[r.env].stored.bound;
    NewBound(fn.params, first);
    forall i | 0 <= i < |args| ensures bs[i] == Bound(fn.params[i], first + i) && r.heap.cells[first + i].value == args[i] {
      assert r.heap.cells[first + i] == FrameCells(args)[i];
    }
  }

  lemma NewBound(params: seq<string>, first: nat)
    ensures var bs := Adopt(params, Consecutive(first, |params|));
      forall i :: 0 <= i < |params| ==> bs[i] == Bound(params[i], first + i)
  {
  }

  ghost predicate InOwnCells(bs: seq<Bound<nat>>, size: nat) {
    && (forall i :: 0 <= i < |bs| ==> bs[i].to < size)
    && (forall i, j :: 0 <= i < j < |bs| ==> bs[i].to != bs[j].to)
  }

  lemma Filled(h: Heap, bs: seq<Bound<nat>>, args: seq<Value>)
    requires |bs| == |args| && InOwnCells(bs, |h.cells|)
    ensures var end := Fill(h, bs, args);
      && end.scopes == h.scopes && |end.cells| == |h.cells|
      && (forall i :: 0 <= i < |bs| ==> end.cells[bs[i].to].value == args[i])
      && forall c :: 0 <= c < |h.cells| && Elsewhere(bs, c) ==> end.cells[c] == h.cells[c]
  {
    hide Fill;
    var end := Fill(h, bs, args);
    FillScopes(h, bs, args);
    forall i | 0 <= i < |bs| ensures end.cells[bs[i].to].value == args[i] { FillHolds(h, bs, args, i); }
    forall c | 0 <= c < |h.cells| && Elsewhere(bs, c) ensures end.cells[c] == h.cells[c] { FillOthers(h, bs, args, c); }
  }

  lemma PrefixOwn(st: State, env: nat, params: seq<string>)
    requires Sane(st) && env < |st.heap.scopes| && st.heap.scopes[env].stored.Arrays? && st.heap.scopes[env].params == Some(params)
    ensures var bs := Retake(st.heap.scopes[env].stored.bound, params);
      && |bs| == |params| && InOwnCells(bs, |st.heap.cells|) && forall i :: 0 <= i < |bs| ==> bs[i].name == params[i]
  {
    hide RangeBound, Pooled, BuiltinCell;
    assert FrameOk(st.heap.scopes[env], RangeCell(st), |st.heap.cells|);
    hide Framed;
    RetakeBegins(st.heap.scopes[env].stored.bound, params);
  }

  lemma RetakenProper(fn: Fn, parent: nat, env: nat, args: seq<Value>, st: State)
    requires |args| == |fn.params| && env < |st.heap.scopes| && st.heap.scopes[env].stored.Arrays?
    requires Sane(st) && st.heap.scopes[env].params == Some(fn.params) && st.heap.scopes[env].parent == Some(parent)
    ensures Proper(fn, parent, args, st.heap, Retaken(fn, env, args, st).heap, env)
  {
    PrefixOwn(st, env, fn.params);
    hide Kept, Sane, Retake, InOwnCells, Fill, Elsewhere;
    var bs: seq<Bound<nat>> := Retake(st.heap.scopes[env].stored.bound, fn.params);
    Filled(Holding(st.heap, env, Arrays(bs)), bs, args);
    assert forall i :: 0 <= i < |bs| ==> bs[i].to < |st.heap.cells| by { Own(bs, |st.heap.cells|); }
  }

  lemma Own(bs: seq<Bound<nat>>, size: nat)
    requires InOwnCells(bs, size)
    ensures forall i :: 0 <= i < |bs| ==> bs[i].to < size
  {
  }

  /** Whatever the pools hold, the frame of a call is a proper one, and none that is kept for another depth, where
      a caller may be standing in it. */
  lemma FrameProper(fn: Fn, parent: nat, args: seq<Value>, st: State)
    requires Sane(st) && |args| == |fn.params|
    ensures var r := Frame(fn, parent, args, st);
      && Proper(fn, parent, args, st.heap, r.heap, r.env)
      && forall k :: k in st.pools.frames && k != (fn, st.depth) ==> st.pools.frames[k] != r.env
  {
    hide Kept, Proper, Captures, NewFrame, Retaken, RangeBound, Framed;
    NewProper(fn, parent, args, st);
    if !Escapes(fn, parent, st.pools) && Reusable(fn, st) {
      var k := (fn, st.depth);
      assert PooledOk(st.heap, st.pools, k);
      RetakenProper(fn, parent, st.pools.frames[k], args, st);
    }
  }
}
