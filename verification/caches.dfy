/** Inline caches over any sequence of scope operations: a cache whose counter has not moved answers what a
    full walk would, including after the operations that move no counter, as long as no parameter list
    repeats a name; and for every list that does, a run of operations after which it does not. */
module Caches {
  import opened Lang
  import opened Bindings
  import opened Scopes

  datatype Step =
    | New(parent: Option<nat>)
    | PutSlot(env: nat, name: string, cell: nat)
    | ClearVars(env: nat)
    | DeleteVar(env: nat, name: string)
    | ViewVars(env: nat)
    | AdoptFrame(env: nat, params: seq<string>, cells: seq<nat>)
    | ReuseFrame(env: nat)
    | WriteCell(cell: nat, value: Value)
    | Read(site: nat, name: string, env: nat)

  /** The heap, the counters, and what each occurrence of a name remembers. */
  datatype System = System(heap: Heap, versions: Versions, caches: map<(nat, string), Cache>)

  function CacheAt(s: System, site: nat, name: string): Cache {
    if (site, name) in s.caches then s.caches[(site, name)] else Cold
  }

  /** Nothing has looked through the scope: no scope hangs off it and no site remembers it. */
  ghost predicate Untouched(s: System, env: nat) {
    && (forall e :: 0 <= e < |s.heap.scopes| ==> s.heap.scopes[e].parent != Some(env))
    && (forall k :: k in s.caches && s.caches[k].Warm? ==> s.caches[k].env != env)
  }

  /** The frame of a call, stored in order, with room for its parameters. */
  ghost predicate IsFrame(s: System, env: nat) {
    && env < |s.heap.scopes| && s.heap.scopes[env].stored.Arrays? && s.heap.scopes[env].params.Some?
    && |s.heap.scopes[env].params.value| <= |s.heap.scopes[env].stored.bound|
  }

  ghost predicate Enabled(s: System, step: Step) {
    match step
    case New(parent) => parent.Some? ==> parent.value < |s.heap.scopes|
    case PutSlot(env, _, _) => env < |s.heap.scopes|
    case ClearVars(env) => env < |s.heap.scopes|
    case DeleteVar(env, _) => env < |s.heap.scopes|
    case ViewVars(env) => env < |s.heap.scopes|
    case AdoptFrame(env, params, cells) => env < |s.heap.scopes| && Untouched(s, env) && |params| == |cells|
    case ReuseFrame(env) => IsFrame(s, env) && Begins(s.heap.scopes[env].stored.bound, s.heap.scopes[env].params.value)
    case _ => true
  }

  /** What a read answers: the remembered cell on a hit, a full walk otherwise. */
  function Answer(s: System, site: nat, name: string, env: nat): Option<nat> {
    var c := CacheAt(s, site, name);
    if Hit(c, s.versions, env, name) then Some(c.cell) else Lookup(s.heap, env, name)
  }

  function Do(s: System, step: Step): System {
    match step
    case New(parent) => s.(heap := NewScope(s.heap, Scope(parent, Arrays([]), None)))
    case PutSlot(env, name, cell) => s.(heap := PutIn(s.heap, env, name, cell), versions := Bump(s.versions, multiset{name}))
    case ClearVars(env) => s.(heap := ClearIn(s.heap, env), versions := Bump(s.versions, Held(StoredAt(s.heap, env))))
    case DeleteVar(env, name) =>
      if name !in Slots(s.heap, env) then s else
        s.(heap := Holding(s.heap, env, Delete(StoredAt(s.heap, env), name)), versions := Bump(s.versions, multiset{name}))
    case ViewVars(env) => s.(heap := Holding(s.heap, env, View(StoredAt(s.heap, env))))
    case AdoptFrame(env, params, cells) =>
      if env >= |s.heap.scopes| || |params| != |cells| then s else s.(heap := Adopted(s.heap, env, params, cells))
    case ReuseFrame(env) => Reused(s, env)
    case WriteCell(cell, value) => s.(heap := Write(s.heap, cell, value))
    case Read(site, name, env) =>
      var found := Lookup(s.heap, env, name);
      if Hit(CacheAt(s, site, name), s.versions, env, name) || found.None? then s else
        s.(caches := s.caches[(site, name) := Warm(env, Version(s.versions, name), found.value)])
  }

  function Adopted(h: Heap, env: nat, params: seq<string>, cells: seq<nat>): Heap
    requires env < |h.scopes| && |params| == |cells|
  {
    h.(scopes := h.scopes[env := Scope(h.scopes[env].parent, Arrays(Adopt(params, cells)), Some(params))])
  }

  /** The counters of what is bound past the parameters move. */
  function Reused(s: System, env: nat): System {
    if env >= |s.heap.scopes| then s else
    match s.heap.scopes[env]
    case Scope(_, Arrays(bs), Some(params)) =>
      if |params| > |bs| then s else
        System(Holding(s.heap, env, Arrays(Retake(bs, params))), Bump(s.versions, Names(bs[|params|..])), s.caches)
    case _ => s
  }

  ghost predicate AllCoherent(s: System) {
    forall k :: k in s.caches ==> Coherent(s.heap, s.versions, k.1, s.caches[k])
  }

  ghost predicate Runs(s: System, steps: seq<Step>)
    decreases |steps|
  {
    steps == [] || (Enabled(s, steps[0]) && Runs(Do(s, steps[0]), steps[1..]))
  }

  function Run(s: System, steps: seq<Step>): System
    decreases |steps|
  {
    if steps == [] then s else Run(Do(s, steps[0]), steps[1..])
  }

  /** No frame is made for a parameter list that repeats a name. */
  ghost predicate NoRepeats(steps: seq<Step>) {
    forall i :: 0 <= i < |steps| && steps[i].AdoptFrame? ==> Distinct(steps[i].params)
  }

  const EMPTY := System(Heap([], []), map[], map[])

  // ---- the operations that bump nothing, or not everything ----------------------------------------------------

  lemma {:induction false} NotAbove(s: System, from: nat, env: nat)
    requires from != env && forall e :: 0 <= e < |s.heap.scopes| ==> s.heap.scopes[e].parent != Some(env)
    ensures !Above(s.heap, from, env)
    decreases from
  {
    if from < |s.heap.scopes| && s.heap.scopes[from].parent.Some? && s.heap.scopes[from].parent.value < from {
      NotAbove(s, s.heap.scopes[from].parent.value, env);
    }
  }

  /** A frame nothing has looked through cannot be what a cache depends on. */
  lemma AdoptKeeps(s: System, env: nat, params: seq<string>, cells: seq<nat>)
    requires AllCoherent(s) && Enabled(s, AdoptFrame(env, params, cells))
    ensures AllCoherent(Do(s, AdoptFrame(env, params, cells)))
  {
    hide Lookup, Above, Adopt;
    var t := Do(s, AdoptFrame(env, params, cells));
    forall k | k in t.caches ensures Coherent(t.heap, t.versions, k.1, t.caches[k]) {
      var c := s.caches[k];
      assert Coherent(s.heap, s.versions, k.1, c);
      if c.Warm? {
        NotAbove(s, c.env, env);
        LookupElsewhere(s.heap, env, t.heap.scopes[env], c.env, k.1);
      }
    }
  }

  /** Taking a frame back: its parameters keep their cells, so only the names dropped need their counters
      moved. */
  lemma ReuseKeeps(s: System, env: nat)
    requires AllCoherent(s) && Enabled(s, ReuseFrame(env))
    ensures AllCoherent(Do(s, ReuseFrame(env)))
  {
    hide Coherent, Holding, Names, Retake, Bump;
    var t := Do(s, ReuseFrame(env));
    var params := s.heap.scopes[env].params.value;
    forall k | k in t.caches ensures Coherent(t.heap, t.versions, k.1, t.caches[k]) {
      CoherentRetake(s.heap, s.versions, env, params, k.1, s.caches[k]);
    }
  }

  /** Looking at a scope as a map moves no counter, and need not while no name is bound twice. */
  lemma ViewKeeps(s: System, env: nat)
    requires AllCoherent(s) && Unrepeated(s.heap) && Enabled(s, ViewVars(env))
    ensures AllCoherent(Do(s, ViewVars(env)))
  {
    hide Coherent, Holding, View;
    var t := Do(s, ViewVars(env));
    var stored := StoredAt(s.heap, env);
    FoundView(stored);
    forall k | k in t.caches ensures Coherent(t.heap, t.versions, k.1, t.caches[k]) {
      CoherentHolding(s.heap, s.versions, env, View(stored), multiset{}, k.1, s.caches[k]);
      CoherentSame(t.heap, Bump(s.versions, multiset{}), s.versions, k.1, s.caches[k]);
    }
  }

  lemma CoherentSame(h: Heap, a: Versions, b: Versions, name: string, c: Cache)
    requires Coherent(h, a, name, c) && Version(a, name) == Version(b, name)
    ensures Coherent(h, b, name, c)
  {
  }

  lemma DeleteKeeps(s: System, env: nat, name: string)
    requires AllCoherent(s)
    ensures AllCoherent(Do(s, DeleteVar(env, name)))
  {
    hide Coherent, Holding, Delete, Bump, Found;
    if name in Slots(s.heap, env) {
      var t := Do(s, DeleteVar(env, name));
      var stored := StoredAt(s.heap, env);
      forall k | k in t.caches ensures Coherent(t.heap, t.versions, k.1, t.caches[k]) {
        if k.1 != name { DeleteOthers(stored, name, k.1); }
        CoherentHolding(s.heap, s.versions, env, Delete(stored, name), multiset{name}, k.1, s.caches[k]);
      }
    }
  }

  lemma ReadKeeps(s: System, site: nat, name: string, env: nat)
    requires AllCoherent(s)
    ensures AllCoherent(Do(s, Read(site, name, env)))
  {
    var t := Do(s, Read(site, name, env));
    forall k | k in t.caches ensures Coherent(t.heap, t.versions, k.1, t.caches[k]) {
      if k in s.caches {
        assert Coherent(s.heap, s.versions, k.1, s.caches[k]);
      }
    }
  }

  lemma StepKeeps(s: System, step: Step)
    requires AllCoherent(s) && Unrepeated(s.heap) && Enabled(s, step)
    ensures AllCoherent(Do(s, step))
  {
    hide Coherent, Put, Clear, Bump, NewScope, PutIn, ClearIn, Found;
    match step
    case AdoptFrame(env, params, cells) => AdoptKeeps(s, env, params, cells);
    case ReuseFrame(env) => ReuseKeeps(s, env);
    case ViewVars(env) => ViewKeeps(s, env);
    case DeleteVar(env, name) => DeleteKeeps(s, env, name);
    case Read(site, name, env) => ReadKeeps(s, site, name, env);
    case _ =>
      var t := Do(s, step);
      forall k | k in t.caches ensures Coherent(t.heap, t.versions, k.1, t.caches[k]) {
        var c := s.caches[k];
        match step
        case New(parent) => CoherentNewScope(s.heap, s.versions, Scope(parent, Arrays([]), None), k.1, c);
        case PutSlot(env, name, cell) => CoherentPut(s.heap, s.versions, env, name, cell, k.1, c);
        case ClearVars(env) => CoherentClear(s.heap, s.versions, env, k.1, c);
        case WriteCell(cell, value) => CoherentCells(s.heap, s.versions, t.heap.cells, k.1, c);
      }
  }

  /** No scope comes to bind a name twice. */
  lemma StepOnce(s: System, step: Step)
    requires Unrepeated(s.heap) && Enabled(s, step) && (step.AdoptFrame? ==> Distinct(step.params))
    ensures Unrepeated(Do(s, step).heap)
  {
    hide Put, View, Delete, Retake, Found, Once, Adopt, Bump, Holding;
    match step
    case PutSlot(env, name, cell) =>
      FoundPut(StoredAt(s.heap, env), name, cell);
      HoldingSingle(s.heap, env, Put(StoredAt(s.heap, env), name, cell));
    case ViewVars(env) =>
      FoundView(StoredAt(s.heap, env));
      HoldingSingle(s.heap, env, View(StoredAt(s.heap, env)));
    case DeleteVar(env, name) =>
      FoundDelete(StoredAt(s.heap, env), name);
      HoldingSingle(s.heap, env, Delete(StoredAt(s.heap, env), name));
    case AdoptFrame(env, params, cells) => AdoptOnce(params, cells);
    case ReuseFrame(env) =>
      var scope := s.heap.scopes[env];
      assert Single(scope.stored);
      RetakeBegins(scope.stored.bound, scope.params.value);
      HoldingSingle(s.heap, env, Arrays(Retake(scope.stored.bound, scope.params.value)));
    case ClearVars(env) =>
      NothingOnce();
      HoldingSingle(s.heap, env, Clear(StoredAt(s.heap, env)));
    case New(_) => NothingOnce();
    case _ =>
  }

  lemma NothingOnce()
    ensures Once<nat>([])
  {
  }

  /** However scopes are made, filled, cleared, viewed, borrowed and taken back, a read answers what a full walk
      of the chain finds, if no parameter list repeats a name. */
  lemma {:induction false} ReadsRight(s: System, steps: seq<Step>)
    requires AllCoherent(s) && Unrepeated(s.heap) && Runs(s, steps) && NoRepeats(steps)
    ensures AllCoherent(Run(s, steps)) && Unrepeated(Run(s, steps).heap)
    ensures forall site: nat, name: string, env: nat :: Answer(Run(s, steps), site, name, env) == Lookup(Run(s, steps).heap, env, name)
    decreases |steps|
  {
    hide Unrepeated, Enabled, Do, Lookup;
    if steps != [] {
      StepKeeps(s, steps[0]);
      StepOnce(s, steps[0]);
      ReadsRight(Do(s, steps[0]), steps[1..]);
    } else {
      forall site: nat, name: string, env: nat ensures Answer(s, site, name, env) == Lookup(s.heap, env, name) {
        if (site, name) in s.caches {
          assert Coherent(s.heap, s.versions, (site, name).1, s.caches[(site, name)]);
        }
      }
    }
  }

  lemma ReadsRightFromStart(steps: seq<Step>, site: nat, name: string, env: nat)
    requires Runs(EMPTY, steps) && NoRepeats(steps)
    ensures Answer(Run(EMPTY, steps), site, name, env) == Lookup(Run(EMPTY, steps).heap, env, name)
  {
    ReadsRight(EMPTY, steps);
  }

  // ---- the condition on parameter lists is needed ---------------------------------------------------------------

  lemma Then(s: System, steps: seq<Step>, step: Step)
    requires Runs(s, steps) && Enabled(Run(s, steps), step)
    ensures Runs(s, steps + [step]) && Run(s, steps + [step]) == Do(Run(s, steps), step)
    decreases |steps|
  {
    hide Enabled, Do;
    var more := steps + [step];
    if steps == [] {
      assert more[1..] == [];
    } else {
      assert more[0] == steps[0] && more[1..] == steps[1..] + [step];
      Then(Do(s, steps[0]), steps[1..], step);
    }
  }

  lemma {:induction false} ThenAll(s: System, steps: seq<Step>, more: seq<Step>)
    requires Runs(s, steps) && Runs(Run(s, steps), more)
    ensures Runs(s, steps + more) && Run(s, steps + more) == Run(Run(s, steps), more)
    decreases |more|
  {
    hide Enabled, Do;
    if more == [] {
      assert steps + more == steps;
    } else {
      Then(s, steps, more[0]);
      ThenAll(s, steps + [more[0]], more[1..]);
      assert steps + [more[0]] + more[1..] == steps + more;
    }
  }

  /** A name longer than all that are bound. */
  function NewName<T>(bs: seq<Bound<T>>): string {
    if bs == [] then "" else
      var rest := NewName(bs[1..]);
      if |bs[0].name| >= |rest| then bs[0].name + "_" else rest
  }

  lemma {:induction false} NewNameNew<T>(bs: seq<Bound<T>>)
    ensures forall i :: 0 <= i < |bs| ==> |bs[i].name| < |NewName(bs)|
  {
    if bs != [] {
      NewNameNew(bs[1..]);
      forall i | 0 <= i < |bs| ensures |bs[i].name| < |NewName(bs)| {
        if i > 0 { assert bs[i] == bs[1..][i - 1]; }
      }
    }
  }

  /** A frame at the root and a scope under it, through which one site has found the first binding of x. */
  ghost predicate Looked(s: System, bs: seq<Bound<nat>>, x: string, cell: nat) {
    && |s.heap.scopes| == 2 && s.heap.scopes[0].stored == Arrays(bs) && s.heap.scopes[0].parent == None
    && s.heap.scopes[1].stored == Arrays([]) && s.heap.scopes[1].parent == Some(0)
    && CacheAt(s, 0, x) == Warm(1, Version(s.versions, x), cell)
    && x in Last(bs) && Last(bs)[x] != cell
  }

  ghost predicate OnlyPuts(steps: seq<Step>) {
    forall i :: 0 <= i < |steps| ==> steps[i].PutSlot?
  }

  lemma LookupThrough(h: Heap, x: string)
    requires |h.scopes| == 2 && h.scopes[1].stored == Arrays([]) && h.scopes[1].parent == Some(0)
    ensures x in Slots(h, 0) ==> Lookup(h, 1, x) == Some(Slots(h, 0)[x])
  {
    assert First<nat>([]) == map[];
    assert x in Slots(h, 0) ==> Lookup(h, 0, x) == Some(Slots(h, 0)[x]);
  }

  /** Binding other names until the scope becomes a map: the counter of x stays where it was, and the site goes
      on answering for the first binding while a walk finds the last. */
  lemma {:induction false} Crowd(s: System, bs: seq<Bound<nat>>, x: string, cell: nat) returns (steps: seq<Step>)
    requires Looked(s, bs, x, cell) && !Bare(bs, x)
    ensures OnlyPuts(steps) && Runs(s, steps)
    ensures var t := Run(s, steps); Answer(t, 0, x, 1) == Some(cell) && Lookup(t.heap, 1, x) == Some(Last(bs)[x])
    decreases SMALL - |bs|
  {
    hide Last, Lookup, Runs, Run, Bump;
    var n := NewName(bs);
    NewNameNew(bs);
    var step := PutSlot(0, n, 0);
    var t := Do(s, step);
    assert IndexOf(bs, n) == |bs|;
    hide IndexOf;
    assert n != x;
    OneStep(s, step);
    assert CacheAt(t, 0, x) == Warm(1, Version(t.versions, x), cell);
    if |bs| >= SMALL {
      steps := [step];
      assert t.heap.scopes[0].stored == Mapped(Last(bs)[n := 0]);
      LookupThrough(t.heap, x);
    } else {
      var more := bs + [Bound(n, 0)];
      assert more[..|bs|] == bs;
      assert Last(more) == Last(bs)[n := 0] by { LastMore(bs, Bound(n, 0)); }
      var k :| 0 <= k < |bs| && bs[k].name == x;
      assert more[k].name == x;
      var rest := Crowd(t, more, x, cell);
      steps := [step] + rest;
      assert [step][0] == step;
      ThenAll(s, [step], rest);
    }
  }

  lemma LastMore(bs: seq<Bound<nat>>, b: Bound<nat>)
    ensures Last(bs + [b]) == Last(bs)[b.name := b.to]
  {
    assert (bs + [b])[..|bs|] == bs;
  }

  lemma OneStep(s: System, step: Step)
    requires Enabled(s, step)
    ensures Runs(s, [step]) && Run(s, [step]) == Do(s, step)
  {
    hide Enabled, Do;
    assert Runs(Do(s, step), []) && Run(Do(s, step), []) == Do(s, step);
    assert [step][1..] == [];
  }

  /** Whatever parameter list repeats a name: let a frame be made for it, a scope under it look the name up, and
      the frame come to bind more than eight names. Then the site's cache, its counter unmoved, answers for the
      first parameter of that name, and a walk finds the last. */
  lemma RepeatsMislead(params: seq<string>, cells: seq<nat>) returns (steps: seq<Step>, x: string)
    requires |params| == |cells| && !Distinct(params)
    requires forall i, j :: 0 <= i < j < |cells| ==> cells[i] != cells[j]
    ensures Runs(EMPTY, steps) && forall i :: 0 <= i < |steps| && steps[i].AdoptFrame? ==> steps[i].params == params
    ensures x in params && Answer(Run(EMPTY, steps), 0, x, 1) != Lookup(Run(EMPTY, steps).heap, 1, x)
  {
    hide Runs, Run, Do, Enabled, Lookup, First, Last;
    var bs := Adopt(params, cells);
    var i, j :| 0 <= i < j < |params| && params[i] == params[j];
    x := params[i];
    assert bs[i].name == x && bs[j].name == x;
    var k := LastOf(bs, j);
    LastAt(bs, k);
    var f := IndexOf(bs, x);
    FirstAt(bs, x, f);
    assert bs[f].to == cells[f] && bs[k].to == cells[k] && f < k;
    var s;
    steps, s := LookThrough(params, cells, x);
    var more := Crowd(s, bs, x, cells[f]);
    ThenAll(EMPTY, steps, more);
    steps := steps + more;
  }

  lemma LookThrough(params: seq<string>, cells: seq<nat>, x: string) returns (steps: seq<Step>, s: System)
    requires |params| == |cells| && x in First(Adopt(params, cells))
    requires x in Last(Adopt(params, cells)) && Last(Adopt(params, cells))[x] != First(Adopt(params, cells))[x]
    ensures Runs(EMPTY, steps) && Run(EMPTY, steps) == s
    ensures forall i :: 0 <= i < |steps| && steps[i].AdoptFrame? ==> steps[i].params == params
    ensures Looked(s, Adopt(params, cells), x, First(Adopt(params, cells))[x])
  {
    hide Runs, Run, First, Last, Lookup, Adopt;
    var bs := Adopt(params, cells);
    steps := [New(None), AdoptFrame(0, params, cells), New(Some(0)), Read(0, x, 1)];
    var s1 := Do(EMPTY, steps[0]);
    var s2 := Do(s1, steps[1]);
    var s3 := Do(s2, steps[2]);
    s := Do(s3, steps[3]);
    assert s3.heap.scopes == [Scope(None, Arrays(bs), Some(params)), Scope(Some(0), Arrays([]), None)];
    LookupThrough(s3.heap, x);
    OneStep(EMPTY, steps[0]);
    Then(EMPTY, steps[..1], steps[1]) by { assert steps[..1] == [steps[0]]; }
    assert steps[..1] == [steps[0]] && steps[..2] == steps[..1] + [steps[1]];
    Then(EMPTY, steps[..2], steps[2]);
    assert steps[..3] == steps[..2] + [steps[2]];
    Then(EMPTY, steps[..3], steps[3]);
    assert steps == steps[..3] + [steps[3]];
  }

  // ---- and so is the condition on taking a frame back -----------------------------------------------------------

  /** If a parameter was removed from the frame in between, taking the frame back puts it there again with
      its counter where it was, and a cache that meanwhile saw through the frame goes on answering for the
      outer binding. */
  lemma ReuseNeedsParameters()
    ensures exists steps: seq<Step> ::
      && Runs(EMPTY, steps) && NoRepeats(steps) && IsFrame(Run(EMPTY, steps), 1)
      && var s := Do(Run(EMPTY, steps), ReuseFrame(1));
         Answer(s, 0, "x", 1) != Lookup(s.heap, 1, "x")
  {
    var steps, s := Removed();
    var t := Do(s, ReuseFrame(1));
    assert Retake([Bound("a", 2)], ["x"]) == [Bound("x", 2)];
    assert t.heap.scopes[1].stored == Arrays([Bound("x", 2)]);
    assert First([Bound("x", 2)]) == map["x" := 2] by { assert First([Bound("x", 2)][1..]) == map[]; }
    assert [Bound("a", 2)][1..] == [];
  }

  const FRAMELESS := [New(None), PutSlot(0, "x", 0), New(Some(0))]
  const REMOVING := [AdoptFrame(1, ["x"], [1]), PutSlot(1, "a", 2), DeleteVar(1, "x"), Read(0, "x", 1)]

  lemma Frameless() returns (s: System)
    ensures Runs(EMPTY, FRAMELESS) && Run(EMPTY, FRAMELESS) == s && s.caches == map[]
    ensures |s.heap.scopes| == 2 && s.heap.scopes[0] == Scope(None, Arrays([Bound("x", 0)]), None)
    ensures s.heap.scopes[1] == Scope(Some(0), Arrays([]), None)
  {
    hide Bump, Runs, Run;
    var s1 := Do(EMPTY, FRAMELESS[0]);
    var s2 := Do(s1, FRAMELESS[1]);
    assert IndexOf<nat>([], "x") == 0;
    assert [] + [Bound("x", 0)] == [Bound("x", 0)];
    s := Do(s2, FRAMELESS[2]);
    Three(EMPTY, FRAMELESS, s1, s2);
  }

  lemma Removed() returns (steps: seq<Step>, s: System)
    ensures Runs(EMPTY, steps) && Run(EMPTY, steps) == s && NoRepeats(steps)
    ensures |s.heap.scopes| == 2 && s.heap.scopes[1] == Scope(Some(0), Arrays([Bound("a", 2)]), Some(["x"]))
    ensures CacheAt(s, 0, "x") == Warm(1, Version(s.versions, "x"), 0)
  {
    hide Runs, Run, Lookup, Bump, First, Adopt;
    var s3 := Frameless();
    var s4 := Do(s3, REMOVING[0]);
    assert Adopt<nat>(["x"], [1]) == [Bound("x", 1)] by { AdoptedOne(); }
    FirstAt<nat>([Bound("x", 1)], "a", 1);
    var s5 := Do(s4, REMOVING[1]);
    assert [Bound("x", 1)] + [Bound("a", 2)] == [Bound("x", 1), Bound("a", 2)];
    FirstAt<nat>([Bound("x", 1), Bound("a", 2)], "x", 0);
    assert s5.heap.scopes[1] == Scope(Some(0), Arrays([Bound("x", 1), Bound("a", 2)]), Some(["x"])) && |s5.heap.scopes| == 2;
    assert s5.heap.scopes[0] == s3.heap.scopes[0];
    hide IndexOf;
    var s6 := Do(s5, REMOVING[2]);
    assert [Bound("x", 1), Bound("a", 2)][..0] + [Bound("x", 1), Bound("a", 2)][1..] == [Bound("a", 2)];
    assert s6.heap.scopes[1].stored == Arrays([Bound("a", 2)]);
    assert REMOVING[..3][0] == REMOVING[0] && REMOVING[..3][1] == REMOVING[1] && REMOVING[..3][2] == REMOVING[2];
    Three(s3, REMOVING[..3], s4, s5);
    Outer(s6.heap);
    s := Do(s6, REMOVING[3]);
    ThenAll(EMPTY, FRAMELESS, REMOVING[..3]);
    steps := FRAMELESS + REMOVING[..3];
    Then(EMPTY, steps, REMOVING[3]);
    steps := steps + [REMOVING[3]];
    assert NoRepeats(steps) by { assert forall i :: 0 <= i < |steps| && steps[i].AdoptFrame? ==> steps[i] == REMOVING[0]; }
  }

  lemma AdoptedOne()
    ensures Adopt<nat>(["x"], [1]) == [Bound("x", 1)]
  {
  }

  lemma Outer(h: Heap)
    requires |h.scopes| == 2 && h.scopes[0] == Scope(None, Arrays([Bound("x", 0)]), None)
    requires h.scopes[1].stored == Arrays([Bound("a", 2)]) && h.scopes[1].parent == Some(0)
    ensures Lookup(h, 1, "x") == Some(0)
  {
    FirstAt<nat>([Bound("x", 0)], "x", 0);
    FirstAt<nat>([Bound("a", 2)], "x", 1);
    assert Lookup(h, 0, "x") == Some(0);
  }

  lemma Three(s: System, steps: seq<Step>, s1: System, s2: System)
    requires |steps| == 3 && Enabled(s, steps[0]) && s1 == Do(s, steps[0]) && Enabled(s1, steps[1]) && s2 == Do(s1, steps[1])
    requires Enabled(s2, steps[2])
    ensures Runs(s, steps) && Run(s, steps) == Do(s2, steps[2])
  {
    hide Enabled, Do;
    assert steps[..1] == [steps[0]] && steps[..2] == steps[..1] + [steps[1]] && steps == steps[..2] + [steps[2]];
    OneStep(s, steps[0]);
    Then(s, steps[..1], steps[1]);
    Then(s, steps[..2], steps[2]);
  }
}
