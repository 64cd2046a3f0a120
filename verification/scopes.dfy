/** Scopes as data: a heap of scopes that point at their parents and bind names to cells, the counters that
    say when a name may have come to mean something else, and what a site remembers. */
module Scopes {
  import opened Lang
  import opened Bindings

  datatype Cell = Cell(value: Value, mutable: bool)

  /** The frame of a call knows the parameters of the declaration it was made for. */
  datatype Scope = Scope(parent: Option<nat>, stored: Stored<nat>, params: Option<seq<string>>)

  datatype Heap = Heap(scopes: seq<Scope>, cells: seq<Cell>)

  /** A parent is older than its child. */
  ghost predicate Linked(h: Heap) {
    forall e :: 0 <= e < |h.scopes| && h.scopes[e].parent.Some? ==> h.scopes[e].parent.value < e
  }

  /** The cell a name stands for: in the nearest scope that binds it. */
  function Lookup(h: Heap, env: nat, name: string): Option<nat>
    decreases env
  {
    if env >= |h.scopes| then None
    else if name in Found(h.scopes[env].stored) then Some(Found(h.scopes[env].stored)[name])
    else
      var up := h.scopes[env].parent;
      if up.Some? && up.value < env then Lookup(h, up.value, name) else None
  }

  function CellAt(h: Heap, cell: nat): Cell {
    if cell < |h.cells| then h.cells[cell] else Cell(Nil, false)
  }

  function NewScope(h: Heap, scope: Scope): Heap {
    h.(scopes := h.scopes + [scope])
  }

  function NewCell(h: Heap, value: Value, mutable: bool): Heap {
    h.(cells := h.cells + [Cell(value, mutable)])
  }

  function Holding(h: Heap, env: nat, stored: Stored<nat>): Heap {
    if env >= |h.scopes| then h else h.(scopes := h.scopes[env := h.scopes[env].(stored := stored)])
  }

  function StoredAt(h: Heap, env: nat): Stored<nat> {
    if env >= |h.scopes| then Arrays([]) else h.scopes[env].stored
  }

  function Slots(h: Heap, env: nat): map<string, nat> {
    Found(StoredAt(h, env))
  }

  function PutIn(h: Heap, env: nat, name: string, cell: nat): Heap {
    Holding(h, env, Put(StoredAt(h, env), name, cell))
  }

  function ClearIn(h: Heap, env: nat): Heap {
    Holding(h, env, Clear(StoredAt(h, env)))
  }

  function Write(h: Heap, cell: nat, value: Value): Heap {
    if cell >= |h.cells| then h else h.(cells := h.cells[cell := h.cells[cell].(value := value)])
  }

  // ---- counters and caches -----------------------------------------------------------------------------

  type Versions = map<string, nat>

  function Version(vs: Versions, name: string): nat {
    if name in vs then vs[name] else 0
  }

  /** Each counter moves once for every time its name is listed. */
  function Bump(vs: Versions, names: multiset<string>): (r: Versions)
    ensures forall n :: Version(r, n) == Version(vs, n) + names[n]
  {
    map n | n in vs.Keys + (set x | x in names) :: Version(vs, n) + names[n]
  }

  /** What an occurrence of a name remembers of its last full walk. */
  datatype Cache = Cold | Warm(env: nat, version: nat, cell: nat)

  predicate Hit(c: Cache, vs: Versions, env: nat, name: string) {
    c.Warm? && c.env == env && c.version == Version(vs, name)
  }

  /** If the counter has not moved, the remembered cell is what a full walk would find. */
  ghost predicate Coherent(h: Heap, vs: Versions, name: string, c: Cache) {
    c.Warm? ==>
      && c.env < |h.scopes| && c.version <= Version(vs, name)
      && (c.version == Version(vs, name) ==> Lookup(h, c.env, name) == Some(c.cell))
  }

  // ---- what each change does to lookups ------------------------------------------------------------------

  lemma {:induction false} LookupNewScope(h: Heap, scope: Scope, env: nat, name: string)
    requires env < |h.scopes|
    ensures Lookup(NewScope(h, scope), env, name) == Lookup(h, env, name)
    decreases env
  {
    hide Found;
    var up := h.scopes[env].parent;
    if up.Some? && up.value < env {
      LookupNewScope(h, scope, up.value, name);
    }
  }

  /** Changing what one scope binds only matters to the names that are found differently there. */
  lemma {:induction false} LookupHolding(h: Heap, at: nat, stored: Stored<nat>, env: nat, name: string)
    requires at < |h.scopes|
    requires name in Found(stored) <==> name in Slots(h, at)
    requires name in Found(stored) ==> Found(stored)[name] == Slots(h, at)[name]
    ensures Lookup(Holding(h, at, stored), env, name) == Lookup(h, env, name)
    decreases env
  {
    hide Found;
    if env < |h.scopes| {
      var up := h.scopes[env].parent;
      if up.Some? && up.value < env {
        LookupHolding(h, at, stored, up.value, name);
      }
    }
  }

  lemma {:induction false} LookupCells(h: Heap, cells: seq<Cell>, env: nat, name: string)
    ensures Lookup(h.(cells := cells), env, name) == Lookup(h, env, name)
    decreases env
  {
    hide Found;
    if env < |h.scopes| {
      var up := h.scopes[env].parent;
      if up.Some? && up.value < env {
        LookupCells(h, cells, up.value, name);
      }
    }
  }

  /** env is reached from `from` by following parents. */
  ghost predicate Above(h: Heap, from: nat, env: nat)
    decreases from
  {
    || from == env
    || (from < |h.scopes| && h.scopes[from].parent.Some? && h.scopes[from].parent.value < from
        && Above(h, h.scopes[from].parent.value, env))
  }

  lemma {:induction false} LookupElsewhere(h: Heap, at: nat, scope: Scope, env: nat, name: string)
    requires !Above(h, env, at) && at < |h.scopes|
    ensures Lookup(h.(scopes := h.scopes[at := scope]), env, name) == Lookup(h, env, name)
    decreases env
  {
    hide Found;
    if env < |h.scopes| {
      var up := h.scopes[env].parent;
      if up.Some? && up.value < env {
        LookupElsewhere(h, at, scope, up.value, name);
      }
    }
  }

  // ---- what each change does to caches --------------------------------------------------------------------

  /** No scope binds a name twice. */
  ghost predicate Unrepeated(h: Heap) {
    forall e :: 0 <= e < |h.scopes| ==> Single(h.scopes[e].stored)
  }

  lemma HoldingSingle(h: Heap, at: nat, stored: Stored<nat>)
    requires Unrepeated(h) && Single(stored)
    ensures Unrepeated(Holding(h, at, stored))
  {
    hide Single;
  }

  lemma CoherentNewScope(h: Heap, vs: Versions, scope: Scope, name: string, c: Cache)
    requires Coherent(h, vs, name, c)
    ensures Coherent(NewScope(h, scope), vs, name, c)
  {
    if c.Warm? { LookupNewScope(h, scope, c.env, name); }
  }

  lemma CoherentCells(h: Heap, vs: Versions, cells: seq<Cell>, name: string, c: Cache)
    requires Coherent(h, vs, name, c)
    ensures Coherent(h.(cells := cells), vs, name, c)
  {
    if c.Warm? { LookupCells(h, cells, c.env, name); }
  }

  /** A change of one scope leaves every cache right if the counter of each name it affects moves. */
  lemma CoherentHolding(h: Heap, vs: Versions, at: nat, stored: Stored<nat>, bumped: multiset<string>, name: string, c: Cache)
    requires Coherent(h, vs, name, c)
    requires bumped[name] == 0 ==>
      && (name in Found(stored) <==> name in Slots(h, at))
      && (name in Found(stored) ==> Found(stored)[name] == Slots(h, at)[name])
    ensures Coherent(Holding(h, at, stored), Bump(vs, bumped), name, c)
  {
    hide Lookup, Found;
    if c.Warm? && bumped[name] == 0 && at < |h.scopes| { LookupHolding(h, at, stored, c.env, name); }
  }

  /** The counter of the name alone is enough if no name is bound twice. */
  lemma CoherentPut(h: Heap, vs: Versions, at: nat, x: string, cell: nat, name: string, c: Cache)
    requires Coherent(h, vs, name, c) && Single(StoredAt(h, at))
    ensures Coherent(PutIn(h, at, x, cell), Bump(vs, multiset{x}), name, c)
  {
    hide Found, Put, Coherent;
    FoundPut(StoredAt(h, at), x, cell);
    CoherentHolding(h, vs, at, Put(StoredAt(h, at), x, cell), multiset{x}, name, c);
  }

  lemma CoherentClear(h: Heap, vs: Versions, at: nat, name: string, c: Cache)
    requires Coherent(h, vs, name, c)
    ensures Coherent(ClearIn(h, at), Bump(vs, Held(StoredAt(h, at))), name, c)
  {
    hide Coherent, Held;
    HeldFound(StoredAt(h, at), name);
    CoherentHolding(h, vs, at, Clear(StoredAt(h, at)), Held(StoredAt(h, at)), name, c);
  }

  /** A frame taken back: only the names it drops need their counters moved. */
  lemma CoherentRetake(h: Heap, vs: Versions, at: nat, params: seq<string>, name: string, c: Cache)
    requires Coherent(h, vs, name, c) && at < |h.scopes|
    requires StoredAt(h, at).Arrays? && Begins(StoredAt(h, at).bound, params)
    ensures var bs := StoredAt(h, at).bound;
      Coherent(Holding(h, at, Arrays(Retake(bs, params))), Bump(vs, Names(bs[|params|..])), name, c)
  {
    hide Coherent, Names, First, Retake;
    var bs := StoredAt(h, at).bound;
    NamesBare(bs[|params|..], name);
    if Names(bs[|params|..])[name] == 0 { FoundRetake(bs, params, name); }
    CoherentHolding(h, vs, at, Arrays(Retake(bs, params)), Names(bs[|params|..]), name, c);
  }
}
