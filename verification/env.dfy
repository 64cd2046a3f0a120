/** One scope as it is stored: parallel arrays up to eight bindings, a map past that, names borrowed from a
    declaration, storage that outlives what it held. Every operation is proved to do to the bindings what its
    name says, whatever the names, and to move exactly the counters of the names it affects. */
module EnvStore {
  import opened Lang
  import opened Bindings
  import Scopes

  class Slot {
    var value: Value
    const mutable: bool

    constructor (value: Value, mutable: bool)
      ensures this.value == value && this.mutable == mutable
    {
      this.value := value;
      this.mutable := mutable;
    }
  }

  /** The counters, by name. */
  class Counters {
    var counts: Scopes.Versions

    constructor ()
      ensures counts == map[]
    {
      counts := map[];
    }

    method BumpOne(name: string)
      modifies this
      ensures Moved(old(counts), counts, multiset{name})
    {
      counts := counts[name := Scopes.Version(counts, name) + 1];
    }
  }

  /** Exactly these names' counters have moved, each by one for every time it is listed. */
  ghost predicate Moved(before: Scopes.Versions, after: Scopes.Versions, names: multiset<string>) {
    forall n :: Scopes.Version(after, n) == Scopes.Version(before, n) + names[n]
  }

  lemma MovedNone(vs: Scopes.Versions)
    ensures Moved(vs, vs, multiset{})
  {
  }

  lemma MovedMore(a: Scopes.Versions, b: Scopes.Versions, c: Scopes.Versions, names: multiset<string>, more: multiset<string>)
    requires Moved(a, b, names) && Moved(b, c, more)
    ensures Moved(a, c, names + more)
  {
  }

  /** The bindings that the arrays hold up to the count. */
  ghost function Pairs(names: seq<string>, slots: seq<Slot>, count: nat): (r: seq<Bound<Slot>>)
    requires count <= |names| && count <= |slots|
    ensures |r| == count && forall i :: 0 <= i < count ==> r[i] == Bound(names[i], slots[i])
  {
    Adopt(names[..count], slots[..count])
  }

  /** A counter beside each name, at least up to the count. */
  ghost predicate Beside(vers: seq<string>, names: seq<string>, count: nat) {
    count <= |vers| <= |names| && forall i :: 0 <= i < |vers| ==> vers[i] == names[i]
  }

  function Set<T>(s: seq<T>, at: nat, x: T): (r: seq<T>)
    requires at <= |s|
    ensures |r| == if at < |s| then |s| else |s| + 1
    ensures r[at] == x && r[..at] == s[..at]
    ensures forall i :: 0 <= i < |s| && i != at ==> r[i] == s[i]
  {
    if at < |s| then s[at := x] else s + [x]
  }

  lemma NamesMore<T>(bs: seq<Bound<T>>, from: nat, to: nat)
    requires from <= to < |bs|
    ensures Names(bs[from..to + 1]) == Names(bs[from..to]) + multiset{bs[to].name}
  {
    assert bs[from..to + 1][..to - from] == bs[from..to];
  }

  lemma LastMore<T>(bs: seq<Bound<T>>, to: nat)
    requires to < |bs|
    ensures Last(bs[..to + 1]) == Last(bs[..to])[bs[to].name := bs[to].to]
  {
    assert bs[..to + 1][..to] == bs[..to];
  }

  class Env {
    const parent: Env?
    const counters: Counters
    var names: Option<seq<string>>
    var slots: Option<seq<Slot>>
    /** The counter of each name, itself known by that name; absent while the names are borrowed. */
    var vers: Option<seq<string>>
    var count: nat
    var sharedNames: bool
    var mapped: Option<map<string, Slot>>
    /** The scopes a chain walk goes through after this one. */
    ghost const above: seq<Env>

    constructor (parent: Env?, counters: Counters)
      requires parent != null ==> parent.Linked()
      ensures Valid() && Contents() == Arrays([]) && this.parent == parent && this.counters == counters && Linked()
      ensures mapped.None? && slots.None? && fresh(this)
    {
      this.parent := parent;
      this.counters := counters;
      names, slots, vers, count, sharedNames, mapped := None, None, None, 0, false, None;
      above := if parent == null then [] else [parent] + parent.above;
    }

    ghost predicate Linked() {
      above == (if parent == null then [] else [parent] + parent.above)
    }

    /** In exactly one of two representations; in the first, everything is bounded by the count, and a counter
        that is held is the counter of the name it stands beside. */
    ghost predicate Valid()
      reads this
    {
      if mapped.Some? then
        names.None? && slots.None? && vers.None? && count == 0 && !sharedNames
      else
        && (names.None? <==> slots.None?)
        && (names.None? ==> count == 0 && vers.None? && !sharedNames)
        && (names.Some? ==> count <= |names.value| && count <= |slots.value|)
        && (vers.Some? ==> names.Some? && !sharedNames && Beside(vers.value, names.value, count))
    }

    /** What the scope binds, and in what order while that is kept. */
    ghost function Contents(): Stored<Slot>
      reads this
      requires Valid()
    {
      if mapped.Some? then Mapped(mapped.value)
      else if names.None? then Arrays([])
      else Arrays(Pairs(names.value, slots.value, count))
    }

    /** The map view. Asking for it converts the scope for good; of a name bound twice the last binding
        stays. */
    method Vars() returns (m: map<string, Slot>)
      requires Valid()
      modifies this
      ensures Valid() && Contents() == View(old(Contents())) && mapped == Some(m)
    {
      hide Beside, Last;
      if mapped.None? {
        m := map[];
        ghost var bs := Contents().bound;
        assert Last<Slot>([]) == map[] by { NoLast(); }
        assert bs[..0] == [];
        for i := 0 to count
          invariant unchanged(this) && m == Last(bs[..i])
        {
          LastMore(bs, i);
          m := m[names.value[i] := slots.value[i]];
        }
        assert bs[..count] == bs;
        mapped, names, slots, vers, count, sharedNames := Some(m), None, None, None, 0, false;
      }
      m := mapped.value;
    }

    /** Where a name first stands in the arrays, or the count. */
    method Find(name: string) returns (at: nat)
      requires Valid() && mapped.None?
      ensures at == IndexOf(Contents().bound, name) <= count && |Contents().bound| == count
      ensures at == count ==> name !in Found(Contents())
      ensures at < count ==> names.value[at] == name && name in Found(Contents()) && Found(Contents())[name] == slots.value[at]
    {
      hide First, IndexOf;
      at := 0;
      while at < count
        invariant at <= count && forall j :: 0 <= j < at ==> Contents().bound[j].name != name
      {
        if names.value[at] == name {
          FirstAt(Contents().bound, name, at);
          return;
        }
        at := at + 1;
      }
      FirstAt(Contents().bound, name, at);
    }

    method Has(name: string) returns (r: bool)
      requires Valid()
      ensures r == (name in Found(Contents()))
    {
      if mapped.Some? { return name in mapped.value; }
      var at := Find(name);
      r := at < count;
    }

    method Own(name: string) returns (slot: Option<Slot>)
      requires Valid()
      ensures slot == if name in Found(Contents()) then Some(Found(Contents())[name]) else None
    {
      if mapped.Some? { return if name in mapped.value then Some(mapped.value[name]) else None; }
      var at := Find(name);
      slot := if at < count then Some(slots.value[at]) else None;
    }

    /** Fills a frame that nothing has looked through: no counter moves. */
    method AdoptFrame(params: seq<string>, cells: seq<Slot>)
      requires Valid() && mapped.None? && |params| == |cells|
      modifies this
      ensures Valid() && Contents() == Arrays(Adopt(params, cells))
      ensures names == Some(params) && slots == Some(cells) && count == |params| && sharedNames && mapped.None?
    {
      names, slots, vers, count, sharedNames := Some(params), Some(cells), None, |params|, true;
      assert params[..|params|] == params && cells[..|cells|] == cells;
    }

    /** Moves the counters of the bindings from `first` on. */
    method BumpFrom(first: nat)
      requires Valid() && mapped.None? && first <= count
      modifies counters
      ensures Moved(old(counters.counts), counters.counts, Names(Contents().bound[first..]))
    {
      hide Moved, Names;
      ghost var before, bs := counters.counts, Contents().bound;
      MovedNone(before);
      NoNames(bs, first);
      for i := first to count
        invariant Moved(before, counters.counts, Names(bs[first..i]))
      {
        NamesMore(bs, first, i);
        ghost var mid := counters.counts;
        if vers.Some? {
          counters.BumpOne(vers.value[i]);
        } else {
          counters.BumpOne(names.value[i]);
        }
        MovedMore(before, mid, counters.counts, Names(bs[first..i]), multiset{names.value[i]});
      }
      assert bs[first..count] == bs[first..];
    }

    /** Takes the frame of an earlier call back: the locals go, their counters move, and each parameter
        keeps its slot, with a new value in it. Names still borrowed are the declaration's own. */
    method ReuseFrame(params: seq<string>, args: seq<Value>)
      requires Valid() && mapped.None? && slots.Some? && |args| == |params| <= count
      requires sharedNames ==> names.value[..|params|] == params
      requires forall i, j :: 0 <= i < j < |params| ==> slots.value[i] != slots.value[j]
      modifies this, counters, slots.value[..|params|]
      ensures Valid() && mapped.None?
      ensures Contents() == Arrays(Retake(old(Contents()).bound, params))
      ensures forall i :: 0 <= i < |params| ==> Contents().bound[i].to.value == args[i]
      ensures Moved(old(counters.counts), counters.counts, Names(old(Contents()).bound[|params|..]))
    {
      hide Moved, Beside, Names;
      var arity := |params|;
      BumpFrom(arity);
      if !sharedNames {
        names, vers, sharedNames := Some(params), None, true;
      }
      var cells := slots.value;
      ghost var bumped := counters.counts;
      for i := 0 to arity
        invariant slots == Some(cells) && names.Some? && |names.value| >= arity && names.value[..arity] == params
        invariant counters.counts == bumped
        invariant mapped.None? && sharedNames && vers == None && count == old(count)
        invariant forall k :: 0 <= k < i ==> cells[k].value == args[k]
      {
        cells[i].value := args[i];
      }
      count := arity;
      forall i | 0 <= i < arity ensures names.value[i] == params[i] { assert names.value[..arity][i] == params[i]; }
    }

    method Declare(name: string, value: Value, mutable: bool) returns (ok: bool)
      requires Valid()
      modifies this, counters
      ensures Valid() && ok == (name !in Found(old(Contents())))
      ensures !ok ==> Contents() == old(Contents()) && counters.counts == old(counters.counts)
      ensures ok ==> name in Found(Contents()) && fresh(Found(Contents())[name])
      ensures ok ==> Contents() == Put(old(Contents()), name, Found(Contents())[name])
      ensures ok ==> Found(Contents())[name].value == value && Found(Contents())[name].mutable == mutable
      ensures ok ==> Moved(old(counters.counts), counters.counts, multiset{name})
    {
      var has := Has(name);
      ok := !has;
      if ok {
        var slot := new Slot(value, mutable);
        PutSlot(name, slot);
        PutFinds(old(Contents()), name, slot);
      }
    }

    /** Empties the scope. In the arrays only the count changes. */
    method ClearVars()
      requires Valid()
      modifies this, counters
      ensures Valid() && Contents() == Clear(old(Contents()))
      ensures Moved(old(counters.counts), counters.counts, Held(old(Contents())))
    {
      hide Moved, Names;
      if mapped.Some? {
        BumpKeys();
        mapped := Some(map[]);
        return;
      }
      if count == 0 {
        MovedNone(counters.counts);
        NoNames(Contents().bound, 0);
        assert Contents().bound[0..0] == Contents().bound;
        return;
      }
      BumpFrom(0);
      assert Contents().bound[0..] == Contents().bound;
      count := 0;
      assert Contents().bound == [];
    }

    method BumpKeys()
      requires Valid() && mapped.Some?
      modifies counters
      ensures Moved(old(counters.counts), counters.counts, multiset(mapped.value.Keys))
    {
      hide Moved;
      var keys := mapped.value.Keys;
      var left := keys;
      ghost var before := counters.counts;
      MovedNone(before);
      assert multiset(keys - left) == multiset{};
      while left != {}
        invariant left <= keys && Moved(before, counters.counts, multiset(keys - left))
        decreases |left|
      {
        var name :| name in left;
        ghost var mid := counters.counts;
        counters.BumpOne(name);
        MovedMore(before, mid, counters.counts, multiset(keys - left), multiset{name});
        assert keys - (left - {name}) == keys - left + {name};
        assert multiset(keys - left + {name}) == multiset(keys - left) + multiset{name};
        left := left - {name};
      }
      assert keys - left == keys;
    }

    /** Makes the names this scope's own, with a counter beside each. */
    method OwnNames()
      requires Valid() && mapped.None?
      modifies this
      ensures Valid() && mapped.None? && Contents() == old(Contents()) && count == old(count)
      ensures names.Some? && vers.Some? && !sharedNames
    {
      if names.None? {
        names, slots, vers := Some([]), Some([]), Some([]);
      } else if sharedNames {
        names := Some(names.value[..count]);
        vers := names;
        sharedNames := false;
      } else if vers.None? {
        vers := Some(names.value[..count]);
      }
    }

    /** Binds the name to the slot, in place of what it was bound to first if it was. */
    method PutSlot(name: string, slot: Slot)
      requires Valid()
      modifies this, counters
      ensures Valid() && Contents() == Put(old(Contents()), name, slot)
      ensures Moved(old(counters.counts), counters.counts, multiset{name})
    {
      hide Moved, First, Last, IndexOf;
      if mapped.Some? {
        mapped := Some(mapped.value[name := slot]);
        counters.BumpOne(name);
        return;
      }
      OwnNames();
      var i := Find(name);
      if i < count {
        slots := Some(slots.value[i := slot]);
        counters.BumpOne(vers.value[i]);
        return;
      }
      if count >= SMALL {
        var m := Vars();
        mapped := Some(m[name := slot]);
        counters.BumpOne(name);
        return;
      }
      Append(name, slot);
    }

    /** Writes at the count, over what an earlier pass left there. */
    method Append(name: string, slot: Slot)
      requires Valid() && mapped.None? && names.Some? && vers.Some? && !sharedNames
      modifies this, counters
      ensures Valid() && Contents() == Arrays(old(Contents()).bound + [Bound(name, slot)])
      ensures Moved(old(counters.counts), counters.counts, multiset{name})
    {
      hide Moved;
      var at := count;
      if at >= |names.value| || names.value[at] != name || at >= |vers.value| {
        names := Some(Set(names.value, at, name));
        vers := Some(Set(vers.value, at, name));
      }
      slots := Some(Set(slots.value, at, slot));
      counters.BumpOne(vers.value[at]);
      count := at + 1;
    }

    /** Takes out the binding that is found. */
    method DeleteVar(name: string)
      requires Valid()
      modifies this, counters
      ensures Valid() && Contents() == Delete(old(Contents()), name)
      ensures Moved(old(counters.counts), counters.counts, if name in Found(old(Contents())) then multiset{name} else multiset{})
    {
      hide Moved, First, IndexOf;
      if mapped.Some? {
        MovedNone(counters.counts);
        if name in mapped.value {
          mapped := Some(mapped.value - {name});
          counters.BumpOne(name);
        }
        return;
      }
      var i := Find(name);
      if i == count {
        MovedNone(counters.counts);
        return;
      }
      OwnNames();
      var n, s := names.value[..count], slots.value[..count];
      names := Some(n[..i] + n[i + 1..]);
      slots := Some(s[..i] + s[i + 1..]);
      vers := names;
      count := count - 1;
      counters.BumpOne(name);
    }

    /** The slot a name stands for: in the nearest scope of the chain that binds it. */
    method Lookup(name: string) returns (slot: Option<Slot>)
      requires Chained()
      ensures slot == Nearest([this] + above, name)
    {
      var env: Env? := this;
      ghost var left := [this] + above;
      while env != null
        invariant env == null ==> left == []
        invariant env != null ==> left == [env] + env.above && env.Linked()
        invariant forall e :: e in left ==> e.Valid() && e.Linked()
        invariant Nearest([this] + above, name) == Nearest(left, name)
        decreases |left|
      {
        assert left[0] == env && left[1..] == env.above;
        assert env in left && env.parent != null ==> env.parent in left[1..];
        slot := env.Own(name);
        if slot.Some? { return; }
        env := env.parent;
        left := left[1..];
      }
      slot := None;
    }

    ghost predicate Chained()
      reads this, above
    {
      forall e :: e in [this] + above ==> e.Valid() && e.Linked()
    }
  }

  ghost function Nearest(chain: seq<Env>, name: string): Option<Slot>
    reads chain
    requires forall e :: e in chain ==> e.Valid()
  {
    if chain == [] then None
    else if name in Found(chain[0].Contents()) then Some(Found(chain[0].Contents())[name])
    else Nearest(chain[1..], name)
  }

  lemma NoLast()
    ensures Last<Slot>([]) == map[]
  {
  }

  lemma NoNames<T>(bs: seq<Bound<T>>, at: nat)
    requires at <= |bs|
    ensures Names(bs[at..at]) == multiset{}
  {
  }

  lemma PutFinds<T>(s: Stored<T>, name: string, to: T)
    ensures name in Found(Put(s, name, to)) && Found(Put(s, name, to))[name] == to
  {
    hide First, Last;
    if s.Arrays? && (IndexOf(s.bound, name) < |s.bound| || |s.bound| < SMALL) { FoundPut(s, name, to); }
  }

  /** What a repeated parameter means changes when the frame of a call comes to be looked at as a map, and no
      counter moves: the first argument before, the second after. */
  method RepeatedParameter(first: Slot, second: Slot) returns (before: Option<Slot>, after: Option<Slot>, moved: bool)
    requires first != second
    ensures before == Some(first) && after == Some(second) && !moved
  {
    var counters := new Counters();
    var frame := new Env(null, counters);
    frame.AdoptFrame(["x", "x"], [first, second]);
    ghost var bs := frame.Contents().bound;
    FirstAt(bs, "x", 0);
    LastAt(bs, 1);
    before := frame.Own("x");
    var view := frame.Vars();
    after := frame.Own("x");
    moved := counters.counts != map[];
  }
}
