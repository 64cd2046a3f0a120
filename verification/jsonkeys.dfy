/** What an object means, without the reader's way of making it: each key once, in the order in which the keys
    first appear, with the value of the last member that has it. */
module JsonKeys {
  import opened Decimals
  import opened Json
  import opened JsonGrammar

  // ---- keys and values in order ---------------------------------------------------------------------------------

  /** The first of them that is the key, or the last. */
  ghost predicate First(keys: seq<string>, key: string, i: nat) {
    i < |keys| && keys[i] == key && forall j :: 0 <= j < i ==> keys[j] != key
  }

  ghost predicate Last(keys: seq<string>, key: string, i: nat) {
    i < |keys| && keys[i] == key && forall j :: i < j < |keys| ==> keys[j] != key
  }

  /** Entry k comes from the f[k]-th key, where its key is first named, and the l[k]-th, where it is last. */
  ghost predicate From(keys: seq<string>, vals: seq<Json>, es: seq<Entry>, f: seq<nat>, l: seq<nat>)
    requires |keys| == |vals|
  {
    && |f| == |es| == |l|
    && (forall k, m :: 0 <= k < m < |f| ==> f[k] < f[m])
    && (forall k :: 0 <= k < |es| ==> First(keys, es[k].key, f[k]))
    && (forall k :: 0 <= k < |es| ==> Last(keys, es[k].key, l[k]) && vals[l[k]] == es[k].value)
    && forall i :: 0 <= i < |keys| ==> HasKey(es, keys[i])
  }

  ghost predicate HasKey(es: seq<Entry>, key: string) {
    exists k :: 0 <= k < |es| && es[k].key == key
  }

  /** The last of equal keys wins, in the place of the first. */
  ghost predicate LastWins(keys: seq<string>, vals: seq<Json>, es: seq<Entry>) {
    && |keys| == |vals| && DistinctKeys(es)
    && (forall key :: HasKey(es, key) <==> key in keys)
    && (forall k, m, i: nat, j: nat :: 0 <= k < m < |es| && First(keys, es[k].key, i) && First(keys, es[m].key, j) ==> i < j)
    && forall k, i: nat :: 0 <= k < |es| && Last(keys, es[k].key, i) ==> vals[i] == es[k].value
  }

  lemma FromApart(keys: seq<string>, vals: seq<Json>, es: seq<Entry>, f: seq<nat>, l: seq<nat>, i: nat, j: nat)
    requires |keys| == |vals| && From(keys, vals, es, f, l) && i < j < |es|
    ensures es[i].key != es[j].key
  {
    assert First(keys, es[i].key, f[i]) && First(keys, es[j].key, f[j]);
  }

  lemma FromWins(keys: seq<string>, vals: seq<Json>, es: seq<Entry>, f: seq<nat>, l: seq<nat>)
    requires |keys| == |vals| && From(keys, vals, es, f, l)
    ensures LastWins(keys, vals, es)
  {
    forall k, m | 0 <= k < m < |es| ensures es[k].key != es[m].key { FromApart(keys, vals, es, f, l, k, m); }
    forall key ensures HasKey(es, key) <==> key in keys {
      if key in keys {
        var i :| 0 <= i < |keys| && keys[i] == key;
      }
      if HasKey(es, key) {
        var k :| 0 <= k < |es| && es[k].key == key;
        assert First(keys, es[k].key, f[k]);
      }
    }
    forall k, m, i: nat, j: nat | 0 <= k < m < |es| && First(keys, es[k].key, i) && First(keys, es[m].key, j) ensures i < j {
      OneFirst(keys, es[k].key, i, f[k]);
      OneFirst(keys, es[m].key, j, f[m]);
    }
    forall k, i: nat | 0 <= k < |es| && Last(keys, es[k].key, i) ensures vals[i] == es[k].value {
      OneLast(keys, es[k].key, i, l[k]);
    }
  }

  lemma OneFirst(keys: seq<string>, key: string, i: nat, j: nat)
    requires First(keys, key, i) && First(keys, key, j)
    ensures i == j
  {
  }

  lemma OneLast(keys: seq<string>, key: string, i: nat, j: nat)
    requires Last(keys, key, i) && Last(keys, key, j)
    ensures i == j
  {
  }

  // ---- setting an entry -------------------------------------------------------------------------------------------

  lemma {:induction false} SetOld(es: seq<Entry>, k: nat, key: string, value: Json)
    requires k < |es| && es[k].key == key && forall j :: 0 <= j < k ==> es[j].key != key
    ensures SetEntry(es, key, value) == es[k := Entry(key, value)]
    decreases |es|
  {
    if k > 0 { SetOld(es[1..], k - 1, key, value); }
  }

  lemma {:induction false} SetNew(es: seq<Entry>, key: string, value: Json)
    requires !HasKey(es, key)
    ensures SetEntry(es, key, value) == es + [Entry(key, value)]
    decreases |es|
  {
    if es != [] {
      assert es[0].key != key;
      assert forall k :: 0 <= k < |es[1..]| ==> es[1..][k] == es[k + 1];
      SetNew(es[1..], key, value);
    }
  }

  lemma Later(keys: seq<string>, key: string, more: string, i: nat)
    ensures First(keys, key, i) ==> First(keys + [more], key, i)
    ensures Last(keys, key, i) && key != more ==> Last(keys + [more], key, i)
    ensures Last(keys + [more], more, |keys|)
    ensures more !in keys ==> First(keys + [more], more, |keys|)
  {
  }

  lemma SetAgain(keys: seq<string>, vals: seq<Json>, es: seq<Entry>, f: seq<nat>, l: seq<nat>, key: string, v: Json, k: nat)
    requires |keys| == |vals| && From(keys, vals, es, f, l) && k < |es| && es[k].key == key
    ensures From(keys + [key], vals + [v], SetEntry(es, key, v), f, l[k := |keys|])
  {
    hide First, Last, SetEntry;
    forall j | 0 <= j < k ensures es[j].key != key { FromApart(keys, vals, es, f, l, j, k); }
    SetOld(es, k, key, v);
    var es', l' := es[k := Entry(key, v)], l[k := |keys|];
    forall m | 0 <= m < |es|
      ensures First(keys + [key], es'[m].key, f[m]) && Last(keys + [key], es'[m].key, l'[m])
      ensures l'[m] <= |keys| && (vals + [v])[l'[m]] == es'[m].value
    {
      Later(keys, es[m].key, key, f[m]);
      Later(keys, es[m].key, key, l[m]);
      if m < k { FromApart(keys, vals, es, f, l, m, k); } else if m > k { FromApart(keys, vals, es, f, l, k, m); }
      LastBelow(keys, es[m].key, l[m]);
    }
    forall i | 0 <= i <= |keys| ensures HasKey(es', (keys + [key])[i]) {
      if i < |keys| {
        assert HasKey(es, keys[i]);
        var m :| 0 <= m < |es| && es[m].key == keys[i];
        assert es'[m].key == keys[i];
      } else {
        assert es'[k].key == key;
      }
    }
  }

  lemma LastBelow(keys: seq<string>, key: string, i: nat)
    ensures Last(keys, key, i) ==> i < |keys|
    ensures First(keys, key, i) ==> i < |keys|
  {
  }

  lemma SetFirst(keys: seq<string>, vals: seq<Json>, es: seq<Entry>, f: seq<nat>, l: seq<nat>, key: string, v: Json)
    requires |keys| == |vals| && From(keys, vals, es, f, l) && !HasKey(es, key)
    ensures From(keys + [key], vals + [v], SetEntry(es, key, v), f + [|keys|], l + [|keys|])
  {
    hide First, Last, SetEntry;
    SetNew(es, key, v);
    var es', f', l' := es + [Entry(key, v)], f + [|keys|], l + [|keys|];
    assert key !in keys;
    Later(keys, key, key, 0);
    forall m | 0 <= m < |es'|
      ensures First(keys + [key], es'[m].key, f'[m]) && Last(keys + [key], es'[m].key, l'[m])
      ensures l'[m] <= |keys| && (vals + [v])[l'[m]] == es'[m].value
    {
      if m < |es| {
        assert es[m].key != key;
        Later(keys, es[m].key, key, f[m]);
        Later(keys, es[m].key, key, l[m]);
        LastBelow(keys, es[m].key, l[m]);
      }
    }
    forall k, m | 0 <= k < m < |f'| ensures f'[k] < f'[m] {
      if m == |f| { LastBelow(keys, es[k].key, f[k]); }
    }
    forall i | 0 <= i <= |keys| ensures HasKey(es', (keys + [key])[i]) {
      if i < |keys| {
        assert HasKey(es, keys[i]);
        var m :| 0 <= m < |es| && es[m].key == keys[i];
        assert es'[m].key == keys[i];
      } else {
        assert es'[|es|].key == key;
      }
    }
  }

  // ---- objects -----------------------------------------------------------------------------------------------------

  function KeysOf(members: seq<Member>): (r: seq<string>)
    requires MembersFormed(members)
    ensures |r| == |members|
  {
    if members == [] then [] else [PiecesMeaning(members[0].key)] + KeysOf(members[1..])
  }

  /** None when some value has no meaning. */
  function ValuesOf(members: seq<Member>): (r: Option<seq<Json>>)
    requires MembersFormed(members)
    ensures r.Some? ==> |r.value| == |members|
  {
    if members == [] then Some([]) else
      var v, rest := SlotMeaning(members[0].slot), ValuesOf(members[1..]);
      if v.None? || rest.None? then None else Some([v.value] + rest.value)
  }

  function SlotMeaning(s: Slot): Option<Json>
    requires SlotFormed(s)
  {
    Meaning(s.tree)
  }

  lemma NoMembers(es: seq<Entry>)
    ensures MembersMeaning([], es) == Some(es) && ValuesOf([]) == Some([]) && KeysOf([]) == []
  {
  }

  lemma MembersUnfold(members: seq<Member>, es: seq<Entry>)
    requires members != [] && MembersFormed(members)
    ensures SlotFormed(members[0].slot) && PiecesFormed(members[0].key) && MembersFormed(members[1..])
    ensures var key, v, rest := PiecesMeaning(members[0].key), SlotMeaning(members[0].slot), members[1..];
      && KeysOf(members) == [key] + KeysOf(rest)
      && MembersMeaning(members, es) == (if v.None? then None else MembersMeaning(rest, SetEntry(es, key, v.value)))
      && ValuesOf(members) ==
         (if v.None? || ValuesOf(rest).None? then None else Some([v.value] + ValuesOf(rest).value))
  {
    hide SetEntry, Meaning, PiecesMeaning, SlotFormed, PiecesFormed, Blank;
  }

  lemma {:induction false} MembersFrom(members: seq<Member>, keys: seq<string>, vals: seq<Json>, es: seq<Entry>, f: seq<nat>, l: seq<nat>)
    requires MembersFormed(members) && |keys| == |vals| && From(keys, vals, es, f, l)
    ensures MembersMeaning(members, es).Some? <==> ValuesOf(members).Some?
    ensures ValuesOf(members).Some? ==>
      LastWins(keys + KeysOf(members), vals + ValuesOf(members).value, MembersMeaning(members, es).value)
    decreases |members|
  {
    hide From, LastWins, Meaning, SetEntry, SlotFormed, PiecesFormed, Blank, PiecesMeaning, SlotMeaning, HasKey, MembersMeaning,
      ValuesOf, KeysOf, MembersFormed;
    if members == [] {
      NoMembers(es);
      FromWins(keys, vals, es, f, l);
      assert keys + [] == keys && vals + [] == vals;
    } else {
      MembersUnfold(members, es);
      var key, v := PiecesMeaning(members[0].key), SlotMeaning(members[0].slot);
      if v.Some? {
        var rest := members[1..];
        var next := SetEntry(es, key, v.value);
        FromSize(keys, vals, es, f, l);
        if k :| 0 <= k < |es| && es[k].key == key {
          SetAgain(keys, vals, es, f, l, key, v.value, k);
          MembersFrom(rest, keys + [key], vals + [v.value], next, f, l[k := |keys|]);
        } else {
          NoKey(es, key);
          SetFirst(keys, vals, es, f, l, key, v.value);
          MembersFrom(rest, keys + [key], vals + [v.value], next, f + [|keys|], l + [|keys|]);
        }
        assert (keys + [key]) + KeysOf(rest) == keys + KeysOf(members);
        if ValuesOf(rest).Some? {
          assert (vals + [v.value]) + ValuesOf(rest).value == vals + ValuesOf(members).value;
        }
      }
    }
  }

  lemma NoKey(es: seq<Entry>, key: string)
    requires !exists k :: 0 <= k < |es| && es[k].key == key
    ensures !HasKey(es, key)
  {
  }

  lemma FromSize(keys: seq<string>, vals: seq<Json>, es: seq<Entry>, f: seq<nat>, l: seq<nat>)
    requires |keys| == |vals| && From(keys, vals, es, f, l)
    ensures |l| == |es|
  {
  }

  /** An object means something exactly when all its values do; and then, of equal keys the last one's value, in the
      place of the first. */
  lemma ObjectMeans(members: seq<Member>, blank: string)
    requires Formed(Braces(members, blank))
    ensures match Meaning(Braces(members, blank))
      case None => ValuesOf(members).None?
      case Some(v) => v.Obj? && ValuesOf(members).Some? && LastWins(KeysOf(members), ValuesOf(members).value, v.entries)
  {
    hide LastWins, ValuesOf, KeysOf, MembersMeaning;
    assert From([], [], [], [], []);
    MembersFrom(members, [], [], [], [], []);
    assert [] + KeysOf(members) == KeysOf(members);
    if ValuesOf(members).Some? { assert [] + ValuesOf(members).value == ValuesOf(members).value; }
  }
}
