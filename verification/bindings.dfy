/** What one scope binds, as it is stored: up to eight bindings in the order they were made, found by scanning
    from the front; past that, or once something asks for the view, a map, in which the last binding of a name
    stands. A parameter list may repeat a name, and then the two ways of storing disagree. */
module Bindings {

  datatype Bound<T> = Bound(name: string, to: T)

  datatype Stored<T> = Arrays(bound: seq<Bound<T>>) | Mapped(slots: map<string, T>)

  const SMALL := 8

  // ---- what is found ------------------------------------------------------------------------------------

  /** Scanning from the front. */
  function First<T>(bs: seq<Bound<T>>): map<string, T> {
    if bs == [] then map[] else First(bs[1..])[bs[0].name := bs[0].to]
  }

  /** Entered in order into a map. */
  function Last<T>(bs: seq<Bound<T>>): map<string, T> {
    if bs == [] then map[] else Last(bs[..|bs| - 1])[bs[|bs| - 1].name := bs[|bs| - 1].to]
  }

  function Found<T>(s: Stored<T>): map<string, T> {
    match s
    case Arrays(bs) => First(bs)
    case Mapped(m) => m
  }

  /** The names, each as often as it is bound: the counters that clearing moves. */
  function Held<T>(s: Stored<T>): multiset<string> {
    match s
    case Arrays(bs) => Names(bs)
    case Mapped(m) => multiset(m.Keys)
  }

  function Names<T>(bs: seq<Bound<T>>): multiset<string> {
    if bs == [] then multiset{} else Names(bs[..|bs| - 1]) + multiset{bs[|bs| - 1].name}
  }

  predicate Bare<T>(bs: seq<Bound<T>>, name: string) {
    forall i :: 0 <= i < |bs| ==> bs[i].name != name
  }

  // ---- what is done ------------------------------------------------------------------------------------

  /** Where a name is bound first, or the length. */
  function IndexOf<T>(bs: seq<Bound<T>>, name: string): (i: nat)
    ensures i <= |bs| && (i < |bs| ==> bs[i].name == name)
    ensures forall j :: 0 <= j < i ==> bs[j].name != name
  {
    if bs == [] || bs[0].name == name then 0 else 1 + IndexOf(bs[1..], name)
  }

  /** The map view. */
  function View<T>(s: Stored<T>): Stored<T> {
    match s
    case Arrays(bs) => Mapped(Last(bs))
    case Mapped(_) => s
  }

  /** In place of what the name is bound to, or at the end; past eight by way of the view. */
  function Put<T>(s: Stored<T>, name: string, to: T): Stored<T> {
    match s
    case Mapped(m) => Mapped(m[name := to])
    case Arrays(bs) =>
      var i := IndexOf(bs, name);
      if i < |bs| then Arrays(bs[i := Bound(name, to)])
      else if |bs| >= SMALL then Mapped(Last(bs)[name := to])
      else Arrays(bs + [Bound(name, to)])
  }

  function Clear<T>(s: Stored<T>): Stored<T> {
    match s
    case Arrays(_) => Arrays([])
    case Mapped(_) => Mapped(map[])
  }

  /** Takes out the binding that is found. */
  function Delete<T>(s: Stored<T>, name: string): Stored<T> {
    match s
    case Mapped(m) => Mapped(m - {name})
    case Arrays(bs) =>
      var i := IndexOf(bs, name);
      if i < |bs| then Arrays(bs[..i] + bs[i + 1..]) else s
  }

  /** A call frame: the parameters, in order. */
  function Adopt<T>(params: seq<string>, cells: seq<T>): (bs: seq<Bound<T>>)
    requires |params| == |cells|
    ensures |bs| == |params|
  {
    seq(|params|, i requires 0 <= i < |params| => Bound(params[i], cells[i]))
  }

  /** A frame taken back: the parameters again, in the storage that is there. */
  function Retake<T>(bs: seq<Bound<T>>, params: seq<string>): (r: seq<Bound<T>>)
    ensures |params| <= |bs| ==> |r| == |params|
  {
    if |params| > |bs| then bs else seq(|params|, i requires 0 <= i < |params| => Bound(params[i], bs[i].to))
  }

  /** The bindings of a frame still begin with its parameters. */
  predicate Begins<T>(bs: seq<Bound<T>>, params: seq<string>) {
    |params| <= |bs| && forall i :: 0 <= i < |params| ==> bs[i].name == params[i]
  }

  // ---- first and last ------------------------------------------------------------------------------------

  predicate Distinct(names: seq<string>) {
    forall i, j :: 0 <= i < j < |names| ==> names[i] != names[j]
  }

  /** No name is bound twice. */
  predicate Once<T>(bs: seq<Bound<T>>) {
    forall i, j :: 0 <= i < j < |bs| ==> bs[i].name != bs[j].name
  }

  predicate Single<T>(s: Stored<T>) {
    s.Arrays? ==> Once(s.bound)
  }

  /** No two bindings share what they bind to. */
  predicate Apart<T(==)>(bs: seq<Bound<T>>) {
    forall i, j :: 0 <= i < j < |bs| ==> bs[i].to != bs[j].to
  }

  lemma {:induction false} FirstKeys<T>(bs: seq<Bound<T>>, name: string)
    ensures name in First(bs) <==> !Bare(bs, name)
    ensures var i := IndexOf(bs, name); if i < |bs| then name in First(bs) && First(bs)[name] == bs[i].to else name !in First(bs)
  {
    if bs != [] { FirstKeys(bs[1..], name); }
  }

  lemma {:induction false} LastKeys<T>(bs: seq<Bound<T>>, name: string)
    ensures name in Last(bs) <==> !Bare(bs, name)
  {
    if bs != [] {
      var init := bs[..|bs| - 1];
      LastKeys(init, name);
      assert forall i :: 0 <= i < |init| ==> init[i] == bs[i];
      assert !Bare(init, name) ==> !Bare(bs, name);
    }
  }

  /** The last binding of a name is what the map holds. */
  lemma {:induction false} LastAt<T>(bs: seq<Bound<T>>, i: nat)
    requires i < |bs| && forall j :: i < j < |bs| ==> bs[j].name != bs[i].name
    ensures bs[i].name in Last(bs) && Last(bs)[bs[i].name] == bs[i].to
  {
    var n := |bs| - 1;
    if i < n {
      assert bs[..n][i] == bs[i];
      LastAt(bs[..n], i);
    }
  }

  /** Scanning and the map agree on every name exactly when no name is bound twice. */
  lemma FirstIsLast<T>(bs: seq<Bound<T>>)
    requires Apart(bs)
    ensures First(bs) == Last(bs) <==> Once(bs)
  {
    hide First, Last;
    if Once(bs) {
      OnceAgrees(bs);
    } else {
      var i, j :| 0 <= i < j < |bs| && bs[i].name == bs[j].name;
      var k := LastOf(bs, j);
      FirstKeys(bs, bs[i].name);
      LastAt(bs, k);
    }
  }

  lemma LastOf<T>(bs: seq<Bound<T>>, j: nat) returns (k: nat)
    requires j < |bs|
    ensures j <= k < |bs| && bs[k].name == bs[j].name && forall m :: k < m < |bs| ==> bs[m].name != bs[k].name
    decreases |bs| - j
  {
    if m :| j < m < |bs| && bs[m].name == bs[j].name {
      k := LastOf(bs, m);
    } else {
      k := j;
    }
  }

  lemma OnceAgrees<T>(bs: seq<Bound<T>>)
    requires Once(bs)
    ensures First(bs) == Last(bs)
  {
    hide First, Last;
    forall n ensures n in First(bs) <==> n in Last(bs) {
      FirstKeys(bs, n);
      LastKeys(bs, n);
    }
    forall n | n in First(bs) ensures First(bs)[n] == Last(bs)[n] {
      FirstKeys(bs, n);
      LastAt(bs, IndexOf(bs, n));
    }
  }

  // ---- each operation, as what is found sees it -------------------------------------------------------------

  /** The first place where a name is bound is the only one before which it is not. */
  lemma FirstAt<T>(bs: seq<Bound<T>>, name: string, i: nat)
    requires i <= |bs| && (i < |bs| ==> bs[i].name == name) && forall j :: 0 <= j < i ==> bs[j].name != name
    ensures IndexOf(bs, name) == i
    ensures if i < |bs| then name in First(bs) && First(bs)[name] == bs[i].to else name !in First(bs)
  {
    FirstKeys(bs, name);
  }

  lemma FirstAdd<T>(bs: seq<Bound<T>>, name: string, to: T)
    requires IndexOf(bs, name) == |bs|
    ensures First(bs + [Bound(name, to)]) == First(bs)[name := to]
    ensures Once(bs) ==> Once(bs + [Bound(name, to)])
  {
    hide First;
    var cs := bs + [Bound(name, to)];
    forall n ensures (n in First(cs) <==> n in First(bs)[name := to]) && (n in First(cs) ==> First(cs)[n] == First(bs)[name := to][n]) {
      var i := IndexOf(bs, n);
      FirstAt(bs, n, i);
      FirstAt(cs, n, if i == |bs| && n != name then |cs| else i);
    }
  }

  lemma FirstSet<T>(bs: seq<Bound<T>>, name: string, to: T)
    requires IndexOf(bs, name) < |bs|
    ensures First(bs[IndexOf(bs, name) := Bound(name, to)]) == First(bs)[name := to]
    ensures Once(bs) ==> Once(bs[IndexOf(bs, name) := Bound(name, to)])
  {
    hide First;
    var cs := bs[IndexOf(bs, name) := Bound(name, to)];
    forall n ensures (n in First(cs) <==> n in First(bs)[name := to]) && (n in First(cs) ==> First(cs)[n] == First(bs)[name := to][n]) {
      var i := IndexOf(bs, n);
      FirstAt(bs, n, i);
      FirstAt(cs, n, i);
    }
  }

  /** Binding a name changes what that name finds and nothing else, unless a name that is bound twice passes
      from the arrays into the map. */
  lemma FoundPut<T>(s: Stored<T>, name: string, to: T)
    ensures Put(s, name, to).Arrays? || s.Mapped? || Single(s) ==> Found(Put(s, name, to)) == Found(s)[name := to]
    ensures Single(s) ==> Single(Put(s, name, to))
  {
    hide First, Last;
    if s.Arrays? {
      if IndexOf(s.bound, name) < |s.bound| {
        FirstSet(s.bound, name, to);
      } else {
        FirstAdd(s.bound, name, to);
        if Once(s.bound) { OnceAgrees(s.bound); }
      }
    }
  }

  lemma FoundView<T>(s: Stored<T>)
    requires Single(s)
    ensures Found(View(s)) == Found(s) && Single(View(s))
  {
    if s.Arrays? { OnceAgrees(s.bound); }
  }

  lemma FoundDelete<T>(s: Stored<T>, name: string)
    requires Single(s)
    ensures Found(Delete(s, name)) == Found(s) - {name} && Single(Delete(s, name))
  {
    hide First, IndexOf;
    if s.Arrays? {
      var bs := s.bound;
      var i := IndexOf(bs, name);
      FirstAt(bs, name, i);
      if i < |bs| {
        var cs := bs[..i] + bs[i + 1..];
        forall n ensures (n in First(cs) <==> n in First(bs) && n != name) && (n in First(cs) ==> First(cs)[n] == First(bs)[n]) {
          if n == name { FirstAt(cs, n, |cs|); } else { DeleteOthers(s, name, n); }
        }
      }
    }
  }

  /** Deleting a binding touches no other name. */
  lemma DeleteOthers<T>(s: Stored<T>, name: string, other: string)
    requires other != name
    ensures other in Found(Delete(s, name)) <==> other in Found(s)
    ensures other in Found(s) ==> Found(Delete(s, name))[other] == Found(s)[other]
  {
    hide First, IndexOf;
    if s.Arrays? && IndexOf(s.bound, name) < |s.bound| {
      var bs := s.bound;
      var i, j := IndexOf(bs, name), IndexOf(bs, other);
      var cs := bs[..i] + bs[i + 1..];
      FirstAt(bs, other, j);
      FirstAt(cs, other, if j < i then j else j - 1);
    }
  }

  /** What a name finds in a frame that is taken back, unless it is one of those dropped. */
  lemma FoundRetake<T>(bs: seq<Bound<T>>, params: seq<string>, name: string)
    requires Begins(bs, params) && Bare(bs[|params|..], name)
    ensures name in First(Retake(bs, params)) <==> name in First(bs)
    ensures name in First(bs) ==> First(Retake(bs, params))[name] == First(bs)[name]
  {
    hide First, IndexOf;
    var n, i := |params|, IndexOf(bs, name);
    FirstAt(bs, name, i);
    assert i < |bs| ==> i < n by {
      forall k | n <= k < |bs| ensures bs[k].name != name { assert bs[n..][k - n] == bs[k]; }
    }
    FirstAt(Retake(bs, params), name, if i < n then i else n);
  }

  lemma RetakeBegins<T>(bs: seq<Bound<T>>, params: seq<string>)
    requires Begins(bs, params)
    ensures Retake(bs, params) == bs[..|params|] && Begins(Retake(bs, params), params)
    ensures Once(bs) ==> Once(Retake(bs, params))
  {
  }

  lemma AdoptOnce<T>(params: seq<string>, cells: seq<T>)
    requires |params| == |cells|
    ensures Once(Adopt(params, cells)) <==> Distinct(params)
    ensures Begins(Adopt(params, cells), params)
  {
    var bs := Adopt(params, cells);
    assert forall i :: 0 <= i < |bs| ==> bs[i].name == params[i];
  }

  lemma {:induction false} NamesBare<T>(bs: seq<Bound<T>>, name: string)
    ensures Names(bs)[name] == 0 <==> Bare(bs, name)
  {
    if bs != [] {
      var n := |bs| - 1;
      NamesBare(bs[..n], name);
      assert forall i :: 0 <= i < n ==> bs[..n][i] == bs[i];
    }
  }

  lemma HeldFound<T>(s: Stored<T>, name: string)
    ensures Held(s)[name] == 0 <==> name !in Found(s)
  {
    hide First, Names;
    if s.Arrays? {
      NamesBare(s.bound, name);
      FirstKeys(s.bound, name);
    }
  }
}
