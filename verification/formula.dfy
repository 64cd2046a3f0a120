/** Formulas over linear atoms, and the constructors that simplify as they build
    (src/logic.js, "Atoms and formulas"). */
module Formulas {
  import opened LinearExpr
  import opened Rational

  datatype Op = Le | Lt | Eq

  /** Every arithmetic atom reads `linear op 0`; a boolean atom is a named unknown. */
  datatype Formula =
    | True
    | False
    | Atom(op: Op, linear: Linear)
    | BoolAtom(key: string)
    | Not(f: Formula)
    | And(parts: seq<Formula>)
    | Or(parts: seq<Formula>)

  /** A model assigns a number to every variable and a truth value to every boolean key. */
  datatype Interp = Interp(num: Valuation, truth: string -> bool)

  ghost predicate AtomHolds(op: Op, x: real) {
    match op
    case Le => x <= 0.0
    case Lt => x < 0.0
    case Eq => x == 0.0
  }

  ghost predicate Models(f: Formula, m: Interp) {
    match f
    case True => true
    case False => false
    case Atom(op, l) => AtomHolds(op, Eval(l, m.num))
    case BoolAtom(key) => m.truth(key)
    case Not(g) => !Models(g, m)
    case And(parts) => forall i :: 0 <= i < |parts| ==> Models(parts[i], m)
    case Or(parts) => exists i :: 0 <= i < |parts| && Models(parts[i], m)
  }

  // ---- the smart constructors ---------------------------------------------------------------------

  function FlattenAnd(parts: seq<Formula>): seq<Formula> {
    if parts == [] then []
    else (if parts[0].And? then parts[0].parts else [parts[0]]) + FlattenAnd(parts[1..])
  }

  function FlattenOr(parts: seq<Formula>): seq<Formula> {
    if parts == [] then []
    else (if parts[0].Or? then parts[0].parts else [parts[0]]) + FlattenOr(parts[1..])
  }

  function DropTrue(parts: seq<Formula>): seq<Formula> {
    if parts == [] then []
    else (if parts[0].True? then [] else [parts[0]]) + DropTrue(parts[1..])
  }

  function DropFalse(parts: seq<Formula>): seq<Formula> {
    if parts == [] then []
    else (if parts[0].False? then [] else [parts[0]]) + DropFalse(parts[1..])
  }

  /** `and(...parts)`. */
  function Conj(parts: seq<Formula>): Formula {
    var flat := FlattenAnd(parts);
    if False in flat then False else
      var kept := DropTrue(flat);
      if |kept| == 0 then True else if |kept| == 1 then kept[0] else And(kept)
  }

  /** `or(...parts)`. */
  function Disj(parts: seq<Formula>): Formula {
    var flat := FlattenOr(parts);
    if True in flat then True else
      var kept := DropFalse(flat);
      if |kept| == 0 then False else if |kept| == 1 then kept[0] else Or(kept)
  }

  /** `not(f)`. */
  function Negated(f: Formula): Formula {
    if f.True? then False else if f.False? then True else if f.Not? then f.f else Not(f)
  }

  function Implies(a: Formula, b: Formula): Formula {
    Disj([Negated(a), b])
  }

  ghost predicate AllHold(parts: seq<Formula>, m: Interp) {
    forall p :: p in parts ==> Models(p, m)
  }

  ghost predicate SomeHolds(parts: seq<Formula>, m: Interp) {
    exists p :: p in parts && Models(p, m)
  }

  lemma {:induction false} FlattenAndMeans(parts: seq<Formula>, m: Interp)
    ensures AllHold(FlattenAnd(parts), m) <==> AllHold(parts, m)
  {
    if parts != [] {
      FlattenAndMeans(parts[1..], m);
      var p := parts[0];
      var head := if p.And? then p.parts else [p];
      assert AllHold(head, m) <==> Models(p, m) by {
        if p.And? {
          assert forall i :: 0 <= i < |p.parts| ==> p.parts[i] in p.parts;
        } else {
          assert p in head;
        }
      }
      AllHoldAppend(head, FlattenAnd(parts[1..]), m);
      AllHoldAppend([p], parts[1..], m);
      assert parts == [p] + parts[1..];
      assert AllHold([p], m) <==> Models(p, m) by { assert p in [p]; }
    }
  }

  lemma AllHoldAppend(a: seq<Formula>, b: seq<Formula>, m: Interp)
    ensures AllHold(a + b, m) <==> AllHold(a, m) && AllHold(b, m)
  {
    hide Models;
    assert forall p :: p in a + b <==> p in a || p in b;
  }

  lemma {:induction false} FlattenOrMeans(parts: seq<Formula>, m: Interp)
    ensures SomeHolds(FlattenOr(parts), m) <==> SomeHolds(parts, m)
  {
    if parts != [] {
      FlattenOrMeans(parts[1..], m);
      var p := parts[0];
      var head := if p.Or? then p.parts else [p];
      assert SomeHolds(head, m) <==> Models(p, m) by {
        if p.Or? {
          if Models(p, m) {
            var i :| 0 <= i < |p.parts| && Models(p.parts[i], m);
            assert p.parts[i] in head;
          }
        } else {
          assert p in head;
        }
      }
      SomeHoldsAppend(head, FlattenOr(parts[1..]), m);
      SomeHoldsAppend([p], parts[1..], m);
      assert parts == [p] + parts[1..];
      assert SomeHolds([p], m) <==> Models(p, m) by { assert p in [p]; }
    }
  }

  lemma SomeHoldsAppend(a: seq<Formula>, b: seq<Formula>, m: Interp)
    ensures SomeHolds(a + b, m) <==> SomeHolds(a, m) || SomeHolds(b, m)
  {
    hide Models;
    assert forall p :: p in a + b <==> p in a || p in b;
  }

  lemma {:induction false} DropTrueMeans(parts: seq<Formula>, m: Interp)
    ensures AllHold(DropTrue(parts), m) <==> AllHold(parts, m)
  {
    if parts != [] {
      DropTrueMeans(parts[1..], m);
      var p := parts[0];
      AllHoldAppend(if p.True? then [] else [p], DropTrue(parts[1..]), m);
      AllHoldAppend([p], parts[1..], m);
      assert parts == [p] + parts[1..];
      assert AllHold([p], m) <==> Models(p, m) by { assert p in [p]; }
    }
  }

  lemma {:induction false} DropFalseMeans(parts: seq<Formula>, m: Interp)
    ensures SomeHolds(DropFalse(parts), m) <==> SomeHolds(parts, m)
  {
    if parts != [] {
      DropFalseMeans(parts[1..], m);
      var p := parts[0];
      SomeHoldsAppend(if p.False? then [] else [p], DropFalse(parts[1..]), m);
      SomeHoldsAppend([p], parts[1..], m);
      assert parts == [p] + parts[1..];
      assert SomeHolds([p], m) <==> Models(p, m) by { assert p in [p]; }
    }
  }

  /** Flattening, absorbing and dropping change nothing: the built conjunction holds exactly when
      every argument does. */
  lemma ConjMeans(parts: seq<Formula>, m: Interp)
    ensures Models(Conj(parts), m) <==> AllHold(parts, m)
  {
    var flat := FlattenAnd(parts);
    FlattenAndMeans(parts, m);
    DropTrueMeans(flat, m);
    var kept := DropTrue(flat);
    assert forall i :: 0 <= i < |kept| ==> kept[i] in kept;
  }

  lemma DisjMeans(parts: seq<Formula>, m: Interp)
    ensures Models(Disj(parts), m) <==> SomeHolds(parts, m)
  {
    var flat := FlattenOr(parts);
    FlattenOrMeans(parts, m);
    DropFalseMeans(flat, m);
    var kept := DropFalse(flat);
    assert forall i :: 0 <= i < |kept| ==> kept[i] in kept;
  }

  lemma NegatedMeans(f: Formula, m: Interp)
    ensures Models(Negated(f), m) <==> !Models(f, m)
  {
  }

  lemma ImpliesMeans(a: Formula, b: Formula, m: Interp)
    ensures Models(Implies(a, b), m) <==> (Models(a, m) ==> Models(b, m))
  {
    DisjMeans([Negated(a), b], m);
    NegatedMeans(a, m);
    assert Negated(a) in [Negated(a), b] && b in [Negated(a), b];
  }

  lemma Conj2Means(a: Formula, b: Formula, m: Interp)
    ensures Models(Conj([a, b]), m) <==> Models(a, m) && Models(b, m)
  {
    ConjMeans([a, b], m);
    assert a in [a, b] && b in [a, b];
  }

  lemma Disj2Means(a: Formula, b: Formula, m: Interp)
    ensures Models(Disj([a, b]), m) <==> Models(a, m) || Models(b, m)
  {
    DisjMeans([a, b], m);
    assert a in [a, b] && b in [a, b];
  }

  // ---- variables of a formula ------------------------------------------------------------------------

  ghost predicate Over(f: Formula, names: iset<string>) {
    match f
    case True => true
    case False => true
    case Atom(_, l) => Mentions(l, names)
    case BoolAtom(_) => true
    case Not(g) => Over(g, names)
    case And(parts) => forall i :: 0 <= i < |parts| ==> Over(parts[i], names)
    case Or(parts) => forall i :: 0 <= i < |parts| ==> Over(parts[i], names)
  }

  lemma {:induction false} ModelsAgree(f: Formula, m: Interp, m': Interp, names: iset<string>)
    requires Over(f, names) && m.truth == m'.truth && forall v :: v in names ==> m.num(v) == m'.num(v)
    ensures Models(f, m) <==> Models(f, m')
  {
    match f
    case Atom(op, l) =>
      EvalAgrees(l.coeffs, m.num, m'.num, names);
    case Not(g) => ModelsAgree(g, m, m', names);
    case And(parts) =>
      forall i | 0 <= i < |parts| ensures Models(parts[i], m) <==> Models(parts[i], m') {
        ModelsAgree(parts[i], m, m', names);
      }
    case Or(parts) =>
      forall i | 0 <= i < |parts| ensures Models(parts[i], m) <==> Models(parts[i], m') {
        ModelsAgree(parts[i], m, m', names);
      }
    case _ =>
  }

  ghost predicate AllOver(parts: seq<Formula>, names: iset<string>) {
    forall p :: p in parts ==> Over(p, names)
  }

  lemma {:induction false} FlattenOver(parts: seq<Formula>, names: iset<string>)
    requires AllOver(parts, names)
    ensures AllOver(FlattenAnd(parts), names) && AllOver(FlattenOr(parts), names)
  {
    if parts != [] {
      assert parts[0] in parts;
      FlattenOver(parts[1..], names);
    }
  }

  lemma {:induction false} DropOver(parts: seq<Formula>, names: iset<string>)
    requires AllOver(parts, names)
    ensures AllOver(DropTrue(parts), names) && AllOver(DropFalse(parts), names)
  {
    if parts != [] {
      assert parts[0] in parts;
      DropOver(parts[1..], names);
    }
  }

  lemma ConjOver(parts: seq<Formula>, names: iset<string>)
    requires AllOver(parts, names)
    ensures Over(Conj(parts), names) && Over(Disj(parts), names)
  {
    FlattenOver(parts, names);
    DropOver(FlattenAnd(parts), names);
    DropOver(FlattenOr(parts), names);
    var a, o := DropTrue(FlattenAnd(parts)), DropFalse(FlattenOr(parts));
    assert forall i :: 0 <= i < |a| ==> a[i] in a;
    assert forall i :: 0 <= i < |o| ==> o[i] in o;
  }

  lemma Conj2Over(a: Formula, b: Formula, names: iset<string>)
    requires Over(a, names) && Over(b, names)
    ensures Over(Conj([a, b]), names) && Over(Disj([a, b]), names) && Over(Negated(a), names)
    ensures Over(Implies(a, b), names)
  {
    ConjOver([a, b], names);
    ConjOver([Negated(a), b], names);
  }

  lemma {:induction false} OverMonotone(f: Formula, names: iset<string>, names': iset<string>)
    requires Over(f, names) && names <= names'
    ensures Over(f, names')
  {
    match f
    case Not(g) => OverMonotone(g, names, names');
    case And(parts) =>
      forall i | 0 <= i < |parts| ensures Over(parts[i], names') {
        OverMonotone(parts[i], names, names');
      }
    case Or(parts) =>
      forall i | 0 <= i < |parts| ensures Over(parts[i], names') {
        OverMonotone(parts[i], names, names');
      }
    case _ =>
  }
}
