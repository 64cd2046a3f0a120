/** A search over truth assignments to the atoms of a formula, with three-valued pruning, on top of the
    linear solver (src/logic.js, "DPLL over the boolean structure"). */
module Dpll {
  import opened Rational
  import opened LinearExpr
  import opened Formulas
  import opened FourierMotzkin
  import opened Text

  /** A truth value that may not have been chosen yet. */
  datatype Kleene = Known(b: bool) | Undefined

  predicate IsAtom(f: Formula) {
    f.Atom? || f.BoolAtom?
  }

  /** Atoms are compared by kind, operator and printed form. */
  predicate SameAtom(a: Formula, b: Formula) {
    match (a, b)
    case (BoolAtom(k), BoolAtom(k')) => k == k'
    case (Atom(op, l), Atom(op', l')) => op == op' && LinearText(l) == LinearText(l')
    case _ => false
  }

  predicate Listed(a: Formula, atoms: seq<Formula>) {
    exists i :: 0 <= i < |atoms| && SameAtom(atoms[i], a)
  }

  function CollectAtoms(f: Formula, out: seq<Formula>): seq<Formula>
    decreases f, 0
  {
    match f
    case Atom(_, _) => if Listed(f, out) then out else out + [f]
    case BoolAtom(_) => if Listed(f, out) then out else out + [f]
    case Not(g) => CollectAtoms(g, out)
    case And(parts) => CollectParts(parts, out)
    case Or(parts) => CollectParts(parts, out)
    case _ => out
  }

  function CollectParts(parts: seq<Formula>, out: seq<Formula>): seq<Formula>
    decreases parts, 1
  {
    if parts == [] then out else CollectParts(parts[1..], CollectAtoms(parts[0], out))
  }

  /** The truth value given to an atom, Undefined when it is not in the list. */
  function Lookup(a: Formula, atoms: seq<Formula>, values: seq<Kleene>): Kleene
    requires |atoms| == |values|
  {
    if atoms == [] then Undefined
    else if SameAtom(atoms[0], a) then values[0]
    else Lookup(a, atoms[1..], values[1..])
  }

  function Evaluate(f: Formula, atoms: seq<Formula>, values: seq<Kleene>): Kleene
    requires |atoms| == |values|
    decreases f, 0
  {
    match f
    case True => Known(true)
    case False => Known(false)
    case Atom(_, _) => Lookup(f, atoms, values)
    case BoolAtom(_) => Lookup(f, atoms, values)
    case Not(g) =>
      var inner := Evaluate(g, atoms, values);
      if inner.Undefined? then Undefined else Known(!inner.b)
    case And(parts) => EvaluateParts(parts, false, atoms, values)
    case Or(parts) => EvaluateParts(parts, true, atoms, values)
  }

  /** A conjunction stops at a false part, a disjunction at a true one; otherwise an undefined part
      leaves the whole undefined. */
  function EvaluateParts(parts: seq<Formula>, stop: bool, atoms: seq<Formula>, values: seq<Kleene>): Kleene
    requires |atoms| == |values|
    decreases parts, 1
  {
    if parts == [] then Known(!stop) else
      var v := Evaluate(parts[0], atoms, values);
      if v == Known(stop) then v else
        var r := EvaluateParts(parts[1..], stop, atoms, values);
        if r == Known(stop) then r else if v.Undefined? then v else r
  }

  // ---- from a truth assignment to constraints --------------------------------------------------------

  function AtomConstraints(op: Op, l: Linear, positive: bool): seq<Constraint> {
    match op
    case Le => [if positive then Constraint(l, false) else Constraint(Negate(l), true)]
    case Lt => [if positive then Constraint(l, true) else Constraint(Negate(l), false)]
    case Eq => if positive then [Constraint(l, false), Constraint(Negate(l), false)] else []
  }

  function Fixed(atoms: seq<Formula>, values: seq<Kleene>): seq<Constraint>
    requires |atoms| == |values|
  {
    if atoms == [] then [] else
      var n := |atoms| - 1;
      var a, v := atoms[n], values[n];
      Fixed(atoms[..n], values[..n])
      + if a.Atom? && v.Known? then AtomConstraints(a.op, a.linear, v.b) else []
  }

  function Disequalities(atoms: seq<Formula>, values: seq<Kleene>): seq<Linear>
    requires |atoms| == |values|
  {
    if atoms == [] then [] else
      var n := |atoms| - 1;
      var a, v := atoms[n], values[n];
      Disequalities(atoms[..n], values[..n]) + if a.Atom? && v == Known(false) && a.op.Eq? then [a.linear] else []
  }

  /** A false equality splits every set in two: e < 0, or e > 0. */
  function Doubled(sets: seq<seq<Constraint>>, l: Linear): seq<seq<Constraint>> {
    if sets == [] then [] else
      var n := |sets| - 1;
      Doubled(sets[..n], l) + [sets[n] + [Constraint(l, true)], sets[n] + [Constraint(Negate(l), true)]]
  }

  function SplitSets(sets: seq<seq<Constraint>>, ls: seq<Linear>): seq<seq<Constraint>>
    decreases |ls|
  {
    if ls == [] then sets else SplitSets(Doubled(sets, ls[0]), ls[1..])
  }

  const MAX_DISEQUALITIES := 6

  /** `constraintSetsOf`; with more than six disequalities it answers null. */
  function ConstraintSets(atoms: seq<Formula>, values: seq<Kleene>): seq<seq<Constraint>>
    requires |atoms| == |values|
  {
    SplitSets([Fixed(atoms, values)], Disequalities(atoms, values))
  }

  predicate TooManySplits(atoms: seq<Formula>, values: seq<Kleene>)
    requires |atoms| == |values|
  {
    |Disequalities(atoms, values)| > MAX_DISEQUALITIES
  }

  function TrySets(sets: seq<seq<Constraint>>, budget: nat): Answer {
    if sets == [] then No else
      var r := Decide(sets[0], Variables(sets[0]), budget);
      if r == Yes then Yes else
        var rest := TrySets(sets[1..], budget);
        if rest == Yes then Yes else if r == Unknown then Unknown else rest
  }

  // ---- the search ----------------------------------------------------------------------------------------

  function Leaf(f: Formula, atoms: seq<Formula>, values: seq<Kleene>, budget: nat): Answer
    requires |atoms| == |values|
  {
    if Evaluate(f, atoms, values) != Known(true) then No
    else if TooManySplits(atoms, values) then Unknown
    else TrySets(ConstraintSets(atoms, values), budget)
  }

  function Search(f: Formula, atoms: seq<Formula>, values: seq<Kleene>, index: nat, budget: nat): Answer
    requires |atoms| == |values| && index <= |atoms|
    decreases |atoms| - index
  {
    if Evaluate(f, atoms, values) == Known(false) then No
    else if index == |atoms| then Leaf(f, atoms, values, budget)
    else
      var r := Search(f, atoms, values[index := Known(true)], index + 1, budget);
      if r != No then r else Search(f, atoms, values[index := Known(false)], index + 1, budget)
  }

  function Unset(n: nat): seq<Kleene> {
    seq(n, _ => Undefined)
  }

  function IsSatisfiable(f: Formula, maxAtoms: nat, budget: nat): Answer {
    var atoms := CollectAtoms(f, []);
    if |atoms| > maxAtoms then Unknown else Search(f, atoms, Unset(|atoms|), 0, budget)
  }

  /** Yes when proved, No when refuted. */
  function IsValid(f: Formula, maxAtoms: nat, budget: nat): Answer {
    match IsSatisfiable(Negated(f), maxAtoms, budget)
    case Unknown => Unknown
    case No => Yes
    case Yes => No
  }

  // ---- when text decides identity -------------------------------------------------------------------------

  /** The atoms of a formula. */
  function AtomsIn(f: Formula): set<Formula>
    decreases f, 0
  {
    match f
    case Atom(_, _) => {f}
    case BoolAtom(_) => {f}
    case Not(g) => AtomsIn(g)
    case And(parts) => AtomsInAll(parts)
    case Or(parts) => AtomsInAll(parts)
    case _ => {}
  }

  function AtomsInAll(parts: seq<Formula>): set<Formula>
    decreases parts, 1
  {
    if parts == [] then {} else AtomsIn(parts[0]) + AtomsInAll(parts[1..])
  }

  /** Atoms of which no two different ones are taken for one. */
  predicate Apart(u: set<Formula>) {
    (forall a :: a in u ==> IsAtom(a)) && forall a, b :: a in u && b in u && SameAtom(a, b) ==> a == b
  }

  /** No two different atoms of the formula print alike. */
  predicate Unambiguous(f: Formula) {
    Apart(AtomsIn(f))
  }

  ghost function PlainSet(): iset<string> {
    iset v: string | Plain(v)
  }

  /** No variable name of the formula holds a blank. */
  ghost predicate PlainFormula(f: Formula) {
    Over(f, PlainSet())
  }

  lemma {:induction false} PlainAtoms(f: Formula)
    requires PlainFormula(f)
    ensures forall a :: a in AtomsIn(f) ==> IsAtom(a) && PlainFormula(a)
    decreases f, 0
  {
    match f
    case Not(g) => PlainAtoms(g);
    case And(parts) => PlainAtomsAll(parts);
    case Or(parts) => PlainAtomsAll(parts);
    case _ =>
  }

  lemma {:induction false} PlainAtomsAll(parts: seq<Formula>)
    requires forall i :: 0 <= i < |parts| ==> PlainFormula(parts[i])
    ensures forall a :: a in AtomsInAll(parts) ==> IsAtom(a) && PlainFormula(a)
    decreases parts, 1
  {
    hide PlainFormula;
    if parts != [] {
      PlainAtoms(parts[0]);
      assert forall i :: 0 <= i < |parts[1..]| ==> parts[1..][i] == parts[i + 1];
      PlainAtomsAll(parts[1..]);
    }
  }

  /** Names without blanks are enough: then the printed form determines the expression. */
  lemma PlainUnambiguous(f: Formula)
    requires PlainFormula(f)
    ensures Unambiguous(f)
  {
    hide LinearText, AtomsIn;
    PlainAtoms(f);
    forall a, b | a in AtomsIn(f) && b in AtomsIn(f) && SameAtom(a, b) ensures a == b {
      if a.Atom? {
        LinearTextInjective(a.linear, b.linear);
      }
    }
  }

  /** Every atom of the formula is in the set. */
  ghost predicate Within(f: Formula, u: set<Formula>) {
    match f
    case Atom(_, _) => f in u
    case BoolAtom(_) => f in u
    case Not(g) => Within(g, u)
    case And(parts) => forall i :: 0 <= i < |parts| ==> Within(parts[i], u)
    case Or(parts) => forall i :: 0 <= i < |parts| ==> Within(parts[i], u)
    case _ => true
  }

  lemma {:induction false} WithinAtoms(f: Formula, u: set<Formula>)
    requires AtomsIn(f) <= u
    ensures Within(f, u)
    decreases f, 0
  {
    match f
    case Not(g) => WithinAtoms(g, u);
    case And(parts) => WithinAtomsAll(parts, u);
    case Or(parts) => WithinAtomsAll(parts, u);
    case _ =>
  }

  lemma {:induction false} WithinAtomsAll(parts: seq<Formula>, u: set<Formula>)
    requires AtomsInAll(parts) <= u
    ensures forall i :: 0 <= i < |parts| ==> Within(parts[i], u)
    decreases parts, 1
  {
    hide Within;
    if parts != [] {
      WithinAtoms(parts[0], u);
      WithinAtomsAll(parts[1..], u);
      assert forall i :: 0 < i < |parts| ==> parts[i] == parts[1..][i - 1];
    }
  }

  lemma SameAtomIsEqual(u: set<Formula>, a: Formula, b: Formula)
    requires Apart(u) && a in u && b in u
    ensures SameAtom(a, b) <==> a == b
  {
  }

  ghost predicate Among(atoms: seq<Formula>, u: set<Formula>) {
    Apart(u) && forall a :: a in atoms ==> a in u
  }

  /** Every atom of the formula is in the list. */
  ghost predicate Covers(f: Formula, atoms: seq<Formula>) {
    match f
    case Atom(_, _) => f in atoms
    case BoolAtom(_) => f in atoms
    case Not(g) => Covers(g, atoms)
    case And(parts) => forall i :: 0 <= i < |parts| ==> Covers(parts[i], atoms)
    case Or(parts) => forall i :: 0 <= i < |parts| ==> Covers(parts[i], atoms)
    case _ => true
  }

  ghost predicate Distinct(atoms: seq<Formula>) {
    forall i, j :: 0 <= i < j < |atoms| ==> atoms[i] != atoms[j]
  }

  lemma {:induction false} CoversMonotone(f: Formula, atoms: seq<Formula>, more: seq<Formula>)
    requires Covers(f, atoms) && forall a :: a in atoms ==> a in more
    ensures Covers(f, more)
  {
    match f
    case Not(g) => CoversMonotone(g, atoms, more);
    case And(parts) =>
      forall i | 0 <= i < |parts| ensures Covers(parts[i], more) { CoversMonotone(parts[i], atoms, more); }
    case Or(parts) =>
      forall i | 0 <= i < |parts| ensures Covers(parts[i], more) { CoversMonotone(parts[i], atoms, more); }
    case _ =>
  }

  lemma ListedIsMember(u: set<Formula>, a: Formula, atoms: seq<Formula>)
    requires Among(atoms, u) && a in u
    ensures Listed(a, atoms) <==> a in atoms
  {
    forall i | 0 <= i < |atoms| ensures SameAtom(atoms[i], a) <==> atoms[i] == a {
      assert atoms[i] in atoms;
      SameAtomIsEqual(u, atoms[i], a);
    }
  }

  ghost predicate Collected(u: set<Formula>, before: seq<Formula>, after: seq<Formula>) {
    Among(after, u) && Distinct(after) && forall a :: a in before ==> a in after
  }

  /** The atoms are gathered once each, and none is missed. */
  lemma {:induction false} CollectAtomsCovers(u: set<Formula>, f: Formula, out: seq<Formula>)
    requires Within(f, u) && Among(out, u) && Distinct(out)
    ensures Collected(u, out, CollectAtoms(f, out)) && Covers(f, CollectAtoms(f, out))
    decreases f, 0
  {
    match f
    case Atom(_, _) => ListedIsMember(u, f, out);
    case BoolAtom(_) => ListedIsMember(u, f, out);
    case Not(g) => CollectAtomsCovers(u, g, out);
    case And(parts) => CollectPartsCovers(u, parts, out);
    case Or(parts) => CollectPartsCovers(u, parts, out);
    case _ =>
  }

  lemma {:induction false} CollectPartsCovers(u: set<Formula>, parts: seq<Formula>, out: seq<Formula>)
    requires (forall i :: 0 <= i < |parts| ==> Within(parts[i], u)) && Among(out, u) && Distinct(out)
    ensures Collected(u, out, CollectParts(parts, out))
    ensures forall i :: 0 <= i < |parts| ==> Covers(parts[i], CollectParts(parts, out))
    decreases parts, 1
  {
    if parts != [] {
      var mid := CollectAtoms(parts[0], out);
      CollectAtomsCovers(u, parts[0], out);
      forall i | 0 <= i < |parts[1..]| ensures Within(parts[1..][i], u) {
        assert parts[1..][i] == parts[i + 1];
      }
      CollectPartsCovers(u, parts[1..], mid);
      var all := CollectParts(parts, out);
      forall i | 0 <= i < |parts| ensures Covers(parts[i], all) {
        if i == 0 {
          CoversMonotone(parts[0], mid, all);
        } else {
          assert parts[1..][i - 1] == parts[i];
        }
      }
    }
  }

  // ---- three-valued evaluation ---------------------------------------------------------------------------

  ghost predicate Consistent(atoms: seq<Formula>, values: seq<Kleene>, m: Interp)
    requires |atoms| == |values|
  {
    forall i :: 0 <= i < |atoms| && values[i].Known? ==> (Models(atoms[i], m) <==> values[i].b)
  }

  lemma {:induction false} LookupFound(u: set<Formula>, a: Formula, atoms: seq<Formula>, values: seq<Kleene>)
    requires |atoms| == |values| && Among(atoms, u) && a in u
    ensures a in atoms ==> exists i :: 0 <= i < |atoms| && atoms[i] == a && Lookup(a, atoms, values) == values[i]
    ensures a !in atoms ==> Lookup(a, atoms, values) == Undefined
  {
    hide Within, SameAtom, Models;
    if atoms != [] {
      assert atoms[0] in atoms;
      SameAtomIsEqual(u, atoms[0], a);
      if atoms[0] != a {
        LookupFound(u, a, atoms[1..], values[1..]);
        if a in atoms {
          var i :| 0 <= i < |atoms[1..]| && atoms[1..][i] == a && Lookup(a, atoms[1..], values[1..]) == values[1..][i];
          assert atoms[i + 1] == a;
        }
      }
    }
  }

  /** Pruning is sound: a value the partial assignment already fixes is the value in every model that
      agrees with the assignment. */
  lemma {:induction false} EvaluateSound(u: set<Formula>, f: Formula, atoms: seq<Formula>, values: seq<Kleene>, m: Interp)
    requires |atoms| == |values| && Among(atoms, u) && Within(f, u) && Consistent(atoms, values, m)
    ensures Evaluate(f, atoms, values).Known? ==> (Models(f, m) <==> Evaluate(f, atoms, values).b)
    decreases f, 0
  {
    match f
    case Atom(_, _) => LookupFound(u, f, atoms, values);
    case BoolAtom(_) => LookupFound(u, f, atoms, values);
    case Not(g) => EvaluateSound(u, g, atoms, values, m);
    case And(parts) => EvaluatePartsSound(u, parts, false, atoms, values, m);
    case Or(parts) => EvaluatePartsSound(u, parts, true, atoms, values, m);
    case _ =>
  }

  lemma {:induction false} EvaluatePartsSound(u: set<Formula>, parts: seq<Formula>, stop: bool, atoms: seq<Formula>,
                                              values: seq<Kleene>, m: Interp)
    requires |atoms| == |values| && Among(atoms, u) && Consistent(atoms, values, m)
    requires forall i :: 0 <= i < |parts| ==> Within(parts[i], u)
    ensures EvaluateParts(parts, stop, atoms, values) == Known(stop) ==>
      exists i :: 0 <= i < |parts| && (Models(parts[i], m) <==> stop)
    ensures EvaluateParts(parts, stop, atoms, values) == Known(!stop) ==>
      forall i :: 0 <= i < |parts| ==> (Models(parts[i], m) <==> !stop)
    decreases parts, 1
  {
    hide Within, Models, Consistent, Among;
    if parts != [] {
      var rest := parts[1..];
      EvaluateSound(u, parts[0], atoms, values, m);
      assert forall i :: 0 <= i < |rest| ==> rest[i] == parts[i + 1];
      EvaluatePartsSound(u, rest, stop, atoms, values, m);
      if EvaluateParts(rest, stop, atoms, values) == Known(stop) {
        var i :| 0 <= i < |rest| && (Models(rest[i], m) <==> stop);
        assert rest[i] == parts[i + 1];
      }
      forall i | 0 <= i < |parts| && EvaluateParts(parts, stop, atoms, values) == Known(!stop)
        ensures Models(parts[i], m) <==> !stop
      {
        if i > 0 { assert rest[i - 1] == parts[i]; }
      }
    }
  }

  /** Once every atom has a value, so has the formula. */
  lemma {:induction false} EvaluateTotal(u: set<Formula>, f: Formula, atoms: seq<Formula>, values: seq<Kleene>)
    requires |atoms| == |values| && Among(atoms, u) && Within(f, u) && Covers(f, atoms)
    requires forall i :: 0 <= i < |values| ==> values[i].Known?
    ensures Evaluate(f, atoms, values).Known?
    decreases f, 0
  {
    match f
    case Atom(_, _) => LookupFound(u, f, atoms, values);
    case BoolAtom(_) => LookupFound(u, f, atoms, values);
    case Not(g) => EvaluateTotal(u, g, atoms, values);
    case And(parts) => EvaluatePartsTotal(u, parts, false, atoms, values);
    case Or(parts) => EvaluatePartsTotal(u, parts, true, atoms, values);
    case _ =>
  }

  lemma {:induction false} EvaluatePartsTotal(u: set<Formula>, parts: seq<Formula>, stop: bool, atoms: seq<Formula>, values: seq<Kleene>)
    requires |atoms| == |values| && Among(atoms, u)
    requires forall i :: 0 <= i < |parts| ==> Within(parts[i], u) && Covers(parts[i], atoms)
    requires forall i :: 0 <= i < |values| ==> values[i].Known?
    ensures EvaluateParts(parts, stop, atoms, values).Known?
    decreases parts, 1
  {
    hide Within, Covers, Among;
    if parts != [] {
      var rest := parts[1..];
      EvaluateTotal(u, parts[0], atoms, values);
      assert forall i :: 0 <= i < |rest| ==> rest[i] == parts[i + 1];
      EvaluatePartsTotal(u, rest, stop, atoms, values);
    }
  }

  // ---- the constraint sets say what the assignment says ----------------------------------------------------

  ghost predicate AgreesAt(a: Formula, v: Kleene, s: Valuation) {
    a.Atom? && v.Known? ==> (AtomHolds(a.op, Eval(a.linear, s)) <==> v.b)
  }

  /** The arithmetic atoms have their assigned truth values at the point. */
  ghost predicate Agrees(atoms: seq<Formula>, values: seq<Kleene>, s: Valuation)
    requires |atoms| == |values|
  {
    forall i :: 0 <= i < |atoms| ==> AgreesAt(atoms[i], values[i], s)
  }

  ghost predicate NoneZero(ls: seq<Linear>, s: Valuation) {
    forall l :: l in ls ==> Eval(l, s) != 0.0
  }

  lemma HoldAllAppend(a: seq<Constraint>, b: seq<Constraint>, s: Valuation)
    ensures HoldAll(a + b, s) <==> HoldAll(a, s) && HoldAll(b, s)
  {
    hide Holds;
    assert forall c :: c in a + b <==> c in a || c in b;
  }

  lemma AtomConstraintsMean(op: Op, l: Linear, positive: bool, s: Valuation)
    requires !(op.Eq? && !positive)
    ensures HoldAll(AtomConstraints(op, l, positive), s) <==> (AtomHolds(op, Eval(l, s)) <==> positive)
  {
    hide Eval;
    NegateEval(l, s);
    if op.Eq? {
      HoldAllAppend([Constraint(l, false)], [Constraint(Negate(l), false)], s);
      HoldOne(Constraint(Negate(l), false), s);
      HoldOne(Constraint(l, false), s);
      assert AtomConstraints(op, l, positive) == [Constraint(l, false)] + [Constraint(Negate(l), false)];
    } else {
      HoldOne(AtomConstraints(op, l, positive)[0], s);
    }
  }

  lemma HoldOne(c: Constraint, s: Valuation)
    ensures HoldAll([c], s) <==> Holds(c, s)
  {
    hide Holds;
    assert c in [c];
  }

  lemma {:induction false} FixedMeans(atoms: seq<Formula>, values: seq<Kleene>, s: Valuation)
    requires |atoms| == |values|
    ensures Agrees(atoms, values, s) <==> HoldAll(Fixed(atoms, values), s) && NoneZero(Disequalities(atoms, values), s)
  {
    hide Eval, Holds, AtomConstraints;
    if atoms != [] {
      var n := |atoms| - 1;
      var a, v := atoms[n], values[n];
      FixedMeans(atoms[..n], values[..n], s);
      AgreesSnoc(atoms, values, s);
      var cs := if a.Atom? && v.Known? then AtomConstraints(a.op, a.linear, v.b) else [];
      var ds := if a.Atom? && v == Known(false) && a.op.Eq? then [a.linear] else [];
      HoldAllAppend(Fixed(atoms[..n], values[..n]), cs, s);
      assert NoneZero(Disequalities(atoms, values), s) <==> NoneZero(Disequalities(atoms[..n], values[..n]), s) && NoneZero(ds, s);
      LastAtomMeans(a, v, cs, ds, s);
    }
  }

  lemma AgreesSnoc(atoms: seq<Formula>, values: seq<Kleene>, s: Valuation)
    requires |atoms| == |values| > 0
    ensures var n := |atoms| - 1;
      Agrees(atoms, values, s) <==> Agrees(atoms[..n], values[..n], s) && AgreesAt(atoms[n], values[n], s)
  {
    hide AgreesAt;
    var n := |atoms| - 1;
    assert forall i :: 0 <= i < n ==> atoms[..n][i] == atoms[i] && values[..n][i] == values[i];
  }

  lemma LastAtomMeans(a: Formula, v: Kleene, cs: seq<Constraint>, ds: seq<Linear>, s: Valuation)
    requires cs == if a.Atom? && v.Known? then AtomConstraints(a.op, a.linear, v.b) else []
    requires ds == if a.Atom? && v == Known(false) && a.op.Eq? then [a.linear] else []
    ensures AgreesAt(a, v, s) <==> HoldAll(cs, s) && NoneZero(ds, s)
  {
    hide Eval;
    if a.Atom? && v.Known? {
      if a.op.Eq? && !v.b {
        assert a.linear in ds;
      } else {
        AtomConstraintsMean(a.op, a.linear, v.b, s);
      }
    }
  }

  ghost predicate SomeSetHolds(sets: seq<seq<Constraint>>, s: Valuation) {
    exists c :: c in sets && HoldAll(c, s)
  }

  lemma {:induction false} DoubledMeans(sets: seq<seq<Constraint>>, l: Linear, s: Valuation)
    ensures SomeSetHolds(Doubled(sets, l), s) <==> SomeSetHolds(sets, s) && Eval(l, s) != 0.0
  {
    hide Eval, HoldAll;
    if sets != [] {
      var n := |sets| - 1;
      DoubledMeans(sets[..n], l, s);
      var less, more := sets[n] + [Constraint(l, true)], sets[n] + [Constraint(Negate(l), true)];
      SplitMeans(sets[n], l, s);
      assert sets == sets[..n] + [sets[n]];
      SomeSetAppend(sets[..n], [sets[n]], s);
      SomeSetAppend(Doubled(sets[..n], l), [less, more], s);
      assert less in [less, more] && more in [less, more] && sets[n] in [sets[n]];
    }
  }

  lemma SomeSetAppend(a: seq<seq<Constraint>>, b: seq<seq<Constraint>>, s: Valuation)
    ensures SomeSetHolds(a + b, s) <==> SomeSetHolds(a, s) || SomeSetHolds(b, s)
  {
    hide HoldAll;
    assert forall c :: c in a + b <==> c in a || c in b;
  }

  lemma SplitMeans(set_: seq<Constraint>, l: Linear, s: Valuation)
    ensures HoldAll(set_ + [Constraint(l, true)], s) || HoldAll(set_ + [Constraint(Negate(l), true)], s)
      <==> HoldAll(set_, s) && Eval(l, s) != 0.0
  {
    hide Eval;
    var less, more := Constraint(l, true), Constraint(Negate(l), true);
    NegateEval(l, s);
    HoldAllAppend(set_, [less], s);
    HoldAllAppend(set_, [more], s);
    assert HoldAll([less], s) <==> Holds(less, s) by { assert less in [less]; }
    assert HoldAll([more], s) <==> Holds(more, s) by { assert more in [more]; }
  }

  lemma {:induction false} SplitSetsMean(sets: seq<seq<Constraint>>, ls: seq<Linear>, s: Valuation)
    ensures SomeSetHolds(SplitSets(sets, ls), s) <==> SomeSetHolds(sets, s) && NoneZero(ls, s)
    decreases |ls|
  {
    hide Eval, HoldAll, Doubled;
    if ls != [] {
      DoubledMeans(sets, ls[0], s);
      SplitSetsMean(Doubled(sets, ls[0]), ls[1..], s);
      assert ls == [ls[0]] + ls[1..];
    }
  }

  /** Some constraint set holds at a point exactly when every arithmetic atom has its assigned truth
      value there: a false equality becomes two sets, everything else one. */
  lemma ConstraintSetsMean(atoms: seq<Formula>, values: seq<Kleene>, s: Valuation)
    requires |atoms| == |values|
    ensures SomeSetHolds(ConstraintSets(atoms, values), s) <==> Agrees(atoms, values, s)
  {
    hide Eval, HoldAll, SplitSets, Fixed, Disequalities;
    FixedMeans(atoms, values, s);
    var base := Fixed(atoms, values);
    SplitSetsMean([base], Disequalities(atoms, values), s);
    assert base in [base];
  }

  // ---- exactness ----------------------------------------------------------------------------------------------

  lemma {:induction false} TrySetsSound(sets: seq<seq<Constraint>>, budget: nat, s: Valuation)
    requires SomeSetHolds(sets, s)
    ensures TrySets(sets, budget) != No
  {
    hide HoldAll, Decide, OverBudget;
    var c :| c in sets && HoldAll(c, s);
    if sets[0] == c {
      SatisfiableExact(c, budget);
    } else {
      assert c in sets[1..];
      TrySetsSound(sets[1..], budget, s);
    }
  }

  lemma {:induction false} TrySetsComplete(sets: seq<seq<Constraint>>, budget: nat) returns (s: Valuation)
    requires TrySets(sets, budget) == Yes
    ensures RationalPoint(s) && SomeSetHolds(sets, s)
  {
    hide HoldAll, Decide, RationalPoint, OverBudget;
    if Decide(sets[0], Variables(sets[0]), budget) == Yes {
      SatisfiableExact(sets[0], budget);
      s := PointOf(sets[0]);
      assert sets[0] in sets;
    } else {
      s := TrySetsComplete(sets[1..], budget);
      var c :| c in sets[1..] && HoldAll(c, s);
      assert c in sets;
    }
  }

  lemma PointOf(cs: seq<Constraint>) returns (s: Valuation)
    requires Satisfied(cs)
    ensures RationalPoint(s) && HoldAll(cs, s)
  {
    s :| RationalPoint(s) && HoldAll(cs, s);
  }

  /** Known up to the index, open from there on. */
  ghost predicate Reached(values: seq<Kleene>, index: nat) {
    (forall i :: 0 <= i < |values| && i < index ==> values[i].Known?)
    && forall i :: index <= i < |values| ==> values[i].Undefined?
  }

  lemma LeafSound(u: set<Formula>, f: Formula, atoms: seq<Formula>, values: seq<Kleene>, budget: nat, m: Interp)
    requires |atoms| == |values| && Among(atoms, u) && Within(f, u) && Covers(f, atoms)
    requires Reached(values, |atoms|) && Consistent(atoms, values, m) && Models(f, m)
    ensures Leaf(f, atoms, values, budget) != No
  {
    hide Within, Covers, TrySets, ConstraintSets, Evaluate, TooManySplits;
    EvaluateTotal(u, f, atoms, values);
    EvaluateSound(u, f, atoms, values, m);
    ConstraintSetsMean(atoms, values, m.num);
    if !TooManySplits(atoms, values) {
      TrySetsSound(ConstraintSets(atoms, values), budget, m.num);
    }
  }

  /** No is never wrong: a model of the formula keeps the search from answering No. */
  lemma {:induction false} SearchSound(u: set<Formula>, f: Formula, atoms: seq<Formula>, values: seq<Kleene>, index: nat,
                                       budget: nat, m: Interp)
    requires |atoms| == |values| && index <= |atoms| && Among(atoms, u) && Within(f, u) && Covers(f, atoms)
    requires Reached(values, index) && Consistent(atoms, values, m) && Models(f, m)
    ensures Search(f, atoms, values, index, budget) != No
    decreases |atoms| - index
  {
    hide Models, Within, Covers, Leaf, Evaluate, Among;
    EvaluateSound(u, f, atoms, values, m);
    if index == |atoms| {
      LeafSound(u, f, atoms, values, budget, m);
    } else {
      SearchSound(u, f, atoms, values[index := Known(Models(atoms[index], m))], index + 1, budget, m);
    }
  }

  ghost function ModelFrom(atoms: seq<Formula>, values: seq<Kleene>, s: Valuation): Interp
    requires |atoms| == |values|
  {
    Interp(s, key => Lookup(BoolAtom(key), atoms, values) == Known(true))
  }

  lemma ModelFromConsistent(u: set<Formula>, atoms: seq<Formula>, values: seq<Kleene>, s: Valuation)
    requires |atoms| == |values| && Among(atoms, u) && Distinct(atoms) && Agrees(atoms, values, s)
    ensures Consistent(atoms, values, ModelFrom(atoms, values, s))
  {
    hide Eval, Lookup;
    var m := ModelFrom(atoms, values, s);
    forall i | 0 <= i < |atoms| && values[i].Known? ensures Models(atoms[i], m) <==> values[i].b {
      assert atoms[i] in atoms;
      if atoms[i].BoolAtom? {
        LookupFound(u, atoms[i], atoms, values);
      }
    }
  }

  /** Yes is never wrong: it comes with a model, rational in every variable. */
  lemma {:induction false} SearchComplete(u: set<Formula>, f: Formula, atoms: seq<Formula>, values: seq<Kleene>, index: nat,
                                          budget: nat) returns (m: Interp)
    requires |atoms| == |values| && index <= |atoms| && Among(atoms, u) && Distinct(atoms) && Within(f, u)
    requires Search(f, atoms, values, index, budget) == Yes
    ensures RationalPoint(m.num) && Models(f, m)
    decreases |atoms| - index
  {
    hide Models, Within, Evaluate, Among, Distinct, RationalPoint, TrySets, ConstraintSets, TooManySplits;
    if index == |atoms| {
      var s := TrySetsComplete(ConstraintSets(atoms, values), budget);
      ConstraintSetsMean(atoms, values, s);
      m := ModelFrom(atoms, values, s);
      ModelFromConsistent(u, atoms, values, s);
      EvaluateSound(u, f, atoms, values, m);
    } else if Search(f, atoms, values[index := Known(true)], index + 1, budget) == Yes {
      m := SearchComplete(u, f, atoms, values[index := Known(true)], index + 1, budget);
    } else {
      m := SearchComplete(u, f, atoms, values[index := Known(false)], index + 1, budget);
    }
  }

  /** The solver is exact on formulas no two of whose atoms print alike: No means no model at all, over the
      reals and the booleans; Yes means a rational model. */
  lemma IsSatisfiableExact(f: Formula, maxAtoms: nat, budget: nat)
    requires Unambiguous(f)
    ensures IsSatisfiable(f, maxAtoms, budget) == No ==> forall m :: !Models(f, m)
    ensures IsSatisfiable(f, maxAtoms, budget) == Yes ==> exists m: Interp :: RationalPoint(m.num) && Models(f, m)
  {
    hide Models, Within, Search, RationalPoint, AtomsIn;
    var u := AtomsIn(f);
    WithinAtoms(f, u);
    CollectAtomsCovers(u, f, []);
    var atoms := CollectAtoms(f, []);
    if IsSatisfiable(f, maxAtoms, budget) == No {
      forall m ensures !Models(f, m) {
        if Models(f, m) {
          SearchSound(u, f, atoms, Unset(|atoms|), 0, budget, m);
        }
      }
    } else if IsSatisfiable(f, maxAtoms, budget) == Yes {
      var m := SearchComplete(u, f, atoms, Unset(|atoms|), 0, budget);
    }
  }

  lemma NegatedAtoms(f: Formula)
    ensures AtomsIn(Negated(f)) == AtomsIn(f)
  {
  }

  /** "When it says proved, it holds for every input", and a refutation has a counterexample. */
  lemma IsValidExact(f: Formula, maxAtoms: nat, budget: nat)
    requires Unambiguous(f)
    ensures IsValid(f, maxAtoms, budget) == Yes ==> forall m :: Models(f, m)
    ensures IsValid(f, maxAtoms, budget) == No ==> exists m: Interp :: RationalPoint(m.num) && !Models(f, m)
  {
    hide Models, IsSatisfiable, RationalPoint, Apart, Negated;
    NegatedAtoms(f);
    IsSatisfiableExact(Negated(f), maxAtoms, budget);
    if IsValid(f, maxAtoms, budget) == Yes {
      forall m ensures Models(f, m) { NegatedMeans(f, m); }
    } else if IsValid(f, maxAtoms, budget) == No {
      var m: Interp :| RationalPoint(m.num) && Models(Negated(f), m);
      NegatedMeans(f, m);
    }
  }

  // ---- when it does not know -------------------------------------------------------------------------------------

  ghost predicate GivesUp(atoms: seq<Formula>, values: seq<Kleene>, budget: nat)
    requires |atoms| == |values|
  {
    TooManySplits(atoms, values)
    || exists cs :: cs in ConstraintSets(atoms, values) && OverBudget(cs, Variables(cs), budget)
  }

  lemma {:induction false} TrySetsUnknown(sets: seq<seq<Constraint>>, budget: nat)
    requires TrySets(sets, budget) == Unknown
    ensures exists cs :: cs in sets && OverBudget(cs, Variables(cs), budget)
  {
    hide Decide, OverBudget, Variables, Satisfied, HoldAll;
    var cs := sets[0];
    SatisfiableExact(cs, budget);
    if Decide(cs, Variables(cs), budget) != Unknown {
      TrySetsUnknown(sets[1..], budget);
      var d :| d in sets[1..] && OverBudget(d, Variables(d), budget);
      assert d in sets;
    } else {
      assert cs in sets;
    }
  }

  /** Unknown always has a complete assignment behind it that meets one of the two limits. */
  lemma {:induction false} SearchUnknown(f: Formula, atoms: seq<Formula>, values: seq<Kleene>, index: nat, budget: nat)
    requires |atoms| == |values| && index <= |atoms| && Search(f, atoms, values, index, budget) == Unknown
    ensures exists v :: |v| == |atoms| && GivesUp(atoms, v, budget)
    decreases |atoms| - index
  {
    hide Evaluate, TrySets, ConstraintSets, OverBudget, TooManySplits, GivesUp;
    if index == |atoms| {
      LeafUnknown(f, atoms, values, budget);
    } else if Search(f, atoms, values[index := Known(true)], index + 1, budget) == Unknown {
      SearchUnknown(f, atoms, values[index := Known(true)], index + 1, budget);
    } else {
      SearchUnknown(f, atoms, values[index := Known(false)], index + 1, budget);
    }
  }

  lemma LeafUnknown(f: Formula, atoms: seq<Formula>, values: seq<Kleene>, budget: nat)
    requires |atoms| == |values| && Leaf(f, atoms, values, budget) == Unknown
    ensures GivesUp(atoms, values, budget)
  {
    hide Evaluate, ConstraintSets, OverBudget, TooManySplits;
    if !TooManySplits(atoms, values) {
      TrySetsUnknown(ConstraintSets(atoms, values), budget);
    }
  }

  /** The third answer comes from a limit: too many atoms, too many disequalities in one assignment, or
      an elimination past the budget. */
  lemma IsSatisfiableUnknown(f: Formula, maxAtoms: nat, budget: nat)
    requires IsSatisfiable(f, maxAtoms, budget) == Unknown
    ensures var atoms := CollectAtoms(f, []);
      |atoms| > maxAtoms || exists v :: |v| == |atoms| && GivesUp(atoms, v, budget)
  {
    hide Search, GivesUp;
    var atoms := CollectAtoms(f, []);
    if |atoms| <= maxAtoms {
      SearchUnknown(f, atoms, Unset(|atoms|), 0, budget);
    }
  }

  // ---- when it does know ------------------------------------------------------------------------------------------

  /** The variables of the arithmetic atoms. */
  ghost function VarsIn(atoms: set<Formula>): set<string> {
    set a, v | a in atoms && a.Atom? && v in Vars(a.linear) :: v
  }

  /** Every variable of every constraint is one of the names. */
  ghost predicate Uses(cs: seq<Constraint>, names: set<string>) {
    AllMention(cs, iset v | v in names)
  }

  lemma AtomUses(a: Formula, v: bool, names: set<string>)
    requires a.Atom? && Vars(a.linear) <= names
    ensures Uses(AtomConstraints(a.op, a.linear, v), names) && |AtomConstraints(a.op, a.linear, v)| <= 2
    ensures Uses([Constraint(a.linear, true)], names) && Uses([Constraint(Negate(a.linear), true)], names)
  {
    hide Negate, Sub, Add, Mul, Neg;
    forall t | t in a.linear.coeffs ensures t.v in names {
      assert t.v in Vars(a.linear);
    }
    NegateNames(a.linear, names);
  }

  lemma NegateNames(l: Linear, names: set<string>)
    requires Mentions(l, iset v | v in names)
    ensures Mentions(Negate(l), iset v | v in names)
  {
    hide Mentions;
    OperationsMention(l, l, One(), iset v | v in names);
  }

  lemma {:induction false} FixedUses(atoms: seq<Formula>, values: seq<Kleene>, names: set<string>)
    requires |atoms| == |values| && forall a :: a in atoms && a.Atom? ==> Vars(a.linear) <= names
    ensures Uses(Fixed(atoms, values), names) && |Fixed(atoms, values)| <= 2 * |atoms|
    ensures |Disequalities(atoms, values)| <= |atoms|
    ensures forall l :: l in Disequalities(atoms, values) ==>
      Uses([Constraint(l, true)], names) && Uses([Constraint(Negate(l), true)], names)
  {
    hide AtomConstraints, Negate, Vars;
    if atoms != [] {
      var n := |atoms| - 1;
      FixedUses(atoms[..n], values[..n], names);
      if atoms[n].Atom? && values[n].Known? {
        assert atoms[n] in atoms;
        AtomUses(atoms[n], values[n].b, names);
      }
    }
  }

  ghost predicate Small(sets: seq<seq<Constraint>>, names: set<string>, n: nat) {
    forall cs :: cs in sets ==> Uses(cs, names) && |cs| <= n
  }

  lemma {:induction false} DoubledSmall(sets: seq<seq<Constraint>>, l: Linear, names: set<string>, n: nat)
    requires Small(sets, names, n) && Uses([Constraint(l, true)], names) && Uses([Constraint(Negate(l), true)], names)
    ensures Small(Doubled(sets, l), names, n + 1)
  {
    hide Negate;
    if sets != [] {
      var k := |sets| - 1;
      DoubledSmall(sets[..k], l, names, n);
      assert sets[k] in sets;
    }
  }

  lemma {:induction false} SplitSmall(sets: seq<seq<Constraint>>, ls: seq<Linear>, names: set<string>, n: nat)
    requires Small(sets, names, n)
    requires forall l :: l in ls ==> Uses([Constraint(l, true)], names) && Uses([Constraint(Negate(l), true)], names)
    ensures Small(SplitSets(sets, ls), names, n + |ls|)
    decreases |ls|
  {
    hide Negate, Small, Uses, Doubled;
    if ls != [] {
      DoubledSmall(sets, ls[0], names, n);
      SplitSmall(Doubled(sets, ls[0]), ls[1..], names, n + 1);
    }
  }

  lemma SetsSmall(atoms: seq<Formula>, values: seq<Kleene>, names: set<string>)
    requires |atoms| == |values| && forall a :: a in atoms && a.Atom? ==> Vars(a.linear) <= names
    ensures Small(ConstraintSets(atoms, values), names, 3 * |atoms|)
  {
    hide Negate, Uses, SplitSets, Fixed, Disequalities, Vars;
    FixedUses(atoms, values, names);
    SplitSmall([Fixed(atoms, values)], Disequalities(atoms, values), names, 2 * |atoms|);
  }

  lemma {:induction false} CollectedWithin(f: Formula, out: seq<Formula>)
    requires Distinct(out)
    ensures Distinct(CollectAtoms(f, out)) && forall a :: a in CollectAtoms(f, out) ==> a in out || a in AtomsIn(f)
    decreases f, 0
  {
    match f
    case Atom(_, _) => ListedIfMember(f, out);
    case BoolAtom(_) => ListedIfMember(f, out);
    case Not(g) => CollectedWithin(g, out);
    case And(parts) => CollectedAllWithin(parts, out);
    case Or(parts) => CollectedAllWithin(parts, out);
    case _ =>
  }

  lemma ListedIfMember(a: Formula, atoms: seq<Formula>)
    requires IsAtom(a)
    ensures a in atoms ==> Listed(a, atoms)
  {
    hide LinearText;
  }

  lemma {:induction false} CollectedAllWithin(parts: seq<Formula>, out: seq<Formula>)
    requires Distinct(out)
    ensures Distinct(CollectParts(parts, out))
    ensures forall a :: a in CollectParts(parts, out) ==> a in out || a in AtomsInAll(parts)
    decreases parts, 1
  {
    hide Distinct;
    if parts != [] {
      CollectedWithin(parts[0], out);
      CollectedAllWithin(parts[1..], CollectAtoms(parts[0], out));
    }
  }

  lemma {:induction false} DistinctCount(atoms: seq<Formula>, all: set<Formula>)
    requires Distinct(atoms) && forall a :: a in atoms ==> a in all
    ensures |atoms| <= |all|
  {
    if atoms != [] {
      var last := atoms[|atoms| - 1];
      DistinctCount(atoms[..|atoms| - 1], all - {last});
    }
  }

  /** With few enough atoms and that much room the solver decides: no answer but the exact one is left. */
  lemma IsSatisfiableDecides(f: Formula, maxAtoms: nat, budget: nat)
    requires |AtomsIn(f)| <= maxAtoms && |AtomsIn(f)| <= MAX_DISEQUALITIES
    requires Room(3 * |AtomsIn(f)|, |VarsIn(AtomsIn(f))|) <= budget
    ensures IsSatisfiable(f, maxAtoms, budget) != Unknown
  {
    hide AtomsIn, Vars, Search, GivesUp, CollectAtoms, Room;
    var atoms, names := CollectAtoms(f, []), VarsIn(AtomsIn(f));
    CollectedWithin(f, []);
    DistinctCount(atoms, AtomsIn(f));
    if IsSatisfiable(f, maxAtoms, budget) == Unknown {
      IsSatisfiableUnknown(f, maxAtoms, budget);
      var v :| |v| == |atoms| && GivesUp(atoms, v, budget);
      AtomNames(atoms, AtomsIn(f));
      NeverGivesUp(atoms, v, names, |AtomsIn(f)|, budget);
    }
  }

  lemma AtomNames(atoms: seq<Formula>, all: set<Formula>)
    requires forall a :: a in atoms ==> a in all
    ensures forall a :: a in atoms && a.Atom? ==> Vars(a.linear) <= VarsIn(all)
  {
    hide Vars;
  }

  lemma NeverGivesUp(atoms: seq<Formula>, values: seq<Kleene>, names: set<string>, n: nat, budget: nat)
    requires |atoms| == |values| && |atoms| <= n <= MAX_DISEQUALITIES
    requires forall a :: a in atoms && a.Atom? ==> Vars(a.linear) <= names
    requires Room(3 * n, |names|) <= budget
    ensures !GivesUp(atoms, values, budget)
  {
    hide Vars, Room, OverBudget, ConstraintSets, Disequalities, Variables, Decide, Satisfied, HoldAll, AllMention;
    FixedUses(atoms, values, names);
    SetsSmall(atoms, values, names);
    forall cs | cs in ConstraintSets(atoms, values) ensures !OverBudget(cs, Variables(cs), budget) {
      SatisfiableDecides(cs, names, 3 * n, budget);
      SatisfiableExact(cs, budget);
    }
  }

  /** So what holds in every model is proved, given the room. */
  lemma IsValidDecides(f: Formula, maxAtoms: nat, budget: nat)
    requires Unambiguous(f) && |AtomsIn(f)| <= maxAtoms && |AtomsIn(f)| <= MAX_DISEQUALITIES
    requires Room(3 * |AtomsIn(f)|, |VarsIn(AtomsIn(f))|) <= budget
    ensures IsValid(f, maxAtoms, budget) == Yes <==> forall m :: Models(f, m)
    ensures IsValid(f, maxAtoms, budget) != Unknown
  {
    hide Models, IsSatisfiable, RationalPoint, Apart, Negated, AtomsIn, Room;
    NegatedAtoms(f);
    IsSatisfiableDecides(Negated(f), maxAtoms, budget);
    IsValidExact(f, maxAtoms, budget);
  }

  lemma {:induction false} OverAtoms(f: Formula, names: set<string>)
    requires Over(f, iset v | v in names)
    ensures VarsIn(AtomsIn(f)) <= names
    decreases f, 0
  {
    match f
    case Atom(_, l) =>
      forall v | v in VarsIn(AtomsIn(f)) ensures v in names {
        assert v in Vars(l);
        var i :| 0 <= i < |l.coeffs| && l.coeffs[i].v == v;
        assert l.coeffs[i] in l.coeffs;
      }
    case Not(g) => OverAtoms(g, names);
    case And(parts) => OverAtomsAll(parts, names);
    case Or(parts) => OverAtomsAll(parts, names);
    case _ =>
  }

  lemma {:induction false} OverAtomsAll(parts: seq<Formula>, names: set<string>)
    requires forall i :: 0 <= i < |parts| ==> Over(parts[i], iset v | v in names)
    ensures VarsIn(AtomsInAll(parts)) <= names
    decreases parts, 1
  {
    hide Over, Vars;
    if parts != [] {
      OverAtoms(parts[0], names);
      assert forall i :: 0 <= i < |parts[1..]| ==> parts[1..][i] == parts[i + 1];
      OverAtomsAll(parts[1..], names);
    }
  }

  // ---- why atoms must not print alike --------------------------------------------------------------------------------------

  function SumXY(): Linear {
    Sum([Term("x", Ratio(1, 1)), Term("y", Ratio(1, 1))], Ratio(0, 1))
  }

  function Spaced(): Linear {
    Sum([Term("x + 1*y", Ratio(1, 1))], Ratio(0, 1))
  }

  lemma UnitText()
    ensures RatText(Ratio(1, 1)) == "1"
  {
    assert IntText(1) == Digits(1) == "1";
  }

  /** Two atoms that print alike and can be told apart make a formula with a model for which the solver
      finds none, so that its negation counts as proved. */
  lemma CollisionUnsound(a: Formula, b: Formula, m: Interp, maxAtoms: nat, budget: nat)
    requires IsAtom(a) && IsAtom(b) && SameAtom(a, b) && Models(a, m) && !Models(b, m) && maxAtoms >= 1
    ensures var f := And([a, Not(b)]);
      && Models(f, m) && IsSatisfiable(f, maxAtoms, budget) == No
      && IsValid(Not(f), maxAtoms, budget) == Yes
    ensures !Unambiguous(And([a, Not(b)]))
  {
    hide LinearText, SameAtom, CollectAtoms, Evaluate, Search, AtomsIn;
    var f := And([a, Not(b)]);
    TakenForOne(a, b);
    BothIn(a, b);
    BothWays(a, b, true);
    BothWays(a, b, false);
    BothRefused(f, a, budget);
    assert [a, Not(b)][0] == a && [a, Not(b)][1] == Not(b);
  }

  lemma TakenForOne(a: Formula, b: Formula)
    requires IsAtom(a) && IsAtom(b) && SameAtom(a, b)
    ensures CollectAtoms(And([a, Not(b)]), []) == [a]
  {
    hide LinearText;
    var parts := [a, Not(b)];
    var none: seq<Formula> := [];
    assert parts[1..] == [Not(b)] && [Not(b)][1..] == [];
    assert CollectAtoms(a, none) == [a] by { assert !Listed(a, none) && none + [a] == [a]; }
    assert CollectAtoms(Not(b), [a]) == CollectAtoms(b, [a]) == [a] by { assert SameAtom([a][0], b); }
    assert CollectParts([Not(b)], [a]) == CollectParts([], [a]) == [a];
    assert CollectAtoms(And(parts), none) == CollectParts(parts, none) == [a];
  }

  /** One atom, and the formula false whichever way it is taken. */
  lemma BothRefused(f: Formula, a: Formula, budget: nat)
    requires forall guess :: Evaluate(f, [a], [Known(guess)]) == Known(false)
    ensures Search(f, [a], Unset(1), 0, budget) == No
  {
    hide Evaluate;
    assert Unset(1)[0 := Known(true)] == [Known(true)] && Unset(1)[0 := Known(false)] == [Known(false)];
    assert Search(f, [a], [Known(true)], 1, budget) == No;
    assert Search(f, [a], [Known(false)], 1, budget) == No;
  }

  lemma BothIn(a: Formula, b: Formula)
    requires IsAtom(a) && IsAtom(b)
    ensures a in AtomsIn(And([a, Not(b)])) && b in AtomsIn(And([a, Not(b)]))
  {
    var parts := [a, Not(b)];
    assert parts[1..] == [Not(b)] && AtomsIn(Not(b)) == {b};
    assert AtomsInAll([Not(b)]) == AtomsIn(Not(b)) + AtomsInAll([]);
    assert AtomsInAll(parts) == {a} + {b};
  }

  lemma BothWays(a: Formula, b: Formula, guess: bool)
    requires IsAtom(a) && IsAtom(b) && SameAtom(a, b)
    ensures Evaluate(And([a, Not(b)]), [a], [Known(guess)]) == Known(false)
  {
    hide LinearText;
    var parts := [a, Not(b)];
    assert parts[1..] == [Not(b)] && [Not(b)][1..] == [];
    assert Evaluate(a, [a], [Known(guess)]) == Known(guess);
    assert Evaluate(b, [a], [Known(guess)]) == Known(guess);
    assert Evaluate(Not(b), [a], [Known(guess)]) == Known(!guess);
    assert EvaluateParts([Not(b)], false, [a], [Known(guess)]) == Known(!guess);
    assert EvaluateParts(parts, false, [a], [Known(guess)]) == Known(false);
  }

  /** And there are such atoms: a name that contains " + 1*" reads as two terms. The solver finds no model
      of `x + y <= 0 and not z <= 0` when z is called "x + 1*y". */
  lemma SpacedNamesCollide(maxAtoms: nat, budget: nat)
    requires maxAtoms >= 1
    ensures var f := And([Atom(Le, SumXY()), Not(Atom(Le, Spaced()))]);
      && IsSatisfiable(f, maxAtoms, budget) == No
      && exists m :: Models(f, m)
  {
    hide LinearText, SumXY, Spaced, IsSatisfiable, Eval;
    SpacedText();
    SpacedValues();
    var s: Valuation :| AtomHolds(Le, Eval(SumXY(), s)) && !AtomHolds(Le, Eval(Spaced(), s));
    CollisionUnsound(Atom(Le, SumXY()), Atom(Le, Spaced()), Interp(s, _ => false), maxAtoms, budget);
  }

  lemma SpacedText()
    ensures LinearText(SumXY()) == LinearText(Spaced()) == "1*x + 1*y"
  {
    UnitTerm("x");
    UnitTerm("y");
    UnitTerm("x + 1*y");
    var p := Parts(SumXY());
    assert |p| == 2 && p[0] == "1*x" && p[1] == "1*y" && p[1..] == [p[1]];
    assert JoinPlus(p) == p[0] + " + " + p[1];
    var q := Parts(Spaced());
    assert |q| == 1 && q[0] == "1*x + 1*y";
  }

  lemma UnitTerm(name: string)
    ensures TermText(Term(name, Ratio(1, 1))) == "1*" + name
  {
    UnitText();
  }

  lemma SpacedValues()
    ensures exists s: Valuation :: AtomHolds(Le, Eval(SumXY(), s)) && !AtomHolds(Le, Eval(Spaced(), s))
  {
    hide Eval, SumXY, Spaced;
    var s: Valuation := v => if v == "x + 1*y" then 1.0 else 0.0;
    SumXYEval(s);
    SpacedEval(s);
    assert |"x"| != |"x + 1*y"| && |"y"| != |"x + 1*y"|;
    assert AtomHolds(Le, Eval(SumXY(), s)) && !AtomHolds(Le, Eval(Spaced(), s));
  }

  lemma SumXYEval(s: Valuation)
    ensures Eval(SumXY(), s) == s("x") + s("y")
  {
    hide Val, Prod;
    EvalCons(Term("x", Ratio(1, 1)), [Term("y", Ratio(1, 1))], s);
    assert SumXY().coeffs == [Term("x", Ratio(1, 1))] + [Term("y", Ratio(1, 1))];
    UnitTermEval("y", s);
    UnitTermProd("x", s);
    ZeroConstant();
  }

  lemma SpacedEval(s: Valuation)
    ensures Eval(Spaced(), s) == s("x + 1*y")
  {
    hide Val, Prod;
    UnitTermEval("x + 1*y", s);
    ZeroConstant();
  }

  lemma ZeroConstant()
    ensures Val(Ratio(0, 1)) == 0.0
  {
  }

  lemma UnitTermProd(name: string, s: Valuation)
    ensures Prod(Val(Ratio(1, 1)), s(name)) == s(name)
  {
    OneTimes(s(name));
  }

  lemma UnitTermEval(name: string, s: Valuation)
    ensures EvalTerms([Term(name, Ratio(1, 1))], s) == s(name)
  {
    hide Val, Prod;
    var t := Term(name, Ratio(1, 1));
    assert [t] + [] == [t];
    EvalCons(t, [], s);
    UnitTermProd(name, s);
  }

  // ---- the loops and the backtracking of the source ------------------------------------------------------------------

  method ConstraintSetsOf(atoms: seq<Formula>, values: array<Kleene>) returns (tooMany: bool, sets: seq<seq<Constraint>>)
    requires values.Length == |atoms|
    ensures tooMany == TooManySplits(atoms, values[..])
    ensures !tooMany ==> sets == ConstraintSets(atoms, values[..])
  {
    var base, disequalities := ReadAssignment(atoms, values);
    if |disequalities| > MAX_DISEQUALITIES { return true, []; }
    tooMany, sets := false, [base];
    for k := 0 to |disequalities|
      invariant SplitSets(sets, disequalities[k..]) == SplitSets([base], disequalities)
    {
      assert disequalities[k..][0] == disequalities[k] && disequalities[k..][1..] == disequalities[k + 1..];
      sets := SplitOn(sets, disequalities[k]);
    }
  }

  method ReadAssignment(atoms: seq<Formula>, values: array<Kleene>)
    returns (base: seq<Constraint>, disequalities: seq<Linear>)
    requires values.Length == |atoms|
    ensures base == Fixed(atoms, values[..]) && disequalities == Disequalities(atoms, values[..])
  {
    base, disequalities := [], [];
    for i := 0 to |atoms|
      invariant base == Fixed(atoms[..i], values[..i]) && disequalities == Disequalities(atoms[..i], values[..i])
    {
      assert atoms[..i + 1][..i] == atoms[..i] && values[..i + 1][..i] == values[..i];
      var a := atoms[i];
      if a.Atom? && values[i].Known? {
        base := base + AtomConstraints(a.op, a.linear, values[i].b);
        if a.op.Eq? && !values[i].b {
          disequalities := disequalities + [a.linear];
        }
      }
    }
    assert atoms[..|atoms|] == atoms && values[..|atoms|] == values[..];
  }

  method SplitOn(sets: seq<seq<Constraint>>, l: Linear) returns (next: seq<seq<Constraint>>)
    ensures next == Doubled(sets, l)
  {
    next := [];
    for i := 0 to |sets|
      invariant next == Doubled(sets[..i], l)
    {
      TakeNext(sets, i);
      next := next + [sets[i] + [Constraint(l, true)], sets[i] + [Constraint(Negate(l), true)]];
    }
    assert sets[..|sets|] == sets;
  }

  method TrySetsInOrder(sets: seq<seq<Constraint>>, budget: nat) returns (r: Answer)
    ensures r == TrySets(sets, budget)
  {
    hide Decide, OverBudget, Satisfied, HoldAll;
    var sawUnknown := false;
    for i := 0 to |sets|
      invariant TrySets(sets, budget) == (
        if TrySets(sets[i..], budget) == No && sawUnknown then Unknown else TrySets(sets[i..], budget))
    {
      assert sets[i..][0] == sets[i] && sets[i..][1..] == sets[i + 1..];
      var result := Satisfiable(sets[i], budget);
      if result == Yes { return Yes; }
      if result == Unknown { sawUnknown := true; }
    }
    return if sawUnknown then Unknown else No;
  }

  /** One level of the search: the guess is written into the shared array, and taken back on the way out
      whatever the answer. */
  method SearchInPlace(f: Formula, atoms: seq<Formula>, values: array<Kleene>, index: nat, budget: nat)
    returns (r: Answer)
    requires values.Length == |atoms| && index <= |atoms| && Reached(values[..], index)
    modifies values
    ensures values[..] == old(values[..])
    ensures r == Search(f, atoms, values[..], index, budget)
    decreases |atoms| - index
  {
    ghost var before := values[..];
    var shape := Evaluate(f, atoms, values[..]);
    if shape == Known(false) { return No; }
    if index == |atoms| {
      if shape != Known(true) { return No; }
      var tooMany, sets := ConstraintSetsOf(atoms, values);
      if tooMany { return Unknown; }
      r := TrySetsInOrder(sets, budget);
      return;
    }
    values[index] := Known(true);
    assert values[..] == before[index := Known(true)];
    r := SearchInPlace(f, atoms, values, index + 1, budget);
    values[index] := Undefined;
    assert values[..] == before;
    if r != No { return; }
    values[index] := Known(false);
    assert values[..] == before[index := Known(false)];
    r := SearchInPlace(f, atoms, values, index + 1, budget);
    values[index] := Undefined;
    assert values[..] == before;
  }

  method IsSatisfiableInPlace(f: Formula, maxAtoms: nat, budget: nat) returns (r: Answer)
    ensures r == IsSatisfiable(f, maxAtoms, budget)
  {
    var atoms := CollectAtoms(f, []);
    if |atoms| > maxAtoms { return Unknown; }
    var values := new Kleene[|atoms|](_ => Undefined);
    assert values[..] == Unset(|atoms|);
    r := SearchInPlace(f, atoms, values, 0, budget);
  }
}
